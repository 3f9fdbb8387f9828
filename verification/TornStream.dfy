/** What a message that was torn when a link was added does to the stream of that link. */
module TornStream {
  import opened Words
  import opened Packets
  import opened Receiver
  import opened SessionBuffer
  import opened SessionSteps
  import opened SessionFragments
  import opened StreamLimits

  /** What arrives under the first numbers are these packets; anything may arrive under the others. */
  predicate Carries(payloads: seq<Bytes>, e: Event) {
    e.Arrival? && e.seqNr < |payloads| ==>
      |payloads[e.seqNr]| >= 2 && e.flags == payloads[e.seqNr][1] && e.tail == payloads[e.seqNr][2..]
  }

  /** For every message of two fragments and every message of one fragment there is a run from the
      start in which they are torn apart on a link that becomes a member; and then, whatever arrives
      there and however often the jobs drain, nothing is ever handed over on that channel. */
  lemma TornStreamIsStuck(alive: set<LinkId>, x: seq<Bytes>, y: seq<Bytes>, a: LinkId, c: Channel,
                          mode: IdMode, events: seq<Event>)
    returns (run: seq<Step>)
    requires a in alive && ShapedMessage(x, RELIABLE_SEND) && ShapedMessage(y, RELIABLE_SEND) && |x| == 2 && |y| == 1
    ensures Legal(alive, run) && Member(Exec(alive, run).session, a)
    ensures var payloads := Payloads(Box(Exec(alive, run).session.out, a, c));
      && payloads == [x[0], y[0], x[1]]
      && ((forall i :: 0 <= i < |events| ==> Carries(payloads, events[i])) ==> RunEvents(mode, events).handled == [])
  {
    run := TornRun(alive, x, y, a, c);
    var box := Box(Exec(alive, run).session.out, a, c);
    assert box == [PacketsOf(0, x)[0], PacketsOf(1, y)[0], PacketsOf(0, x)[1]];
    assert Payloads(box) == [x[0], y[0], x[1]];
    if forall i :: 0 <= i < |events| ==> Carries(Payloads(box), events[i]) {
      forall i | 0 <= i < |events|
        ensures TornStart(events[i])
      {
        StartsTorn(x, y, events[i]);
      }
      TornMessageWedges(mode, events);
    }
  }

  lemma StartsTorn(x: seq<Bytes>, y: seq<Bytes>, e: Event)
    requires ShapedMessage(x, RELIABLE_SEND) && ShapedMessage(y, RELIABLE_SEND) && |x| == 2 && |y| == 1
    requires Carries([x[0], y[0], x[1]], e)
    ensures TornStart(e)
  {
    assert ShapedFragment(x[0], RELIABLE_SEND, true, false);
    assert ShapedFragment(y[0], RELIABLE_SEND, true, true);
  }
}
