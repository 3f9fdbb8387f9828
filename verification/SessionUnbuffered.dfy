/** Sends that are not buffered: whom they reach, in every run of a session's operations. */
module SessionUnbuffered {
  import opened Words
  import opened SessionBuffer
  import opened SessionSteps

  /** sendReliable without buffering is one step, and leaves every channel's buffer as it was. */
  lemma SendUnbufferedAlone(alive: set<LinkId>, run: seq<Step>, fragments: seq<Bytes>, exclude: Option<LinkId>, ch: Channel)
    requires Legal(alive, run)
    ensures var longer := run + [SendOnly(fragments, exclude, ch)];
      && Legal(alive, longer)
      && var s, s' := Exec(alive, run), Exec(alive, longer);
         && s'.session == SendReliable(s.session, PacketsOf(s.next, fragments), exclude, false, ch)
         && s'.session.buffered == s.session.buffered && s'.walks == s.walks && s'.joining == s.joining
  {
    Then(alive, run, SendOnly(fragments, exclude, ch));
  }

  /** The packets of one send among some packets, in order. */
  function OfSend(ps: seq<Packet>, msg: nat): seq<Packet> {
    if ps == [] then []
    else OfSend(ps[..|ps| - 1], msg) + if ps[|ps| - 1].msg == msg then [ps[|ps| - 1]] else []
  }

  lemma {:induction false} OfSendAppend(x: seq<Packet>, y: seq<Packet>, msg: nat)
    ensures OfSend(x + y, msg) == OfSend(x, msg) + OfSend(y, msg)
  {
    if y == [] {
      assert x + y == x;
    } else {
      assert (x + y)[..|x + y| - 1] == x + y[..|y| - 1];
      OfSendAppend(x, y[..|y| - 1], msg);
    }
  }

  lemma {:induction false} OfSendAll(ps: seq<Packet>, msg: nat)
    requires forall p :: p in ps ==> p.msg == msg
    ensures OfSend(ps, msg) == ps
  {
    if ps != [] {
      OfSendAll(ps[..|ps| - 1], msg);
    }
  }

  lemma {:induction false} OfSendNone(ps: seq<Packet>, msg: nat)
    requires forall p :: p in ps ==> p.msg != msg
    ensures OfSend(ps, msg) == []
  {
    if ps != [] {
      OfSendNone(ps[..|ps| - 1], msg);
    }
  }

  /** Nothing that is still to be given to a link, from a buffer or by a call under way, is of the send. */
  ghost predicate Over(s: Sys, msg: nat)
    requires Shaped(s.session)
  {
    && msg < s.next
    && (forall c: Channel, p :: p in s.session.buffered[c] ==> p.msg != msg)
    && (forall w :: w in s.walks ==> w.call.msg != msg)
  }

  lemma StepOver(s: Sys, step: Step, msg: nat)
    requires Inv(s) && Enabled(s, step) && Over(s, msg)
    ensures Over(Apply(s, step), msg)
  {
    var r := Apply(s, step);
    forall c: Channel, p | p in r.session.buffered[c]
      ensures p.msg != msg
    {
      StepGrowth(s, step, 0, c);
    }
    forall w | w in r.walks
      ensures w.call.msg != msg
    {
      if step.Visit? && w !in s.walks {
        assert s.walks[step.i] in s.walks && w.call == s.walks[step.i].call;
      }
    }
  }

  /** From then on no link is given anything of it. */
  lemma StepGivesNone(s: Sys, step: Step, msg: nat, a: LinkId, c: Channel)
    requires Inv(s) && Enabled(s, step) && Over(s, msg)
    ensures OfSend(Box(Apply(s, step).session.out, a, c), msg) == OfSend(Box(s.session.out, a, c), msg)
  {
    StepGrowth(s, step, a, c);
    OfSendAppend(Box(s.session.out, a, c), BoxGrowth(s, step, a, c), msg);
    if step.Visit? {
      assert s.walks[step.i] in s.walks;
    }
    OfSendNone(BoxGrowth(s, step, a, c), msg);
  }

  predicate Unbuffered(step: Step) {
    step.SendOnly? || step.SendTo?
  }

  /** The links and channels an un-buffered send is meant for. */
  predicate Meant(s: Sys, step: Step, a: LinkId, c: Channel)
    requires Unbuffered(step)
  {
    && c == step.ch
    && match step
       case SendOnly(_, exclude, _) => Member(s.session, a) && exclude != Some(a)
       case SendTo(b, _, _) => a == b
  }

  lemma SendGives(s: Sys, step: Step, a: LinkId, c: Channel)
    requires Inv(s) && Enabled(s, step) && Unbuffered(step)
    ensures Over(Apply(s, step), s.next)
    ensures OfSend(Box(Apply(s, step).session.out, a, c), s.next)
         == if Meant(s, step, a, c) then PacketsOf(s.next, step.fragments) else []
  {
    StepGrowth(s, step, a, c);
    OfSendAppend(Box(s.session.out, a, c), BoxGrowth(s, step, a, c), s.next);
    OfSendNone(Box(s.session.out, a, c), s.next);
    OfSendAll(BoxGrowth(s, step, a, c), s.next);
  }

  /** An un-buffered send reaches those it is meant for, once and whole: the living members of that
      moment without the excluded one, or the link named. Whatever happens later, nobody else is ever
      given anything of it, a link that is added later included. */
  lemma {:induction false} ReachesMembersOfTheMoment(alive: set<LinkId>, run: seq<Step>, i: nat, a: LinkId, c: Channel)
    requires Legal(alive, run) && i < |run| && Unbuffered(run[i])
    ensures Legal(alive, run[..i])
    ensures var s := Exec(alive, run[..i]);
      && OfSend(Box(Exec(alive, run).session.out, a, c), s.next)
         == (if Meant(s, run[i], a, c) then PacketsOf(s.next, run[i].fragments) else [])
      && Over(Exec(alive, run), s.next)
    decreases |run|
  {
    var n := |run| - 1;
    RunInv(alive, run[..n]);
    if i == n {
      SendGives(Exec(alive, run[..n]), run[n], a, c);
    } else {
      assert run[..n][..i] == run[..i];
      ReachesMembersOfTheMoment(alive, run[..n], i, a, c);
      var msg := Exec(alive, run[..i]).next;
      StepOver(Exec(alive, run[..n]), run[n], msg);
      StepGivesNone(Exec(alive, run[..n]), run[n], msg, a, c);
    }
  }
}
