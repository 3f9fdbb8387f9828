/** A complement to the guarantees of the stream: whatever was lost, recovery is possible. */
module StreamRecovery {
  import opened Words
  import opened Layout
  import opened StreamReceiver
  import opened Stream
  import opened StreamTheorems
  import opened Chunking
  import Sender
  import Acks

  // ---- Composing runs ----

  lemma {:induction false} LegalConcat(cfg: Config, s: Sys, a: seq<Step>, b: seq<Step>)
    requires cfg.channel <= 7 && Legal(cfg, s, a) && Legal(cfg, Exec(cfg, s, a), b)
    ensures Legal(cfg, s, a + b) && Exec(cfg, s, a + b) == Exec(cfg, Exec(cfg, s, a), b)
    decreases |a|
  {
    if a == [] {
      assert a + b == b;
    } else {
      ConcatTail(a, b);
      LegalConcat(cfg, Apply(cfg, s, a[0]), a[1..], b);
    }
  }

  lemma ConcatTail<T>(a: seq<T>, b: seq<T>)
    requires a != []
    ensures a + b != [] && (a + b)[0] == a[0] && (a + b)[1..] == a[1..] + b
  {
  }

  lemma Prefixed(cfg: Config, s: Sys, step: Step, rest: seq<Step>)
    requires cfg.channel <= 7 && Enabled(cfg, s, step) && Legal(cfg, Apply(cfg, s, step), rest)
    ensures Legal(cfg, s, [step] + rest) && Exec(cfg, s, [step] + rest) == Exec(cfg, Apply(cfg, s, step), rest)
  {
    assert ([step] + rest)[1..] == rest;
  }

  lemma OneStep(cfg: Config, s: Sys, step: Step)
    requires cfg.channel <= 7 && Enabled(cfg, s, step)
    ensures Legal(cfg, s, [step]) && Exec(cfg, s, [step]) == Apply(cfg, s, step)
  {
    var rest := [step][1..];
    assert rest == [];
    assert Legal(cfg, Apply(cfg, s, step), rest);
  }

  lemma Then(cfg: Config, s: Sys, steps: seq<Step>, step: Step)
    requires cfg.channel <= 7 && Legal(cfg, s, steps) && Enabled(cfg, Exec(cfg, s, steps), step)
    ensures Legal(cfg, s, steps + [step])
    ensures Exec(cfg, s, steps + [step]) == Apply(cfg, Exec(cfg, s, steps), step)
  {
    OneStep(cfg, Exec(cfg, s, steps), step);
    LegalConcat(cfg, s, steps, [step]);
  }

  // ---- Recovery ----

  /** A datagram of t is under way and may arrive now. */
  ghost predicate CanArrive(s: Sys, t: Slot) {
    InWindow(s.ms, s.p, t) && Datagram(t, Sender.Wire(KeyOf(s.ms, t), s.ms[t.msg][t.idx])) in s.net
  }

  /** Steps of arrival change neither the messages nor what was handed over nor the network. */
  ghost predicate OnlyArrivals(s: Sys, s': Sys) {
    s'.ms == s.ms && s'.p.done == s.p.done && s'.net == s.net && s'.ackNet == s.ackNet && s'.unacked == s.unacked
  }

  /** A datagram arrives and is received at once. */
  lemma ArriveOnce(cfg: Config, s: Sys, d: Datagram) returns (s': Sys)
    requires cfg.channel <= 7 && Enabled(cfg, s, AddAck(d))
    ensures Enabled(cfg, s, AddAck(d))
    ensures var mid := Apply(cfg, s, AddAck(d)); Enabled(cfg, mid, Receive(d)) && s' == Apply(cfg, mid, Receive(d))
    ensures OnlyArrivals(s, s') && s'.hand == s.hand
  {
    var mid := Apply(cfg, s, AddAck(d));
    s' := Apply(cfg, mid, Receive(d));
    ArriveSafe(s.ms, s.p, d.slot);
    assert s.hand + multiset{d} - multiset{d} == s.hand;
  }

  lemma {:induction false} DeliverEach(cfg: Config, s: Sys, todo: set<Slot>) returns (steps: seq<Step>)
    requires cfg.channel <= 7 && forall t :: t in todo ==> CanArrive(s, t)
    ensures Legal(cfg, s, steps) && NoEnqueue(steps)
    ensures forall t :: t in todo ==> Arrives(steps, t)
    ensures OnlyArrivals(s, Exec(cfg, s, steps)) && Exec(cfg, s, steps).hand == s.hand
    decreases todo
  {
    steps := [];
    if todo != {} {
      var t :| t in todo;
      var d := Datagram(t, Sender.Wire(KeyOf(s.ms, t), s.ms[t.msg][t.idx]));
      var s' := ArriveOnce(cfg, s, d);
      var rest := DeliverEach(cfg, s', todo - {t});
      Prefixed(cfg, Apply(cfg, s, AddAck(d)), Receive(d), rest);
      Prefixed(cfg, s, AddAck(d), [Receive(d)] + rest);
      steps := [AddAck(d)] + ([Receive(d)] + rest);
      forall u | u in todo
        ensures Arrives(steps, u)
      {
        ArrivesLater(d, rest, u);
      }
    }
  }

  lemma ArrivesLater(d: Datagram, rest: seq<Step>, u: Slot)
    requires d.slot == u || Arrives(rest, u)
    ensures Arrives([AddAck(d)] + ([Receive(d)] + rest), u)
  {
    var steps := [AddAck(d)] + ([Receive(d)] + rest);
    if d.slot == u {
      assert steps[0].AddAck? && steps[0].d.slot == u;
    } else {
      var i :| 0 <= i < |rest| && rest[i].AddAck? && rest[i].d.slot == u;
      assert steps[i + 2] == rest[i];
    }
  }

  lemma DeliversAckLater(step: Step, rest: seq<Step>, u: Slot)
    requires (step.DeliverAcks? && u in step.a.slots) || DeliversAck(rest, u)
    ensures DeliversAck([step] + rest, u)
  {
    var steps := [step] + rest;
    if step.DeliverAcks? && u in step.a.slots {
      assert steps[0] == step;
    } else {
      var i :| 0 <= i < |rest| && rest[i].DeliverAcks? && u in rest[i].a.slots;
      assert steps[i + 1] == rest[i];
    }
  }

  /** Every half-done Link::receive goes on. */
  lemma {:induction false} FinishReceives(cfg: Config, s: Sys) returns (steps: seq<Step>)
    requires cfg.channel <= 7 && forall d :: d in s.hand ==> InWindow(s.ms, s.p, d.slot)
    ensures Legal(cfg, s, steps) && NoEnqueue(steps)
    ensures var s' := Exec(cfg, s, steps);
            OnlyArrivals(s, s') && s'.acks == s.acks && s'.hand == multiset{}
    decreases |s.hand|
  {
    steps := [];
    if s.hand != multiset{} {
      var d :| d in s.hand;
      ArriveSafe(s.ms, s.p, d.slot);
      var rest := FinishReceives(cfg, Apply(cfg, s, Receive(d)));
      steps := [Receive(d)] + rest;
      assert steps[1..] == rest;
    }
  }

  lemma {:induction false} RunAllJobs(cfg: Config, s: Sys) returns (steps: seq<Step>)
    requires cfg.channel <= 7
    ensures Legal(cfg, s, steps) && NoEnqueue(steps)
    ensures Exec(cfg, s, steps).dst.jobs == 0 && Exec(cfg, s, steps).hand == s.hand
    decreases s.dst.jobs
  {
    steps := [];
    if s.dst.jobs > 0 {
      var rest := RunAllJobs(cfg, Apply(cfg, s, Job));
      steps := [Job] + rest;
      assert steps[1..] == rest;
    }
  }

  lemma {:induction false} DeliverEachAck(cfg: Config, s: Sys, todo: set<AckDatagram>) returns (steps: seq<Step>)
    requires cfg.channel <= 7 && todo <= s.ackNet
    requires forall a, t :: a in todo && t in a.slots ==> Live(s.ms, t)
    ensures Legal(cfg, s, steps) && NoEnqueue(steps)
    ensures forall a, t :: a in todo && t in a.slots ==> DeliversAck(steps, t)
    ensures Exec(cfg, s, steps).dst == s.dst
    decreases todo
  {
    steps := [];
    if todo != {} {
      var a :| a in todo;
      var rest := DeliverEachAck(cfg, Apply(cfg, s, DeliverAcks(a)), todo - {a});
      steps := [DeliverAcks(a)] + rest;
      assert steps[1..] == rest;
      forall b, t | b in todo && t in b.slots
        ensures DeliversAck(steps, t)
      {
        assert b in todo - {a} || b == a;
        DeliversAckLater(DeliverAcks(a), rest, t);
      }
    }
  }

  /** Every ack that waits or is under way is for a number that has not been reused. */
  ghost predicate AcksLive(s: Sys) {
    && (forall t :: t in s.acks ==> Live(s.ms, t))
    && (forall a, t :: a in s.ackNet && t in a.slots ==> Live(s.ms, t))
  }

  /** Nothing outstanding is too old or too far ahead to be accepted. A stream of at most 2^30
      numbers always satisfies it. */
  ghost predicate Recent(s: Sys) {
    && s.p.done <= |s.ms| && Total(s.ms) <= Start(s.ms, s.p.done) + WINDOW
    && (forall t :: t in s.unacked ==> IsSlot(s.ms, t) && Start(s.ms, s.p.done) - 3 * WINDOW <= SeqOf(s.ms, t))
    && (forall d :: d in s.hand ==> InWindow(s.ms, s.p, d.slot))
    && AcksLive(s)
  }

  lemma ShortStreamsAreRecent(cfg: Config, s: Sys)
    requires Inv(cfg, s) && Total(s.ms) <= WINDOW
    ensures Recent(s)
  {
    StartMonotone(s.ms, s.p.done, |s.ms|);
    forall t | t in s.unacked
      ensures IsSlot(s.ms, t)
    {
      assert Queued(s.ms, s.src.send, t);
    }
    forall a, t | a in s.ackNet && t in a.slots
      ensures Live(s.ms, t)
    {
      assert AckedOk(s.ms, s.p, InHand(s.hand), a.slots);
    }
    forall d | d in s.hand
      ensures InWindow(s.ms, s.p, d.slot)
    {
      SlotBounds(s.ms, d.slot, 0);
    }
  }

  lemma ResentCanArrive(cfg: Config, s: Sys, t: Slot)
    requires Inv(cfg, s) && Recent(s) && t in s.unacked
    ensures CanArrive(ApplyResend(s), t)
  {
    assert Queued(s.ms, s.src.send, t);
    SlotBounds(s.ms, t, 0);
    assert DatagramFor(s, t) in ApplyResend(s).net;
  }

  /** Resend, let everything arrive, run the jobs, flush the acks. */
  lemma DataRound(cfg: Config, s: Sys) returns (steps: seq<Step>)
    requires cfg.channel <= 7 && forall t :: t in s.unacked ==> CanArrive(ApplyResend(s), t)
    ensures Legal(cfg, s, steps) && NoEnqueue(steps)
    ensures forall t :: t in s.unacked ==> Arrives(steps, t)
    ensures var s' := Exec(cfg, s, steps); s'.dst.jobs == 0 && s'.acks == [] && s'.hand == s.hand
  {
    OneStep(cfg, s, Resend);
    var s1 := Exec(cfg, s, [Resend]);
    var deliver := DeliverEach(cfg, s1, s.unacked);
    LegalConcat(cfg, s, [Resend], deliver);
    var s2 := Exec(cfg, s1, deliver);
    var jobs := RunAllJobs(cfg, s2);
    LegalConcat(cfg, s, [Resend] + deliver, jobs);
    steps := [Resend] + deliver + jobs;
    Then(cfg, s, steps, SendAcks);
    steps := steps + [SendAcks];
    forall t | t in s.unacked
      ensures Arrives(steps, t)
    {
      ArrivesWithin([Resend], deliver, jobs + [SendAcks], t);
      assert steps == [Resend] + deliver + (jobs + [SendAcks]);
    }
  }

  lemma ArrivesWithin(a: seq<Step>, b: seq<Step>, c: seq<Step>, t: Slot)
    requires Arrives(b, t)
    ensures Arrives(a + b + c, t)
  {
    var i :| 0 <= i < |b| && b[i].AddAck? && b[i].d.slot == t;
    assert (a + b + c)[|a| + i] == b[i];
  }

  lemma ArrivalAcksLive(cfg: Config, s: Sys, d: Datagram)
    requires cfg.channel <= 7 && Enabled(cfg, s, AddAck(d)) && AcksLive(s)
    requires Total(s.ms) <= Start(s.ms, s.p.done) + WINDOW
    ensures AcksLive(Apply(cfg, s, AddAck(d)))
  {
    assert Live(s.ms, d.slot);
  }

  lemma SendAcksLive(cfg: Config, s: Sys)
    requires cfg.channel <= 7 && AcksLive(s)
    ensures AcksLive(ApplySendAcks(cfg, s))
  {
    var per := Acks.AcksPerDatagram(cfg.mtu);
    forall a, t | a in ApplySendAcks(cfg, s).ackNet && t in a.slots
      ensures Live(s.ms, t)
    {
      if a !in s.ackNet {
        var i :| 0 <= i < |Chunks(s.acks, per)| && a.slots == Chunks(s.acks, per)[i];
        ChunkMember(s.acks, per, i, t);
      }
    }
  }

  /** What is acked during a round is recent as well. */
  lemma {:induction false} RunAcksLive(cfg: Config, s: Sys, steps: seq<Step>)
    requires Inv(cfg, s) && Legal(cfg, s, steps) && NoEnqueue(steps)
    requires AcksLive(s) && Total(s.ms) <= Start(s.ms, s.p.done) + WINDOW
    ensures AcksLive(Exec(cfg, s, steps))
    decreases |steps|
  {
    if steps != [] {
      var s' := Apply(cfg, s, steps[0]);
      StepInv(cfg, s, steps[0]);
      assert !steps[0].Enqueue? && NoEnqueue(steps[1..]);
      match steps[0] {
        case AddAck(d) => ArrivalAcksLive(cfg, s, d);
        case Receive(d) => ArriveSafe(s.ms, s.p, d.slot);
        case SendAcks => SendAcksLive(cfg, s);
        case Job =>
          AdvanceFacts(s.p);
          StartMonotone(s.ms, s.p.done, s'.p.done);
        case _ =>
      }
      RunAcksLive(cfg, s', steps[1..]);
    }
  }

  lemma SameMessages(cfg: Config, s: Sys, steps: seq<Step>)
    requires cfg.channel <= 7 && Legal(cfg, s, steps) && NoEnqueue(steps)
    ensures Exec(cfg, s, steps).ms == s.ms
  {
    RunMessages(cfg, s, steps);
    NothingEnqueued(steps);
  }

  /** From every reachable state whose outstanding numbers are recent, however much was lost before, some continuation without new
      messages delivers everything that was enqueued and empties the sender's queue. */
  lemma RecoveryPossible(cfg: Config, s: Sys) returns (steps: seq<Step>)
    requires Inv(cfg, s) && Recent(s)
    ensures Legal(cfg, s, steps) && NoEnqueue(steps)
    ensures var s' := Exec(cfg, s, steps);
            && s'.ms == s.ms && NoneEmpty(s.ms)
            && s'.dst.handled == Wholes(cfg.mode, s.ms, 0, |s.ms|)
            && s'.src.send.queue == map[]
  {
    var steps0 := FinishReceives(cfg, s);
    var s0 := Exec(cfg, s, steps0);
    RunInv(cfg, s, steps0);
    StillRecent(s, s0);
    var steps1 := RecoverIdle(cfg, s0);
    LegalConcat(cfg, s, steps0, steps1);
    steps := steps0 + steps1;
  }

  lemma StillRecent(s: Sys, s': Sys)
    requires Recent(s) && OnlyArrivals(s, s') && s'.acks == s.acks && s'.hand == multiset{}
    ensures Recent(s')
  {
  }

  /** The same once no Link::receive is half done. */
  lemma RecoverIdle(cfg: Config, s: Sys) returns (steps: seq<Step>)
    requires Inv(cfg, s) && Recent(s) && s.hand == multiset{}
    ensures Legal(cfg, s, steps) && NoEnqueue(steps)
    ensures var s' := Exec(cfg, s, steps);
            && s'.ms == s.ms && NoneEmpty(s.ms)
            && s'.dst.handled == Wholes(cfg.mode, s.ms, 0, |s.ms|)
            && s'.src.send.queue == map[]
  {
    forall t | t in s.unacked
      ensures CanArrive(ApplyResend(s), t)
    {
      ResentCanArrive(cfg, s, t);
    }
    var steps1 := DataRound(cfg, s);
    var s1 := Exec(cfg, s, steps1);
    RunInv(cfg, s, steps1);
    SameMessages(cfg, s, steps1);
    CleanRoundDelivers(cfg, s, steps1);
    RunAcksLive(cfg, s, steps1);
    var steps2 := DeliverEachAck(cfg, s1, s1.ackNet);
    CleanRoundEmptiesQueue(cfg, s, steps1, steps2);
    SameMessages(cfg, s1, steps2);
    LegalConcat(cfg, s, steps1, steps2);
    steps := steps1 + steps2;
  }
}
