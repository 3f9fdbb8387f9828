/** JobSystem: a queue of jobs, worker threads and one condition variable with a hand-kept
    count of sleepers. Every stretch of code that runs under the mutex is one step. */
module JobSystem {
  import opened Words

  /** A job is known by its number; its work function is not modelled. */
  type Job = nat

  /** Where a worker thread is:
      AtTop     before locking the mutex at the top of its loop;
      Waiting   inside the condition variable's wait, not notified;
      Woken     out of the wait (notified or spuriously), on its way to extractJob;
      Running   executing a job outside the mutex;
      Exited    its loop has ended. */
  datatype Worker = AtTop | Waiting | Woken | Running(job: Job) | Exited

  datatype State = State(
    closing: bool,             // m_Closing
    numSleeping: U32,          // m_NumThreadsSleeping
    queue: seq<Job>,           // m_GlobalQueue
    workers: seq<Worker>)

  function Start(numWorkers: nat): State {
    State(false, 0, [], seq(numWorkers, _ => AtTop))
  }

  datatype Step =
    | AddJob(job: Job, wakes: nat)    // `wakes` is the waiting worker notify_one picks, if any
    | Turn(w: nat)                    // worker w locks the mutex at the top of its loop
    | Spurious(w: nat)                // w's wait returns without a notification
    | Resume(w: nat)                  // w re-acquires the mutex after its wait
    | Finish(w: nat)                  // w's job returns
    | Stop                            // stop(): m_Closing and notify_all
    | Discard                         // the end of stop(), after every worker was joined

  // ---- The critical sections ----

  /** extractJob, by worker w, which otherwise goes to `idle`. */
  function Extract(s: State, w: nat, idle: Worker): State
    requires w < |s.workers|
  {
    if s.queue == [] then s.(workers := s.workers[w := idle])
    else s.(queue := s.queue[1..], workers := s.workers[w := Running(s.queue[0])])
  }

  function WakeAll(ws: seq<Worker>): (r: seq<Worker>)
    ensures |r| == |ws|
    ensures forall i :: 0 <= i < |ws| ==> r[i] == if ws[i].Waiting? then Woken else ws[i]
  {
    seq(|ws|, i requires 0 <= i < |ws| => if ws[i].Waiting? then Woken else ws[i])
  }

  /** addJob: with the counter positive one waiter is notified, if there is one. */
  function ApplyAdd(s: State, job: Job, wakes: nat): State {
    var pushed := s.(queue := s.queue + [job]);
    if s.numSleeping > 0 then
      pushed.(numSleeping := s.numSleeping - 1,
              workers := if wakes < |s.workers| && s.workers[wakes].Waiting? then s.workers[wakes := Woken] else s.workers)
    else pushed
  }

  /** The top of the worker loop: leave when closing, take a job, or go to sleep. */
  function ApplyTurn(s: State, w: nat): State
    requires w < |s.workers|
  {
    if s.closing then s.(workers := s.workers[w := Exited])
    else if s.queue != [] then Extract(s, w, Waiting)
    else s.(workers := s.workers[w := Waiting], numSleeping := Wrap(s.numSleeping + 1))
  }

  /** When a step may happen. */
  ghost predicate Enabled(s: State, step: Step) {
    match step
    case AddJob(_, wakes) =>
      // notify_one wakes somebody if anybody waits
      (exists i :: 0 <= i < |s.workers| && s.workers[i].Waiting?) ==> wakes < |s.workers| && s.workers[wakes].Waiting?
    case Turn(w) => w < |s.workers| && s.workers[w].AtTop?
    case Spurious(w) => w < |s.workers| && s.workers[w].Waiting?
    case Resume(w) => w < |s.workers| && s.workers[w].Woken?
    case Finish(w) => w < |s.workers| && s.workers[w].Running?
    case Stop => true
    case Discard => s.closing && forall i :: 0 <= i < |s.workers| ==> s.workers[i].Exited?
  }

  ghost function Apply(s: State, step: Step): State
    requires Enabled(s, step)
  {
    match step
    case AddJob(job, wakes) => ApplyAdd(s, job, wakes)
    case Turn(w) => ApplyTurn(s, w)
    case Spurious(w) => s.(workers := s.workers[w := Woken])
    case Resume(w) => Extract(s, w, AtTop)
    case Finish(w) => s.(workers := s.workers[w := AtTop])
    case Stop => s.(closing := true, workers := WakeAll(s.workers))
    case Discard => s.(queue := [])
  }

  ghost predicate Legal(s: State, steps: seq<Step>)
    decreases |steps|
  {
    steps == [] || (Enabled(s, steps[0]) && Legal(Apply(s, steps[0]), steps[1..]))
  }

  ghost function Exec(s: State, steps: seq<Step>): State
    requires Legal(s, steps)
    decreases |steps|
  {
    if steps == [] then s else Exec(Apply(s, steps[0]), steps[1..])
  }

  // ---- Counting workers ----

  function WaitingCount(ws: seq<Worker>): nat {
    if ws == [] then 0
    else WaitingCount(ws[..|ws| - 1]) + (if ws[|ws| - 1].Waiting? then 1 else 0)
  }

  function WokenCount(ws: seq<Worker>): nat {
    if ws == [] then 0
    else WokenCount(ws[..|ws| - 1]) + (if ws[|ws| - 1].Woken? then 1 else 0)
  }

  lemma {:induction false} CountUpdate(ws: seq<Worker>, w: nat, x: Worker)
    requires w < |ws|
    ensures WaitingCount(ws[w := x]) == WaitingCount(ws)
              + (if x.Waiting? then 1 else 0) - (if ws[w].Waiting? then 1 else 0)
    ensures WokenCount(ws[w := x]) == WokenCount(ws)
              + (if x.Woken? then 1 else 0) - (if ws[w].Woken? then 1 else 0)
  {
    var n := |ws| - 1;
    if w == n {
      assert ws[w := x][..n] == ws[..n];
    } else {
      assert ws[w := x][..n] == ws[..n][w := x];
      CountUpdate(ws[..n], w, x);
    }
  }

  lemma {:induction false} CountPositive(ws: seq<Worker>)
    ensures WaitingCount(ws) > 0 <==> exists i :: 0 <= i < |ws| && ws[i].Waiting?
    ensures WokenCount(ws) > 0 <==> exists i :: 0 <= i < |ws| && ws[i].Woken?
  {
    if ws != [] {
      var n := |ws| - 1;
      CountPositive(ws[..n]);
      if i :| 0 <= i < |ws[..n]| && ws[..n][i].Waiting? {
        assert ws[i].Waiting?;
      }
      if i :| 0 <= i < |ws[..n]| && ws[..n][i].Woken? {
        assert ws[i].Woken?;
      }
      if i :| 0 <= i < |ws| && ws[i].Waiting? {
        assert i == n || ws[..n][i].Waiting?;
      }
      if i :| 0 <= i < |ws| && ws[i].Woken? {
        assert i == n || ws[..n][i].Woken?;
      }
    }
  }

  // ---- No lost wakeup ----

  /** The counter never undercounts the waiters, and while anybody waits the queued jobs do not
      outnumber the workers on their way to extractJob. */
  ghost predicate Awake(s: State) {
    && CounterRight(s)
    && (WaitingCount(s.workers) > 0 ==> |s.queue| <= WokenCount(s.workers))
  }

  ghost predicate CounterRight(s: State) {
    s.numSleeping >= WaitingCount(s.workers)
  }

  /** Once closing, nobody waits. */
  ghost predicate ClosedAwake(s: State) {
    s.closing ==> WaitingCount(s.workers) == 0
  }

  /** No worker leaves its loop before the system is closing. */
  ghost predicate NoneLeftEarly(s: State) {
    forall i :: 0 <= i < |s.workers| && s.workers[i].Exited? ==> s.closing
  }

  ghost predicate AllExited(s: State) {
    s.closing && forall i :: 0 <= i < |s.workers| ==> s.workers[i].Exited?
  }

  /** What holds in every run, whatever the counter does. */
  ghost predicate Inv(s: State) {
    ClosedAwake(s) && NoneLeftEarly(s)
  }

  lemma StartInv(numWorkers: nat)
    ensures Inv(Start(numWorkers)) && Awake(Start(numWorkers))
  {
    CountPositive(Start(numWorkers).workers);
  }

  /** The step is a worker going to sleep while the counter is at its maximum. Every spurious
      wakeup leaves the counter one too high, so that it can get there. */
  predicate SleepWraps(s: State, step: Step) {
    step.Turn? && !s.closing && s.queue == [] && s.numSleeping + 1 == CYCLE
  }

  lemma AddInv(s: State, job: Job, wakes: nat)
    requires Inv(s) && Enabled(s, AddJob(job, wakes))
    ensures Inv(ApplyAdd(s, job, wakes))
    ensures Awake(s) ==> Awake(ApplyAdd(s, job, wakes))
  {
    CountPositive(s.workers);
    if wakes < |s.workers| && s.workers[wakes].Waiting? {
      CountUpdate(s.workers, wakes, Woken);
    }
  }

  lemma ExtractInv(s: State, w: nat, idle: Worker)
    requires Inv(s) && w < |s.workers| && (s.workers[w].AtTop? || s.workers[w].Woken?)
    requires idle.AtTop? || s.queue != []
    ensures Inv(Extract(s, w, idle))
    ensures Awake(s) ==> Awake(Extract(s, w, idle))
  {
    if s.queue == [] {
      CountUpdate(s.workers, w, idle);
    } else {
      CountUpdate(s.workers, w, Running(s.queue[0]));
    }
  }

  lemma TurnInv(s: State, w: nat)
    requires Inv(s) && Enabled(s, Turn(w))
    ensures Inv(ApplyTurn(s, w))
    ensures Awake(s) ==> (CounterRight(ApplyTurn(s, w)) <==> !SleepWraps(s, Turn(w)))
    ensures Awake(s) ==> (Awake(ApplyTurn(s, w)) <==> !SleepWraps(s, Turn(w)))
  {
    if s.closing {
      CountUpdate(s.workers, w, Exited);
    } else if s.queue != [] {
      ExtractInv(s, w, Waiting);
    } else {
      CountUpdate(s.workers, w, Waiting);
    }
  }

  lemma StopInv(s: State)
    requires Inv(s)
    ensures Inv(Apply(s, Stop)) && (Awake(s) ==> Awake(Apply(s, Stop)))
  {
    CountPositive(WakeAll(s.workers));
  }

  /** Every step keeps the workers in their loops until closing and the peace after it; it keeps the
      counter right if and only if it is not a sleep that wraps it. */
  lemma StepInv(s: State, step: Step)
    requires Inv(s) && Enabled(s, step)
    ensures Inv(Apply(s, step))
    ensures Awake(s) ==> (CounterRight(Apply(s, step)) <==> !SleepWraps(s, step))
    ensures Awake(s) ==> (Awake(Apply(s, step)) <==> !SleepWraps(s, step))
  {
    match step
    case AddJob(job, wakes) => AddInv(s, job, wakes);
    case Turn(w) => TurnInv(s, w);
    case Spurious(w) => CountUpdate(s.workers, w, Woken);
    case Resume(w) => ExtractInv(s, w, AtTop);
    case Finish(w) => CountUpdate(s.workers, w, AtTop);
    case Stop => StopInv(s);
    case Discard => CountPositive(s.workers);
  }

  lemma {:induction false} RunInv(s: State, steps: seq<Step>)
    requires Inv(s) && Legal(s, steps)
    ensures Inv(Exec(s, steps))
    decreases |steps|
  {
    if steps != [] {
      StepInv(s, steps[0]);
      RunInv(Apply(s, steps[0]), steps[1..]);
    }
  }

  // ---- Over whole runs ----

  /** No worker of the run goes to sleep with the counter at its maximum. */
  ghost predicate NoSleepWraps(s: State, steps: seq<Step>)
    requires Legal(s, steps)
    decreases |steps|
  {
    steps == [] || (!SleepWraps(s, steps[0]) && NoSleepWraps(Apply(s, steps[0]), steps[1..]))
  }

  /** The counter is right at every point of the run. */
  ghost predicate CounterAlwaysRight(s: State, steps: seq<Step>)
    requires Legal(s, steps)
    decreases |steps|
  {
    CounterRight(s) && (steps == [] || CounterAlwaysRight(Apply(s, steps[0]), steps[1..]))
  }

  ghost predicate AlwaysAwake(s: State, steps: seq<Step>)
    requires Legal(s, steps)
    decreases |steps|
  {
    Awake(s) && (steps == [] || AlwaysAwake(Apply(s, steps[0]), steps[1..]))
  }

  lemma {:induction false} RunAwake(s: State, steps: seq<Step>)
    requires Inv(s) && Awake(s) && Legal(s, steps)
    ensures CounterAlwaysRight(s, steps) <==> NoSleepWraps(s, steps)
    ensures AlwaysAwake(s, steps) <==> NoSleepWraps(s, steps)
    ensures NoSleepWraps(s, steps) ==> Awake(Exec(s, steps))
    decreases |steps|
  {
    if steps != [] {
      StepInv(s, steps[0]);
      if !SleepWraps(s, steps[0]) {
        RunAwake(Apply(s, steps[0]), steps[1..]);
      } else {
        assert !CounterRight(Apply(s, steps[0]));
      }
    }
  }

  /** Exactly when no wakeup is lost: in every interleaving, spurious wakeups included, the counter
      covers the waiters at every point, and with it the queued jobs never outnumber the woken
      workers while somebody waits, if and only if no worker goes to sleep with the counter at its
      maximum. */
  lemma NoLostWakeup(numWorkers: nat, steps: seq<Step>)
    requires Legal(Start(numWorkers), steps)
    ensures CounterAlwaysRight(Start(numWorkers), steps) <==> NoSleepWraps(Start(numWorkers), steps)
    ensures AlwaysAwake(Start(numWorkers), steps) <==> NoSleepWraps(Start(numWorkers), steps)
    ensures var s := Exec(Start(numWorkers), steps);
            NoSleepWraps(Start(numWorkers), steps) ==>
              && s.numSleeping >= WaitingCount(s.workers)
              && ((exists i :: 0 <= i < |s.workers| && s.workers[i].Waiting?) ==>
                    |s.queue| <= WokenCount(s.workers)
                    && (s.queue != [] ==> exists i :: 0 <= i < |s.workers| && s.workers[i].Woken?))
  {
    StartInv(numWorkers);
    RunAwake(Start(numWorkers), steps);
    CountPositive(Exec(Start(numWorkers), steps).workers);
  }

  /** How often a worker goes to sleep. */
  ghost function Sleeps(s: State, steps: seq<Step>): nat
    requires Legal(s, steps)
    decreases |steps|
  {
    if steps == [] then 0
    else (if steps[0].Turn? && !s.closing && s.queue == [] then 1 else 0) + Sleeps(Apply(s, steps[0]), steps[1..])
  }

  /** With fewer than 2^32 sleeps the counter cannot wrap. */
  lemma {:induction false} FewSleepsNeverWrap(s: State, steps: seq<Step>)
    requires Legal(s, steps) && s.numSleeping + Sleeps(s, steps) < CYCLE
    ensures NoSleepWraps(s, steps)
    decreases |steps|
  {
    if steps != [] {
      FewSleepsNeverWrap(Apply(s, steps[0]), steps[1..]);
    }
  }

  // ---- What becomes of the jobs ----

  /** The jobs given to addJob in a run, in order. */
  function AddedBy(steps: seq<Step>): seq<Job> {
    if steps == [] then []
    else (if steps[0].AddJob? then [steps[0].job] else []) + AddedBy(steps[1..])
  }

  /** The job a worker starts in a step: it is running one now and was not before. */
  function StartsIn(before: seq<Worker>, after: seq<Worker>, w: nat): seq<Job> {
    if w < |before| && w < |after| && !before[w].Running? && after[w].Running? then [after[w].job] else []
  }

  /** The jobs started by the first n workers in a step. */
  function StartedIn(before: seq<Worker>, after: seq<Worker>, n: nat): seq<Job> {
    if n == 0 then [] else StartedIn(before, after, n - 1) + StartsIn(before, after, n - 1)
  }

  /** The jobs the workers start in a run, in order. */
  ghost function StartedBy(s: State, steps: seq<Step>): seq<Job>
    requires Legal(s, steps)
    decreases |steps|
  {
    if steps == [] then []
    else
      var s' := Apply(s, steps[0]);
      StartedIn(s.workers, s'.workers, |s.workers|) + StartedBy(s', steps[1..])
  }

  /** The jobs still queued when the queue is cleared at the end of stop(). */
  ghost function DiscardedBy(s: State, steps: seq<Step>): seq<Job>
    requires Legal(s, steps)
    decreases |steps|
  {
    if steps == [] then []
    else (if steps[0].Discard? then s.queue else []) + DiscardedBy(Apply(s, steps[0]), steps[1..])
  }

  /** A worker that is running a job goes on running it until it is done, and a step starts a job on
      at most the one worker that takes it. */
  lemma {:induction false} StartedInOne(before: seq<Worker>, after: seq<Worker>, n: nat, w: nat)
    requires n <= |before| == |after|
    requires forall i :: 0 <= i < |before| && i != w && after[i].Running? ==> before[i] == after[i]
    ensures StartedIn(before, after, n) == if w < n then StartsIn(before, after, w) else []
  {
    if n > 0 {
      StartedInOne(before, after, n - 1, w);
    }
  }

  predicate TakesJob(s: State, step: Step) {
    s.queue != [] && (step.Resume? || (step.Turn? && !s.closing))
  }

  /** The worker whose step it is, if any. */
  function Actor(s: State, step: Step): nat {
    if IsWorkerStep(step) then step.w else |s.workers|
  }

  /** Only the worker whose step it is can start a job; all others go on with what they run. */
  lemma StepWorkers(s: State, step: Step)
    requires Enabled(s, step)
    ensures |Apply(s, step).workers| == |s.workers|
    ensures forall i :: 0 <= i < |s.workers| && i != Actor(s, step) ==>
              (s.workers[i].Running? || Apply(s, step).workers[i].Running? ==> Apply(s, step).workers[i] == s.workers[i])
    ensures StartsIn(s.workers, Apply(s, step).workers, Actor(s, step)) == if TakesJob(s, step) then [s.queue[0]] else []
  {
    match step
    case AddJob(_, _) =>
    case Turn(w) =>
    case Spurious(w) =>
    case Resume(w) =>
    case Finish(w) =>
    case Stop =>
    case Discard =>
  }

  lemma StepStarts(s: State, step: Step)
    requires Enabled(s, step)
    ensures |Apply(s, step).workers| == |s.workers|
    ensures StartedIn(s.workers, Apply(s, step).workers, |s.workers|) == if TakesJob(s, step) then [s.queue[0]] else []
  {
    StepWorkers(s, step);
    StartedInOne(s.workers, Apply(s, step).workers, |s.workers|, Actor(s, step));
  }

  lemma StepQueue(s: State, step: Step)
    requires Enabled(s, step)
    ensures Apply(s, step).queue
         == match step
            case AddJob(job, _) => s.queue + [job]
            case Discard => []
            case _ => if TakesJob(s, step) then s.queue[1..] else s.queue
  {
  }

  /** Workers that have left their loops start nothing. */
  lemma {:induction false} NothingStarted(s: State, steps: seq<Step>)
    requires Legal(s, steps) && AllExited(s)
    ensures StartedBy(s, steps) == []
    decreases |steps|
  {
    if steps != [] {
      StepStarts(s, steps[0]);
      if steps[0].Stop? {
        assert WakeAll(s.workers) == s.workers;
      }
      NothingStarted(Apply(s, steps[0]), steps[1..]);
    }
  }

  /** The jobs of a queue and those added to it are those started, then those thrown away, then those
      left: of one step and of what follows it, of both together. */
  lemma Accounts(q: seq<Job>, added: seq<Job>, started: seq<Job>, thrown: seq<Job>, next: seq<Job>,
                 added': seq<Job>, started': seq<Job>, thrown': seq<Job>, left: seq<Job>)
    requires q + added == started + thrown + next && next + added' == started' + thrown' + left
    requires thrown == [] || started' == []
    ensures q + (added + added') == (started + started') + (thrown + thrown') + left
  {
    assert q + (added + added') == (q + added) + added';
    assert started + thrown + next + added' == started + thrown + (next + added');
    if thrown == [] {
      assert started + thrown == started && thrown + thrown' == thrown';
    } else {
      assert started + started' == started && started' + thrown' == thrown';
    }
  }

  lemma StepAccounts(s: State, step: Step)
    requires Enabled(s, step)
    ensures var s' := Apply(s, step);
            s.queue + (if step.AddJob? then [step.job] else [])
            == StartedIn(s.workers, s'.workers, |s.workers|) + (if step.Discard? then s.queue else []) + s'.queue
  {
    StepStarts(s, step);
    StepQueue(s, step);
    NothingAdded(s.queue);
    NothingAdded(Apply(s, step).queue);
  }

  lemma NothingAdded(q: seq<Job>)
    ensures q + [] == [] + q + [] == [] + [] + q == q
    ensures q != [] ==> [q[0]] + [] + q[1..] == q
  {
  }

  lemma {:induction false} QueueFifo(s: State, steps: seq<Step>)
    requires Legal(s, steps)
    ensures s.queue + AddedBy(steps) == StartedBy(s, steps) + DiscardedBy(s, steps) + Exec(s, steps).queue
    decreases |steps|
  {
    if steps != [] {
      var s', rest := Apply(s, steps[0]), steps[1..];
      QueueFifo(s', rest);
      StepAccounts(s, steps[0]);
      if steps[0].Discard? {
        NothingStarted(s', rest);
      }
      Accounts(s.queue, if steps[0].AddJob? then [steps[0].job] else [],
               StartedIn(s.workers, s'.workers, |s.workers|), if steps[0].Discard? then s.queue else [], s'.queue,
               AddedBy(rest), StartedBy(s', rest), DiscardedBy(s', rest), Exec(s', rest).queue);
    }
  }

  /** Jobs are run in FIFO order, each exactly once: the jobs given to addJob are, in order, those the
      workers have started, then those stop() threw away, then those still queued. */
  lemma JobsFifo(numWorkers: nat, steps: seq<Step>)
    requires Legal(Start(numWorkers), steps)
    ensures var s0 := Start(numWorkers);
            AddedBy(steps) == StartedBy(s0, steps) + DiscardedBy(s0, steps) + Exec(s0, steps).queue
    ensures StartedBy(Start(numWorkers), steps) <= AddedBy(steps)
  {
    QueueFifo(Start(numWorkers), steps);
    assert [] + AddedBy(steps) == AddedBy(steps);
  }

  lemma {:induction false} ClosingIffStopped(s: State, steps: seq<Step>)
    requires Legal(s, steps)
    ensures Exec(s, steps).closing <==> s.closing || Stop in steps
    ensures |Exec(s, steps).workers| == |s.workers|
    decreases |steps|
  {
    if steps != [] {
      ClosingIffStopped(Apply(s, steps[0]), steps[1..]);
      StepWorkers(s, steps[0]);
      assert steps == [steps[0]] + steps[1..];
    }
  }

  /** No worker thread is lost: until stop() is called all of them are in their loops. */
  lemma WorkersStay(numWorkers: nat, steps: seq<Step>)
    requires Legal(Start(numWorkers), steps)
    ensures var s := Exec(Start(numWorkers), steps);
            && |s.workers| == numWorkers
            && (Stop !in steps ==> forall i :: 0 <= i < numWorkers ==> !s.workers[i].Exited?)
  {
    StartInv(numWorkers);
    RunInv(Start(numWorkers), steps);
    ClosingIffStopped(Start(numWorkers), steps);
  }

  // ---- A run that loses a wakeup ----

  lemma {:induction false} LegalConcat(s: State, a: seq<Step>, b: seq<Step>)
    requires Legal(s, a) && Legal(Exec(s, a), b)
    ensures Legal(s, a + b) && Exec(s, a + b) == Exec(Exec(s, a), b)
    decreases |a|
  {
    if a == [] {
      assert a + b == b;
    } else {
      LegalConcat(Apply(s, a[0]), a[1..], b);
      assert (a + b)[1..] == a[1..] + b;
    }
  }

  lemma OneStep(s: State, step: Step)
    requires Enabled(s, step)
    ensures Legal(s, [step]) && Exec(s, [step]) == Apply(s, step)
  {
    assert [step][1..] == [];
  }

  lemma Then(s: State, steps: seq<Step>, step: Step)
    requires Legal(s, steps) && Enabled(Exec(s, steps), step)
    ensures Legal(s, steps + [step]) && Exec(s, steps + [step]) == Apply(Exec(s, steps), step)
  {
    OneStep(Exec(s, steps), step);
    LegalConcat(s, steps, [step]);
  }

  /** One idle worker with nothing to do, and a counter of k. */
  function Idle(k: U32): State {
    Start(1).(numSleeping := k)
  }

  /** A worker that sleeps and wakes up spuriously k times leaves the counter at k. */
  lemma {:induction false} CounterReaches(k: nat) returns (steps: seq<Step>)
    requires k < CYCLE
    ensures Legal(Start(1), steps) && Exec(Start(1), steps) == Idle(k)
  {
    steps := [];
    if k > 0 {
      steps := CounterReaches(k - 1);
      var s := Idle(k - 1);
      Then(Start(1), steps, Turn(0));
      var asleep := s.(numSleeping := k, workers := [Waiting]);
      assert Apply(s, Turn(0)) == asleep;
      steps := steps + [Turn(0)];
      Then(Start(1), steps, Spurious(0));
      var woken := asleep.(workers := [Woken]);
      assert Apply(asleep, Spurious(0)) == woken;
      steps := steps + [Spurious(0)];
      Then(Start(1), steps, Resume(0));
      assert Apply(woken, Resume(0)) == Idle(k);
      steps := steps + [Resume(0)];
    }
  }

  /** A reachable lost wakeup: after 2^32 - 1 spurious wakeups the worker goes to sleep once more,
      the counter wraps to 0, and the next job is queued without anybody being notified. */
  lemma WakeupLost(job: Job) returns (steps: seq<Step>)
    ensures Legal(Start(1), steps) && !NoSleepWraps(Start(1), steps)
    ensures var s := Exec(Start(1), steps);
            s.queue == [job] && s.workers == [Waiting] && s.numSleeping == 0 && !s.closing
  {
    steps := CounterReaches(CYCLE - 1);
    var s := Idle(CYCLE - 1);
    Then(Start(1), steps, Turn(0));
    var asleep := s.(numSleeping := 0, workers := [Waiting]);
    assert Apply(s, Turn(0)) == asleep;
    steps := steps + [Turn(0)];
    Then(Start(1), steps, AddJob(job, 0));
    steps := steps + [AddJob(job, 0)];
    NoLostWakeup(1, steps);
    CountPositive([Waiting]);
  }

  // ---- Shutting down ----

  /** How many steps a worker can still take once the system is closing. */
  function Rank(x: Worker): nat {
    match x
    case Waiting => 4
    case Woken => 3
    case Running(_) => 2
    case AtTop => 1
    case Exited => 0
  }

  function TotalRank(ws: seq<Worker>): nat {
    if ws == [] then 0 else TotalRank(ws[..|ws| - 1]) + Rank(ws[|ws| - 1])
  }

  lemma {:induction false} RankUpdate(ws: seq<Worker>, w: nat, x: Worker)
    requires w < |ws|
    ensures TotalRank(ws[w := x]) == TotalRank(ws) + Rank(x) - Rank(ws[w])
  {
    var n := |ws| - 1;
    if w == n {
      assert ws[w := x][..n] == ws[..n];
    } else {
      assert ws[w := x][..n] == ws[..n][w := x];
      RankUpdate(ws[..n], w, x);
    }
  }

  lemma {:induction false} RankBound(ws: seq<Worker>)
    requires forall i :: 0 <= i < |ws| ==> !ws[i].Waiting?
    ensures TotalRank(ws) <= 3 * |ws|
    ensures TotalRank(ws) == 0 <==> forall i :: 0 <= i < |ws| ==> ws[i].Exited?
  {
    if ws != [] {
      var n := |ws| - 1;
      RankBound(ws[..n]);
      assert forall i :: 0 <= i < n ==> ws[..n][i] == ws[i];
    }
  }

  predicate IsWorkerStep(step: Step) {
    step.Turn? || step.Spurious? || step.Resume? || step.Finish?
  }

  /** While closing, every step a worker takes brings it closer to its exit, nobody goes back to
      waiting, and the other steps change no worker. */
  lemma ClosingStep(s: State, step: Step)
    requires Inv(s) && s.closing && Enabled(s, step)
    ensures Apply(s, step).closing
    ensures TotalRank(Apply(s, step).workers) == TotalRank(s.workers) || IsWorkerStep(step)
    ensures IsWorkerStep(step) ==> TotalRank(Apply(s, step).workers) < TotalRank(s.workers)
  {
    CountPositive(s.workers);
    match step
    case Turn(w) => RankUpdate(s.workers, w, Exited);
    case Resume(w) =>
      RankUpdate(s.workers, w, AtTop);
      if s.queue != [] {
        RankUpdate(s.workers, w, Running(s.queue[0]));
      }
    case Finish(w) => RankUpdate(s.workers, w, AtTop);
    case Stop => assert WakeAll(s.workers) == s.workers;
    case AddJob(_, _) =>
    case Discard =>
  }

  /** While closing, every worker that has not exited can take a step. */
  lemma ClosingProgress(s: State, w: nat)
    requires Inv(s) && s.closing && w < |s.workers| && !s.workers[w].Exited?
    ensures exists step :: IsWorkerStep(step) && Enabled(s, step)
  {
    CountPositive(s.workers);
    match s.workers[w]
    case AtTop => assert Enabled(s, Turn(w));
    case Woken => assert Enabled(s, Resume(w));
    case Running(_) => assert Enabled(s, Finish(w));
  }

  function WorkerSteps(steps: seq<Step>): nat {
    if steps == [] then 0 else (if IsWorkerStep(steps[0]) then 1 else 0) + WorkerSteps(steps[1..])
  }

  /** How many jobs worker w starts in a run. */
  ghost function JobsStarted(s: State, steps: seq<Step>, w: nat): nat
    requires Legal(s, steps)
    decreases |steps|
  {
    if steps == [] then 0
    else
      var s' := Apply(s, steps[0]);
      (if (steps[0] == Turn(w) || steps[0] == Resume(w)) && s'.workers[w].Running? then 1 else 0)
      + JobsStarted(s', steps[1..], w)
  }

  /** From the moment stop() sets m_Closing, no worker ever waits again, each starts at most one
      more job (and only if it had already been woken), and after at most three steps per worker
      all have exited. */
  lemma {:induction false} ShutdownTerminates(s: State, steps: seq<Step>, w: nat)
    requires Inv(s) && s.closing && Legal(s, steps) && w < |s.workers|
    ensures var s' := Exec(s, steps);
            && s'.closing && |s'.workers| == |s.workers|
            && (forall i :: 0 <= i < |s'.workers| ==> !s'.workers[i].Waiting?)
            && JobsStarted(s, steps, w) <= (if s.workers[w].Woken? then 1 else 0)
            && WorkerSteps(steps) <= TotalRank(s.workers) <= 3 * |s.workers|
            && (WorkerSteps(steps) == TotalRank(s.workers) ==> AllExited(s'))
    decreases |steps|
  {
    CountPositive(s.workers);
    RankBound(s.workers);
    if steps != [] {
      var s' := Apply(s, steps[0]);
      StepInv(s, steps[0]);
      ClosingStep(s, steps[0]);
      if steps[0].Stop? {
        assert WakeAll(s.workers) == s.workers;
      }
      ShutdownTerminates(s', steps[1..], w);
    }
  }

  // ---- The component ----

  class JobQueue {
    var closing: bool
    var numThreadsSleeping: U32
    var globalQueue: seq<Job>
    var workers: seq<Worker>       // stands for the threads and the condition variable

    ghost function View(): State
      reads this
    {
      State(closing, numThreadsSleeping, globalQueue, workers)
    }

    constructor (numWorkers: nat)
      ensures View() == Start(numWorkers)
    {
      closing, numThreadsSleeping, globalQueue := false, 0, [];
      workers := seq(numWorkers, _ => AtTop);
    }

    method AddJob(job: Job, wakes: nat)
      modifies this
      ensures View() == ApplyAdd(old(View()), job, wakes)
      ensures globalQueue == old(globalQueue) + [job]
    {
      globalQueue := globalQueue + [job];
      if numThreadsSleeping > 0 {
        NotifyOne(wakes);
        numThreadsSleeping := numThreadsSleeping - 1;
      }
    }

    /** m_QueueCv.notify_one(). */
    method NotifyOne(wakes: nat)
      modifies this`workers
      ensures workers == if wakes < |old(workers)| && old(workers)[wakes].Waiting?
                         then old(workers)[wakes := Woken] else old(workers)
    {
      if wakes < |workers| && workers[wakes].Waiting? {
        workers := workers[wakes := Woken];
      }
    }

    method ExtractJob() returns (job: Option<Job>)
      modifies this`globalQueue
      ensures old(globalQueue) == [] ==> job == None && globalQueue == []
      ensures old(globalQueue) != [] ==> job == Some(old(globalQueue)[0]) && globalQueue == old(globalQueue)[1..]
    {
      if globalQueue == [] {
        return None;
      }
      job := Some(globalQueue[0]);
      globalQueue := globalQueue[1..];
    }

    /** The worker loop from locking the mutex to unlocking it, or to the wait inside suspend. */
    method Turn(w: nat)
      requires w < |workers|
      modifies this
      ensures View() == ApplyTurn(old(View()), w)
      ensures !old(closing) && old(globalQueue) != [] ==>
                workers[w] == Running(old(globalQueue)[0]) && globalQueue == old(globalQueue)[1..]
    {
      if closing {
        workers := workers[w := Exited];
        return;
      }
      var job := ExtractJob();
      if job.Some? {
        workers := workers[w := Running(job.value)];
      } else {
        numThreadsSleeping := Wrap(numThreadsSleeping + 1);
        workers := workers[w := Waiting];
      }
    }

    /** The worker loop after suspend returned. */
    method AfterWait(w: nat)
      requires w < |workers|
      modifies this
      ensures View() == Extract(old(View()), w, AtTop)
      ensures old(globalQueue) != [] ==>
                workers[w] == Running(old(globalQueue)[0]) && globalQueue == old(globalQueue)[1..]
    {
      var job := ExtractJob();
      workers := workers[w := if job.Some? then Running(job.value) else AtTop];
    }

    /** The first critical section of stop(): m_Closing and notify_all. */
    method Close()
      modifies this
      ensures View() == old(View()).(closing := true, workers := WakeAll(old(workers)))
    {
      closing := true;
      workers := WakeAll(workers);   // m_QueueCv.notify_all()
    }

    /** The last critical section of stop(), after all workers were joined. */
    method Clear()
      modifies this`globalQueue
      ensures View() == old(View()).(queue := [])
    {
      while globalQueue != []
        invariant unchanged(`closing, `numThreadsSleeping, `workers)
        decreases |globalQueue|
      {
        globalQueue := globalQueue[1..];
      }
    }
  }
}
