/** The messages of one stream laid out on an unbounded number line: every fragment of every
    message ever enqueued has a place, and its sequence number is the u32 image of that place. */
module Layout {
  import opened Words

  /** All messages enqueued so far, each as the payloads of its fragments. */
  type Messages = seq<seq<Bytes>>

  /** Fragment `idx` of message `msg`. */
  datatype Slot = Slot(msg: nat, idx: nat)

  predicate IsSlot(ms: Messages, s: Slot) {
    s.msg < |ms| && s.idx < |ms[s.msg]|
  }

  /** The unbounded sequence number of the first fragment of message m. */
  function Start(ms: Messages, m: nat): nat
    requires m <= |ms|
  {
    if m == 0 then 0 else Start(ms, m - 1) + |ms[m - 1]|
  }

  /** How many sequence numbers have been assigned. */
  function Total(ms: Messages): nat {
    Start(ms, |ms|)
  }

  function SeqOf(ms: Messages, s: Slot): nat
    requires IsSlot(ms, s)
  {
    Start(ms, s.msg) + s.idx
  }

  /** The sequence number as it travels and as it keys the maps. */
  function KeyOf(ms: Messages, s: Slot): U32
    requires IsSlot(ms, s)
  {
    Wrap(SeqOf(ms, s))
  }

  /** A place whose number has not been reused since. */
  predicate Live(ms: Messages, s: Slot) {
    IsSlot(ms, s) && Total(ms) <= SeqOf(ms, s) + CYCLE
  }

  predicate NoneEmpty(ms: Messages) {
    forall m :: 0 <= m < |ms| ==> ms[m] != []
  }

  lemma {:induction false} StartAppend(ms: Messages, x: seq<Bytes>, m: nat)
    requires m <= |ms|
    ensures Start(ms + [x], m) == Start(ms, m)
  {
    if m > 0 {
      StartAppend(ms, x, m - 1);
    }
  }

  lemma TotalAppend(ms: Messages, x: seq<Bytes>)
    ensures Total(ms + [x]) == Total(ms) + |x|
    ensures forall s :: IsSlot(ms, s) ==> IsSlot(ms + [x], s) && SeqOf(ms + [x], s) == SeqOf(ms, s)
  {
    StartAppend(ms, x, |ms|);
    forall s | IsSlot(ms, s)
      ensures SeqOf(ms + [x], s) == SeqOf(ms, s)
    {
      StartAppend(ms, x, s.msg);
    }
  }

  lemma {:induction false} StartMonotone(ms: Messages, a: nat, b: nat)
    requires a <= b <= |ms|
    ensures Start(ms, a) <= Start(ms, b)
  {
    if a < b {
      StartMonotone(ms, a, b - 1);
    }
  }

  /** A fragment lies inside its message, and messages do not overlap. */
  lemma SlotBounds(ms: Messages, s: Slot, m: nat)
    requires IsSlot(ms, s) && m <= |ms|
    ensures SeqOf(ms, s) < Total(ms)
    ensures s.msg < m <==> SeqOf(ms, s) < Start(ms, m)
  {
    StartMonotone(ms, s.msg + 1, |ms|);
    if s.msg < m {
      StartMonotone(ms, s.msg + 1, m);
    } else {
      StartMonotone(ms, m, s.msg);
    }
  }

  lemma SeqInjective(ms: Messages, s: Slot, t: Slot)
    requires IsSlot(ms, s) && IsSlot(ms, t) && SeqOf(ms, s) == SeqOf(ms, t)
    ensures s == t
  {
    SlotBounds(ms, s, t.msg);
    SlotBounds(ms, t, s.msg);
  }

  /** Among live places the u32 number identifies the place. */
  lemma KeyInjective(ms: Messages, s: Slot, t: Slot)
    requires Live(ms, s) && Live(ms, t) && KeyOf(ms, s) == KeyOf(ms, t)
    ensures s == t
  {
    SlotBounds(ms, s, 0);
    SlotBounds(ms, t, 0);
    WrapInjective(SeqOf(ms, s), SeqOf(ms, t));
    SeqInjective(ms, s, t);
  }

  /** Every place of a message that starts within the last cycle is live. */
  lemma LiveFrom(ms: Messages, m: nat, s: Slot)
    requires m <= |ms| && Total(ms) <= Start(ms, m) + CYCLE
    requires IsSlot(ms, s) && m <= s.msg
    ensures Live(ms, s)
  {
    StartMonotone(ms, m, s.msg);
  }
}
