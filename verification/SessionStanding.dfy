/** How a link stands on a channel of a session, told from the calls made so far, and what that says
    about the packets it was given. Nothing here depends on how runs are put together. */
module SessionStanding {
  import opened Chunking
  import opened SessionBuffer
  import opened SessionSteps

  /** How a link stands on a channel, told from the calls alone.
      got:       buffered packets were ever sent to it;
      missed:    a buffered send passed it over (it was excluded, or not yet in the list);
      twice:     it was replayed to a second time, or replayed to between the two halves of a send
                 that then came to it;
      overtaken: a buffered send came to it before an earlier one did;
      owed:      the buffered sends since the replay that have not been at it yet, in order. */
  datatype Standing = Standing(got: bool, missed: bool, twice: bool, overtaken: bool, owed: seq<Call>)

  predicate Intact(t: Standing) {
    !t.missed && !t.twice && !t.overtaken
  }

  function Drop(owed: seq<Call>, q: Call): seq<Call> {
    if owed == [] then []
    else if owed[0] == q then owed[1..]
    else [owed[0]] + Drop(owed[1..], q)
  }

  /** Call q is done with the link, which got the packets or was passed over. */
  function TrackLeave(t: Standing, q: Call, gets: bool): Standing {
    if q !in t.owed then (if gets then t.(got := true, twice := true) else t)
    else if gets then t.(got := true, overtaken := t.overtaken || t.owed[0] != q, owed := Drop(t.owed, q))
    else t.(missed := true, owed := Drop(t.owed, q))
  }

  // ---- What the standing means ----

  function Data(owed: seq<Call>): seq<Packet> {
    if owed == [] then [] else owed[0].data + Data(owed[1..])
  }

  ghost predicate NotOpen(open: set<Call>, msg: nat) {
    forall q :: q in open ==> q.msg != msg
  }

  /** p does not come before q. */
  ghost predicate NotBefore<T>(xs: seq<T>, p: T, q: T) {
    forall x, y :: 0 <= x < y < |xs| ==> !(xs[x] == p && xs[y] == q)
  }

  /** A buffered packet was not given and will not be. */
  ghost predicate Missing(reached: seq<Packet>, buffered: seq<Packet>, open: set<Call>) {
    exists p :: p in buffered && p !in reached && NotOpen(open, p.msg)
  }

  /** Of two buffered packets the later one was given, and not after the earlier one. */
  ghost predicate Swapped(reached: seq<Packet>, buffered: seq<Packet>, open: set<Call>) {
    exists i, j :: 0 <= i < j < |buffered| && SwappedAt(reached, buffered[i], buffered[j], open)
  }

  ghost predicate SwappedAt(reached: seq<Packet>, p: Packet, q: Packet, open: set<Call>) {
    q in reached && NotOpen(open, q.msg) && NotBefore(reached, p, q)
  }

  ghost predicate Broken(reached: seq<Packet>, buffered: seq<Packet>, open: set<Call>) {
    !Distinct(reached) || Missing(reached, buffered, open) || Swapped(reached, buffered, open)
  }

  ghost predicate Stands(reached: seq<Packet>, buffered: seq<Packet>, open: set<Call>, served: bool, c: Channel, t: Standing) {
    && (t.got <==> reached != [])
    && (served ==> OwedOk(reached, open, c, t.owed) && Shows(reached, buffered, open, t))
  }

  /** What is owed is under way; of what is under way and not owed, the link already has packets. */
  ghost predicate OwedOk(reached: seq<Packet>, open: set<Call>, c: Channel, owed: seq<Call>) {
    && Distinct(owed)
    && (forall q :: q in owed ==> q in open && q.ch == c && q.data != [])
    && (forall q :: q in open && q.ch == c && q.data != [] && q !in owed ==> q.data[0] in reached)
  }

  ghost predicate Shows(reached: seq<Packet>, buffered: seq<Packet>, open: set<Call>, t: Standing) {
    if Intact(t) then reached + Data(t.owed) == buffered else Broken(reached, buffered, open)
  }

  /** The calls under way: told apart by their numbers, their packets numbered alike and buffered. */
  ghost predicate OpenOk(open: set<Call>, buffered: seq<Packet>, c: Channel) {
    && (forall q, r :: q in open && r in open && q.msg == r.msg ==> q == r)
    && (forall q, p :: q in open && q.ch == c && p in q.data ==> p.msg == q.msg && p in buffered)
  }

  lemma BrokenIsInconsistent(reached: seq<Packet>, buffered: seq<Packet>, open: set<Call>)
    requires Distinct(buffered) && Broken(reached, buffered, open)
    ensures reached != buffered
  {
  }

  lemma {:induction false} DataSnoc(owed: seq<Call>, q: Call)
    ensures Data(owed + [q]) == Data(owed) + q.data
  {
    if owed == [] {
      assert [q][1..] == [];
    } else {
      assert (owed + [q])[1..] == owed[1..] + [q];
      DataSnoc(owed[1..], q);
    }
  }

  lemma {:induction false} DataMember(owed: seq<Call>, q: Call, p: Packet)
    requires q in owed && p in q.data
    ensures p in Data(owed)
  {
    if owed[0] != q {
      DataMember(owed[1..], q, p);
    }
  }

  lemma {:induction false} DropFacts(owed: seq<Call>, q: Call)
    requires Distinct(owed)
    ensures Distinct(Drop(owed, q)) && q !in Drop(owed, q)
    ensures forall r :: r in Drop(owed, q) <==> r in owed && r != q
  {
    if owed != [] {
      DistinctCons(owed[0], owed[1..]);
      assert owed == [owed[0]] + owed[1..];
      if owed[0] != q {
        DropFacts(owed[1..], q);
        DistinctCons(owed[0], Drop(owed[1..], q));
      }
    }
  }

  lemma DistinctCons<T>(x: T, xs: seq<T>)
    ensures Distinct([x] + xs) <==> x !in xs && Distinct(xs)
  {
    var all := [x] + xs;
    if Distinct(all) {
      forall i, j | 0 <= i < j < |xs|
        ensures xs[i] != xs[j]
      {
        assert all[i + 1] != all[j + 1];
      }
      forall i | 0 <= i < |xs|
        ensures xs[i] != x
      {
        assert all[0] != all[i + 1];
      }
    }
  }

  lemma DistinctSnoc<T>(xs: seq<T>, x: T)
    requires Distinct(xs) && x !in xs
    ensures Distinct(xs + [x])
  {
  }

  // ---- What is broken stays broken ----

  lemma BrokenAfterBuffer(reached: seq<Packet>, buffered: seq<Packet>, open: set<Call>, q: Call)
    requires Broken(reached, buffered, open) && Older(buffered, q.msg)
    ensures Broken(reached, buffered + q.data, open + {q})
  {
    var more := buffered + q.data;
    if Missing(reached, buffered, open) {
      var p :| p in buffered && p !in reached && NotOpen(open, p.msg);
      assert p in more && NotOpen(open + {q}, p.msg);
    } else if Swapped(reached, buffered, open) {
      var i, j :| 0 <= i < j < |buffered| && SwappedAt(reached, buffered[i], buffered[j], open);
      assert buffered[j] in buffered;
      assert SwappedAt(reached, more[i], more[j], open + {q});
    }
  }

  lemma BrokenAfterLeave(reached: seq<Packet>, buffered: seq<Packet>, open: set<Call>, q: Call, given: seq<Packet>)
    requires Broken(reached, buffered, open) && q in open && forall p :: p in given ==> p.msg == q.msg
    ensures Broken(reached + given, buffered, open - {q})
  {
    if !Distinct(reached) {
      KeepsRepeats(reached, given);
    } else if Missing(reached, buffered, open) {
      var p :| p in buffered && p !in reached && NotOpen(open, p.msg);
      assert p !in reached + given && NotOpen(open - {q}, p.msg);
    } else {
      var i, j :| 0 <= i < j < |buffered| && SwappedAt(reached, buffered[i], buffered[j], open);
      StaysSwapped(reached, given, buffered[i], buffered[j]);
      assert SwappedAt(reached + given, buffered[i], buffered[j], open - {q});
    }
  }

  lemma KeepsRepeats<T>(xs: seq<T>, more: seq<T>)
    requires !Distinct(xs)
    ensures !Distinct(xs + more)
  {
    var i, j :| 0 <= i < j < |xs| && xs[i] == xs[j];
    assert (xs + more)[i] == (xs + more)[j];
  }

  lemma StaysSwapped<T>(xs: seq<T>, more: seq<T>, p: T, q: T)
    requires q in xs && NotBefore(xs, p, q) && q !in more
    ensures q in xs + more && NotBefore(xs + more, p, q)
  {
    forall x, y | 0 <= x < y < |xs + more|
      ensures !((xs + more)[x] == p && (xs + more)[y] == q)
    {
      if y >= |xs| {
        assert (xs + more)[y] in more;
      }
    }
  }

  // ---- How the standing changes ----

  lemma BufferStands(reached: seq<Packet>, buffered: seq<Packet>, open: set<Call>, served: bool, c: Channel, t: Standing, q: Call)
    requires Stands(reached, buffered, open, served, c, t) && Older(buffered, q.msg)
    requires q.ch == c && q.data != [] && forall r :: r in open ==> r.msg < q.msg
    ensures Stands(reached, buffered + q.data, open + {q}, served, c, if served then t.(owed := t.owed + [q]) else t)
  {
    if served {
      DistinctSnoc(t.owed, q);
      DataSnoc(t.owed, q);
      if Intact(t) {
        Regroup(reached, Data(t.owed), q.data);
      } else {
        BrokenAfterBuffer(reached, buffered, open, q);
      }
    }
  }

  /** Calls on other channels, or without packets, do not matter. */
  lemma OtherBufferStands(reached: seq<Packet>, buffered: seq<Packet>, open: set<Call>, served: bool, c: Channel, t: Standing, q: Call)
    requires Stands(reached, buffered, open, served, c, t) && Older(buffered, q.msg)
    requires (q.ch != c || q.data == []) && forall r :: r in open ==> r.msg < q.msg
    ensures Stands(reached, buffered, open + {q}, served, c, t)
  {
    if served && !Intact(t) {
      BrokenAfterBuffer(reached, buffered, open, q.(data := []));
      assert buffered + [] == buffered;
      SameNumbers(reached, buffered, open + {q.(data := [])}, open + {q});
    }
  }

  lemma SameNumbers(reached: seq<Packet>, buffered: seq<Packet>, open: set<Call>, open': set<Call>)
    requires Broken(reached, buffered, open)
    requires forall m :: NotOpen(open, m) ==> NotOpen(open', m)
    ensures Broken(reached, buffered, open')
  {
    if Missing(reached, buffered, open) {
      var p :| p in buffered && p !in reached && NotOpen(open, p.msg);
      assert NotOpen(open', p.msg);
    } else if Swapped(reached, buffered, open) {
      var i, j :| 0 <= i < j < |buffered| && SwappedAt(reached, buffered[i], buffered[j], open);
      assert SwappedAt(reached, buffered[i], buffered[j], open');
    }
  }

  lemma OtherLeaveStands(reached: seq<Packet>, buffered: seq<Packet>, open: set<Call>, served: bool, c: Channel, t: Standing, q: Call)
    requires Stands(reached, buffered, open, served, c, t)
    requires served ==> q.ch != c || q.data == []
    ensures Stands(reached, buffered, open - {q}, served, c, t)
  {
    if served && !Intact(t) {
      SameNumbers(reached, buffered, open, open - {q});
    }
  }

  /** A call of the channel is done with a link that counts. */
  lemma LeaveStands(reached: seq<Packet>, buffered: seq<Packet>, open: set<Call>, c: Channel, t: Standing, q: Call, gets: bool)
    requires Stands(reached, buffered, open, true, c, t) && OpenOk(open, buffered, c) && Distinct(buffered)
    requires q in open && q.ch == c && q.data != []
    ensures Stands(if gets then reached + q.data else reached, buffered, open - {q}, true, c, TrackLeave(t, q, gets))
  {
    LeaveOwed(reached, open, c, t, q, gets);
    LeaveShows(reached, buffered, open, c, t, q, gets);
  }

  lemma LeaveOwed(reached: seq<Packet>, open: set<Call>, c: Channel, t: Standing, q: Call, gets: bool)
    requires OwedOk(reached, open, c, t.owed)
    ensures OwedOk(if gets then reached + q.data else reached, open - {q}, c, TrackLeave(t, q, gets).owed)
  {
    DropFacts(t.owed, q);
  }

  lemma LeaveShows(reached: seq<Packet>, buffered: seq<Packet>, open: set<Call>, c: Channel, t: Standing, q: Call, gets: bool)
    requires OwedOk(reached, open, c, t.owed) && Shows(reached, buffered, open, t)
    requires OpenOk(open, buffered, c) && Distinct(buffered) && q in open && q.ch == c && q.data != []
    ensures Shows(if gets then reached + q.data else reached, buffered, open - {q}, TrackLeave(t, q, gets))
  {
    assert reached + [] == reached;
    if !Intact(t) {
      BrokenAfterLeave(reached, buffered, open, q, if gets then q.data else []);
    } else if q !in t.owed {
      if gets {
        TwiceIsBroken(reached, q.data);
      }
    } else if gets && t.owed[0] == q {
      Regroup(reached, q.data, Data(t.owed[1..]));
    } else if gets {
      OvertakingIsBroken(reached, buffered, open, c, t.owed, q);
    } else {
      PassingIsBroken(reached, buffered, open, c, t.owed, q);
    }
  }

  lemma TwiceIsBroken<T>(xs: seq<T>, ys: seq<T>)
    requires ys != [] && ys[0] in xs
    ensures !Distinct(xs + ys)
  {
    var i :| 0 <= i < |xs| && xs[i] == ys[0];
    assert (xs + ys)[i] == (xs + ys)[|xs|];
  }

  lemma PassingIsBroken(reached: seq<Packet>, buffered: seq<Packet>, open: set<Call>, c: Channel, owed: seq<Call>, q: Call)
    requires reached + Data(owed) == buffered && Distinct(buffered) && OpenOk(open, buffered, c)
    requires q in open && q.ch == c && q.data != [] && q in owed
    ensures Missing(reached, buffered, open - {q})
  {
    var p := q.data[0];
    DataMember(owed, q, p);
    DistinctParts(reached, Data(owed), p);
    assert p in buffered && NotOpen(open - {q}, p.msg);
  }

  lemma DistinctParts<T>(xs: seq<T>, ys: seq<T>, y: T)
    requires Distinct(xs + ys) && y in ys
    ensures y !in xs
  {
    var j :| 0 <= j < |ys| && ys[j] == y;
    assert (xs + ys)[|xs| + j] == y;
    forall i | 0 <= i < |xs|
      ensures xs[i] != y
    {
      assert (xs + ys)[i] != (xs + ys)[|xs| + j];
    }
  }

  lemma {:induction false} OvertakingIsBroken(reached: seq<Packet>, buffered: seq<Packet>, open: set<Call>, c: Channel, owed: seq<Call>, q: Call)
    requires reached + Data(owed) == buffered && Distinct(buffered) && OpenOk(open, buffered, c)
    requires forall r :: r in owed ==> r in open && r.ch == c && r.data != []
    requires q in owed && owed[0] != q
    ensures Swapped(reached + q.data, buffered, open - {q})
  {
    var first := owed[0];
    assert first in owed && q in owed[1..];
    DataMember(owed[1..], q, q.data[0]);
    var i := |reached|;
    var j := PlaceAfter(reached, first.data, Data(owed[1..]), q.data[0]);
    NotGiven(reached, Data(owed), q.data, first.data[0]);
    assert SwappedAt(reached + q.data, buffered[i], buffered[j], open - {q});
  }

  lemma PlaceAfter<T>(xs: seq<T>, ys: seq<T>, zs: seq<T>, z: T) returns (j: nat)
    requires ys != [] && z in zs
    ensures |xs| < j < |xs + (ys + zs)| && (xs + (ys + zs))[j] == z && (xs + (ys + zs))[|xs|] == ys[0]
  {
    var k :| 0 <= k < |zs| && zs[k] == z;
    j := |xs| + |ys| + k;
  }

  lemma NotGiven(reached: seq<Packet>, later: seq<Packet>, given: seq<Packet>, p: Packet)
    requires Distinct(reached + later) && p in later && forall x :: x in given ==> x.msg != p.msg
    ensures p !in reached + given
  {
    DistinctParts(reached, later, p);
  }

  /** The channel is replayed to the link. */
  lemma ReplayStands(reached: seq<Packet>, buffered: seq<Packet>, open: set<Call>, served: bool, c: Channel, t: Standing)
    requires Stands(reached, buffered, open, served, c, t) && OpenOk(open, buffered, c) && Distinct(buffered)
    requires forall p :: p in reached ==> p in buffered
    ensures Stands(reached + buffered, buffered, open, true, c, Standing(buffered != [], false, t.got, false, []))
  {
    if t.got {
      assert reached[0] in reached;
      OverlapRepeats(reached, buffered);
    } else {
      assert reached + buffered + Data([]) == buffered;
    }
  }

  lemma OverlapRepeats<T>(xs: seq<T>, ys: seq<T>)
    requires xs != [] && xs[0] in ys
    ensures !Distinct(xs + ys)
  {
    var j :| 0 <= j < |ys| && ys[j] == xs[0];
    assert (xs + ys)[0] == (xs + ys)[|xs| + j];
  }

  lemma StandsLess(reached: seq<Packet>, buffered: seq<Packet>, open: set<Call>, served: bool, served': bool, c: Channel, t: Standing)
    requires Stands(reached, buffered, open, served, c, t) && (served' ==> served)
    ensures Stands(reached, buffered, open, served', c, t)
  {
  }
}
