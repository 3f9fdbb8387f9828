/** Cutting a sequence into consecutive pieces, and joining pieces back. Both the
    fragmenter and the ack batcher cut this way. */
module Chunking {

  function Flatten<T>(xss: seq<seq<T>>): seq<T> {
    if xss == [] then [] else xss[0] + Flatten(xss[1..])
  }

  /** Consecutive pieces of n elements; only the last may be shorter, none is empty. */
  function Chunks<T>(xs: seq<T>, n: nat): (r: seq<seq<T>>)
    requires n > 0
    ensures xs == [] <==> r == []
  {
    if xs == [] then []
    else if |xs| <= n then [xs]
    else [xs[..n]] + Chunks(xs[n..], n)
  }

  lemma {:induction false} FlattenAppend<T>(a: seq<seq<T>>, b: seq<seq<T>>)
    ensures Flatten(a + b) == Flatten(a) + Flatten(b)
  {
    if a == [] {
      assert a + b == b;
    } else {
      FlattenAppend(a[1..], b);
      FlattenUnfold(a, b);
      Regroup(a[0], Flatten(a[1..]), Flatten(b));
    }
  }

  lemma FlattenUnfold<T>(a: seq<seq<T>>, b: seq<seq<T>>)
    requires a != []
    ensures Flatten(a + b) == a[0] + Flatten(a[1..] + b)
  {
    assert (a + b)[1..] == a[1..] + b;
  }

  lemma FlattenSnoc<T>(a: seq<seq<T>>, x: seq<T>)
    ensures Flatten(a + [x]) == Flatten(a) + x
  {
    FlattenAppend(a, [x]);
    assert [x][1..] == [];
    assert Flatten([x]) == x;
  }

  /** Cutting loses, adds and reorders nothing. */
  lemma {:induction false} ChunksConserve<T>(xs: seq<T>, n: nat)
    requires n > 0
    ensures Flatten(Chunks(xs, n)) == xs
  {
    if xs == [] {
    } else if |xs| <= n {
      assert [xs][1..] == [];
    } else {
      ChunksConserve(xs[n..], n);
      assert ([xs[..n]] + Chunks(xs[n..], n))[1..] == Chunks(xs[n..], n);
    }
  }

  /** All pieces but the last are full, and none is empty. */
  lemma {:induction false} ChunksSizes<T>(xs: seq<T>, n: nat)
    requires n > 0
    ensures forall i :: 0 <= i < |Chunks(xs, n)| ==> 1 <= |Chunks(xs, n)[i]| <= n
    ensures forall i :: 0 <= i < |Chunks(xs, n)| - 1 ==> |Chunks(xs, n)[i]| == n
  {
    if |xs| > n {
      ChunksSizes(xs[n..], n);
      assert Chunks(xs, n) == [xs[..n]] + Chunks(xs[n..], n);
    }
  }

  /** The number of pieces is |xs| / n rounded up (said without division: one piece fewer would not
      hold everything). */
  lemma {:induction false} ChunksCount<T>(xs: seq<T>, n: nat)
    requires n > 0 && xs != []
    ensures (|Chunks(xs, n)| - 1) * n < |xs| <= |Chunks(xs, n)| * n
  {
    if |xs| > n {
      ChunksCount(xs[n..], n);
      OneMore(|Chunks(xs[n..], n)|, n);
    }
  }

  lemma OneMore(k: nat, n: nat)
    ensures (k + 1) * n == k * n + n == (k - 1) * n + n + n
  {
  }

  function Map<S, T>(f: S -> T, xs: seq<S>): (r: seq<T>)
    ensures |r| == |xs|
    ensures forall i :: 0 <= i < |xs| ==> r[i] == f(xs[i])
  {
    seq(|xs|, i requires 0 <= i < |xs| => f(xs[i]))
  }

  lemma FlattenMember<T>(xss: seq<seq<T>>, x: T)
    ensures x in Flatten(xss) <==> exists i :: 0 <= i < |xss| && x in xss[i]
  {
    if x in Flatten(xss) {
      var i := FlattenSource(xss, x);
      assert x in xss[i];
    }
    if i :| 0 <= i < |xss| && x in xss[i] {
      FlattenHas(xss, i, x);
    }
  }

  lemma {:induction false} FlattenHas<T>(xss: seq<seq<T>>, i: nat, x: T)
    requires i < |xss| && x in xss[i]
    ensures x in Flatten(xss)
  {
    if i > 0 {
      FlattenHas(xss[1..], i - 1, x);
    }
  }

  lemma {:induction false} FlattenSource<T>(xss: seq<seq<T>>, x: T) returns (i: nat)
    requires x in Flatten(xss)
    ensures i < |xss| && x in xss[i]
  {
    if x in xss[0] {
      i := 0;
    } else {
      i := FlattenSource(xss[1..], x);
      i := i + 1;
    }
  }

  lemma Regroup<T>(a: seq<T>, b: seq<T>, c: seq<T>)
    ensures a + b + c == a + (b + c)
  {
  }
}
