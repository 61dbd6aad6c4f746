/** The fixed arrays behind the multi-level feedback queue: hole-free sequences of
    process slots, shifted in place. */
module MlfqQueue {

  const NPROC: nat := 64
  const NULL: int := -1

  /** The array holds exactly the sequence s, without holes. */
  predicate Holds(q: seq<int>, s: seq<int>) {
    && |s| <= |q| == NPROC
    && (forall k :: 0 <= k < |s| ==> q[k] == s[k] && s[k] != NULL)
    && (forall k :: |s| <= k < NPROC ==> q[k] == NULL)
  }

  /** First free place of the array. */
  method FindNull(q: array<int>, ghost s: seq<int>) returns (i: nat)
    requires Holds(q[..], s)
    ensures i == |s|
  {
    i := 0;
    while i < NPROC && q[i] != NULL
      invariant 0 <= i <= |s|
    {
      i := i + 1;
    }
  }

  /** initpush: shift everything up by one and put p in front. */
  method PutFirst(q: array<int>, p: int, ghost s: seq<int>) returns (ok: bool)
    requires Holds(q[..], s) && p != NULL
    modifies q
    ensures ok <==> |s| < NPROC
    ensures Holds(q[..], if ok then [p] + s else s)
  {
    var i := FindNull(q, s);
    if i == NPROC {
      return false;
    }
    var j := i;
    while j > 0
      invariant 0 <= j <= i
      invariant forall k :: 0 <= k < j ==> q[k] == s[k]
      invariant forall k :: j < k <= i ==> q[k] == s[k - 1]
      invariant forall k :: i < k < NPROC ==> q[k] == NULL
    {
      q[j] := q[j - 1];
      j := j - 1;
    }
    q[0] := p;
    return true;
  }

  /** push: append. */
  method PutLast(q: array<int>, p: int, ghost s: seq<int>) returns (ok: bool)
    requires Holds(q[..], s) && p != NULL
    modifies q
    ensures ok <==> |s| < NPROC
    ensures Holds(q[..], if ok then s + [p] else s)
  {
    var i := FindNull(q, s);
    if i == NPROC {
      return false;
    }
    q[i] := p;
    return true;
  }

  /** The shifting loop of pop: close the gap at position j. */
  method RemoveAt(q: array<int>, j: nat, ghost s: seq<int>)
    requires Holds(q[..], s) && j < |s|
    modifies q
    ensures Holds(q[..], s[..j] + s[j + 1..])
  {
    var k := j;
    while k < NPROC - 1
      invariant j <= k <= NPROC - 1
      invariant forall x :: 0 <= x < j ==> q[x] == s[x]
      invariant forall x :: j <= x < k ==> q[x] == if x + 1 < |s| then s[x + 1] else NULL
      invariant forall x :: k <= x < NPROC ==> q[x] == if x < |s| then s[x] else NULL
    {
      q[k] := q[k + 1];
      k := k + 1;
    }
    q[NPROC - 1] := NULL;
  }

  /** Where p stands in the array, or NPROC. */
  method Search(q: array<int>, p: int, ghost s: seq<int>) returns (j: nat)
    requires Holds(q[..], s) && p != NULL
    ensures j <= NPROC
    ensures j < NPROC ==> j < |s| && s[j] == p && forall k :: 0 <= k < j ==> s[k] != p
    ensures j == NPROC ==> p !in s
  {
    j := 0;
    while j < NPROC && q[j] != p
      invariant 0 <= j <= NPROC
      invariant forall k :: 0 <= k < j ==> q[k] != p
    {
      j := j + 1;
    }
  }

  // ---- Rotation ----

  /** The place after index, wrapping around. */
  function After(index: int): (k: nat)
    requires -1 <= index < NPROC
    ensures k < NPROC
  {
    if index == NPROC - 1 then 0 else index + 1
  }

  /** How the code computes it. */
  method Advance(index: int) returns (k: nat)
    requires -1 <= index < NPROC
    ensures k == After(index)
  {
    k := (index + 1) % NPROC;
  }

  /** The place n stops after place k. */
  function Place(k: nat, n: nat): (at: nat)
    requires k < NPROC && n <= NPROC
    ensures at < NPROC
  {
    if k + n < NPROC then k + n else k + n - NPROC
  }

  /** The elements of s met on the first n stops of a walk that starts at place k and
      wraps around after NPROC places. */
  function Walk(s: seq<int>, k: nat, n: nat): (r: seq<int>)
    requires k < NPROC && n <= NPROC
  {
    if n == 0 then []
    else
      var at := Place(k, n - 1);
      Walk(s, k, n - 1) + (if at < |s| then [s[at]] else [])
  }

  /** s started at place k: a rotation, or s itself if the start lies past its end. */
  function Rotated(s: seq<int>, k: nat): (r: seq<int>) {
    if k <= |s| then s[k..] + s[..k] else s
  }

  lemma {:induction false} WalkToEnd(s: seq<int>, k: nat, n: nat)
    requires |s| <= NPROC && k < NPROC && k + n <= NPROC
    ensures Walk(s, k, n) == if k >= |s| then [] else if k + n <= |s| then s[k..k + n] else s[k..]
  {
    if n > 0 {
      WalkToEnd(s, k, n - 1);
    }
  }

  lemma {:induction false} WalkAround(s: seq<int>, k: nat, n: nat)
    requires |s| <= NPROC && k < NPROC && NPROC - k <= n <= NPROC
    ensures Walk(s, k, n) ==
      (if k >= |s| then [] else s[k..]) + (if k + n - NPROC <= |s| then s[..k + n - NPROC] else s)
  {
    if n == NPROC - k {
      WalkToEnd(s, k, n);
      assert s[..0] == [];
    } else {
      WalkAround(s, k, n - 1);
      var m := k + n - 1 - NPROC;
      if m < |s| {
        assert s[..m + 1] == s[..m] + [s[m]];
      }
    }
  }

  /** A full walk is a rotation: nothing lost, nothing twice. */
  lemma {:induction false} FullWalk(s: seq<int>, k: nat)
    requires |s| <= NPROC && k < NPROC
    ensures Walk(s, k, NPROC) == Rotated(s, k)
  {
    WalkAround(s, k, NPROC);
    if k >= |s| {
      assert s[|s|..] == [];
    }
  }

  /** Place x is among the first n stops of a walk from k. */
  predicate Visited(k: nat, n: nat, x: nat)
    requires k < NPROC && n <= NPROC
  {
    if k <= x then x < k + n else x + NPROC < k + n
  }

  /** The array of s after the first n stops of a walk from k have been emptied. */
  ghost function Rest(s: seq<int>, k: nat, n: nat): (r: seq<int>)
    requires k < NPROC && n <= NPROC
  {
    seq(NPROC, x requires 0 <= x < NPROC => if x < |s| && !Visited(k, n, x) then s[x] else NULL)
  }

  lemma {:induction false} RestEnds(q: seq<int>, s: seq<int>, k: nat)
    requires Holds(q, s) && k < NPROC
    ensures Rest(s, k, 0) == q && Holds(Rest(s, k, NPROC), [])
  {
  }

  /** One stop of the walk: the place it comes to is still as s left it, and emptying it
      gives the next array. */
  lemma {:induction false} RestStep(s: seq<int>, k: nat, n: nat, at: nat)
    requires k < NPROC && n < NPROC && at == Place(k, n)
    ensures Rest(s, k, n)[at] == if at < |s| then s[at] else NULL
    ensures Rest(s, k, n + 1) == Rest(s, k, n)[at := NULL]
  {
    assert !Visited(k, n, at);
    forall x: nat | x < NPROC
      ensures Visited(k, n + 1, x) <==> Visited(k, n, x) || x == at
    {
    }
  }

  lemma {:induction false} WalkLength(s: seq<int>, k: nat, n: nat)
    requires |s| <= NPROC && k < NPROC && n <= NPROC
    ensures |Walk(s, k, n)| <= |s|
  {
    if k + n <= NPROC {
      WalkToEnd(s, k, n);
    } else {
      WalkAround(s, k, n);
    }
  }

  /** What one stop of the walk adds, and that there is room for it. */
  lemma {:induction false} WalkStep(s: seq<int>, t: seq<int>, k: nat, n: nat, at: nat)
    requires |s| + |t| <= NPROC && k < NPROC && n < NPROC && at == Place(k, n)
    requires forall x :: 0 <= x < |s| ==> s[x] != NULL
    ensures var now := Rest(s, k, n)[at];
      && t + Walk(s, k, n + 1) == t + Walk(s, k, n) + (if now != NULL then [now] else [])
      && (now != NULL ==> |t + Walk(s, k, n)| < NPROC)
    ensures Rest(s, k, n + 1) == Rest(s, k, n)[at := NULL]
  {
    RestStep(s, k, n, at);
    WalkLength(s, k, n + 1);
  }

  /** Body of boostpriority's inner loop: move what place rr holds, if anything. */
  method MoveOne(from: array<int>, to: array<int>, rr: nat, ghost u: seq<int>)
    requires from != to && from.Length == NPROC && rr < NPROC && Holds(to[..], u)
    requires from[rr] != NULL ==> |u| < NPROC
    modifies from, to
    ensures from[..] == old(from[..])[rr := NULL]
    ensures Holds(to[..], u + if old(from[rr]) != NULL then [old(from[rr])] else [])
  {
    if from[rr] != NULL {
      var ok := PutLast(to, from[rr], u);
      from[rr] := NULL;
    }
    assert from[..] == old(from[..])[rr := NULL];
  }
}
