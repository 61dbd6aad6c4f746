/** Who owns which unit of memory: every unit obtained from sbrk is either free or part of
    exactly one live block. */
module Arena {
  import opened FreeList

  /** Unit x belongs to a live block. */
  ghost predicate Held(live: map<int, int>, x: int) {
    exists a :: a in live && In(Blk(a, live[a]), x)
  }

  ghost predicate Apart(live: map<int, int>) {
    forall a, b, x :: a in live && b in live && In(Blk(a, live[a]), x) && In(Blk(b, live[b]), x) ==> a == b
  }

  /** The units of the heap are split, without overlap, between the free blocks and the
      live ones; the base lies below all of them. */
  ghost predicate Partition(base: int, f: seq<Blk>, live: map<int, int>, heap: set<int>) {
    && Sorted(f) && f[0].addr == base
    && (forall a :: a in live ==> live[a] >= 1 && base < a)
    && Apart(live)
    && (forall x :: !(Covers(f, x) && Held(live, x)))
    && (forall x :: x in heap <==> Covers(f, x) || Held(live, x))
  }

  function Units(a: int, n: int): (s: set<int>) {
    set x | a <= x < a + n && In(Blk(a, n), x)
  }

  lemma {:induction false} UnitsSize(a: int, n: nat)
    ensures |Units(a, n)| == n
  {
    if n > 0 {
      UnitsSize(a, n - 1);
      assert Units(a, n) == Units(a, n - 1) + {a + n - 1};
    } else {
      assert Units(a, n) == {};
    }
  }

  lemma {:induction false} GrownSize(heap: set<int>, a: int, n: nat)
    requires Units(a, n) !! heap
    ensures |heap + Units(a, n)| == |heap| + n
  {
    UnitsSize(a, n);
  }

  // ---- Where a live block belongs ----

  /** The last block of f that starts below a. */
  function Before(f: seq<Blk>, a: int, n: nat): (j: nat)
    requires 0 < n <= |f| && f[0].addr < a
    ensures j < n && f[j].addr < a && forall i :: j < i < n ==> f[i].addr >= a
  {
    if f[n - 1].addr < a then n - 1 else Before(f, a, n - 1)
  }

  lemma {:induction false} LiveNotCovered(base: int, f: seq<Blk>, live: map<int, int>, heap: set<int>, a: int, i: nat,
      x: int)
    requires Partition(base, f, live, heap) && a in live && i < |f|
    ensures !(In(f[i], x) && In(Blk(a, live[a]), x))
  {
    assert In(f[i], x) ==> Covers(f, x);
    assert In(Blk(a, live[a]), x) ==> Held(live, x);
  }

  lemma {:induction false} LiveElsewhere(base: int, f: seq<Blk>, live: map<int, int>, heap: set<int>, i: nat)
    requires Partition(base, f, live, heap) && i < |f|
    ensures f[i].addr !in live
  {
    if f[i].addr in live {
      assert i > 0;
      LiveNotCovered(base, f, live, heap, f[i].addr, i, f[i].addr);
    }
  }

  /** If f[k] and its successor lie on either side of a live block, the block fits there. */
  lemma {:induction false} LiveFits(base: int, f: seq<Blk>, live: map<int, int>, heap: set<int>, a: int, k: nat)
    requires Partition(base, f, live, heap) && a in live && k < |f| && f[k].addr < a
    requires k + 1 < |f| ==> a <= f[k + 1].addr
    ensures Fits(f, k, Blk(a, live[a]))
  {
    LiveNotCovered(base, f, live, heap, a, k, a);
    if k + 1 < |f| {
      LiveNotCovered(base, f, live, heap, a, k + 1, f[k + 1].addr);
    }
  }

  lemma {:induction false} FitsOnce(f: seq<Blk>, j: nat, k: nat, b: Blk)
    requires Fits(f, j, b) && Fits(f, k, b)
    ensures j == k
  {
  }

  // ---- free, malloc and morecore keep the partition ----

  lemma {:induction false} HeldMinus(live: map<int, int>, a: int, x: int)
    requires a in live && Apart(live)
    ensures Held(live, x) <==> Held(live - {a}, x) || In(Blk(a, live[a]), x)
    ensures !(Held(live - {a}, x) && In(Blk(a, live[a]), x))
  {
    var rest := live - {a};
    if Held(rest, x) {
      var b :| b in rest && In(Blk(b, rest[b]), x);
      assert b in live && In(Blk(b, live[b]), x);
    }
    if Held(live, x) {
      var b :| b in live && In(Blk(b, live[b]), x);
      assert b != a ==> b in rest && In(Blk(b, rest[b]), x);
    }
  }

  lemma {:induction false} HeldPlus(live: map<int, int>, a: int, n: int, x: int)
    requires a !in live
    ensures Held(live[a := n], x) <==> Held(live, x) || In(Blk(a, n), x)
  {
    var more := live[a := n];
    if Held(more, x) {
      var b :| b in more && In(Blk(b, more[b]), x);
      assert b != a ==> b in live && In(Blk(b, live[b]), x);
    }
    if Held(live, x) {
      var b :| b in live && In(Blk(b, live[b]), x);
      assert b in more && In(Blk(b, more[b]), x);
    }
    assert a in more;
  }

  lemma {:induction false} ApartPlus(live: map<int, int>, a: int, n: int)
    requires Apart(live) && a !in live && forall x :: In(Blk(a, n), x) ==> !Held(live, x)
    ensures Apart(live[a := n])
  {
    var more := live[a := n];
    forall b, c, x | b in more && c in more && In(Blk(b, more[b]), x) && In(Blk(c, more[c]), x)
      ensures b == c
    {
      assert b != a ==> b in live && In(Blk(b, live[b]), x) && Held(live, x);
      assert c != a ==> c in live && In(Blk(c, live[c]), x) && Held(live, x);
    }
  }

  lemma {:induction false} FreeKeeps(base: int, f: seq<Blk>, live: map<int, int>, heap: set<int>, a: int, j: nat)
    requires Partition(base, f, live, heap) && a in live && Fits(f, j, Blk(a, live[a]))
    ensures Partition(base, Insert(f, j, Blk(a, live[a])), live - {a}, heap)
  {
    var b := Blk(a, live[a]);
    InsertSorted(f, j, b);
    forall x
      ensures !(Covers(Insert(f, j, b), x) && Held(live - {a}, x))
      ensures x in heap <==> Covers(Insert(f, j, b), x) || Held(live - {a}, x)
    {
      InsertCovers(f, j, b, x);
      HeldMinus(live, a, x);
    }
  }

  lemma {:induction false} TakeKeeps(base: int, f: seq<Blk>, live: map<int, int>, heap: set<int>, k: nat, n: int)
    requires Partition(base, f, live, heap) && 1 <= k < |f| && 1 <= n <= f[k].size
    ensures var t := Taken(f, k, n);
      t.addr !in live && Partition(base, Take(f, k, n), live[t.addr := n], heap)
  {
    var t := Taken(f, k, n);
    TakeSorted(f, k, n);
    assert In(f[k], t.addr) && Covers(f, t.addr);
    assert t.addr in live ==> In(Blk(t.addr, live[t.addr]), t.addr);
    TakenFree(base, f, live, heap, k, n);
    ApartPlus(live, t.addr, n);
    forall x
      ensures !(Covers(Take(f, k, n), x) && Held(live[t.addr := n], x))
      ensures x in heap <==> Covers(Take(f, k, n), x) || Held(live[t.addr := n], x)
    {
      TakeCovers(f, k, n, x);
      HeldPlus(live, t.addr, n, x);
    }
  }

  lemma {:induction false} TakenFree(base: int, f: seq<Blk>, live: map<int, int>, heap: set<int>, k: nat, n: int)
    requires Partition(base, f, live, heap) && 1 <= k < |f| && 1 <= n <= f[k].size
    ensures forall x :: In(Taken(f, k, n), x) ==> !Held(live, x)
  {
    forall x | In(Taken(f, k, n), x)
      ensures !Held(live, x)
    {
      assert In(f[k], x) && Covers(f, x);
    }
  }

  lemma {:induction false} GrowKeeps(base: int, f: seq<Blk>, live: map<int, int>, heap: set<int>, a: int, n: int)
    requires Partition(base, f, live, heap) && n >= 1 && base < a && Units(a, n) !! heap
    ensures a !in live && Partition(base, f, live[a := n], heap + Units(a, n))
  {
    assert a in Units(a, n);
    assert a in live ==> In(Blk(a, live[a]), a) && Held(live, a);
    forall x | In(Blk(a, n), x)
      ensures !Held(live, x) && !Covers(f, x)
    {
      assert x in Units(a, n);
    }
    ApartPlus(live, a, n);
    forall x
      ensures !(Covers(f, x) && Held(live[a := n], x))
      ensures x in heap + Units(a, n) <==> Covers(f, x) || Held(live[a := n], x)
    {
      HeldPlus(live, a, n, x);
    }
  }
}
