/** The free list of the K&R allocator as a value: blocks in address order, headed by the
    empty base block, no two of them adjacent. Addresses count header-sized units. */
module FreeList {

  datatype Blk = Blk(addr: int, size: int)

  predicate Sorted(f: seq<Blk>) {
    && 0 < |f|
    && f[0].size == 0
    && (forall i :: 1 <= i < |f| ==> f[i].size >= 1)
    && (forall i, j :: 0 <= i < j < |f| ==> f[i].addr + f[i].size < f[j].addr)
  }

  predicate In(b: Blk, x: int) {
    b.addr <= x < b.addr + b.size
  }

  /** Unit x belongs to a free block. */
  ghost predicate Covers(f: seq<Blk>, x: int) {
    exists i :: 0 <= i < |f| && In(f[i], x)
  }

  function Next(f: seq<Blk>, i: nat): (k: nat)
    requires i < |f|
    ensures k < |f|
  {
    if i == |f| - 1 then 0 else i + 1
  }

  /** The header of block i is in memory and points to the next block. */
  ghost predicate Header(f: seq<Blk>, ptr: map<int, int>, size: map<int, int>, i: nat)
    requires i < |f|
  {
    && f[i].addr in ptr && ptr[f[i].addr] == f[Next(f, i)].addr
    && f[i].addr in size && size[f[i].addr] == f[i].size
  }

  /** Headers in memory: each free block points to the next, the last to the base. */
  ghost predicate Linked(f: seq<Blk>, ptr: map<int, int>, size: map<int, int>) {
    forall i {:trigger Header(f, ptr, size, i)} :: 0 <= i < |f| ==> Header(f, ptr, size, i)
  }

  // ---- Giving a block back ----

  /** Block b lies between f[j] and its successor. */
  predicate Fits(f: seq<Blk>, j: nat, b: Blk) {
    && Sorted(f) && j < |f| && b.size >= 1
    && f[0].addr < b.addr
    && f[j].addr + f[j].size <= b.addr
    && (j + 1 < |f| ==> b.addr + b.size <= f[j + 1].addr)
  }

  predicate Up(f: seq<Blk>, j: nat, b: Blk) {
    j + 1 < |f| && b.addr + b.size == f[j + 1].addr
  }

  predicate Low(f: seq<Blk>, j: nat, b: Blk)
    requires j < |f|
  {
    f[j].addr + f[j].size == b.addr
  }

  // ---- Removing and inserting one block ----

  function Skip(k: nat, i: nat): nat {
    if i < k then i else i + 1
  }

  function Drop(f: seq<Blk>, k: nat): (g: seq<Blk>)
    requires k < |f|
    ensures |g| == |f| - 1
  {
    seq(|f| - 1, i requires 0 <= i < |f| - 1 => f[Skip(k, i)])
  }

  function Put(f: seq<Blk>, k: nat, b: Blk): (g: seq<Blk>)
    requires k <= |f|
    ensures |g| == |f| + 1
  {
    seq(|f| + 1, i requires 0 <= i < |f| + 1 => if i < k then f[i] else if i == k then b else f[i - 1])
  }

  lemma {:induction false} DropSorted(f: seq<Blk>, k: nat)
    requires Sorted(f) && 1 <= k < |f|
    ensures Sorted(Drop(f, k)) && Drop(f, k)[0] == f[0]
  {
    var g := Drop(f, k);
    forall i, j | 0 <= i < j < |g|
      ensures g[i].addr + g[i].size < g[j].addr
    {
      assert Skip(k, i) < Skip(k, j);
    }
  }

  lemma {:induction false} DropCovers(f: seq<Blk>, k: nat, x: int)
    requires k < |f|
    ensures Covers(f, x) <==> Covers(Drop(f, k), x) || In(f[k], x)
  {
    var g := Drop(f, k);
    if Covers(g, x) {
      var i :| 0 <= i < |g| && In(g[i], x);
      assert In(f[Skip(k, i)], x);
    }
    if Covers(f, x) {
      var i :| 0 <= i < |f| && In(f[i], x);
      if i != k {
        assert In(g[if i < k then i else i - 1], x);
      }
    }
  }

  lemma {:induction false} PutSorted(f: seq<Blk>, k: nat, b: Blk)
    requires Sorted(f) && 1 <= k <= |f| && b.size >= 1
    requires f[k - 1].addr + f[k - 1].size < b.addr
    requires k < |f| ==> b.addr + b.size < f[k].addr
    ensures Sorted(Put(f, k, b)) && Put(f, k, b)[0] == f[0]
  {
    var g := Put(f, k, b);
    forall i, j | 0 <= i < j < |g|
      ensures g[i].addr + g[i].size < g[j].addr
    {
      if i == k {
        assert j - 1 == k || f[k].addr + f[k].size < f[j - 1].addr;
      } else if j == k {
        assert i == k - 1 || f[i].addr + f[i].size < f[k - 1].addr;
      }
    }
  }

  lemma {:induction false} PutCovers(f: seq<Blk>, k: nat, b: Blk, x: int)
    requires k <= |f|
    ensures Covers(Put(f, k, b), x) <==> Covers(f, x) || In(b, x)
  {
    var g := Put(f, k, b);
    if Covers(g, x) {
      var i :| 0 <= i < |g| && In(g[i], x);
      if i != k {
        assert In(f[if i < k then i else i - 1], x);
      }
    }
    if Covers(f, x) {
      var i :| 0 <= i < |f| && In(f[i], x);
      assert g[if i < k then i else i + 1] == f[i];
    }
    assert g[k] == b;
  }

  /** Block k replaced by one that stays within its neighbours. */
  lemma {:induction false} UpdateSorted(f: seq<Blk>, k: nat, b: Blk)
    requires Sorted(f) && 1 <= k < |f| && b.size >= 1
    requires f[k - 1].addr + f[k - 1].size < b.addr
    requires k + 1 < |f| ==> b.addr + b.size < f[k + 1].addr
    ensures Sorted(f[k := b])
  {
    var g := f[k := b];
    forall i, j | 0 <= i < j < |g|
      ensures g[i].addr + g[i].size < g[j].addr
    {
      if i == k {
        assert j == k + 1 || f[k + 1].addr + f[k + 1].size < f[j].addr;
      } else if j == k {
        assert i == k - 1 || f[i].addr + f[i].size < f[k - 1].addr;
      }
    }
  }

  lemma {:induction false} UpdateCovers(f: seq<Blk>, k: nat, b: Blk, x: int)
    requires k < |f| && (In(f[k], x) ==> In(b, x))
    ensures Covers(f[k := b], x) <==> Covers(f, x) || In(b, x)
  {
    var g := f[k := b];
    if Covers(g, x) {
      var i :| 0 <= i < |g| && In(g[i], x);
      assert i != k ==> In(f[i], x);
    }
    if Covers(f, x) {
      var i :| 0 <= i < |f| && In(f[i], x);
      assert i != k ==> In(g[i], x);
    }
    assert g[k] == b;
  }

  // ---- free ----

  /** The list after free puts b behind f[j], joining it with the neighbours it touches. */
  function Insert(f: seq<Blk>, j: nat, b: Blk): (g: seq<Blk>)
    requires j < |f|
  {
    if Low(f, j, b) && Up(f, j, b) then
      Drop(f[j := Blk(f[j].addr, f[j].size + b.size + f[j + 1].size)], j + 1)
    else if Low(f, j, b) then f[j := Blk(f[j].addr, f[j].size + b.size)]
    else if Up(f, j, b) then f[j + 1 := Blk(b.addr, b.size + f[j + 1].size)]
    else Put(f, j + 1, b)
  }

  lemma {:induction false} BothSorted(f: seq<Blk>, j: nat, b: Blk)
    requires Fits(f, j, b) && Low(f, j, b) && Up(f, j, b)
    ensures Sorted(Insert(f, j, b)) && Insert(f, j, b)[0] == f[0]
  {
    var m := Blk(f[j].addr, f[j].size + b.size + f[j + 1].size);
    assert 1 <= j;
    DropSorted(f, j + 1);
    DropThenUpdate(f, j, m);
    var g := Drop(f, j + 1);
    assert g[j - 1] == f[j - 1];
    assert j + 1 < |g| ==> g[j + 1] == f[j + 2] && f[j + 1].addr + f[j + 1].size < f[j + 2].addr;
    UpdateSorted(g, j, m);
  }

  lemma {:induction false} DropThenUpdate(f: seq<Blk>, j: nat, m: Blk)
    requires j + 1 < |f|
    ensures Drop(f[j := m], j + 1) == Drop(f, j + 1)[j := m]
  {
  }

  lemma {:induction false} InsertSorted(f: seq<Blk>, j: nat, b: Blk)
    requires Fits(f, j, b)
    ensures Sorted(Insert(f, j, b)) && Insert(f, j, b)[0] == f[0]
  {
    if Low(f, j, b) && Up(f, j, b) {
      BothSorted(f, j, b);
    } else if Low(f, j, b) {
      UpdateSorted(f, j, Blk(f[j].addr, f[j].size + b.size));
    } else if Up(f, j, b) {
      UpdateSorted(f, j + 1, Blk(b.addr, b.size + f[j + 1].size));
    } else {
      PutSorted(f, j + 1, b);
    }
  }

  /** Freeing adds exactly the units of b. */
  lemma {:induction false} InsertCovers(f: seq<Blk>, j: nat, b: Blk, x: int)
    requires Fits(f, j, b)
    ensures Covers(Insert(f, j, b), x) <==> Covers(f, x) || In(b, x)
  {
    if Low(f, j, b) && Up(f, j, b) {
      var m := Blk(f[j].addr, f[j].size + b.size + f[j + 1].size);
      assert In(f[j + 1], x) ==> In(m, x) && Covers(f, x);
      assert In(f[j], x) ==> Covers(f, x);
      UpdateCovers(f, j, m, x);
      DropCovers(f[j := m], j + 1, x);
      assert Insert(f, j, b)[j] == m;
    } else if Low(f, j, b) {
      UpdateCovers(f, j, Blk(f[j].addr, f[j].size + b.size), x);
      assert In(f[j], x) ==> Covers(f, x);
    } else if Up(f, j, b) {
      UpdateCovers(f, j + 1, Blk(b.addr, b.size + f[j + 1].size), x);
      assert In(f[j + 1], x) ==> Covers(f, x);
    } else {
      PutCovers(f, j + 1, b, x);
    }
  }

  // ---- malloc ----

  /** The list after malloc takes n units from the end of block k. */
  function Take(f: seq<Blk>, k: nat, n: int): (g: seq<Blk>)
    requires k < |f|
  {
    if f[k].size == n then Drop(f, k) else f[k := Blk(f[k].addr, f[k].size - n)]
  }

  function Taken(f: seq<Blk>, k: nat, n: int): (b: Blk)
    requires k < |f|
  {
    Blk(f[k].addr + f[k].size - n, n)
  }

  lemma {:induction false} TakeSorted(f: seq<Blk>, k: nat, n: int)
    requires Sorted(f) && 1 <= k < |f| && 1 <= n <= f[k].size
    ensures Sorted(Take(f, k, n)) && Take(f, k, n)[0] == f[0]
  {
    if f[k].size == n {
      DropSorted(f, k);
    } else {
      UpdateSorted(f, k, Blk(f[k].addr, f[k].size - n));
    }
  }

  lemma {:induction false} OneCover(f: seq<Blk>, i: nat, j: nat, x: int)
    requires Sorted(f) && i < |f| && j < |f| && In(f[i], x) && In(f[j], x)
    ensures i == j
  {
  }

  /** The free units are split between the taken block and what is left. */
  lemma {:induction false} TakeCovers(f: seq<Blk>, k: nat, n: int, x: int)
    requires Sorted(f) && 1 <= k < |f| && 1 <= n <= f[k].size
    ensures Covers(f, x) <==> Covers(Take(f, k, n), x) || In(Taken(f, k, n), x)
    ensures !(Covers(Take(f, k, n), x) && In(Taken(f, k, n), x))
  {
    var g := Take(f, k, n);
    if f[k].size == n {
      DropCovers(f, k, x);
    } else {
      UpdateCovers(g, k, f[k], x);
      assert g[k := f[k]] == f;
      assert In(g[k], x) ==> Covers(g, x);
    }
    forall i: nat | i < |g| && In(g[i], x) ensures !In(Taken(f, k, n), x) {
      LeftOut(f, k, n, i, x);
    }
  }

  lemma {:induction false} LeftOut(f: seq<Blk>, k: nat, n: int, i: nat, x: int)
    requires Sorted(f) && 1 <= k < |f| && 1 <= n <= f[k].size && i < |Take(f, k, n)| && In(Take(f, k, n)[i], x)
    ensures !In(Taken(f, k, n), x)
  {
    if In(f[k], x) {
      OneCover(f, if f[k].size == n then Skip(k, i) else i, k, x);
    }
  }

  // ---- The same changes in memory ----

  /** An address outside the list does not matter. */
  lemma {:induction false} LinkedOther(f: seq<Blk>, ptr: map<int, int>, size: map<int, int>, a: int, p: int, n: int)
    requires Linked(f, ptr, size) && forall i :: 0 <= i < |f| ==> f[i].addr != a
    ensures Linked(f, ptr[a := p], size) && Linked(f, ptr, size[a := n])
  {
    var ptr', size' := ptr[a := p], size[a := n];
    forall i | 0 <= i < |f|
      ensures Header(f, ptr', size, i) && Header(f, ptr, size', i)
    {
      assert Header(f, ptr, size, i);
    }
  }

  lemma {:induction false} LinkedResize(f: seq<Blk>, ptr: map<int, int>, size: map<int, int>, k: nat, n: int)
    requires Sorted(f) && Linked(f, ptr, size) && k < |f|
    ensures Linked(f[k := Blk(f[k].addr, n)], ptr, size[f[k].addr := n])
  {
    var g := f[k := Blk(f[k].addr, n)];
    var size' := size[f[k].addr := n];
    forall i | 0 <= i < |g|
      ensures Header(g, ptr, size', i)
    {
      assert Header(f, ptr, size, i);
      assert i != k ==> f[i].addr != f[k].addr;
      assert g[Next(g, i)].addr == f[Next(f, i)].addr;
    }
  }

  lemma {:induction false} LinkedDrop(f: seq<Blk>, ptr: map<int, int>, size: map<int, int>, k: nat)
    requires Sorted(f) && Linked(f, ptr, size) && 1 <= k < |f|
    ensures f[k].addr in ptr && Linked(Drop(f, k), ptr[f[k - 1].addr := ptr[f[k].addr]], size)
  {
    var g := Drop(f, k);
    assert Header(f, ptr, size, k);
    var ptr' := ptr[f[k - 1].addr := ptr[f[k].addr]];
    forall i | 0 <= i < |g|
      ensures Header(g, ptr', size, i)
    {
      var s := Skip(k, i);
      assert g[i] == f[s];
      assert Header(f, ptr, size, s);
      assert s != k - 1 ==> f[s].addr != f[k - 1].addr;
      assert g[Next(g, i)] == f[if s == k - 1 then Next(f, k) else Next(f, s)];
    }
  }

  lemma {:induction false} LinkedPut(f: seq<Blk>, ptr: map<int, int>, size: map<int, int>, k: nat, b: Blk)
    requires Sorted(f) && Linked(f, ptr, size) && 1 <= k <= |f|
    requires b.addr in size && size[b.addr] == b.size
    requires forall i :: 0 <= i < |f| ==> f[i].addr != b.addr
    ensures f[k - 1].addr in ptr
    ensures Linked(Put(f, k, b), ptr[b.addr := ptr[f[k - 1].addr]][f[k - 1].addr := b.addr], size)
  {
    var g := Put(f, k, b);
    assert Header(f, ptr, size, k - 1);
    var ptr' := ptr[b.addr := ptr[f[k - 1].addr]][f[k - 1].addr := b.addr];
    forall i | 0 <= i < |g|
      ensures Header(g, ptr', size, i)
    {
      if i == k {
        assert g[Next(g, i)] == f[Next(f, k - 1)];
      } else {
        var s := if i < k then i else i - 1;
        assert g[i] == f[s];
        assert Header(f, ptr, size, s);
        assert s != k - 1 ==> f[s].addr != f[k - 1].addr;
        assert g[Next(g, i)] == if s == k - 1 then b else f[Next(f, s)];
      }
    }
  }

  /** Block k now starts lower, at b. */
  lemma {:induction false} LinkedMove(f: seq<Blk>, ptr: map<int, int>, size: map<int, int>, k: nat, b: Blk)
    requires Sorted(f) && Linked(f, ptr, size) && 1 <= k < |f|
    requires b.addr in size && size[b.addr] == b.size
    requires forall i :: 0 <= i < |f| ==> f[i].addr != b.addr
    ensures f[k].addr in ptr
    ensures Linked(f[k := b], ptr[b.addr := ptr[f[k].addr]][f[k - 1].addr := b.addr], size)
  {
    var g := f[k := b];
    assert Header(f, ptr, size, k);
    var ptr' := ptr[b.addr := ptr[f[k].addr]][f[k - 1].addr := b.addr];
    forall i | 0 <= i < |g|
      ensures Header(g, ptr', size, i)
    {
      if i == k {
        assert g[Next(g, i)] == f[Next(f, k)];
      } else {
        assert Header(f, ptr, size, i);
        assert i != k - 1 ==> f[i].addr != f[k - 1].addr && Next(g, i) != k;
      }
    }
  }

  // ---- The two halves of free, on headers ----

  /** Headers p, b and the successor q of p, as free finds them. */
  ghost predicate Found(f: seq<Blk>, ptr: map<int, int>, size: map<int, int>, j: nat, b: Blk) {
    Fits(f, j, b) && Linked(f, ptr, size) && b.addr in size && size[b.addr] == b.size
  }

  lemma {:induction false} FoundApart(f: seq<Blk>, j: nat, b: Blk)
    requires Fits(f, j, b)
    ensures forall i :: 0 <= i < |f| ==> f[i].addr != b.addr
  {
    forall i | 0 <= i < |f|
      ensures f[i].addr != b.addr
    {
      if i == j {
        assert j > 0 || f[0].addr < b.addr;
      } else if i < j {
        assert f[i].addr + f[i].size < f[j].addr;
      } else {
        assert i == j + 1 || f[j + 1].addr + f[j + 1].size < f[i].addr;
      }
    }
  }

  lemma {:induction false} JoinBoth(f: seq<Blk>, ptr: map<int, int>, size: map<int, int>, j: nat, b: Blk)
    requires Found(f, ptr, size, j, b) && Low(f, j, b) && Up(f, j, b)
    ensures f[j + 1].addr in ptr
    ensures var p, next, n := f[j].addr, ptr[f[j + 1].addr], b.size + f[j + 1].size;
      Linked(Insert(f, j, b), ptr[b.addr := next][p := next], size[b.addr := n][p := f[j].size + n])
  {
    FoundApart(f, j, b);
    LinkedDrop(f, ptr, size, j + 1);
    DropSorted(f, j + 1);
    var g := Drop(f, j + 1);
    var p, next, n := f[j].addr, ptr[f[j + 1].addr], b.size + f[j + 1].size;
    LinkedResize(g, ptr[p := next], size, j, f[j].size + n);
    DropThenUpdate(f, j, Blk(p, f[j].size + n));
    var h := g[j := Blk(p, f[j].size + n)];
    assert forall i :: 0 <= i < |h| ==> h[i].addr == f[Skip(j + 1, i)].addr;
    LinkedOther(h, ptr[p := next], size[p := f[j].size + n], b.addr, next, n);
    LinkedOther(h, ptr[p := next][b.addr := next], size[p := f[j].size + n], b.addr, next, n);
    assert ptr[p := next][b.addr := next] == ptr[b.addr := next][p := next];
    assert size[p := f[j].size + n][b.addr := n] == size[b.addr := n][p := f[j].size + n];
  }

  lemma {:induction false} JoinLow(f: seq<Blk>, ptr: map<int, int>, size: map<int, int>, j: nat, b: Blk)
    requires Found(f, ptr, size, j, b) && Low(f, j, b) && !Up(f, j, b)
    ensures f[j].addr in ptr
    ensures var p, next := f[j].addr, ptr[f[j].addr];
      Linked(Insert(f, j, b), ptr[b.addr := next][p := next], size[p := f[j].size + b.size])
  {
    FoundApart(f, j, b);
    assert Header(f, ptr, size, j);
    var p, next := f[j].addr, ptr[f[j].addr];
    LinkedResize(f, ptr, size, j, f[j].size + b.size);
    LinkedOther(Insert(f, j, b), ptr, size[p := f[j].size + b.size], b.addr, next, 0);
    assert ptr[b.addr := next][p := next] == ptr[b.addr := next];
  }

  lemma {:induction false} JoinUp(f: seq<Blk>, ptr: map<int, int>, size: map<int, int>, j: nat, b: Blk)
    requires Found(f, ptr, size, j, b) && !Low(f, j, b) && Up(f, j, b)
    ensures f[j + 1].addr in ptr
    ensures var next, n := ptr[f[j + 1].addr], b.size + f[j + 1].size;
      Linked(Insert(f, j, b), ptr[b.addr := next][f[j].addr := b.addr], size[b.addr := n])
  {
    FoundApart(f, j, b);
    var n := b.size + f[j + 1].size;
    LinkedOther(f, ptr, size, b.addr, 0, n);
    LinkedMove(f, ptr, size[b.addr := n], j + 1, Blk(b.addr, n));
  }

  lemma {:induction false} JoinNone(f: seq<Blk>, ptr: map<int, int>, size: map<int, int>, j: nat, b: Blk)
    requires Found(f, ptr, size, j, b) && !Low(f, j, b) && !Up(f, j, b)
    ensures f[j].addr in ptr
    ensures Linked(Insert(f, j, b), ptr[b.addr := ptr[f[j].addr]][f[j].addr := b.addr], size)
  {
    FoundApart(f, j, b);
    LinkedPut(f, ptr, size, j + 1, b);
  }
}
