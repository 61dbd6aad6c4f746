/** The K&R allocator on headers in memory: free, morecore and malloc. */
module Umalloc {
  import opened FreeList
  import opened Arena

  const UINT: int := 0x1_0000_0000
  const HEADER: int := 8
  const CHUNK: int := 4096
  const NOMEM: int := -1

  /** Size in units, header included, computed with 32-bit wrap-around. */
  function NeedUnits(nbytes: int): (n: int)
    requires 0 <= nbytes < UINT
    ensures 1 <= n
  {
    (nbytes + HEADER - 1) % UINT / HEADER + 1
  }

  /** The units behind the header hold nbytes exactly when the sum does not wrap; without
      wrap-around not a unit more than needed is asked for. */
  lemma {:induction false} EnoughIff(nbytes: int)
    requires 0 <= nbytes < UINT
    ensures (NeedUnits(nbytes) - 1) * HEADER >= nbytes <==> nbytes <= UINT - HEADER
    ensures nbytes <= UINT - HEADER ==> (NeedUnits(nbytes) - 2) * HEADER < nbytes
  {
  }

  function MoreUnits(n: int): (m: int) {
    if n < CHUNK then CHUNK else n
  }

  /** Block a of n units is in use, and was not before. */
  ghost predicate NewBlock(live: map<int, int>, live': map<int, int>, a: int, n: int) {
    a !in live && live' == live[a := n]
  }

  /** The arena has gained n units, or 4096 if n is less. */
  ghost predicate Grown(heap: set<int>, heap': set<int>, n: int) {
    |heap'| == |heap| + if n < 4096 then 4096 else n
  }

  lemma {:induction false} MoreGrown(heap: set<int>, region: int, n: int)
    requires 1 <= n && Units(region, MoreUnits(n)) !! heap
    ensures Grown(heap, heap + Units(region, MoreUnits(n)), n)
  {
    GrownSize(heap, region, MoreUnits(n));
  }

  /** Steps from block a to block b along the cycle of n blocks. */
  function Ahead(n: nat, a: nat, b: nat): (d: nat)
    requires a < n && b < n
    ensures d < n
  {
    if a <= b then b - a else b + n - a
  }

  class Allocator {
    const base: int
    var ptr: map<int, int>
    var size: map<int, int>
    var freep: int
    ghost var f: seq<Blk>
    ghost var live: map<int, int>
    ghost var heap: set<int>

    ghost predicate Ready()
      reads this
    {
      && 0 < base
      && Partition(base, f, live, heap)
      && Linked(f, ptr, size)
      && (exists i :: 0 <= i < |f| && f[i].addr == freep)
      && (forall a :: a in live ==> a in size && size[a] == live[a])
    }

    ghost predicate Valid()
      reads this
    {
      if freep == 0 then 0 < base && f == [] && live == map[] && heap == {} else Ready()
    }

    constructor (b: int)
      requires 0 < b
      ensures Valid() && base == b && freep == 0
    {
      base := b;
      ptr, size, freep := map[], map[], 0;
      f, live, heap := [], map[], {};
    }

    /** The scan of free: the free block p that b comes after. */
    method FindPlace(bp: int) returns (p: int, ghost j: nat)
      requires Ready() && bp in live
      ensures Fits(f, j, Blk(bp, live[bp])) && p == f[j].addr
    {
      p := freep;
      ghost var k :| 0 <= k < |f| && f[k].addr == freep;
      j := Before(f, bp, |f|);
      LiveFits(base, f, live, heap, bp, j);
      assert Header(f, ptr, size, k);
      while !(bp > p && bp < ptr[p])
        invariant 0 <= k < |f| && f[k].addr == p && Header(f, ptr, size, k)
        decreases Ahead(|f|, k, j)
      {
        if p >= ptr[p] && (bp > p || bp < ptr[p]) {
          break;
        }
        p := ptr[p];
        assert k != j;
        k := Next(f, k);
        assert Header(f, ptr, size, k);
      }
      LiveFits(base, f, live, heap, bp, k);
      FitsOnce(f, j, k, Blk(bp, live[bp]));
    }

    method Free(ap: int) returns (ghost j: nat)
      requires Ready() && ap - 1 in live
      modifies this
      ensures Ready()
      ensures live == old(live) - {ap - 1} && heap == old(heap)
      ensures Fits(old(f), j, Blk(ap - 1, old(live)[ap - 1])) && f == Insert(old(f), j, Blk(ap - 1, old(live)[ap - 1]))
      ensures freep == old(f)[j].addr
    {
      var bp := ap - 1;
      ghost var b := Blk(bp, live[bp]);
      var p;
      p, j := FindPlace(bp);
      FreeKeeps(base, f, live, heap, bp, j);
      LiveElsewhere(base, f, live, heap, j);
      Splice(p, bp, j);
      freep := p;
      f := Insert(f, j, b);
      live := live - {bp};
      assert f[j].addr == p;
    }

    /** The two halves of free on the headers of p, bp and the successor of p. */
    method Splice(p: int, bp: int, ghost j: nat)
      requires 0 < base && Linked(f, ptr, size) && bp in size
      requires Fits(f, j, Blk(bp, size[bp])) && p == f[j].addr
      modifies this`ptr, this`size
      ensures Linked(Insert(f, j, Blk(bp, old(size)[bp])), ptr, size)
      ensures forall a :: a in old(size) && a != p && a != bp ==> a in size && size[a] == old(size)[a]
    {
      ghost var b := Blk(bp, size[bp]);
      SpliceLinks(f, ptr, size, j, b);
      ghost var p0, s0, q := ptr, size, ptr[p];
      ghost var up := bp + size[bp] == q;
      if bp + size[bp] == ptr[p] {
        size := size[bp := size[bp] + size[ptr[p]]];
        ptr := ptr[bp := ptr[ptr[p]]];
      } else {
        ptr := ptr[bp := ptr[p]];
      }
      assert s0[bp := s0[bp]] == s0;
      assert ptr == p0[bp := if up then p0[q] else q];
      assert size == s0[bp := if up then s0[bp] + s0[q] else s0[bp]];
      if p + size[p] == bp {
        size := size[p := size[p] + size[bp]];
        ptr := ptr[p := ptr[bp]];
      } else {
        ptr := ptr[p := bp];
      }
    }

    /** The first lines of the first malloc: the base block alone on the list. */
    method Init()
      requires Valid() && freep == 0
      modifies this
      ensures Ready() && freep != 0 && live == old(live) && heap == old(heap) && f == [Blk(base, 0)]
    {
      ptr := ptr[base := base];
      size := size[base := 0];
      freep := base;
      f := [Blk(base, 0)];
      EmptyPartition(base);
      assert Header(f, ptr, size, 0);
      assert f[0].addr == freep;
    }

    /** morecore, where sbrk answers with the unit address region, or fails. */
    method Morecore(nunits: int, region: int) returns (r: int)
      requires Ready() && 1 <= nunits
      requires region == NOMEM || (base < region && Units(region, MoreUnits(nunits)) !! heap)
      modifies this
      ensures Ready() && freep != 0 && live == old(live)
      ensures region == NOMEM ==> r == 0 && f == old(f) && heap == old(heap)
      ensures region != NOMEM ==> r == freep && heap == old(heap) + Units(region, MoreUnits(nunits))
      ensures region != NOMEM ==> Room(f, nunits)
      ensures region != NOMEM ==> Grown(old(heap), heap, nunits)
    {
      if region == NOMEM {
        ReadyFreep();
        return 0;
      }
      MoreGrown(heap, region, nunits);
      Extend(region, MoreUnits(nunits));
      ReadyFreep();
      return freep;
    }

    /** The region from sbrk given to free. */
    method Extend(region: int, nu: int)
      requires Ready() && 1 <= nu && base < region && Units(region, nu) !! heap
      modifies this
      ensures Ready() && live == old(live) && heap == old(heap) + Units(region, nu)
      ensures forall n :: n <= nu ==> Room(f, n)
    {
      ghost var f0 := f;
      AddRegion(region, nu);
      ghost var j := Free(region + 1);
      GrownRoom(f0, j, Blk(region, nu));
    }

    /** A new region becomes a live block, about to be freed. */
    method AddRegion(a: int, n: int)
      requires Ready() && 1 <= n && base < a && Units(a, n) !! heap
      modifies this`size, this`live, this`heap
      ensures Ready() && a !in old(live) && live == old(live)[a := n] && heap == old(heap) + Units(a, n)
    {
      GrowKeeps(base, f, live, heap, a, n);
      NewElsewhere(base, f, live, heap, a, n);
      LinkedOther(f, ptr, size, a, 0, n);
      size := size[a := n];
      live := live[a := n];
      heap := heap + Units(a, n);
    }

    /** The scan of malloc, from the block after freep round to freep itself. */
    method Search(nunits: int) returns (found: bool, prevp: int, p: int, ghost s: nat, ghost k: nat)
      requires Ready() && 1 <= nunits
      ensures s < |f| && f[s].addr == freep && k < |f|
      ensures found ==> prevp == f[k].addr && p == f[Next(f, k)].addr && f[Next(f, k)].size >= nunits
      ensures found ==> Rejected(f, s, Next(f, k), nunits)
      ensures found <==> Room(f, nunits)
    {
      s :| 0 <= s < |f| && f[s].addr == freep;
      k := s;
      prevp := freep;
      assert Header(f, ptr, size, s);
      p := ptr[prevp];
      while true
        invariant 0 <= k < |f| && prevp == f[k].addr && p == f[Next(f, k)].addr
        invariant Rejected(f, s, Next(f, k), nunits)
        decreases |f| - Ahead(|f|, Next(f, s), Next(f, k))
      {
        assert Header(f, ptr, size, Next(f, k));
        if size[p] >= nunits {
          return true, prevp, p, s, k;
        }
        if p == freep {
          SameAddr(f, Next(f, k), s);
          RejectedAll(f, s, nunits);
          return false, prevp, p, s, k;
        }
        RejectedMore(f, s, Next(f, k), nunits);
        prevp, p := p, ptr[p];
        k := Next(f, k);
      }
    }

    /** The stores that take nunits from the block p, which follows prevp. */
    method Cut(prevp: int, at: int, nunits: int, ghost n: nat) returns (p: int)
      requires Sorted(f) && Linked(f, ptr, size) && 1 <= n < |f| && 1 <= nunits <= f[n].size
      requires prevp == f[n - 1].addr && at == f[n].addr
      modifies this`ptr, this`size
      ensures p == Taken(f, n, nunits).addr && Linked(Take(f, n, nunits), ptr, size)
      ensures p in size && size[p] == nunits
      ensures forall a :: a in old(size) && a != at && a != p ==> a in size && size[a] == old(size)[a]
    {
      p := at;
      assert Header(f, ptr, size, n);
      if size[p] == nunits {
        LinkedDrop(f, ptr, size, n);
        ptr := ptr[prevp := ptr[p]];
      } else {
        SplitLinks(f, ptr, size, n, nunits);
        size := size[p := size[p] - nunits];
        p := p + size[p];
        size := size[p := nunits];
      }
    }

    /** Take nunits from the block p that follows prevp. */
    method Carve(prevp: int, at: int, nunits: int, ghost k: nat) returns (ap: int)
      requires Ready() && freep != 0 && 1 <= nunits && k < |f| && prevp == f[k].addr
      requires at == f[Next(f, k)].addr && f[Next(f, k)].size >= nunits
      modifies this
      ensures Ready() && freep != 0 && ap > 1 && heap == old(heap) && f == Take(old(f), Next(old(f), k), nunits)
      ensures ap - 1 == Taken(old(f), Next(old(f), k), nunits).addr
      ensures NewBlock(old(live), live, ap - 1, nunits)
    {
      ghost var n := Next(f, k);
      assert n == k + 1;
      TakeKeeps(base, f, live, heap, n, nunits);
      LiveElsewhere(base, f, live, heap, n);
      var p := Cut(prevp, at, nunits, n);
      f := Take(f, n, nunits);
      live := live[p := nunits];
      freep := prevp;
      assert f[k].addr == prevp;
      ReadyFreep();
      return p + 1;
    }

    /** malloc. Should the free list hold no block that is large enough, sbrk is asked once
        and answers with region, or fails. The result 0 stands for the null pointer; grew
        counts the calls of morecore. */
    method Malloc(nbytes: int, region: int) returns (ap: int, grew: nat)
      requires Valid() && 0 <= nbytes < UINT
      requires region == NOMEM || (base < region && Units(region, MoreUnits(NeedUnits(nbytes))) !! heap)
      modifies this
      ensures Valid() && freep != 0
      ensures grew == if Room(old(f), NeedUnits(nbytes)) then 0 else 1
      ensures ap == 0 <==> grew == 1 && region == NOMEM
      ensures ap == 0 ==> live == old(live) && heap == old(heap)
      ensures ap != 0 ==> NewBlock(old(live), live, ap - 1, NeedUnits(nbytes))
      ensures heap == old(heap) + if grew == 1 && region != NOMEM then Units(region, MoreUnits(NeedUnits(nbytes)))
        else {}
      ensures grew == 1 && region != NOMEM ==> Grown(old(heap), heap, NeedUnits(nbytes))
    {
      var nunits := NeedUnits(nbytes);
      if region != NOMEM {
        MoreGrown(heap, region, nunits);
      }
      if freep == 0 {
        Init();
      }
      ReadyFreep();
      grew := 0;
      ghost var fits := Room(f, nunits);
      while true
        invariant Ready() && freep != 0 && live == old(live) && grew <= 1
        invariant grew == 0 ==> heap == old(heap) && fits == Room(f, nunits)
        invariant grew == 1 ==> !fits && region != NOMEM && heap == old(heap) + Units(region, MoreUnits(nunits))
        invariant grew == 1 ==> Room(f, nunits)
        decreases 1 - grew
      {
        var found, prevp, p, s, k := Search(nunits);
        if found {
          ap := Carve(prevp, p, nunits, k);
          return;
        }
        ap := Morecore(nunits, region);
        grew := grew + 1;
        if ap == 0 {
          return;
        }
      }
    }

    /** Once the list exists, freep is not null. */
    lemma ReadyFreep()
      requires Ready()
      ensures freep != 0
    {
      var i :| 0 <= i < |f| && f[i].addr == freep;
      assert i > 0 ==> f[0].addr + f[0].size < f[i].addr;
    }
  }

  lemma {:induction false} SplitLinks(f: seq<Blk>, ptr: map<int, int>, size: map<int, int>, k: nat, n: int)
    requires Sorted(f) && Linked(f, ptr, size) && k < |f| && 1 <= n < f[k].size
    ensures Linked(Take(f, k, n), ptr, size[f[k].addr := f[k].size - n][Taken(f, k, n).addr := n])
  {
    LinkedResize(f, ptr, size, k, f[k].size - n);
    var g := Take(f, k, n);
    forall i | 0 <= i < |g|
      ensures g[i].addr != Taken(f, k, n).addr
    {
      assert i != k ==> f[i].addr + f[i].size < f[k].addr || f[k].addr + f[k].size < f[i].addr;
    }
    LinkedOther(g, ptr, size[f[k].addr := f[k].size - n], Taken(f, k, n).addr, 0, n);
  }

  lemma {:induction false} EmptyPartition(base: int)
    ensures Partition(base, [Blk(base, 0)], map[], {})
  {
  }

  lemma {:induction false} SameAddr(f: seq<Blk>, i: nat, j: nat)
    requires Sorted(f) && i < |f| && j < |f| && f[i].addr == f[j].addr
    ensures i == j
  {
  }

  /** The blocks met on the walk from the one after s up to k are smaller than n. */
  ghost predicate Rejected(f: seq<Blk>, s: nat, k: nat, n: int)
    requires s < |f| && k < |f|
  {
    forall i :: 0 <= i < |f| && Ahead(|f|, Next(f, s), i) < Ahead(|f|, Next(f, s), k) ==> f[i].size < n
  }

  lemma {:induction false} RejectedMore(f: seq<Blk>, s: nat, k: nat, n: int)
    requires s < |f| && k < |f| && k != s && Rejected(f, s, k, n) && f[k].size < n
    ensures Rejected(f, s, Next(f, k), n)
    ensures Ahead(|f|, Next(f, s), Next(f, k)) == Ahead(|f|, Next(f, s), k) + 1
  {
  }

  lemma {:induction false} RejectedAll(f: seq<Blk>, s: nat, n: int)
    requires s < |f| && Rejected(f, s, s, n) && f[s].size < n
    ensures forall i :: 0 <= i < |f| ==> f[i].size < n
  {
  }

  lemma {:induction false} NewElsewhere(base: int, f: seq<Blk>, live: map<int, int>, heap: set<int>, a: int, n: int)
    requires Partition(base, f, live, heap) && 1 <= n && base < a && Units(a, n) !! heap
    ensures forall i :: 0 <= i < |f| ==> f[i].addr != a
  {
    assert a in Units(a, n);
    forall i | 0 <= i < |f|
      ensures f[i].addr != a
    {
      assert i > 0 ==> In(f[i], f[i].addr) && Covers(f, f[i].addr);
    }
  }

  /** Some free block has n units. */
  ghost predicate Room(f: seq<Blk>, n: int) {
    exists i :: 0 <= i < |f| && f[i].size >= n
  }

  lemma {:induction false} GrownRoom(f: seq<Blk>, j: nat, b: Blk)
    requires Fits(f, j, b)
    ensures forall n :: n <= b.size ==> Room(Insert(f, j, b), n)
  {
    var big := if Low(f, j, b) then j else j + 1;
    assert Insert(f, j, b)[big].size >= b.size;
  }

  /** What the two halves of free leave in the headers is the list with b inserted. */
  lemma {:induction false} SpliceLinks(f: seq<Blk>, ptr: map<int, int>, size: map<int, int>, j: nat, b: Blk)
    requires Found(f, ptr, size, j, b)
    ensures var p := f[j].addr;
      && p in ptr && p in size && p != b.addr
      && var q := ptr[p];
      && q in ptr && q in size && q != b.addr
      && var up := b.addr + b.size == q;
      var next, n := if up then ptr[q] else q, if up then b.size + size[q] else b.size;
      var low := p + size[p] == b.addr;
      && Linked(Insert(f, j, b), ptr[b.addr := next][p := if low then next else b.addr],
           if low then size[b.addr := n][p := size[p] + n] else size[b.addr := n])
  {
    assert Header(f, ptr, size, j);
    assert Header(f, ptr, size, Next(f, j));
    FoundApart(f, j, b);
    assert b.addr + b.size == ptr[f[j].addr] <==> Up(f, j, b);
    assert size[b.addr := b.size] == size;
    if Up(f, j, b) {
      if Low(f, j, b) {
        JoinBoth(f, ptr, size, j, b);
      } else {
        JoinUp(f, ptr, size, j, b);
      }
    } else {
      if Low(f, j, b) {
        JoinLow(f, ptr, size, j, b);
      } else {
        JoinNone(f, ptr, size, j, b);
      }
    }
  }
}
