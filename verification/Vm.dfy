/** vm.c: page tables built, extended, shrunk, copied and freed in place. Addresses
    are page numbers: virtual page v is the address v * PGSIZE. */
module Vm {
  import opened PageTable

  /** PGROUNDUP(sz) / PGSIZE: the least number of pages that sz bytes fit in. */
  function PagesUp(sz: nat): (n: nat)
    ensures sz <= n * PGSIZE < sz + PGSIZE
  {
    (sz + PGSIZE - 1) / PGSIZE
  }

  /** They are the pages that start below sz. */
  lemma {:induction false} PageStarts(sz: nat, v: nat)
    ensures v < PagesUp(sz) <==> v * PGSIZE < sz
  {
  }

  datatype Status = Done | NoMemory | Remap   // 0, -1, panic("remap")

  /** Uses changed only from free to table i of directory d. */
  ghost predicate TableAdded(u0: seq<Use>, u1: seq<Use>, d: nat, i: nat)
    requires |u1| == |u0|
  {
    forall g: nat {:trigger u1[g]} :: g < |u0| && u1[g] != u0[g] ==> u0[g] == Free && u1[g] == Table(d, i)
  }

  /** Directory d now has table i as well, on a frame that was free if it is new. */
  ghost predicate Tabled(p0: seq<Page>, f0: set<nat>, p1: seq<Page>, f1: set<nat>, d: nat, i: nat)
    requires d < |p0| == |p1| && i < NENTRIES
  {
    Tables(p1, d) == Tables(p0, d)[i := true] && |f1| + Count(Tables(p1, d)) == |f0| + Count(Tables(p0, d))
  }

  // ---- What the operations promise ----

  /** Page tables for n pages from page 0 on. */
  function TablesFor(n: nat): (k: nat) {
    (n + NENTRIES - 1) / NENTRIES
  }

  /** With m free frames, the page that finds only one left is the first of its table. */
  ghost predicate RunsOut(m: nat, n: nat) {
    exists v: nat :: v < n && v % NENTRIES == 0 && m == 1 + v + TablesFor(v)
  }

  /** The same seen from the call: k kernel page tables, m free frames, n pages. */
  ghost predicate LosesFrame(m: nat, k: nat, n: nat) {
    exists v: nat :: v < n && v % NENTRIES == 0 && m == k + 2 + v + TablesFor(v)
  }

  /** Page v of d is a copy of page v of d0: same flags and contents, another frame. */
  ghost predicate SamePage(p: seq<Page>, d0: nat, d: nat, v: nat)
    requires d0 < |p| && d < |p| && v < NVPN
  {
    var e, e' := Flat(p, d0, v), Flat(p, d, v);
    && Present(e) && Present(e') && Flags(e') == Flags(e)
    && Frame(e) < |p| && Frame(e') < |p| && Frame(e') != Frame(e)
    && p[Frame(e')] == p[Frame(e)]
  }

  /** A row of the kernel's mapping table: n pages from v mapped to frames from f. */
  datatype Range = Range(v: nat, n: nat, f: nat, perm: nat)

  /** kmap: rows above KERNBASE that do not overlap. */
  predicate KmapOk(kmap: seq<Range>) {
    && (forall k :: 0 <= k < |kmap| ==>
          0 < kmap[k].n && NUSER <= kmap[k].v && kmap[k].v + kmap[k].n <= NVPN && kmap[k].f + kmap[k].n <= NVPN
            && kmap[k].perm < PGSIZE)
    && (forall j, k :: 0 <= j < k < |kmap| ==> kmap[j].v + kmap[j].n <= kmap[k].v || kmap[k].v + kmap[k].n <= kmap[j].v)
  }

  /** Pages v0 to v0 + n of d map frames f0 onwards. */
  ghost predicate Ranged(p: seq<Page>, d: nat, v0: nat, n: nat, f0: nat, perm: nat)
    requires d < |p| && v0 + n <= NVPN && f0 + n <= NVPN && perm < PGSIZE
  {
    forall v: nat {:trigger Flat(p, d, v)} :: v0 <= v < v0 + n ==> Flat(p, d, v) == Pte(f0 + (v - v0), perm)
  }

  ghost predicate Unmapped(p: seq<Page>, d: nat, lo: nat, hi: nat)
    requires d < |p|
  {
    forall v: nat {:trigger Flat(p, d, v)} :: lo <= v < hi && v < NVPN ==> !Present(Flat(p, d, v))
  }

  /** The first n pages of d are copies of those of d0, the other user pages are
      unmapped, and the kernel's rows are mapped. */
  ghost predicate Copied(p: seq<Page>, d0: nat, d: nat, n: nat, kmap: seq<Range>)
    requires d0 < |p| && d < |p| && n <= NUSER && KmapOk(kmap)
  {
    && (forall v: nat {:trigger Flat(p, d, v)} :: v < n ==> SamePage(p, d0, d, v))
    && Unmapped(p, d, n, NUSER)
    && (forall j :: 0 <= j < |kmap| ==> Ranged(p, d, kmap[j].v, kmap[j].n, kmap[j].f, kmap[j].perm))
  }

  /** Uses changed only from free to the directory d, its tables and its first n pages,
      or to held in leak. */
  ghost predicate ChildUses(u0: seq<Use>, u1: seq<Use>, d: nat, n: nat, leak: nat)
    requires |u1| == |u0|
  {
    forall f: nat {:trigger u1[f]} {:trigger u0[f]} :: f < |u0| && u1[f] != u0[f] ==>
      && u0[f] == Free
      && (f == d || (u1[f].Table? && u1[f].d == d) || (u1[f].User? && u1[f].d == d && u1[f].v < n)
        || (u1[f].Held? && f == leak != 0))
  }

  /** No table of the lower half, where user pages are. */
  predicate NoUserTables(s: seq<bool>) {
    |s| == NENTRIES && forall i :: 0 <= i < NUSER / NENTRIES ==> !s[i]
  }

  /** The first k rows of kmap are mapped in d and no other page is. */
  ghost predicate KernelOnly(p: seq<Page>, d: nat, kmap: seq<Range>, k: nat)
    requires d < |p| && KmapOk(kmap) && k <= |kmap|
  {
    && (forall j :: 0 <= j < k ==> Ranged(p, d, kmap[j].v, kmap[j].n, kmap[j].f, kmap[j].perm))
    && (forall v: nat {:trigger Flat(p, d, v)} ::
      v < NVPN && (forall j :: 0 <= j < k ==> !(kmap[j].v <= v < kmap[j].v + kmap[j].n)) ==>
          !Present(Flat(p, d, v)))
  }

  /** Uses changed only from free to the directory d and its tables. */
  ghost predicate NewDir(u0: seq<Use>, u1: seq<Use>, d: nat)
    requires |u1| == |u0|
  {
    forall f: nat {:trigger u1[f]} {:trigger u0[f]} :: f < |u0| && u1[f] != u0[f] ==>
      u0[f] == Free && (f == d || (u1[f].Table? && u1[f].d == d))
  }

  /** The maps and user pages of all directories that existed are as before. */
  ghost predicate OthersKept(p0: seq<Page>, u0: seq<Use>, p1: seq<Page>, u1: seq<Use>)
    requires |p1| == |p0| == |u0| == |u1|
  {
    && (forall e: nat :: IsDir(u0, e) ==> IsDir(u1, e))
    && (forall e: nat, v: nat {:trigger Flat(p1, e, v)} :: IsDir(u0, e) && v < NVPN ==>
      Flat(p1, e, v) == Flat(p0, e, v))
    && (forall f: nat {:trigger u0[f]} {:trigger p1[f]} :: f < |u0| && u0[f].User? ==> u1[f] == u0[f] && p1[f] == p0[f])
  }

  function NoTables(): (s: seq<bool>)
    ensures |s| == NENTRIES
  {
    seq(NENTRIES, _ => false)
  }

  /** The tables s, and those that k pages from v0 on lie in. */
  ghost function RowTables(s: seq<bool>, v0: nat, k: nat): (r: seq<bool>)
    requires |s| == NENTRIES && v0 + k <= NVPN
    ensures |r| == NENTRIES
    decreases k, s
  {
    if k == 0 then s else RowTables(s, v0, k - 1)[(v0 + k - 1) / NENTRIES := true]
  }

  /** How many page tables k pages from v0 on need besides those in s. */
  ghost function NewTables(s: seq<bool>, v0: nat, k: nat): (n: nat)
    requires |s| == NENTRIES && v0 + k <= NVPN
  {
    RowTablesGrow(s, v0, 0, k);
    CountWithin(s, RowTables(s, v0, k));
    Count(RowTables(s, v0, k)) - Count(s)
  }

  /** k pages from v0 on have been added to d, each on a frame of its own, with the page
      tables they lacked. */
  ghost predicate Paid(p0: seq<Page>, q0: set<nat>, p1: seq<Page>, q1: set<nat>, d: nat, v0: nat, k: nat)
    requires d < |p0| == |p1| && v0 + k <= NVPN
  {
    && Tables(p1, d) == RowTables(Tables(p0, d), v0, k)
    && |q1| + Count(Tables(p1, d)) + k == |q0| + Count(Tables(p0, d))
  }

  /** The page tables that the first k rows of kmap need. */
  ghost function KernelTables(kmap: seq<Range>, k: nat): (s: seq<bool>)
    requires k <= |kmap| && KmapOk(kmap)
    ensures |s| == NENTRIES
    decreases k, kmap
  {
    if k == 0 then NoTables() else RowTables(KernelTables(kmap, k - 1), kmap[k - 1].v, kmap[k - 1].n)
  }

  /** Uses changed only from free to: a table, a user page lo to hi of d, or held in mem. */
  ghost predicate OnlyFresh(u0: seq<Use>, u1: seq<Use>, d: nat, lo: nat, hi: nat, mem: nat)
    requires |u1| == |u0|
  {
    forall f: nat {:trigger u1[f]} {:trigger u0[f]} :: f < |u0| && u1[f] != u0[f] ==>
      && u0[f] == Free
      && ((u1[f].Table? && u1[f].d == d) || (u1[f].Held? && f == mem != 0)
        || (u1[f].User? && u1[f].d == d && lo <= u1[f].v < hi))
  }

  /** What mappages has done after k of its pages. */
  ghost predicate Partly(p0: seq<Page>, u0: seq<Use>, q0: set<nat>, p1: seq<Page>, u1: seq<Use>, q1: set<nat>,
      d: nat, v0: nat, k: nat, f0: nat, perm: nat)
    requires |p1| == |p0| == |u0| == |u1| && d < |p0| && v0 + k <= NVPN && f0 + k <= NVPN && perm < PGSIZE
  {
    && Ranged(p1, d, v0, k, f0, perm)
    && SameMaps(p0, u0, p1, d, v0, v0 + k)
    && Keeps(p0, u0, p1, u1, d, 0, 0)
    && OnlyFresh(u0, u1, d, 0, 0, 0)
    && Tables(p1, d) == RowTables(Tables(p0, d), v0, k)
    && |q1| + Count(Tables(p1, d)) == |q0| + Count(Tables(p0, d))
  }

  predicate IsTableOf(u: Use, d: nat, n: nat) {
    u.Table? && u.d == d && u.i < n
  }

  predicate OwnedBy(u: Use, f: nat, d: nat) {
    f == d || (u.Table? && u.d == d) || (u.User? && u.d == d)
  }

  /** Every map is as it was, and the only frames not returned are page tables of d. */
  ghost predicate Restored(p0: seq<Page>, u0: seq<Use>, p1: seq<Page>, u1: seq<Use>, d: nat, lo: nat, hi: nat)
    requires |p1| == |p0| == |u0| == |u1| && d < |p1|
  {
    && Unmapped(p1, d, lo, hi)
    && SameMaps(p0, u0, p1, d, lo, hi)
    && (forall f: nat {:trigger u1[f]} :: f < |u0| ==>
      u1[f] == u0[f] || (u0[f] == Free && u1[f].Table? && u1[f].d == d))
    && (forall f: nat {:trigger p1[f]} :: f < |u0| && u0[f].User? ==> p1[f] == p0[f])
  }

  /** Page v of d is a present, zeroed, writable user page. */
  ghost predicate UserPage(p: seq<Page>, d: nat, v: nat)
    requires d < |p| && v < NVPN
  {
    var e := Flat(p, d, v);
    Present(e) && Flags(e) == 7 && Frame(e) < |p| && p[Frame(e)] == ZeroPage()
  }

  /** Exactly the pages lo to hi of d are new, each a fresh zeroed user page. */
  ghost predicate Extended(p0: seq<Page>, u0: seq<Use>, p1: seq<Page>, u1: seq<Use>, d: nat, lo: nat, hi: nat)
    requires |p1| == |p0| == |u0| == |u1| && d < |p1|
  {
    && (forall v: nat {:trigger Flat(p1, d, v)} :: lo <= v < hi && v < NVPN ==>
          UserPage(p1, d, v) && u0[Frame(Flat(p1, d, v))] == Free)
    && SameMaps(p0, u0, p1, d, lo, hi)
    && Keeps(p0, u0, p1, u1, d, 0, 0)
    && OnlyFresh(u0, u1, d, lo, hi, 0)
  }

  /** Some of the pages lo to hi of d are new, and perhaps a frame is held in mem. */
  ghost predicate Attempted(p0: seq<Page>, u0: seq<Use>, p1: seq<Page>, u1: seq<Use>, d: nat, lo: nat, hi: nat,
      mem: nat)
    requires |p1| == |p0| == |u0| == |u1|
  {
    && SameMaps(p0, u0, p1, d, lo, hi)
    && Keeps(p0, u0, p1, u1, d, 0, 0)
    && OnlyFresh(u0, u1, d, lo, hi, mem)
    && (mem != 0 ==> mem < |u1| && u1[mem] == Held && u0[mem] == Free)
  }

  /** The frames of user pages lo to hi of directory d have become free. */
  ghost function Released(use: seq<Use>, d: nat, lo: nat, hi: nat): (r: seq<Use>)
    ensures |r| == |use|
  {
    seq(|use|, f requires 0 <= f < |use| =>
      if use[f].User? && use[f].d == d && lo <= use[f].v < hi then Free else use[f])
  }

  /** Exactly the user pages lo to hi of directory d are gone and their frames free. */
  ghost predicate Shrunk(p0: seq<Page>, u0: seq<Use>, p1: seq<Page>, u1: seq<Use>, d: nat, lo: nat, hi: nat)
    requires |p1| == |p0| == |u0| == |u1| && IsDir(u1, d)
  {
    && (forall v: nat {:trigger Flat(p1, d, v)} :: lo <= v < hi && v < NVPN ==> !Present(Flat(p1, d, v)))
    && SameMaps(p0, u0, p1, d, lo, hi)
    && Keeps(p0, u0, p1, u1, d, lo, hi)
    && u1 == Released(u0, d, lo, hi)
  }

  function Low(a: nat, b: nat): nat { if a < b then a else b }

  // ---- The same in byte addresses ----

  /** The page that byte a lies in is a fresh zeroed user page of d. */
  ghost predicate ByteMapped(p: seq<Page>, d: nat, a: nat)
    requires d < |p|
  {
    a / PGSIZE < NVPN && UserPage(p, d, a / PGSIZE)
  }

  /** No page of d that starts in [lo, hi) is mapped. */
  ghost predicate EmptyBetween(p: seq<Page>, d: nat, lo: nat, hi: nat)
    requires d < |p|
  {
    forall v: nat {:trigger Flat(p, d, v)} :: v < NVPN && lo <= v * PGSIZE < hi ==> !Present(Flat(p, d, v))
  }

  /** All pages but those of d that start in [lo, hi) have the entries they had. */
  ghost predicate SameOutside(p0: seq<Page>, u0: seq<Use>, p1: seq<Page>, d: nat, lo: nat, hi: nat)
    requires |p1| == |p0| == |u0|
  {
    forall e: nat, v: nat {:trigger Flat(p1, e, v)} ::
      IsDir(u0, e) && v < NVPN && (e != d || v * PGSIZE < lo || hi <= v * PGSIZE) ==> Flat(p1, e, v) == Flat(p0, e, v)
  }

  /** A process grown from oldsz to newsz bytes: every byte below newsz on a page that starts
      at oldsz or above has a fresh zeroed page, and no other page changes. */
  ghost predicate GrownBytes(p0: seq<Page>, u0: seq<Use>, p1: seq<Page>, d: nat, oldsz: nat, newsz: nat)
    requires |p1| == |p0| == |u0| && d < |p1|
  {
    && (forall a: nat {:trigger ByteMapped(p1, d, a)} ::
          a < newsz && oldsz <= a / PGSIZE * PGSIZE ==> ByteMapped(p1, d, a))
    && SameOutside(p0, u0, p1, d, oldsz, newsz)
  }

  lemma {:induction false} ExtendedIsGrown(p0: seq<Page>, u0: seq<Use>, p1: seq<Page>, u1: seq<Use>, d: nat,
      oldsz: nat, newsz: nat)
    requires |p1| == |p0| == |u0| == |u1| && d < |p1| && newsz <= KERNBASE
    requires Extended(p0, u0, p1, u1, d, PagesUp(oldsz), PagesUp(newsz))
    ensures GrownBytes(p0, u0, p1, d, oldsz, newsz)
  {
    SameInBytes(p0, u0, p1, d, oldsz, newsz);
    forall a: nat | a < newsz && oldsz <= a / PGSIZE * PGSIZE ensures ByteMapped(p1, d, a) {
      var v := a / PGSIZE;
      PageStarts(oldsz, v);
      PageStarts(newsz, v);
      var e := Flat(p1, d, v);
      assert UserPage(p1, d, v);
    }
  }

  lemma {:induction false} SameInBytes(p0: seq<Page>, u0: seq<Use>, p1: seq<Page>, d: nat, lo: nat, hi: nat)
    requires |p1| == |p0| == |u0| && SameMaps(p0, u0, p1, d, PagesUp(lo), PagesUp(hi))
    ensures SameOutside(p0, u0, p1, d, lo, hi)
  {
    forall e: nat, v: nat | IsDir(u0, e) && v < NVPN && (e != d || v * PGSIZE < lo || hi <= v * PGSIZE)
      ensures Flat(p1, e, v) == Flat(p0, e, v)
    {
      PageStarts(lo, v);
      PageStarts(hi, v);
    }
  }

  lemma {:induction false} UnmappedIsEmpty(p: seq<Page>, d: nat, lo: nat, hi: nat)
    requires d < |p|
    ensures Unmapped(p, d, PagesUp(lo), PagesUp(hi)) <==> EmptyBetween(p, d, lo, hi)
  {
    forall v: nat ensures PagesUp(lo) <= v < PagesUp(hi) <==> lo <= v * PGSIZE < hi {
      PageStarts(lo, v);
      PageStarts(hi, v);
    }
  }

  /** A process cut down to newsz bytes: the pages that start in [newsz, oldsz) are unmapped
      and their frames free, and no other page changes. */
  ghost predicate CutBytes(p0: seq<Page>, u0: seq<Use>, p1: seq<Page>, u1: seq<Use>, d: nat, oldsz: nat, newsz: nat)
    requires |p1| == |p0| == |u0| == |u1| && d < |p1|
  {
    && EmptyBetween(p1, d, newsz, oldsz)
    && SameOutside(p0, u0, p1, d, newsz, oldsz)
    && forall f: nat {:trigger u1[f]} :: f < |u0| ==>
      u1[f] == if u0[f].User? && u0[f].d == d && newsz <= u0[f].v * PGSIZE < oldsz then Free else u0[f]
  }

  lemma {:induction false} ShrunkIsCut(p0: seq<Page>, u0: seq<Use>, p1: seq<Page>, u1: seq<Use>, d: nat,
      oldsz: nat, newsz: nat)
    requires |p1| == |p0| == |u0| == |u1| && IsDir(u1, d)
    requires Shrunk(p0, u0, p1, u1, d, PagesUp(newsz), PagesUp(oldsz))
    ensures CutBytes(p0, u0, p1, u1, d, oldsz, newsz)
  {
    SameInBytes(p0, u0, p1, d, newsz, oldsz);
    UnmappedIsEmpty(p1, d, newsz, oldsz);
    forall f: nat | f < |u0|
      ensures u1[f] == if u0[f].User? && u0[f].d == d && newsz <= u0[f].v * PGSIZE < oldsz then Free else u0[f]
    {
      if u0[f].User? {
        PageStarts(newsz, u0[f].v);
        PageStarts(oldsz, u0[f].v);
      }
    }
  }

  /** The page of byte a is a copy. */
  ghost predicate ByteCopied(p: seq<Page>, d0: nat, d: nat, a: nat)
    requires d0 < |p| && d < |p|
  {
    a / PGSIZE < NVPN && SamePage(p, d0, d, a / PGSIZE)
  }

  /** d has a copy of every byte below sz of d0 and no other user page. */
  ghost predicate CopiedBytes(p: seq<Page>, d0: nat, d: nat, sz: nat)
    requires d0 < |p| && d < |p|
  {
    && (forall a: nat {:trigger ByteCopied(p, d0, d, a)} :: a < sz ==> ByteCopied(p, d0, d, a))
    && EmptyBetween(p, d, sz, KERNBASE)
  }

  lemma {:induction false} CopiedIsBytes(p: seq<Page>, d0: nat, d: nat, sz: nat, kmap: seq<Range>)
    requires d0 < |p| && d < |p| && sz <= KERNBASE && KmapOk(kmap) && PagesUp(sz) <= NUSER
    requires Copied(p, d0, d, PagesUp(sz), kmap)
    ensures CopiedBytes(p, d0, d, sz)
  {
    forall a: nat | a < sz ensures ByteCopied(p, d0, d, a) {
      var v := a / PGSIZE;
      PageStarts(sz, v);
      var e := Flat(p, d, v);
      assert SamePage(p, d0, d, v);
    }
    UnmappedIsEmpty(p, d, sz, KERNBASE);
  }

  /** Every page of d that starts below sz is present. */
  ghost predicate PresentBelow(p: seq<Page>, d: nat, sz: nat)
    requires d < |p|
  {
    forall v: nat {:trigger Flat(p, d, v)} :: v < NVPN && v * PGSIZE < sz ==> Present(Flat(p, d, v))
  }

  lemma {:induction false} PresentPages(p: seq<Page>, d: nat, sz: nat)
    requires d < |p| && sz <= KERNBASE && PresentBelow(p, d, sz)
    ensures forall v: nat {:trigger Flat(p, d, v)} :: v < PagesUp(sz) && v < NVPN ==> Present(Flat(p, d, v))
  {
    forall v: nat | v < PagesUp(sz) && v < NVPN ensures Present(Flat(p, d, v)) {
      PageStarts(sz, v);
    }
  }

  lemma {:induction false} RoundUpMonotone(a: nat, b: nat)
    requires a <= b
    ensures PagesUp(a) <= PagesUp(b)
  {
  }

  // ---- The code ----

  class Memory {
    var pages: seq<Page>
    var free: set<nat>
    ghost var use: seq<Use>

    ghost predicate Valid()
      reads this
    {
      && Ok(pages, use)
      && 0 < |use| && use[0] == Kernel
      && forall f: nat :: f in free <==> f < |use| && use[f] == Free
    }

    /** Memory in a given state. */
    constructor (p: seq<Page>, f: set<nat>, ghost u: seq<Use>)
      requires Ok(p, u) && 0 < |u| && u[0] == Kernel && forall g: nat :: g in f <==> g < |u| && u[g] == Free
      ensures Valid() && pages == p && free == f && use == u
    {
      pages, free, use := p, f, u;
    }

    /** kalloc: some free frame, or 0. */
    method Kalloc() returns (f: nat)
      requires Valid()
      modifies this`free, this`use
      ensures Valid()
      ensures f == 0 <==> old(free) == {}
      ensures f == 0 ==> free == old(free) && use == old(use)
      ensures f != 0 ==> f < |pages| && old(use)[f] == Free && use == old(use)[f := Held] && free == old(free) - {f}
    {
      if free == {} {
        return 0;
      }
      f :| f in free;
      free := free - {f};
      use := use[f := Held];
      OkAgain(pages, old(use), pages, use);
    }

    /** kfree: the frame is filled with junk and joins the free list. */
    method Kfree(f: nat)
      requires f < |pages| == |use| && f !in free
      modifies this`pages, this`free, this`use
      ensures |pages| == |old(pages)| && pages == old(pages)[f := pages[f]]
      ensures free == old(free) + {f} && use == old(use)[f := Free]
    {
      var junk: Page := seq(1024, _ => 0x0101_0101);
      pages := pages[f := junk];
      free := free + {f};
      use := use[f := Free];
    }

    /** walkpgdir: make sure the table of page v exists if alloc, and say whether it
        does. No map changes. */
    method Walkpgdir(d: nat, v: nat, alloc: bool) returns (found: bool)
      requires Valid() && IsDir(use, d) && v < NVPN
      modifies this`pages, this`free, this`use
      ensures Valid() && |pages| == |old(pages)| && IsDir(use, d)
      ensures found <==> Present(Pde(pages, d, v / NENTRIES))
      ensures !found ==> pages == old(pages) && use == old(use) && (alloc ==> free == {})
      ensures !alloc ==> pages == old(pages) && use == old(use) && free == old(free)
      ensures SameMaps(old(pages), old(use), pages, d, 0, 0)
      ensures Keeps(old(pages), old(use), pages, use, d, 0, 0)
      ensures TableAdded(old(use), use, d, v / NENTRIES)
      ensures alloc ==> (found <==> old(free) != {} || Present(Pde(old(pages), d, v / NENTRIES)))
      ensures alloc && found ==> Tabled(old(pages), old(free), pages, free, d, v / NENTRIES)
    {
      var i := v / NENTRIES;
      if Present(pages[d][i]) {
        assert Tables(pages, d)[i := true] == Tables(pages, d);
        return true;
      }
      if !alloc {
        return false;
      }
      found := AddTable(d, i);
    }

    /** kalloc, memset and the directory entry: an empty page table for entry i. */
    method AddTable(d: nat, i: nat) returns (found: bool)
      requires Valid() && IsDir(use, d) && i < NENTRIES && !Present(Pde(pages, d, i))
      modifies this`pages, this`free, this`use
      ensures Valid() && |pages| == |old(pages)| && IsDir(use, d)
      ensures found <==> old(free) != {}
      ensures !found ==> pages == old(pages) && use == old(use) && free == {}
      ensures found <==> Present(Pde(pages, d, i))
      ensures SameMaps(old(pages), old(use), pages, d, 0, 0)
      ensures Keeps(old(pages), old(use), pages, use, d, 0, 0)
      ensures TableAdded(old(use), use, d, i)
      ensures found ==> Tabled(old(pages), old(free), pages, free, d, i)
    {
      var t := Kalloc();
      if t == 0 {
        return false;
      }
      assert !Present(Pde(pages, d, i)) && use[d] == Dir;
      NewTableOk(pages, use, d, i, t);
      TablesPlus(pages, use, d, i, t);
      NewTableMaps(pages, use, d, i, t);
      KallocMaps(pages, old(use), use, WithTable(pages, d, i, t), t, d);
      pages := WithTable(pages, d, i, t);
      use := use[t := Table(d, i)];
      return true;
    }

    /** One turn of mappages: page v of d now maps frame f. */
    method MapOne(d: nat, v: nat, f: nat, perm: nat) returns (r: Status)
      requires Valid() && IsDir(use, d) && v < NVPN && f < NVPN && perm < PGSIZE
      requires v < NUSER ==> f < |pages| && use[f] == Held
      modifies this`pages, this`free, this`use
      ensures Valid() && |pages| == |old(pages)| && IsDir(use, d)
      ensures r.Remap? <==> Present(Flat(old(pages), d, v))
      ensures r.NoMemory? ==> free == {}
      ensures r.Done? ==> Flat(pages, d, v) == Pte(f, perm) && (v < NUSER ==> use[f] == User(d, v))
      ensures !r.Done? ==> SameMaps(old(pages), old(use), pages, d, 0, 0) && (v < NUSER ==> use[f] == Held)
      ensures SameMaps(old(pages), old(use), pages, d, v, v + 1)
      ensures Keeps(old(pages), old(use), pages, use, d, 0, 0)
      ensures v >= NUSER || !r.Done? ==> TableAdded(old(use), use, d, v / NENTRIES)
      ensures v < NUSER && r.Done? ==> TableAdded(old(use)[f := User(d, v)], use, d, v / NENTRIES)
      ensures r.NoMemory? <==> old(free) == {} && !Present(Pde(old(pages), d, v / NENTRIES))
      ensures r.NoMemory? ==> pages == old(pages) && use == old(use)
      ensures !r.NoMemory? ==> Tabled(old(pages), old(free), pages, free, d, v / NENTRIES)
    {
      ghost var p0, u0 := pages, use;
      var found := Walkpgdir(d, v, true);
      if !found {
        return NoMemory;
      }
      assert Flat(pages, d, v) == Flat(p0, d, v);
      assert PdeOk(pages, use, d, v / NENTRIES);
      var t := Frame(pages[d][v / NENTRIES]);
      assert Present(Pde(pages, d, v / NENTRIES));
      if Present(pages[t][v % NENTRIES]) {
        return Remap;
      }
      ghost var p1, u1 := pages, use;
      SetEntry(d, v, f, perm);
      SameMapsTrans(p0, u0, p1, u1, pages, d, 0, 0, v, v + 1, v, v + 1);
      KeepsTrans(p0, u0, p1, u1, pages, use, d);
      return Done;
    }

    /** The store of mappages into an empty entry whose table exists. */
    method SetEntry(d: nat, v: nat, f: nat, perm: nat)
      requires Valid() && IsDir(use, d) && v < NVPN && f < NVPN && perm < PGSIZE
      requires Present(Pde(pages, d, v / NENTRIES)) && !Present(Flat(pages, d, v))
      requires v < NUSER ==> f < |pages| && use[f] == Held
      modifies this`pages, this`use
      ensures Valid() && |pages| == |old(pages)| && IsDir(use, d)
      ensures Flat(pages, d, v) == Pte(f, perm)
      ensures use == if v < NUSER then old(use)[f := User(d, v)] else old(use)
      ensures Tables(pages, d) == Tables(old(pages), d)
      ensures SameMaps(old(pages), old(use), pages, d, v, v + 1)
      ensures Keeps(old(pages), old(use), pages, use, d, 0, 0)
    {
      var w := Pte(f, perm);
      StoredTables(pages, use, d, v, w);
      StoredMaps(pages, use, d, v, w);
      StoredKeeps(pages, use, d, v, f, w);
      if v < NUSER {
        MapUser(pages, use, d, v, f, perm);
        use := use[f := User(d, v)];
      } else {
        MapKernel(pages, use, d, v, w);
      }
      pages := Stored(pages, d, v, w);
    }

    /** One turn of deallocuvm at a page whose table exists. */
    method UnmapOne(d: nat, v: nat)
      requires Valid() && IsDir(use, d) && v < NUSER && Present(Pde(pages, d, v / NENTRIES))
      modifies this`pages, this`free, this`use
      ensures Valid() && |pages| == |old(pages)| && IsDir(use, d)
      ensures !Present(Flat(pages, d, v))
      ensures Present(Pde(pages, d, v / NENTRIES))
      ensures SameMaps(old(pages), old(use), pages, d, v, v + 1)
      ensures Keeps(old(pages), old(use), pages, use, d, v, v + 1)
      ensures forall f: nat :: f < |use| ==> use[f] == if old(use)[f] == User(d, v) then Free else old(use)[f]
    {
      assert PdeOk(pages, use, d, v / NENTRIES);
      var t := Frame(pages[d][v / NENTRIES]);
      var e := pages[t][v % NENTRIES];
      assert e == Flat(pages, d, v);
      UserFrame(pages, use, d, v);
      assert PageOk(pages, use, d, v);
      if Present(e) {
        UnmapUser(pages, use, d, v);
        ghost var p, u := pages, use;
        StoredMaps(p, u, d, v, 0);
        StoreFlat(p, u, d, v, 0, d, v);
        Kfree(Frame(e));
        pages := pages[t := pages[t][v % NENTRIES := 0]];
        JunkKeeps(Stored(p, d, v, 0), use, pages, Frame(e));
      }
    }

    /** The loop of deallocuvm, over pages lo to hi. */
    method DeallocPages(d: nat, lo: nat, hi: nat)
      requires Valid() && IsDir(use, d) && lo <= hi <= NUSER
      modifies this`pages, this`free, this`use
      ensures Valid() && |pages| == |old(pages)| && IsDir(use, d)
      ensures Shrunk(old(pages), old(use), pages, use, d, lo, hi)
    {
      ghost var p, u := pages, use;
      ReleasedNothing(use, d, lo, lo);
      var v := lo;
      while v < hi
        invariant lo <= v
        invariant Valid() && |pages| == |p| && IsDir(use, d)
        invariant Shrunk(p, u, pages, use, d, lo, Low(v, hi))
      {
        var found := Walkpgdir(d, v, false);
        if !found {
          SkipTable(pages, use, d, v, lo, hi, u);
          v := (v / NENTRIES + 1) * NENTRIES;
        } else {
          ghost var p1, u1 := pages, use;
          UnmapOne(d, v);
          ShrunkOne(p, u, p1, u1, pages, use, d, lo, v);
          v := v + 1;
        }
      }
    }

    /** deallocuvm: pages PGROUNDUP(newsz) to oldsz are unmapped and their frames freed,
        with whole missing page tables skipped; nothing else changes. */
    method Deallocuvm(d: nat, oldsz: nat, newsz: nat) returns (r: nat)
      requires Valid() && IsDir(use, d) && oldsz <= KERNBASE
      modifies this`pages, this`free, this`use
      ensures Valid() && |pages| == |old(pages)| && IsDir(use, d)
      ensures r == if newsz >= oldsz then oldsz else newsz
      ensures newsz >= oldsz ==> pages == old(pages) && use == old(use) && free == old(free)
      ensures newsz < oldsz ==> Shrunk(old(pages), old(use), pages, use, d, PagesUp(newsz), PagesUp(oldsz))
      ensures newsz < oldsz ==> CutBytes(old(pages), old(use), pages, use, d, oldsz, newsz)
    {
      if newsz >= oldsz {
        return oldsz;
      }
      RoundUpMonotone(newsz, oldsz);
      DeallocPages(d, PagesUp(newsz), PagesUp(oldsz));
      ShrunkIsCut(old(pages), old(use), pages, use, d, oldsz, newsz);
      return newsz;
    }

    /** kalloc and memset: a zeroed frame that belongs to nobody yet. */
    method Zalloc() returns (f: nat)
      requires Valid()
      modifies this`pages, this`free, this`use
      ensures Valid() && |pages| == |old(pages)|
      ensures f == 0 ==> pages == old(pages) && use == old(use) && free == {}
      ensures f != 0 ==> f < |pages| && old(use)[f] == Free && use == old(use)[f := Held] && pages[f] == ZeroPage()
      ensures f != 0 ==> |free| == |old(free)| - 1
      ensures f == 0 <==> old(free) == {}
      ensures f != 0 ==> forall g: nat :: g < |pages| && g != f ==> pages[g] == old(pages)[g]
      ensures SameMaps(old(pages), old(use), pages, 0, 0, 0)
      ensures Keeps(old(pages), old(use), pages, use, 0, 0, 0)
      ensures SameTables(old(pages), old(use), pages)
    {
      f := Kalloc();
      if f != 0 {
        DataKeepsOk(pages, use, f, ZeroPage());
        DataKeepsTables(pages, use, f, ZeroPage());
        ghost var p := pages;
        forall e: nat, v: nat | IsDir(use, e) && v < NVPN ensures Flat(p[f := ZeroPage()], e, v) == Flat(p, e, v) {
          DataKeepsFlat(p, use, f, ZeroPage(), e, v);
        }
        pages := pages[f := ZeroPage()];
      }
    }

    /** One turn of allocuvm: a zeroed user page at v. On failure the frame, if one was
        found, is returned in mem for the caller to free. */
    method AllocPage(d: nat, v: nat) returns (ok: bool, mem: nat)
      requires Valid() && IsDir(use, d) && v < NUSER && !Present(Flat(pages, d, v))
      modifies this`pages, this`free, this`use
      ensures Valid() && |pages| == |old(pages)| && IsDir(use, d)
      ensures ok ==> UserPage(pages, d, v) && old(use)[Frame(Flat(pages, d, v))] == Free
      ensures ok ==> SameMaps(old(pages), old(use), pages, d, v, v + 1)
      ensures !ok ==> SameMaps(old(pages), old(use), pages, d, 0, 0)
      ensures !ok && mem != 0 ==> mem < |use| && use[mem] == Held && old(use)[mem] == Free
      ensures Keeps(old(pages), old(use), pages, use, d, 0, 0)
      ensures OnlyFresh(old(use), use, d, v, v + 1, if ok then 0 else mem)
      ensures ok ==> Paid(old(pages), old(free), pages, free, d, v, 1)
      ensures ok <==> |old(free)| >= 1 + NewTables(Tables(old(pages), d), v, 1)
    {
      ghost var p0, u0 := pages, use;
      TableOrNot(p0, d, v);
      mem := Zalloc();
      if mem == 0 {
        return false, 0;
      }
      ghost var p1, u1 := pages, use;
      assert IsDir(u1, d) && Flat(p1, d, v) == Flat(p0, d, v);
      var r := MapOne(d, v, mem, 6);
      if r.Done? {
        assert u1[mem].Held? && pages[mem] == p1[mem];
      }
      AfterHeld(p0, u0, p1, u1, pages, mem, d, v, r.Done?);
      FreshAt(u0, u1, use, d, v, mem, r.Done?);
      return r.Done?, mem;
    }

    /** The loop of allocuvm has reached page v. */
    ghost predicate AllocatedTo(d: nat, lo: nat, v: nat, p0: seq<Page>, u0: seq<Use>, q0: set<nat>)
      reads this
    {
      && Valid() && |pages| == |p0| == |u0| && IsDir(u0, d) && IsDir(use, d) && lo <= v <= NUSER
      && Extended(p0, u0, pages, use, d, lo, v) && Paid(p0, q0, pages, free, d, lo, v - lo)
    }

    /** One turn of that loop. */
    method AllocTurn(d: nat, lo: nat, v: nat, hi: nat, ghost p0: seq<Page>, ghost u0: seq<Use>, ghost q0: set<nat>)
      returns (ok: bool, mem: nat)
      requires AllocatedTo(d, lo, v, p0, u0, q0) && v < hi <= NUSER && Unmapped(p0, d, lo, hi)
      modifies this`pages, this`free, this`use
      ensures ok ==> AllocatedTo(d, lo, v + 1, p0, u0, q0)
      ensures !ok ==> Valid() && |pages| == |p0| && IsDir(use, d) && Attempted(p0, u0, pages, use, d, lo, hi, mem)
      ensures !ok ==> |q0| < hi - lo + NewTables(Tables(p0, d), lo, hi - lo)
    {
      ghost var p1, u1, q1 := pages, use, free;
      assert SameMaps(p0, u0, pages, d, lo, v);
      assert Flat(pages, d, v) == Flat(p0, d, v);
      ok, mem := AllocPage(d, v);
      if ok {
        ExtendedOne(p0, u0, p1, u1, pages, use, d, lo, v);
        PaidMore(p0, q0, p1, q1, pages, free, d, lo, v);
      } else {
        AttemptFails(p0, u0, p1, u1, pages, use, d, lo, v, hi, mem);
        TooFew(p0, q0, p1, q1, d, lo, v, hi);
      }
    }

    /** The loop of allocuvm, over pages lo to hi; on failure mem as in AllocPage. */
    method AllocPages(d: nat, lo: nat, hi: nat) returns (ok: bool, mem: nat)
      requires Valid() && IsDir(use, d) && lo <= hi <= NUSER && Unmapped(pages, d, lo, hi)
      modifies this`pages, this`free, this`use
      ensures Valid() && |pages| == |old(pages)| && IsDir(use, d)
      ensures ok ==> Extended(old(pages), old(use), pages, use, d, lo, hi)
      ensures !ok ==> Attempted(old(pages), old(use), pages, use, d, lo, hi, mem)
      ensures ok <==> |old(free)| >= hi - lo + NewTables(Tables(old(pages), d), lo, hi - lo)
    {
      ghost var p0, u0, q0 := pages, use, free;
      var v := lo;
      mem := 0;
      while v < hi
        invariant lo <= v <= hi && AllocatedTo(d, lo, v, p0, u0, q0)
      {
        ok, mem := AllocTurn(d, lo, v, hi, p0, u0, q0);
        if !ok {
          return;
        }
        v := v + 1;
      }
      return true, 0;
    }

    /** allocuvm: pages PGROUNDUP(oldsz) to newsz become fresh zeroed user pages, or, if
        memory runs out, the map is what it was. */
    method Allocuvm(d: nat, oldsz: nat, newsz: nat) returns (r: nat)
      requires Valid() && IsDir(use, d)
      requires oldsz <= newsz < KERNBASE ==> EmptyBetween(pages, d, oldsz, newsz)
      modifies this`pages, this`free, this`use
      ensures Valid() && |pages| == |old(pages)| && IsDir(use, d)
      ensures newsz >= KERNBASE ==> r == 0 && pages == old(pages) && use == old(use)
      ensures newsz < KERNBASE && newsz < oldsz ==> r == oldsz && pages == old(pages) && use == old(use)
      ensures oldsz <= newsz < KERNBASE ==>
        var lo, hi := PagesUp(oldsz), PagesUp(newsz);
        if |old(free)| >= hi - lo + NewTables(Tables(old(pages), d), lo, hi - lo)
        then r == newsz && Extended(old(pages), old(use), pages, use, d, lo, hi)
        else r == 0 && Restored(old(pages), old(use), pages, use, d, lo, hi)
      ensures oldsz <= newsz < KERNBASE && r == newsz > 0 ==>
        GrownBytes(old(pages), old(use), pages, d, oldsz, newsz)
      ensures oldsz <= newsz < KERNBASE && r != newsz ==>
        EmptyBetween(pages, d, oldsz, newsz) && SameOutside(old(pages), old(use), pages, d, oldsz, newsz)
    {
      if newsz >= KERNBASE {
        return 0;
      }
      if newsz < oldsz {
        return oldsz;
      }
      RoundUpMonotone(oldsz, newsz);
      UnmappedIsEmpty(pages, d, oldsz, newsz);
      ghost var p0, u0 := pages, use;
      var ok, mem := AllocPages(d, PagesUp(oldsz), PagesUp(newsz));
      if ok {
        ExtendedIsGrown(p0, u0, pages, use, d, oldsz, newsz);
        return newsz;
      }
      ghost var p1, u1 := pages, use;
      DeallocPages(d, PagesUp(oldsz), PagesUp(newsz));
      Undone(p0, u0, p1, u1, pages, use, d, PagesUp(oldsz), PagesUp(newsz), mem);
      if mem != 0 {
        FreeHeld(mem);
      }
      SameInBytes(p0, u0, pages, d, oldsz, newsz);
      UnmappedIsEmpty(pages, d, oldsz, newsz);
      return 0;
    }

    /** kfree of a frame that no table mentions. */
    method FreeHeld(f: nat)
      requires Valid() && f < |use| && use[f] == Held
      modifies this`pages, this`free, this`use
      ensures Valid() && |pages| == |old(pages)| && use == old(use)[f := Free] && free == old(free) + {f}
      ensures forall g: nat :: g < |pages| && g != f ==> pages[g] == old(pages)[g]
      ensures SameMaps(old(pages), old(use), pages, 0, 0, 0)
    {
      ghost var p, u := pages, use;
      Kfree(f);
      HeldToFree(p, u, f);
      JunkKeeps(p, use, pages, f);
    }

    /** The loop of freevm over the page tables: each present one is freed once. */
    method FreeTables(d: nat)
      requires Valid() && IsDir(use, d)
      modifies this`pages, this`free, this`use
      ensures |pages| == |old(pages)| == |use| && FreeListOk()
      ensures forall f: nat :: f < |use| ==> use[f] == if IsTableOf(old(use)[f], d, NENTRIES) then Free else old(use)[f]
      ensures forall f: nat :: f < |use| && !IsTableOf(old(use)[f], d, NENTRIES) ==> pages[f] == old(pages)[f]
    {
      ghost var p, u := pages, use;
      var i := 0;
      while i < NENTRIES
        invariant 0 <= i <= NENTRIES
        invariant |pages| == |p| == |use| && FreeListOk() && Ok(p, u) && IsDir(u, d)
        invariant forall f: nat {:trigger use[f]} :: f < |use| ==> use[f] == if IsTableOf(u[f], d, i) then Free
          else u[f]
        invariant forall f: nat {:trigger pages[f]} :: f < |use| && !IsTableOf(u[f], d, i) ==> pages[f] == p[f]
      {
        assert u[d] == Dir && pages[d] == p[d];
        TableFrame(p, u, d, i);
        assert PdeOk(p, u, d, i);
        if Present(pages[d][i]) {
          assert Present(Pde(p, d, i));
          Kfree(Frame(pages[d][i]));
        }
        i := i + 1;
      }
    }

    /** freevm: every user frame, page table and the directory itself is returned, and
        nothing else. */
    method Freevm(d: nat)
      requires Valid() && IsDir(use, d)
      modifies this`pages, this`free, this`use
      ensures Valid() && |pages| == |old(pages)|
      ensures forall f: nat :: f < |use| ==> use[f] == if OwnedBy(old(use)[f], f, d) then Free else old(use)[f]
      ensures forall f: nat :: f < |use| && old(use)[f].User? && old(use)[f].d != d ==> pages[f] == old(pages)[f]
      ensures forall e: nat, v: nat :: IsDir(old(use), e) && e != d && v < NVPN ==>
        Flat(pages, e, v) == Flat(old(pages), e, v)
    {
      ghost var p0, u0 := pages, use;
      DeallocPages(d, 0, NUSER);
      ghost var p1, u1 := pages, use;
      AllReleased(p0, u0, u1, d);
      TablesInRange(p1, u1, d);
      FreeTables(d);
      Kfree(d);
      DropDirOk(p1, u1, pages, use, d);
      forall e: nat, v: nat | IsDir(u0, e) && e != d && v < NVPN ensures Flat(pages, e, v) == Flat(p0, e, v) {
        assert u1[e] == Dir;
        assert Flat(p1, e, v) == Flat(p0, e, v);
      }
    }

    ghost predicate FreeListOk()
      reads this
    {
      && 0 < |use| && use[0] == Kernel
      && forall f: nat :: f in free <==> f < |use| && use[f] == Free
    }

    /** mappages on kernel pages v0 to v0 + n, mapped to frames f0 onwards; k counts the
        pages it has mapped. */
    method Mappages(d: nat, v0: nat, n: nat, f0: nat, perm: nat) returns (r: Status, ghost k: nat)
      requires Valid() && IsDir(use, d) && 0 < n && NUSER <= v0 && v0 + n <= NVPN && f0 + n <= NVPN && perm < PGSIZE
      requires Unmapped(pages, d, v0, v0 + n)
      modifies this`pages, this`free, this`use
      ensures Valid() && |pages| == |old(pages)| && IsDir(use, d)
      ensures r.Done? || r.NoMemory?
      ensures k <= n && Partly(old(pages), old(use), old(free), pages, use, free, d, v0, k, f0, perm)
      ensures r.Done? ==> k == n
      ensures r.NoMemory? ==> k < n && free == {} && !Present(Pde(pages, d, (v0 + k) / NENTRIES))
    {
      ghost var p0, u0, q0 := pages, use, free;
      var i := 0;
      PartlyNone(pages, use, free, d, v0, f0, perm);
      while true
        invariant 0 <= i < n
        invariant Valid() && |pages| == |p0| && IsDir(use, d)
        invariant Partly(p0, u0, q0, pages, use, free, d, v0, i, f0, perm)
        decreases n - i
      {
        r := MapTurn(d, v0, i, f0, perm, p0, u0, q0);
        if r.NoMemory? {
          return r, i;
        }
        if i == n - 1 {
          return r, n;
        }
        i := i + 1;
      }
    }

    /** One turn of that loop. */
    method MapTurn(d: nat, v0: nat, i: nat, f0: nat, perm: nat, ghost p0: seq<Page>, ghost u0: seq<Use>,
        ghost q0: set<nat>)
      returns (r: Status)
      requires Valid() && IsDir(use, d) && NUSER <= v0 && v0 + i < NVPN && f0 + i < NVPN && perm < PGSIZE
      requires |p0| == |u0| == |pages| && IsDir(u0, d) && !Present(Flat(p0, d, v0 + i))
      requires Partly(p0, u0, q0, pages, use, free, d, v0, i, f0, perm)
      modifies this`pages, this`free, this`use
      ensures Valid() && |pages| == |p0| && IsDir(use, d)
      ensures r.Done? || r.NoMemory?
      ensures r.Done? ==> Partly(p0, u0, q0, pages, use, free, d, v0, i + 1, f0, perm)
      ensures r.NoMemory? ==> Partly(p0, u0, q0, pages, use, free, d, v0, i, f0, perm)
      ensures r.NoMemory? ==> free == {} && !Present(Pde(pages, d, (v0 + i) / NENTRIES))
    {
      ghost var p1, u1, q1 := pages, use, free;
      PartlyFree(p0, u0, q0, p1, u1, q1, d, v0, i, f0, perm);
      r := MapOne(d, v0 + i, f0 + i, perm);
      if r.Done? {
        PartlyMore(p0, u0, q0, p1, u1, q1, pages, use, free, d, v0, i, f0, perm, (v0 + i) / NENTRIES);
      }
    }

    /** setupkvm: a fresh directory with exactly the kernel's mappings, or nothing. It
        succeeds exactly if there are frames for the directory and its page tables. */
    method Setupkvm(kmap: seq<Range>) returns (d: nat)
      requires Valid() && KmapOk(kmap)
      modifies this`pages, this`free, this`use
      ensures Valid() && |pages| == |old(pages)|
      ensures d == 0 ==> use == old(use)
      ensures d != 0 ==> IsDir(use, d) && old(use)[d] == Free && KernelOnly(pages, d, kmap, |kmap|)
      ensures d != 0 ==> NewDir(old(use), use, d)
      ensures OthersKept(old(pages), old(use), pages, use)
      ensures d != 0 <==> |old(free)| >= 1 + Count(KernelTables(kmap, |kmap|))
      ensures d != 0 ==> Tables(pages, d) == KernelTables(kmap, |kmap|)
      ensures d != 0 ==> |free| == |old(free)| - 1 - Count(KernelTables(kmap, |kmap|))
    {
      ghost var p0, u0, m := pages, use, |free|;
      d := NewDirectory(kmap);
      if d == 0 {
        return;
      }
      var ok := KernelRows(d, kmap, p0, u0, m);
      if !ok {
        return 0;
      }
    }

    /** The loop of setupkvm over the rows of kmap. */
    method KernelRows(d: nat, kmap: seq<Range>, ghost p0: seq<Page>, ghost u0: seq<Use>, ghost m: nat)
        returns (ok: bool)
      requires KmapOk(kmap) && |p0| == |u0| && Ok(p0, u0) && KernelTo(d, kmap, 0, p0, u0, m)
      modifies this`pages, this`free, this`use
      ensures ok ==> KernelTo(d, kmap, |kmap|, p0, u0, m)
      ensures !ok ==> Valid() && |pages| == |p0| && use == u0 && OthersKept(p0, u0, pages, use)
      ensures !ok ==> m < 1 + Count(KernelTables(kmap, |kmap|))
    {
      var k := 0;
      while k < |kmap|
        invariant 0 <= k <= |kmap|
        invariant KernelTo(d, kmap, k, p0, u0, m)
      {
        ok := KernelTurn(d, kmap, k, p0, u0, m);
        if !ok {
          return;
        }
        k := k + 1;
      }
      return true;
    }

    /** The first k rows of kmap are mapped in the new directory d; memory was p0 and u0,
        with m free frames, before it was made. */
    ghost predicate KernelTo(d: nat, kmap: seq<Range>, k: nat, p0: seq<Page>, u0: seq<Use>, m: nat)
      requires KmapOk(kmap) && k <= |kmap| && |p0| == |u0|
      reads this
    {
      && Valid() && |pages| == |p0| && IsDir(use, d) && u0[d] == Free && d != 0
      && KernelOnly(pages, d, kmap, k)
      && NewDir(u0, use, d)
      && OthersKept(p0, u0, pages, use)
      && Tables(pages, d) == KernelTables(kmap, k) && |free| + Count(Tables(pages, d)) == m - 1
    }

    /** kalloc and memset: an empty directory. */
    method NewDirectory(ghost kmap: seq<Range>) returns (d: nat)
      requires Valid() && KmapOk(kmap)
      modifies this`pages, this`free, this`use
      ensures d == 0 <==> old(free) == {}
      ensures d == 0 ==>
        Valid() && pages == old(pages) && use == old(use) && OthersKept(old(pages), old(use), pages, use)
      ensures d != 0 ==> KernelTo(d, kmap, 0, old(pages), old(use), |old(free)|)
    {
      d := Zalloc();
      if d != 0 {
        MakeDir(pages, use, d);
        use := use[d := Dir];
      }
    }

    /** One row of kmap; out of memory, the directory is freed again. */
    method KernelTurn(d: nat, kmap: seq<Range>, k: nat, ghost p0: seq<Page>, ghost u0: seq<Use>, ghost m: nat)
        returns (ok: bool)
      requires KmapOk(kmap) && k < |kmap| && |p0| == |u0| && Ok(p0, u0) && KernelTo(d, kmap, k, p0, u0, m)
      modifies this`pages, this`free, this`use
      ensures ok ==> KernelTo(d, kmap, k + 1, p0, u0, m)
      ensures !ok ==> Valid() && |pages| == |p0| && use == u0 && OthersKept(p0, u0, pages, use)
      ensures !ok ==> m < 1 + Count(KernelTables(kmap, |kmap|))
    {
      ghost var p2, u2 := pages, use;
      var g := kmap[k];
      KernelRoom(pages, d, kmap, k);
      var r, i := Mappages(d, g.v, g.n, g.f, g.perm);
      OthersKeptTrans(p0, u0, p2, u2, pages, use, d, g.v, g.v + i);
      if r.NoMemory? {
        ghost var p3, u3 := pages, use;
        TablesShort(kmap, k, i, pages, d);
        Freevm(d);
        DirGone(p0, u0, p3, u3, pages, use, d);
        return false;
      }
      KernelGrows(p2, u2, pages, d, kmap, k);
      return true;
    }

    /** kalloc and memmove: a frame that belongs to nobody yet, with the contents of frame g. */
    method Copyalloc(g: nat) returns (f: nat)
      requires Valid() && g < |pages| && use[g].User?
      modifies this`pages, this`free, this`use
      ensures Valid() && |pages| == |old(pages)|
      ensures f == 0 ==> pages == old(pages) && use == old(use)
      ensures f == 0 <==> old(free) == {}
      ensures f != 0 ==> f < |pages| && old(use)[f] == Free && use == old(use)[f := Held] && free == old(free) - {f}
      ensures f != 0 ==> f != g && pages[f] == pages[g] == old(pages)[g]
      ensures SameMaps(old(pages), old(use), pages, 0, 0, 0)
      ensures Keeps(old(pages), old(use), pages, use, 0, 0, 0)
      ensures SameTables(old(pages), old(use), pages)
    {
      f := Kalloc();
      if f != 0 {
        DataKeepsOk(pages, use, f, pages[g]);
        DataKeepsTables(pages, use, f, pages[g]);
        ghost var p := pages;
        forall e: nat, v: nat | IsDir(use, e) && v < NVPN ensures Flat(p[f := p[g]], e, v) == Flat(p, e, v) {
          DataKeepsFlat(p, use, f, p[g], e, v);
        }
        pages := pages[f := pages[g]];
      }
    }

    /** kalloc and memmove for page v of d0: a frame with its contents, and its flags. */
    method CopyFrame(d0: nat, v: nat) returns (mem: nat, perm: nat)
      requires Valid() && IsDir(use, d0) && v < NUSER && Present(Flat(pages, d0, v))
      modifies this`pages, this`free, this`use
      ensures Valid() && |pages| == |old(pages)| && perm == Flags(Flat(old(pages), d0, v))
      ensures mem == 0 <==> old(free) == {}
      ensures mem == 0 ==> pages == old(pages) && use == old(use)
      ensures mem != 0 ==>
        mem < |pages| && old(use)[mem] == Free && use == old(use)[mem := Held] && |free| == |old(free)| - 1
      ensures Frame(Flat(old(pages), d0, v)) < |pages|
      ensures mem != 0 ==> pages[mem] == pages[Frame(Flat(old(pages), d0, v))]
      ensures old(use)[Frame(Flat(old(pages), d0, v))] == User(d0, v)
      ensures SameMaps(old(pages), old(use), pages, 0, 0, 0)
      ensures Keeps(old(pages), old(use), pages, use, 0, 0, 0)
      ensures SameTables(old(pages), old(use), pages)
    {
      var found := Walkpgdir(d0, v, false);
      assert PdeOk(pages, use, d0, v / NENTRIES) && PageOk(pages, use, d0, v);
      var t := Frame(pages[d0][v / NENTRIES]);
      var e := pages[t][v % NENTRIES];
      assert e == Flat(pages, d0, v) && use[Frame(e)] == User(d0, v);
      mem := Copyalloc(Frame(e));
      perm := Flags(e);
    }

    /** One turn of copyuvm: page v of d0 copied into d. It fails if no frame is free, and
        also if the only free one is used for the copy and a page table is missing: then
        that frame stays allocated and is reported in leak. */
    method CopyPage(d0: nat, d: nat, v: nat) returns (ok: bool, leak: nat)
      requires Valid() && IsDir(use, d0) && IsDir(use, d) && d0 != d && v < NUSER
      requires Present(Flat(pages, d0, v)) && !Present(Flat(pages, d, v))
      modifies this`pages, this`free, this`use
      ensures Valid() && |pages| == |old(pages)| && IsDir(use, d) && IsDir(use, d0)
      ensures ok ==> SamePage(pages, d0, d, v) && SameMaps(old(pages), old(use), pages, d, v, v + 1)
      ensures !ok ==> SameMaps(old(pages), old(use), pages, d, 0, 0)
      ensures !ok && leak != 0 ==> leak < |use| && use[leak] == Held && old(use)[leak] == Free
      ensures Keeps(old(pages), old(use), pages, use, d, 0, 0)
      ensures OnlyFresh(old(use), use, d, v, v + 1, if ok then 0 else leak)
      ensures !ok && leak == 0 <==> old(free) == {}
      ensures !ok && leak != 0 <==> |old(free)| == 1 && !Present(Pde(old(pages), d, v / NENTRIES))
      ensures ok ==> Tables(pages, d) == Tables(old(pages), d)[v / NENTRIES := true]
      ensures ok ==> |free| + Count(Tables(pages, d)) + 1 == |old(free)| + Count(Tables(old(pages), d))
    {
      ghost var p0, u0 := pages, use;
      var mem, perm := CopyFrame(d0, v);
      if mem == 0 {
        return false, 0;
      }
      ghost var p1, u1, f1 := pages, use, free;
      CopyReady(p0, u0, p1, u1, d0, d, v, mem);
      var r := MapOne(d, v, mem, perm);
      AfterHeld(p0, u0, p1, u1, pages, mem, d, v, r.Done?);
      KeepsTrans(p0, u0, p1, u1, pages, use, d);
      if r.Done? {
        CopyMapped(p1, u1, pages, use, d0, d, v, mem);
      }
      FreshAt(u0, u1, use, d, v, mem, r.Done?);
      return r.Done?, mem;
    }

    /** copyuvm: a directory with the kernel's mappings and a copy of the first sz bytes
        of d0 on frames of its own. It succeeds exactly if there is a frame for the
        directory, each kernel page table, each page and each user page table. On failure
        everything is returned, except that one frame stays allocated, in leak, exactly if
        memory runs out between a page and the page table it is the first to need. */
    method Copyuvm(d0: nat, sz: nat, kmap: seq<Range>) returns (d: nat, leak: nat)
      requires Valid() && IsDir(use, d0) && KmapOk(kmap) && sz <= KERNBASE
      requires PresentBelow(pages, d0, sz)
      modifies this`pages, this`free, this`use
      ensures Valid() && |pages| == |old(pages)|
      ensures OthersKept(old(pages), old(use), pages, use)
      ensures d != 0 ==>
        && IsDir(use, d) && old(use)[d] == Free
        && Copied(pages, d0, d, PagesUp(sz), kmap) && CopiedBytes(pages, d0, d, sz)
        && ChildUses(old(use), use, d, PagesUp(sz), 0)
      ensures d == 0 ==> leak < |use| && use == if leak == 0 then old(use) else old(use)[leak := Held]
      ensures d == 0 && leak != 0 ==> old(use)[leak] == Free
      ensures d != 0 <==> |old(free)| >= 1 + Count(KernelTables(kmap, |kmap|)) + PagesUp(sz) + TablesFor(PagesUp(sz))
      ensures d == 0 && leak != 0 <==> LosesFrame(|old(free)|, Count(KernelTables(kmap, |kmap|)), PagesUp(sz))
    {
      ghost var p0, u0 := pages, use;
      leak := 0;
      d := Setupkvm(kmap);
      if d == 0 {
        return;
      }
      RoundUpMonotone(sz, KERNBASE);
      UserHalfEmpty(pages, d, kmap);
      KernelHalf(kmap, |kmap|);
      PresentPages(p0, d0, sz);
      ghost var m := |free|;
      var ok;
      ok, leak := CopyPages(d0, d, PagesUp(sz), kmap, p0, u0);
      FailureShifts(m, Count(KernelTables(kmap, |kmap|)), PagesUp(sz));
      if !ok {
        ghost var p2, u2 := pages, use;
        Freevm(d);
        CopyUndone(p0, u0, p2, u2, pages, use, d, leak);
        return 0, leak;
      }
      CopiedIsBytes(pages, d0, d, sz, kmap);
      return d, 0;
    }

    /** The loop of copyuvm has copied v pages. p0 and u0 are memory before the child
        directory was made; it then had the tables t0, and m frames were free. */
    ghost predicate CopiedTo(d0: nat, d: nat, v: nat, kmap: seq<Range>, p0: seq<Page>, u0: seq<Use>, t0: seq<bool>,
        m: nat)
      requires |p0| == |u0| && KmapOk(kmap) && v <= NUSER
      reads this
    {
      && Valid() && |pages| == |p0| && IsDir(use, d) && IsDir(use, d0) && d0 != d
      && OthersKept(p0, u0, pages, use) && ChildUses(u0, use, d, v, 0)
      && Copied(pages, d0, d, v, kmap)
      && |t0| == NENTRIES && Tables(pages, d) == RowTables(t0, 0, v)
      && |free| == m - v - TablesFor(v)
    }

    /** One turn of that loop. */
    method CopyTurn(d0: nat, d: nat, v: nat, kmap: seq<Range>, ghost p0: seq<Page>, ghost u0: seq<Use>,
        ghost t0: seq<bool>, ghost m: nat)
      returns (ok: bool, leak: nat)
      requires |p0| == |u0| && KmapOk(kmap) && v < NUSER && IsDir(u0, d0) && d < |u0| && u0[d] == Free
        && Present(Flat(p0, d0, v))
      requires CopiedTo(d0, d, v, kmap, p0, u0, t0, m) && NoUserTables(t0)
      modifies this`pages, this`free, this`use
      ensures ok ==> CopiedTo(d0, d, v + 1, kmap, p0, u0, t0, m)
      ensures !ok ==>
        && Valid() && |pages| == |p0| && IsDir(use, d) && OthersKept(p0, u0, pages, use)
        && ChildUses(u0, use, d, v + 1, leak) && (leak != 0 ==> leak < |use| && use[leak] == Held && u0[leak] == Free)
      ensures !ok && leak == 0 <==> m == v + TablesFor(v)
      ensures !ok && leak != 0 <==> m == 1 + v + TablesFor(v) && v % NENTRIES == 0
    {
      ghost var p1, u1, q1 := pages, use, free;
      CopyNext(p0, u0, p1, u1, d0, d, v, kmap);
      UserTable(p1, d, v, t0);
      ok, leak := CopyPage(d0, d, v);
      StillOthers(p0, u0, p1, u1, pages, use, d, v, v + 1);
      ChildGrows(u0, u1, use, d, v, if ok then 0 else leak);
      if ok {
        CopyStep(p1, u1, pages, use, d0, d, v, kmap);
        CountStep(t0, v, |q1|, |free|);
      }
    }

    /** The loop of copyuvm. */
    method CopyPages(d0: nat, d: nat, n: nat, kmap: seq<Range>, ghost p0: seq<Page>, ghost u0: seq<Use>)
        returns (ok: bool, leak: nat)
      requires Valid() && IsDir(use, d0) && IsDir(use, d) && d0 != d && KmapOk(kmap) && n <= NUSER
      requires |p0| == |u0| == |pages| && u0[d] == Free && IsDir(u0, d0)
      requires forall v: nat :: v < n ==> Present(Flat(p0, d0, v))
      requires OthersKept(p0, u0, pages, use) && ChildUses(u0, use, d, 0, 0) && Copied(pages, d0, d, 0, kmap)
      requires NoUserTables(Tables(pages, d))
      modifies this`pages, this`free, this`use
      ensures Valid() && |pages| == |p0| && IsDir(use, d)
      ensures OthersKept(p0, u0, pages, use)
      ensures ok ==> ChildUses(u0, use, d, n, 0) && Copied(pages, d0, d, n, kmap)
      ensures !ok ==>
        ChildUses(u0, use, d, n, leak) && (leak != 0 ==> leak < |use| && use[leak] == Held && u0[leak] == Free)
      ensures ok <==> |old(free)| >= n + TablesFor(n)
      ensures !ok && leak != 0 <==> RunsOut(|old(free)|, n)
    {
      var v := 0;
      leak := 0;
      ghost var t0, m := Tables(pages, d), |free|;
      while v < n
        invariant 0 <= v <= n
        invariant CopiedTo(d0, d, v, kmap, p0, u0, t0, m)
      {
        ok, leak := CopyTurn(d0, d, v, kmap, p0, u0, t0, m);
        if !ok {
          FailsAt(m, v, n, leak != 0);
          ChildUsesMore(u0, use, d, v + 1, n, leak);
          return;
        }
        v := v + 1;
      }
      Succeeds(m, n);
      return true, 0;
    }
  }

  // ---- A memory in which copyuvm loses a frame ----

  /** Directory 1 with one user page, on frame 3, and m free frames. */
  function SmallPages(m: nat): (p: seq<Page>)
    ensures |p| == 4 + m
  {
    var dir: Page := ZeroPage()[0 := Pte(2, 7)];
    var table: Page := ZeroPage()[0 := Pte(3, 7)];
    [ZeroPage(), dir, table, ZeroPage()] + seq(m, _ => ZeroPage())
  }

  ghost function SmallUse(m: nat): (u: seq<Use>)
    ensures |u| == 4 + m
    ensures forall f :: 4 <= f < 4 + m ==> u[f] == Free
  {
    [Kernel, Dir, Table(1, 0), User(1, 0)] + seq(m, _ => Free)
  }

  function SmallFree(m: nat): (f: set<nat>)
    ensures |f| == m && forall g: nat :: g in f <==> 4 <= g < 4 + m
  {
    if m == 0 then {} else SmallFree(m - 1) + {3 + m}
  }

  lemma {:induction false} SmallFlat(m: nat, v: nat)
    requires v < NVPN
    ensures Flat(SmallPages(m), 1, v) == if v == 0 then Pte(3, 7) else 0
  {
    if v / NENTRIES != 0 {
      assert Pde(SmallPages(m), 1, v / NENTRIES) == 0;
    }
  }

  lemma {:induction false} SmallPresent(m: nat)
    ensures PresentBelow(SmallPages(m), 1, PGSIZE)
  {
    SmallFlat(m, 0);
    forall v: nat | v < NVPN && v * PGSIZE < PGSIZE ensures Present(Flat(SmallPages(m), 1, v)) {
      assert v == 0;
    }
  }

  lemma {:induction false} SmallOk(m: nat)
    requires 4 + m <= NVPN
    ensures Ok(SmallPages(m), SmallUse(m))
  {
    var p, u := SmallPages(m), SmallUse(m);
    forall d: nat, i: nat ensures PdeOk(p, u, d, i) {
    }
    forall d: nat, v: nat ensures PageOk(p, u, d, v) {
      if v < NVPN {
        SmallFlat(m, v);
      }
    }
    SmallFlat(m, 0);
    forall f: nat | f < |u| ensures UseOk(p, u, f) {
    }
  }

  /** For any rows of kmap, which take k page tables: copying that one page with k + 2 free
      frames. One becomes the directory, k its kernel tables and one the copy; none is left
      for the page table of the copy, and the copy is lost. */
  method LosesOne(kmap: seq<Range>, k: nat) returns (d: nat, leak: nat)
    requires KmapOk(kmap) && k == Count(KernelTables(kmap, |kmap|))
    ensures d == 0 && leak != 0
  {
    CountBound(KernelTables(kmap, |kmap|));
    SmallOk(k + 2);
    SmallPresent(k + 2);
    var m := new Memory(SmallPages(k + 2), SmallFree(k + 2), SmallUse(k + 2));
    LosesFirst(k, PagesUp(PGSIZE));
    d, leak := m.Copyuvm(1, PGSIZE, kmap);
  }

  /** With two frames besides those for kernel tables the first page is lost. */
  lemma {:induction false} LosesFirst(k: nat, n: nat)
    requires n > 0
    ensures LosesFrame(k + 2, k, n)
  {
    assert TablesFor(0) == 0;
  }

  // ---- Counting frames ----

  lemma {:induction false} FailureShifts(m: nat, k: nat, n: nat)
    ensures RunsOut(m, n) <==> LosesFrame(m + 1 + k, k, n)
  {
    if RunsOut(m, n) {
      var v: nat :| v < n && v % NENTRIES == 0 && m == 1 + v + TablesFor(v);
      assert m + 1 + k == k + 2 + v + TablesFor(v);
    }
    if LosesFrame(m + 1 + k, k, n) {
      var v: nat :| v < n && v % NENTRIES == 0 && m + 1 + k == k + 2 + v + TablesFor(v);
      assert m == 1 + v + TablesFor(v);
    }
  }

  lemma {:induction false} TablesForMonotone(a: nat, b: nat)
    requires a <= b
    ensures TablesFor(a) <= TablesFor(b)
    ensures a < b && a % NENTRIES == 0 ==> TablesFor(a) < TablesFor(b)
  {
  }

  /** Enough frames for n pages and their tables: no page ran out. */
  lemma {:induction false} Succeeds(m: nat, n: nat)
    requires m >= n + TablesFor(n)
    ensures !RunsOut(m, n)
  {
    forall v: nat | v < n && v % NENTRIES == 0 ensures m != 1 + v + TablesFor(v) {
      TablesForMonotone(v, n);
    }
  }

  /** The first failure decides: later pages would not have got that far. */
  lemma {:induction false} FailsAt(m: nat, v: nat, n: nat, lost: bool)
    requires v < n && (if lost then m == 1 + v + TablesFor(v) && v % NENTRIES == 0 else m == v + TablesFor(v))
    ensures m < n + TablesFor(n) && (RunsOut(m, n) <==> lost)
  {
    TablesForMonotone(v, n);
    if !lost {
      forall w: nat | w < n && w % NENTRIES == 0 ensures m != 1 + w + TablesFor(w) {
        if w < v {
          TablesForMonotone(w, v);
        } else {
          TablesForMonotone(v, w);
        }
      }
    }
  }

  lemma {:induction false} ChildGrows(u0: seq<Use>, u1: seq<Use>, u2: seq<Use>, d: nat, v: nat, leak: nat)
    requires |u2| == |u1| == |u0| && d < |u1| && u1[d] == Dir
    requires ChildUses(u0, u1, d, v, 0) && OnlyFresh(u1, u2, d, v, v + 1, leak)
    ensures forall n :: n > v ==> ChildUses(u0, u2, d, n, leak)
    ensures forall f: nat {:trigger u1[f]} :: f < |u1| && u1[f] == Free ==> u0[f] == Free
  {
    forall f: nat | f < |u0| && u2[f] != u0[f]
      ensures u0[f] == Free
      ensures f == d || (u2[f].Table? && u2[f].d == d) || (u2[f].User? && u2[f].d == d && u2[f].v < v + 1)
        || (u2[f].Held? && f == leak != 0)
    {
      if u1[f] == u0[f] {
        assert u2[f] != u1[f];
      }
    }
  }

  lemma {:induction false} ChildUsesMore(u0: seq<Use>, u1: seq<Use>, d: nat, v: nat, n: nat, leak: nat)
    requires |u1| == |u0| && v <= n && ChildUses(u0, u1, d, v, leak)
    ensures ChildUses(u0, u1, d, n, leak)
  {
  }

  /** The next page to copy is mapped in the parent and not in the child. */
  lemma {:induction false} CopyNext(p0: seq<Page>, u0: seq<Use>, p1: seq<Page>, u1: seq<Use>, d0: nat, d: nat, v: nat,
      kmap: seq<Range>)
    requires |p0| == |u0| == |p1| == |u1| && IsDir(u0, d0) && d < |p1| && v < NUSER && KmapOk(kmap)
    requires OthersKept(p0, u0, p1, u1) && Copied(p1, d0, d, v, kmap)
    ensures Flat(p1, d0, v) == Flat(p0, d0, v) && !Present(Flat(p1, d, v))
  {
    assert Unmapped(p1, d, v, NUSER);
  }

  /** The kernel's tables lie above the user's. */
  lemma {:induction false} KernelHalf(kmap: seq<Range>, k: nat)
    requires KmapOk(kmap) && k <= |kmap|
    ensures NoUserTables(KernelTables(kmap, k))
  {
    if k > 0 {
      KernelHalf(kmap, k - 1);
      RowHalf(KernelTables(kmap, k - 1), kmap[k - 1].v, kmap[k - 1].n);
    }
  }

  /** A row adds exactly the tables from that of its first page to that of its last. */
  lemma {:induction false} RowHalf(s: seq<bool>, v0: nat, n: nat)
    requires |s| == NENTRIES && v0 + n <= NVPN
    ensures forall i :: 0 <= i < NENTRIES ==>
      (RowTables(s, v0, n)[i] <==> s[i] || (n > 0 && v0 / NENTRIES <= i <= (v0 + n - 1) / NENTRIES))
  {
    if n > 0 {
      RowHalf(s, v0, n - 1);
      NextTable(v0, n);
    }
  }

  lemma {:induction false} NextTable(v0: nat, n: nat)
    requires n > 0
    ensures v0 / NENTRIES <= (v0 + n - 1) / NENTRIES
    ensures n > 1 ==> (v0 + n - 2) / NENTRIES <= (v0 + n - 1) / NENTRIES <= (v0 + n - 2) / NENTRIES + 1
  {
  }

  /** The table of page v is missing from the child exactly if v is its first page. */
  lemma {:induction false} UserTable(p: seq<Page>, d: nat, v: nat, t0: seq<bool>)
    requires d < |p| && v < NUSER && NoUserTables(t0) && Tables(p, d) == RowTables(t0, 0, v)
    ensures Present(Pde(p, d, v / NENTRIES)) <==> v % NENTRIES != 0
  {
    RowHalf(t0, 0, v);
    assert v / NENTRIES < NUSER / NENTRIES;
    assert Tables(p, d)[v / NENTRIES] == Present(Pde(p, d, v / NENTRIES));
    LastTable(v);
  }

  lemma {:induction false} LastTable(v: nat)
    ensures v > 0 ==> (v / NENTRIES <= (v - 1) / NENTRIES <==> v % NENTRIES != 0)
    ensures TablesFor(v + 1) == TablesFor(v) + if v % NENTRIES == 0 then 1 else 0
  {
  }

  /** One more page copied: one frame for it, and one for its table if that is new. */
  lemma {:induction false} CountStep(t0: seq<bool>, v: nat, n1: nat, n2: nat)
    requires v < NUSER && NoUserTables(t0)
    requires n2 + Count(RowTables(t0, 0, v + 1)) + 1 == n1 + Count(RowTables(t0, 0, v))
    ensures n2 + (v + 1) + TablesFor(v + 1) == n1 + v + TablesFor(v)
  {
    var s := RowTables(t0, 0, v);
    RowHalf(t0, 0, v);
    CountSet(s, v / NENTRIES);
    assert v / NENTRIES < NUSER / NENTRIES;
    LastTable(v);
  }

  lemma {:induction false} UserHalfEmpty(p: seq<Page>, d: nat, kmap: seq<Range>)
    requires d < |p| && KmapOk(kmap) && KernelOnly(p, d, kmap, |kmap|)
    ensures Unmapped(p, d, 0, NUSER)
  {
  }

  lemma {:induction false} CopyStep(p1: seq<Page>, u1: seq<Use>, p2: seq<Page>, u2: seq<Use>,
                                    d0: nat, d: nat, v: nat, kmap: seq<Range>)
    requires |p2| == |p1| == |u1| == |u2| && Ok(p1, u1) && KmapOk(kmap) && v < NUSER
    requires IsDir(u1, d) && IsDir(u1, d0) && d != d0
    requires Copied(p1, d0, d, v, kmap)
    requires SamePage(p2, d0, d, v) && SameMaps(p1, u1, p2, d, v, v + 1) && Keeps(p1, u1, p2, u2, d, 0, 0)
    ensures Copied(p2, d0, d, v + 1, kmap)
  {
    forall x: nat | x < v + 1 ensures SamePage(p2, d0, d, x) {
      if x != v {
        var e, e' := Flat(p1, d0, x), Flat(p1, d, x);
        assert SamePage(p1, d0, d, x) && Flat(p2, d0, x) == e && Flat(p2, d, x) == e';
        assert PageOk(p1, u1, d0, x) && PageOk(p1, u1, d, x);
        assert u1[Frame(e)] == User(d0, x) && u1[Frame(e')] == User(d, x);
        assert p2[Frame(e)] == p1[Frame(e)] && p2[Frame(e')] == p1[Frame(e')];
      }
    }
    assert Unmapped(p1, d, v, NUSER);
    forall x: nat | v + 1 <= x < NUSER && x < NVPN ensures !Present(Flat(p2, d, x)) {
      assert Flat(p2, d, x) == Flat(p1, d, x);
    }
    forall j | 0 <= j < |kmap| ensures Ranged(p2, d, kmap[j].v, kmap[j].n, kmap[j].f, kmap[j].perm) {
      assert Ranged(p1, d, kmap[j].v, kmap[j].n, kmap[j].f, kmap[j].perm);
      forall x: nat | kmap[j].v <= x < kmap[j].v + kmap[j].n ensures Flat(p2, d, x) == Flat(p1, d, x) {
      }
    }
  }

  lemma {:induction false} StillOthers(p0: seq<Page>, u0: seq<Use>, p1: seq<Page>, u1: seq<Use>, p2: seq<Page>,
      u2: seq<Use>, d: nat, lo: nat, hi: nat)
    requires |p2| == |p1| == |p0| == |u0| == |u1| == |u2| && d < |u0| && u0[d] == Free
    requires OthersKept(p0, u0, p1, u1) && SameMaps(p1, u1, p2, d, lo, hi) && Keeps(p1, u1, p2, u2, d, 0, 0)
    ensures OthersKept(p0, u0, p2, u2)
  {
    forall e: nat | IsDir(u0, e) ensures IsDir(u2, e) {
      assert IsDir(u1, e) && u2[e] == u1[e];
    }
    forall e: nat, v: nat | IsDir(u0, e) && v < NVPN ensures Flat(p2, e, v) == Flat(p0, e, v) {
      assert IsDir(u1, e) && Flat(p1, e, v) == Flat(p0, e, v);
    }
  }

  lemma {:induction false} CopyUndone(p0: seq<Page>, u0: seq<Use>, p2: seq<Page>, u2: seq<Use>,
                                      p3: seq<Page>, u3: seq<Use>, d: nat, leak: nat)
    requires |p3| == |p2| == |p0| == |u0| == |u2| == |u3| && Ok(p0, u0) && Ok(p2, u2)
    requires d < |u0| && u0[d] == Free && IsDir(u2, d)
    requires OthersKept(p0, u0, p2, u2) && ChildUses(u0, u2, d, NUSER, leak)
    requires leak != 0 ==> leak < |u2| && u2[leak] == Held && u0[leak] == Free
    requires forall f: nat {:trigger u3[f]} :: f < |u3| ==> u3[f] == if OwnedBy(u2[f], f, d) then Free else u2[f]
    requires forall f: nat {:trigger p3[f]} :: f < |u3| && u2[f].User? && u2[f].d != d ==> p3[f] == p2[f]
    requires forall e: nat, x: nat {:trigger Flat(p3, e, x)} :: IsDir(u2, e) && e != d && x < NVPN ==>
      Flat(p3, e, x) == Flat(p2, e, x)
    ensures OthersKept(p0, u0, p3, u3)
    ensures u3 == if leak == 0 then u0 else u0[leak := Held]
  {
    forall f: nat | f < |u0| ensures u3[f] == if leak != 0 && f == leak then Held else u0[f] {
      assert UseOk(p0, u0, f);
      assert UseOk(p2, u2, f);
    }
    forall e: nat, x: nat | IsDir(u0, e) && x < NVPN ensures Flat(p3, e, x) == Flat(p0, e, x) {
      assert IsDir(u2, e) && Flat(p2, e, x) == Flat(p0, e, x);
    }
    forall f: nat | f < |u0| && u0[f].User? ensures u3[f] == u0[f] && p3[f] == p0[f] {
      assert UseOk(p0, u0, f);
    }
  }

  /** The copied frame is ready to be mapped. */
  lemma {:induction false} CopyReady(p0: seq<Page>, u0: seq<Use>, p1: seq<Page>, u1: seq<Use>, d0: nat, d: nat, v: nat,
      mem: nat)
    requires |p1| == |p0| == |u0| == |u1| && IsDir(u0, d) && IsDir(u0, d0) && v < NUSER
    requires mem < |u0| && u0[mem] == Free && u1 == u0[mem := Held]
    requires SameMaps(p0, u0, p1, 0, 0, 0) && SameTables(p0, u0, p1)
    ensures IsDir(u1, d) && IsDir(u1, d0) && Flat(p1, d, v) == Flat(p0, d, v) && Flat(p1, d0, v) == Flat(p0, d0, v)
    ensures Present(Pde(p1, d, v / NENTRIES)) == Present(Pde(p0, d, v / NENTRIES)) && Tables(p1, d) == Tables(p0, d)
    ensures Keeps(p0, u0, p1, u1, 0, 0, 0) ==> Keeps(p0, u0, p1, u1, d, 0, 0)
  {
    assert Tables(p1, d)[v / NENTRIES] == Tables(p0, d)[v / NENTRIES];
  }

  /** Once mapped, it is a copy. */
  lemma {:induction false} CopyMapped(p1: seq<Page>, u1: seq<Use>, p2: seq<Page>, u2: seq<Use>, d0: nat, d: nat, v: nat,
      mem: nat)
    requires |p2| == |p1| == |u1| == |u2| <= NVPN && IsDir(u1, d) && IsDir(u1, d0) && d0 != d && v < NUSER && mem < |u1|
      && u1[mem] == Held
    requires var e := Flat(p1, d0, v);
      Present(e) && Frame(e) < |p1| && u1[Frame(e)] == User(d0, v) && p1[mem] == p1[Frame(e)]
      && Flat(p2, d, v) == Pte(mem, Flags(e))
    requires SameMaps(p1, u1, p2, d, v, v + 1) && Keeps(p1, u1, p2, u2, d, 0, 0)
    ensures SamePage(p2, d0, d, v)
  {
    var e := Flat(p1, d0, v);
    assert Flat(p2, d0, v) == e;
    assert p2[mem] == p1[mem] && p2[Frame(e)] == p1[Frame(e)];
    PresentFlags(e);
  }

  lemma {:induction false} PresentFlags(e: Word32)
    requires Present(e)
    ensures Flags(e) % 2 == 1 && Flags(e) < PGSIZE
  {
    Parity(e % PGSIZE, e / PGSIZE * 2048);
    assert e == e % PGSIZE + 2 * (e / PGSIZE * 2048);
  }

  lemma {:induction false} Parity(a: int, k: int)
    ensures (a + 2 * k) % 2 == a % 2
  {
  }

  /** The only uses that changed: a table of d, and the frame mem. */
  lemma {:induction false} FreshAt(u0: seq<Use>, u1: seq<Use>, u2: seq<Use>, d: nat, v: nat, mem: nat, done: bool)
    requires |u2| == |u1| == |u0| && 0 < mem < |u0| && u0[mem] == Free && u1 == u0[mem := Held]
    requires if done then TableAdded(u1[mem := User(d, v)], u2, d, v / NENTRIES)
      else TableAdded(u1, u2, d, v / NENTRIES)
    ensures OnlyFresh(u0, u2, d, v, v + 1, if done then 0 else mem)
  {
    forall g: nat | g < |u0| && u2[g] != u0[g]
      ensures u0[g] == Free
      ensures (u2[g].Table? && u2[g].d == d) || (u2[g].Held? && g == mem && !done)
        || (u2[g].User? && u2[g].d == d && v <= u2[g].v < v + 1)
    {
      if g != mem {
        assert u2[g] != u1[g];
      }
    }
  }

  /** A store into a page table changes no user page and no use. */
  lemma {:induction false} StoredKeeps(p: seq<Page>, use: seq<Use>, d: nat, v: nat, f: nat, w: Word32)
    requires Ok(p, use) && IsDir(use, d) && v < NVPN && Present(Pde(p, d, v / NENTRIES))
    requires v < NUSER ==> f < |use| && use[f] == Held
    ensures Frame(Pde(p, d, v / NENTRIES)) < |p|
    ensures Keeps(p, use, Stored(p, d, v, w), if v < NUSER then use[f := User(d, v)] else use, d, 0, 0)
  {
    assert PdeOk(p, use, d, v / NENTRIES);
  }

  /** The same directories as before kalloc, so what keeps their maps keeps them since. */
  lemma {:induction false} KallocMaps(p: seq<Page>, u0: seq<Use>, u1: seq<Use>, p': seq<Page>, t: nat, d: nat)
    requires |p'| == |p| == |u0| == |u1| && t < |u0| && u0[t] == Free && u1 == u0[t := Held]
      && SameMaps(p, u1, p', d, 0, 0)
    ensures SameMaps(p, u0, p', d, 0, 0)
  {
    forall e: nat, v: nat | IsDir(u0, e) && v < NVPN ensures Flat(p', e, v) == Flat(p, e, v) {
      assert IsDir(u1, e);
    }
  }

  /** Allocating a frame changes no map, so the step that maps it is the only change. */
  lemma {:induction false} AfterHeld(p0: seq<Page>, u0: seq<Use>, p1: seq<Page>, u1: seq<Use>, p2: seq<Page>, mem: nat,
      d: nat, v: nat, done: bool)
    requires |p2| == |p1| == |p0| == |u0| == |u1| && mem < |u0| && u0[mem] == Free && u1 == u0[mem := Held]
    requires SameMaps(p0, u0, p1, 0, 0, 0)
    requires if done then SameMaps(p1, u1, p2, d, v, v + 1) else SameMaps(p1, u1, p2, d, 0, 0)
    ensures if done then SameMaps(p0, u0, p2, d, v, v + 1) else SameMaps(p0, u0, p2, d, 0, 0)
  {
    forall x: nat, y: nat | IsDir(u0, x) && y < NVPN && !(done && x == d && y == v)
      ensures Flat(p2, x, y) == Flat(p0, x, y)
    {
      assert IsDir(u1, x) && Flat(p1, x, y) == Flat(p0, x, y);
    }
  }

  lemma {:induction false} OnlyTables(u0: seq<Use>, u1: seq<Use>, u2: seq<Use>, d: nat, i: nat)
    requires |u0| == |u1| == |u2| && OnlyFresh(u0, u1, d, 0, 0, 0)
    requires TableAdded(u1, u2, d, i)
    ensures OnlyFresh(u0, u2, d, 0, 0, 0)
  {
    forall f: nat | f < |u0| && u2[f] != u0[f] ensures u0[f] == Free && u2[f].Table? && u2[f].d == d {
      if u1[f] == u0[f] {
        assert u2[f] != u1[f];
      }
    }
  }

  lemma {:induction false} MakeDir(p: seq<Page>, u: seq<Use>, d: nat)
    requires Ok(p, u) && d < |p| && u[d] == Held && p[d] == ZeroPage()
    ensures Ok(p, u[d := Dir])
    ensures forall v: nat {:trigger Flat(p, d, v)} :: v < NVPN ==> Flat(p, d, v) == 0
    ensures Tables(p, d) == NoTables() && Count(NoTables()) == 0
  {
    NewDirOk(p, u, d);
    assert p[d := ZeroPage()] == p;
    NoneCount(NENTRIES);
  }

  lemma {:induction false} NoneCount(n: nat)
    ensures Count(seq(n, _ => false)) == 0
  {
    if n > 0 {
      NoneCount(n - 1);
      assert seq(n, _ => false)[..n - 1] == seq(n - 1, _ => false);
    }
  }

  lemma {:induction false} RowTablesGrow(s: seq<bool>, v0: nat, k: nat, n: nat)
    requires |s| == NENTRIES && k <= n && v0 + n <= NVPN
    ensures Within(RowTables(s, v0, k), RowTables(s, v0, n))
  {
    if k < n {
      RowTablesGrow(s, v0, k, n - 1);
    }
  }

  lemma {:induction false} TableOrNot(p: seq<Page>, d: nat, v: nat)
    requires d < |p| && v < NVPN
    ensures RowTables(Tables(p, d), v, 1) == Tables(p, d)[v / NENTRIES := true]
    ensures NewTables(Tables(p, d), v, 1) == if Present(Pde(p, d, v / NENTRIES)) then 0 else 1
  {
    CountSet(Tables(p, d), v / NENTRIES);
    assert RowTables(Tables(p, d), v, 0) == Tables(p, d);
  }

  lemma {:induction false} PaidMore(p0: seq<Page>, q0: set<nat>, p1: seq<Page>, q1: set<nat>, p2: seq<Page>,
      q2: set<nat>, d: nat, lo: nat, v: nat)
    requires d < |p0| == |p1| == |p2| && lo <= v < NVPN
    requires Paid(p0, q0, p1, q1, d, lo, v - lo) && Paid(p1, q1, p2, q2, d, v, 1)
    ensures Paid(p0, q0, p2, q2, d, lo, v + 1 - lo)
  {
    TableOrNot(p1, d, v);
  }

  /** The page v that finds too few frames left shows that there were too few to begin with. */
  lemma {:induction false} TooFew(p0: seq<Page>, q0: set<nat>, p1: seq<Page>, q1: set<nat>, d: nat, lo: nat, v: nat,
      hi: nat)
    requires d < |p0| == |p1| && lo <= v < hi <= NVPN && Paid(p0, q0, p1, q1, d, lo, v - lo)
    requires |q1| < 1 + NewTables(Tables(p1, d), v, 1)
    ensures |q0| < hi - lo + NewTables(Tables(p0, d), lo, hi - lo)
  {
    var s := Tables(p0, d);
    TableOrNot(p1, d, v);
    RowTablesGrow(s, lo, v + 1 - lo, hi - lo);
    CountWithin(RowTables(s, lo, v + 1 - lo), RowTables(s, lo, hi - lo));
  }

  lemma {:induction false} KernelTablesGrow(kmap: seq<Range>, k: nat, n: nat)
    requires k <= n <= |kmap| && KmapOk(kmap)
    ensures Within(KernelTables(kmap, k), KernelTables(kmap, n))
  {
    if k < n {
      KernelTablesGrow(kmap, k, n - 1);
      RowHalf(KernelTables(kmap, n - 1), kmap[n - 1].v, kmap[n - 1].n);
    }
  }

  /** A directory stopped at page i of row k has fewer tables than the kernel needs. */
  lemma {:induction false} TablesShort(kmap: seq<Range>, k: nat, i: nat, p: seq<Page>, d: nat)
    requires KmapOk(kmap) && k < |kmap| && i < kmap[k].n && d < |p|
    requires Tables(p, d) == RowTables(KernelTables(kmap, k), kmap[k].v, i)
      && !Present(Pde(p, d, (kmap[k].v + i) / NENTRIES))
    ensures Count(Tables(p, d)) < Count(KernelTables(kmap, |kmap|))
  {
    var g, s := kmap[k], KernelTables(kmap, k);
    var t := (g.v + i) / NENTRIES;
    RowHalf(s, g.v, i);
    RowHalf(s, g.v, g.n);
    RowEnds(g.v, i, g.n);
    assert Within(Tables(p, d), KernelTables(kmap, k + 1)) && KernelTables(kmap, k + 1)[t];
    assert Tables(p, d)[t] == Present(Pde(p, d, t));
    KernelTablesGrow(kmap, k + 1, |kmap|);
    CountLess(Tables(p, d), KernelTables(kmap, |kmap|), t);
  }

  lemma {:induction false} RowEnds(v: nat, i: nat, n: nat)
    requires i < n
    ensures v / NENTRIES <= (v + i) / NENTRIES <= (v + n - 1) / NENTRIES
    ensures i > 0 ==> (v + i - 1) / NENTRIES <= (v + n - 1) / NENTRIES
  {
  }

  lemma {:induction false} PartlyNone(p: seq<Page>, u: seq<Use>, q: set<nat>, d: nat, v0: nat, f0: nat, perm: nat)
    requires |p| == |u| && d < |p| && v0 <= NVPN && f0 <= NVPN && perm < PGSIZE
    ensures Partly(p, u, q, p, u, q, d, v0, 0, f0, perm)
  {
  }

  lemma {:induction false} PartlyFree(p0: seq<Page>, u0: seq<Use>, q0: set<nat>, p1: seq<Page>, u1: seq<Use>,
      q1: set<nat>, d: nat, v0: nat, k: nat, f0: nat, perm: nat)
    requires |p1| == |p0| == |u0| == |u1| && IsDir(u0, d) && v0 + k < NVPN && f0 + k <= NVPN && perm < PGSIZE
    requires Partly(p0, u0, q0, p1, u1, q1, d, v0, k, f0, perm)
    ensures Flat(p1, d, v0 + k) == Flat(p0, d, v0 + k)
  {
  }

  lemma {:induction false} RangedKept(p1: seq<Page>, u1: seq<Use>, p2: seq<Page>, d: nat, v0: nat, k: nat, f0: nat,
      perm: nat, lo: nat, hi: nat)
    requires |p2| == |p1| == |u1| && IsDir(u1, d) && v0 + k <= NVPN && f0 + k <= NVPN && perm < PGSIZE
    requires Ranged(p1, d, v0, k, f0, perm) && SameMaps(p1, u1, p2, d, lo, hi) && (hi <= lo || v0 + k <= lo)
    ensures Ranged(p2, d, v0, k, f0, perm)
  {
    forall v: nat | v0 <= v < v0 + k ensures Flat(p2, d, v) == Pte(f0 + (v - v0), perm) {
      assert Flat(p2, d, v) == Flat(p1, d, v);
    }
  }

  lemma {:induction false} RangedMore(p: seq<Page>, d: nat, v0: nat, k: nat, f0: nat, perm: nat)
    requires d < |p| && v0 + k < NVPN && f0 + k < NVPN && perm < PGSIZE
    requires Ranged(p, d, v0, k, f0, perm) && Flat(p, d, v0 + k) == Pte(f0 + k, perm)
    ensures Ranged(p, d, v0, k + 1, f0, perm)
  {
  }

  lemma {:induction false} PartlyMore(p0: seq<Page>, u0: seq<Use>, q0: set<nat>, p1: seq<Page>, u1: seq<Use>,
      q1: set<nat>, p2: seq<Page>, u2: seq<Use>, q2: set<nat>, d: nat, v0: nat, k: nat, f0: nat, perm: nat, i: nat)
    requires |p2| == |p1| == |p0| == |u0| == |u1| == |u2| && IsDir(u0, d) && IsDir(u1, d)
    requires v0 + k < NVPN && f0 + k < NVPN && perm < PGSIZE && i == (v0 + k) / NENTRIES
    requires Partly(p0, u0, q0, p1, u1, q1, d, v0, k, f0, perm)
    requires Flat(p2, d, v0 + k) == Pte(f0 + k, perm) && SameMaps(p1, u1, p2, d, v0 + k, v0 + k + 1)
    requires Keeps(p1, u1, p2, u2, d, 0, 0) && Tabled(p1, q1, p2, q2, d, i)
    requires TableAdded(u1, u2, d, i)
    ensures Partly(p0, u0, q0, p2, u2, q2, d, v0, k + 1, f0, perm)
  {
    KeepsTrans(p0, u0, p1, u1, p2, u2, d);
    OnlyTables(u0, u1, u2, d, i);
    SameMapsTrans(p0, u0, p1, u1, p2, d, v0, v0 + k, v0 + k, v0 + k + 1, v0, v0 + k + 1);
    RangedKept(p1, u1, p2, d, v0, k, f0, perm, v0 + k, v0 + k + 1);
    RangedMore(p2, d, v0, k, f0, perm);
  }

  lemma {:induction false} KernelRoom(p: seq<Page>, d: nat, kmap: seq<Range>, k: nat)
    requires d < |p| && KmapOk(kmap) && k < |kmap| && KernelOnly(p, d, kmap, k)
    ensures Unmapped(p, d, kmap[k].v, kmap[k].v + kmap[k].n)
  {
  }

  lemma {:induction false} KernelGrows(p: seq<Page>, u: seq<Use>, p': seq<Page>, d: nat, kmap: seq<Range>, k: nat)
    requires |p'| == |p| == |u| && IsDir(u, d) && KmapOk(kmap) && k < |kmap| && KernelOnly(p, d, kmap, k)
    requires SameMaps(p, u, p', d, kmap[k].v, kmap[k].v + kmap[k].n)
    requires Ranged(p', d, kmap[k].v, kmap[k].n, kmap[k].f, kmap[k].perm)
    ensures KernelOnly(p', d, kmap, k + 1)
  {
    forall j | 0 <= j < k ensures Ranged(p', d, kmap[j].v, kmap[j].n, kmap[j].f, kmap[j].perm) {
      assert Ranged(p, d, kmap[j].v, kmap[j].n, kmap[j].f, kmap[j].perm);
      forall v: nat | kmap[j].v <= v < kmap[j].v + kmap[j].n ensures Flat(p', d, v) == Flat(p, d, v) {
      }
    }
    forall v: nat | v < NVPN && (forall j :: 0 <= j < k + 1 ==> !(kmap[j].v <= v < kmap[j].v + kmap[j].n))
      ensures !Present(Flat(p', d, v))
    {
      assert !(kmap[k].v <= v < kmap[k].v + kmap[k].n);
      assert Flat(p', d, v) == Flat(p, d, v);
    }
  }

  lemma {:induction false} OthersKeptTrans(p0: seq<Page>, u0: seq<Use>, p1: seq<Page>, u1: seq<Use>, p2: seq<Page>,
      u2: seq<Use>, d: nat, lo: nat, hi: nat)
    requires |p2| == |p1| == |p0| == |u0| == |u1| == |u2| && d < |u0| && u0[d] == Free
    requires OthersKept(p0, u0, p1, u1) && NewDir(u0, u1, d)
    requires SameMaps(p1, u1, p2, d, lo, hi) && Keeps(p1, u1, p2, u2, d, 0, 0) && OnlyFresh(u1, u2, d, 0, 0, 0)
    ensures OthersKept(p0, u0, p2, u2) && NewDir(u0, u2, d)
  {
    forall e: nat | IsDir(u0, e) ensures IsDir(u2, e) {
      assert IsDir(u1, e) && u2[e] == u1[e];
    }
    forall e: nat, v: nat | IsDir(u0, e) && v < NVPN ensures Flat(p2, e, v) == Flat(p0, e, v) {
      assert IsDir(u1, e) && Flat(p1, e, v) == Flat(p0, e, v);
    }
    forall f: nat | f < |u0| && u2[f] != u0[f] ensures u0[f] == Free && (f == d || (u2[f].Table? && u2[f].d == d)) {
      if u1[f] == u0[f] {
        assert u2[f] != u1[f];
      }
    }
  }

  lemma {:induction false} DirGone(p0: seq<Page>, u0: seq<Use>, p1: seq<Page>, u1: seq<Use>, p2: seq<Page>,
      u2: seq<Use>, d: nat)
    requires |p2| == |p1| == |p0| == |u0| == |u1| == |u2| && Ok(p0, u0) && Ok(p1, u1) && d < |u0| && u0[d] == Free
    requires OthersKept(p0, u0, p1, u1) && NewDir(u0, u1, d)
    requires forall f: nat {:trigger u2[f]} :: f < |u2| ==> u2[f] == if OwnedBy(u1[f], f, d) then Free else u1[f]
    requires forall f: nat {:trigger p2[f]} :: f < |u2| && u1[f].User? && u1[f].d != d ==> p2[f] == p1[f]
    requires forall e: nat, v: nat {:trigger Flat(p2, e, v)} :: IsDir(u1, e) && e != d && v < NVPN ==>
      Flat(p2, e, v) == Flat(p1, e, v)
    ensures u2 == u0 && OthersKept(p0, u0, p2, u2)
  {
    forall f: nat | f < |u0| ensures u2[f] == u0[f] {
      assert UseOk(p0, u0, f);
      assert UseOk(p1, u1, f);
    }
    forall e: nat, v: nat | IsDir(u0, e) && v < NVPN ensures Flat(p2, e, v) == Flat(p0, e, v) {
      assert IsDir(u1, e) && Flat(p1, e, v) == Flat(p0, e, v);
    }
    forall f: nat | f < |u0| && u0[f].User? ensures u2[f] == u0[f] && p2[f] == p0[f] {
      assert UseOk(p0, u0, f);
    }
  }

  /** The frame used for table i is the one its directory entry names, if any. */
  lemma {:induction false} TableFrame(p: seq<Page>, use: seq<Use>, d: nat, i: nat)
    requires Ok(p, use) && IsDir(use, d) && i < NENTRIES
    ensures forall f: nat {:trigger use[f]} :: f < |use| ==>
      (use[f] == Table(d, i) <==> Present(Pde(p, d, i)) && Frame(Pde(p, d, i)) == f)
  {
    forall f: nat | f < |use|
      ensures use[f] == Table(d, i) <==> Present(Pde(p, d, i)) && Frame(Pde(p, d, i)) == f
    {
      assert UseOk(p, use, f);
      assert PdeOk(p, use, d, i);
    }
  }

  lemma {:induction false} TablesInRange(p: seq<Page>, use: seq<Use>, d: nat)
    requires Ok(p, use)
    ensures forall f: nat {:trigger use[f]} :: f < |use| && use[f].Table? ==> use[f].i < NENTRIES
  {
    forall f: nat | f < |use| && use[f].Table? ensures use[f].i < NENTRIES {
      assert UseOk(p, use, f);
    }
  }

  lemma {:induction false} AllReleased(p: seq<Page>, u0: seq<Use>, u1: seq<Use>, d: nat)
    requires Ok(p, u0) && |u1| == |u0| && u1 == Released(u0, d, 0, NUSER)
    ensures forall f: nat {:trigger u1[f]} :: f < |u0| ==> u1[f] == if u0[f].User? && u0[f].d == d then Free else u0[f]
  {
    forall f: nat | f < |u0| ensures u1[f] == if u0[f].User? && u0[f].d == d then Free else u0[f] {
      assert UseOk(p, u0, f);
    }
  }

  lemma {:induction false} HeldToFree(p: seq<Page>, u: seq<Use>, f: nat)
    requires Ok(p, u) && f < |u| && u[f] == Held
    ensures Ok(p, u[f := Free])
  {
    OkAgain(p, u, p, u[f := Free]);
  }

  lemma {:induction false} Undone(p0: seq<Page>, u0: seq<Use>, p1: seq<Page>, u1: seq<Use>, p2: seq<Page>, u2: seq<Use>,
                                  d: nat, lo: nat, hi: nat, mem: nat)
    requires |p2| == |p1| == |p0| == |u0| == |u1| == |u2| && Ok(p0, u0) && IsDir(u0, d) && IsDir(u2, d)
      && lo <= hi <= NUSER
    requires Unmapped(p0, d, lo, hi)
    requires Attempted(p0, u0, p1, u1, d, lo, hi, mem)
    requires Shrunk(p1, u1, p2, u2, d, lo, hi)
    ensures mem != 0 ==> mem < |u2| && u2[mem] == Held && u0[mem] == Free
    ensures Restored(p0, u0, p2, if mem == 0 then u2 else u2[mem := Free], d, lo, hi)
    ensures forall f: nat {:trigger u2[f]} :: f < |u0| && u0[f] != Free ==> u2[f] == u0[f]
  {
    forall f: nat | f < |u0|
      ensures u0[f] != Free ==> u2[f] == u0[f] && (u0[f].User? ==> p2[f] == p0[f])
      ensures u0[f] == Free ==> u2[f] == Free || (u2[f].Table? && u2[f].d == d) || (u2[f].Held? && f == mem != 0)
    {
      assert UseOk(p0, u0, f);
      assert u1[f] == u0[f] || u1[f] != Free;
      assert u2[f] == Released(u1, d, lo, hi)[f];
    }
    if mem != 0 {
      assert u2[mem] == Released(u1, d, lo, hi)[mem];
    }
    SameMapsShrunk(p0, u0, p1, u1, p2, d, lo, hi);
  }

  lemma {:induction false} SameMapsShrunk(p0: seq<Page>, u0: seq<Use>, p1: seq<Page>, u1: seq<Use>, p2: seq<Page>,
      d: nat, lo: nat, hi: nat)
    requires |p2| == |p1| == |p0| == |u0| == |u1| && Keeps(p0, u0, p1, u1, d, 0, 0)
    requires SameMaps(p0, u0, p1, d, lo, hi) && SameMaps(p1, u1, p2, d, lo, hi)
    ensures SameMaps(p0, u0, p2, d, lo, hi)
  {
    forall e: nat, x: nat | IsDir(u0, e) && x < NVPN && !(e == d && lo <= x < hi)
      ensures Flat(p2, e, x) == Flat(p0, e, x)
    {
      assert u1[e] == Dir;
      assert Flat(p1, e, x) == Flat(p0, e, x);
    }
  }

  lemma {:induction false} ExtendedOne(p0: seq<Page>, u0: seq<Use>, p1: seq<Page>, u1: seq<Use>, p2: seq<Page>,
      u2: seq<Use>, d: nat, lo: nat, v: nat)
    requires |p2| == |p1| == |p0| == |u0| == |u1| == |u2| && Ok(p1, u1) && IsDir(u1, d) && lo <= v < NUSER
    requires Extended(p0, u0, p1, u1, d, lo, v)
    requires UserPage(p2, d, v) && u1[Frame(Flat(p2, d, v))] == Free
    requires SameMaps(p1, u1, p2, d, v, v + 1) && Keeps(p1, u1, p2, u2, d, 0, 0) && OnlyFresh(u1, u2, d, v, v + 1, 0)
    ensures Extended(p0, u0, p2, u2, d, lo, v + 1)
  {
    forall x: nat | lo <= x < v + 1 && x < NVPN ensures UserPage(p2, d, x) && u0[Frame(Flat(p2, d, x))] == Free {
      if x != v {
        assert Flat(p2, d, x) == Flat(p1, d, x);
        var f := Frame(Flat(p1, d, x));
        assert PageOk(p1, u1, d, x);
        assert UserPage(p1, d, x) && u1[f] == User(d, x);
        assert p2[f] == p1[f];
      } else {
        var f := Frame(Flat(p2, d, v));
        assert OnlyFresh(u0, u1, d, lo, v, 0);
        assert u0[f] == Free;
      }
    }
    KeepsTrans(p0, u0, p1, u1, p2, u2, d);
    SameMapsTrans(p0, u0, p1, u1, p2, d, lo, v, v, v + 1, lo, v + 1);
    OnlyFreshTrans(u0, u1, u2, d, lo, v, v + 1, 0);
  }

  lemma {:induction false} KeepsTrans(p0: seq<Page>, u0: seq<Use>, p1: seq<Page>, u1: seq<Use>, p2: seq<Page>,
      u2: seq<Use>, d: nat)
    requires |p2| == |p1| == |p0| == |u0| == |u1| == |u2|
    requires Keeps(p0, u0, p1, u1, d, 0, 0) && Keeps(p1, u1, p2, u2, d, 0, 0)
    ensures Keeps(p0, u0, p2, u2, d, 0, 0)
  {
  }

  lemma {:induction false} SameMapsTrans(p0: seq<Page>, u0: seq<Use>, p1: seq<Page>, u1: seq<Use>, p2: seq<Page>,
      d: nat, lo: nat, hi: nat, lo': nat, hi': nat, a: nat, b: nat)
    requires |p2| == |p1| == |p0| == |u0| == |u1| && Keeps(p0, u0, p1, u1, d, 0, 0)
    requires SameMaps(p0, u0, p1, d, lo, hi) && SameMaps(p1, u1, p2, d, lo', hi')
    requires (hi <= lo || a <= lo < hi <= b) && (hi' <= lo' || a <= lo' < hi' <= b)
    ensures SameMaps(p0, u0, p2, d, a, b)
  {
    forall e: nat, x: nat | IsDir(u0, e) && x < NVPN && !(e == d && a <= x < b)
      ensures Flat(p2, e, x) == Flat(p0, e, x)
    {
      assert u1[e] == Dir;
      assert Flat(p1, e, x) == Flat(p0, e, x);
    }
  }

  lemma {:induction false} OnlyFreshTrans(u0: seq<Use>, u1: seq<Use>, u2: seq<Use>, d: nat, lo: nat, v: nat, hi: nat,
      mem: nat)
    requires |u0| == |u1| == |u2| && lo <= v < hi
    requires OnlyFresh(u0, u1, d, lo, v, 0) && OnlyFresh(u1, u2, d, v, v + 1, mem)
    ensures OnlyFresh(u0, u2, d, lo, hi, mem)
  {
    forall f: nat | f < |u0| && u2[f] != u0[f]
      ensures u0[f] == Free
      ensures (u2[f].Table? && u2[f].d == d) || (u2[f].Held? && f == mem != 0)
           || (u2[f].User? && u2[f].d == d && lo <= u2[f].v < hi)
    {
      if u1[f] == u0[f] {
        assert u2[f] != u1[f];
      } else {
        assert u1[f] != Free;
      }
    }
  }

  lemma {:induction false} AttemptFails(p0: seq<Page>, u0: seq<Use>, p1: seq<Page>, u1: seq<Use>, p2: seq<Page>,
      u2: seq<Use>, d: nat, lo: nat, v: nat, hi: nat, mem: nat)
    requires |p2| == |p1| == |p0| == |u0| == |u1| == |u2| && IsDir(u1, d) && lo <= v < hi
    requires Extended(p0, u0, p1, u1, d, lo, v)
    requires SameMaps(p1, u1, p2, d, 0, 0) && Keeps(p1, u1, p2, u2, d, 0, 0) && OnlyFresh(u1, u2, d, v, v + 1, mem)
    requires mem != 0 ==> mem < |u2| && u2[mem] == Held && u1[mem] == Free
    ensures Attempted(p0, u0, p2, u2, d, lo, hi, mem)
  {
    KeepsTrans(p0, u0, p1, u1, p2, u2, d);
    SameMapsTrans(p0, u0, p1, u1, p2, d, lo, v, 0, 0, lo, hi);
    OnlyFreshTrans(u0, u1, u2, d, lo, v, hi, mem);
  }

  lemma {:induction false} ShrunkOne(p0: seq<Page>, u0: seq<Use>, p1: seq<Page>, u1: seq<Use>, p2: seq<Page>,
      u2: seq<Use>, d: nat, lo: nat, v: nat)
    requires |p2| == |p1| == |p0| == |u0| == |u1| == |u2| && IsDir(u1, d) && IsDir(u2, d) && lo <= v < NUSER
    requires Shrunk(p0, u0, p1, u1, d, lo, v)
    requires !Present(Flat(p2, d, v)) && SameMaps(p1, u1, p2, d, v, v + 1) && Keeps(p1, u1, p2, u2, d, v, v + 1)
    requires forall f: nat :: f < |u2| ==> u2[f] == if u1[f] == User(d, v) then Free else u1[f]
    ensures Shrunk(p0, u0, p2, u2, d, lo, v + 1)
  {
    forall x: nat | lo <= x < v + 1 && x < NVPN ensures !Present(Flat(p2, d, x)) {
      if x != v {
        assert Flat(p2, d, x) == Flat(p1, d, x);
      }
    }
    forall e: nat, x: nat | IsDir(u0, e) && x < NVPN && !(e == d && lo <= x < v + 1)
      ensures Flat(p2, e, x) == Flat(p0, e, x)
    {
      assert u1[e] == Dir;
      assert Flat(p1, e, x) == Flat(p0, e, x);
    }
    assert u2 == Released(u0, d, lo, v + 1);
  }

  /** The frame used for user page v is the one its entry names, if any. */
  lemma {:induction false} UserFrame(p: seq<Page>, use: seq<Use>, d: nat, v: nat)
    requires Ok(p, use) && IsDir(use, d) && v < NUSER
    ensures forall f: nat {:trigger use[f]} :: f < |use| ==>
      (use[f] == User(d, v) <==> Present(Flat(p, d, v)) && Frame(Flat(p, d, v)) == f)
  {
    forall f: nat | f < |use|
      ensures use[f] == User(d, v) <==> Present(Flat(p, d, v)) && Frame(Flat(p, d, v)) == f
    {
      assert UseOk(p, use, f);
      assert PageOk(p, use, d, v);
    }
  }

  /** Junk in a free frame is invisible. */
  lemma {:induction false} JunkKeeps(p: seq<Page>, use: seq<Use>, p': seq<Page>, f: nat)
    requires Ok(p, use) && f < |p| && use[f] == Free && |p'| == |p| && p' == p[f := p'[f]]
    ensures Ok(p', use)
    ensures forall e: nat, v: nat {:trigger Flat(p', e, v)} :: IsDir(use, e) && v < NVPN ==>
      Flat(p', e, v) == Flat(p, e, v)
    ensures forall e: nat, i: nat {:trigger Pde(p', e, i)} :: IsDir(use, e) && i < NENTRIES ==>
      Pde(p', e, i) == Pde(p, e, i)
  {
    DataKeepsOk(p, use, f, p'[f]);
    forall e: nat, v: nat | IsDir(use, e) && v < NVPN ensures Flat(p', e, v) == Flat(p, e, v) {
      DataKeepsFlat(p, use, f, p'[f], e, v);
    }
  }

  lemma {:induction false} ReleasedNothing(use: seq<Use>, d: nat, lo: nat, hi: nat)
    requires hi <= lo
    ensures Released(use, d, lo, hi) == use
  {
  }

  /** A missing page table holds no user page, so skipping it misses nothing. */
  lemma {:induction false} SkipTable(p: seq<Page>, use: seq<Use>, d: nat, v: nat, lo: nat, hi: nat, u: seq<Use>)
    requires Ok(p, use) && IsDir(use, d) && lo <= v < hi <= NUSER && !Present(Pde(p, d, v / NENTRIES))
    requires |u| == |use| && use == Released(u, d, lo, v)
    ensures var v' := (v / NENTRIES + 1) * NENTRIES;
            && v < v'
            && (forall x: nat :: v <= x < v' && x < NUSER ==> !Present(Flat(p, d, x)))
            && use == Released(u, d, lo, Low(v', hi))
  {
    var v' := (v / NENTRIES + 1) * NENTRIES;
    forall x: nat | v <= x < v' && x < NUSER ensures !Present(Flat(p, d, x)) {
      assert x / NENTRIES == v / NENTRIES;
    }
    var r := Released(u, d, lo, Low(v', hi));
    forall f: nat | f < |use| ensures use[f] == r[f] {
      assert UseOk(p, use, f);
    }
  }
}
