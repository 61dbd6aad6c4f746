/** Two-level 32-bit page tables in physical memory, and the flat page map they stand for. */
module PageTable {

  const NENTRIES: nat := 1024      // entries of a directory or table
  const NVPN: nat := 1048576       // virtual pages
  const NUSER: nat := 524288       // virtual pages below KERNBASE
  const PGSIZE: nat := 4096
  const KERNBASE: nat := 0x8000_0000

  type Word32 = x: int | 0 <= x < 0x1_0000_0000
  type Page = s: seq<Word32> | |s| == 1024 witness seq(1024, _ => 0)

  function ZeroPage(): (p: Page)
    ensures forall i :: 0 <= i < NENTRIES ==> p[i] == 0
  {
    seq(1024, _ => 0)
  }

  predicate Present(e: Word32) { e % 2 == 1 }
  function Frame(e: Word32): nat { e / PGSIZE }
  function Flags(e: Word32): nat { e % PGSIZE }

  /** pa | perm | PTE_P for the page frame f. */
  function Pte(f: nat, perm: nat): (e: Word32)
    requires f < NVPN && perm < PGSIZE
    ensures Present(e) && Frame(e) == f && Flags(e) == if perm % 2 == 1 then perm else perm + 1
  {
    var q := if perm % 2 == 1 then perm else perm + 1;
    var e := f * PGSIZE + q;
    assert e / PGSIZE == f && e % PGSIZE == q;
    assert e == 2 * (f * 2048) + q;
    assert e % 2 == q % 2;
    e
  }

  /** What a frame of physical memory is used for. Table(d, i) holds the table of
      entry i of directory d, User(d, v) the user page v of that directory. */
  datatype Use = Free | Held | Kernel | Dir | Table(d: nat, i: nat) | User(d: nat, v: nat)

  function Pde(pages: seq<Page>, d: nat, i: nat): Word32
    requires d < |pages| && i < NENTRIES
  {
    pages[d][i]
  }

  /** The entry for virtual page v: the flat map that the two levels implement. */
  function Flat(pages: seq<Page>, d: nat, v: nat): Word32
    requires d < |pages| && v < NVPN
  {
    var e := Pde(pages, d, v / NENTRIES);
    if Present(e) && Frame(e) < |pages| then pages[Frame(e)][v % NENTRIES] else 0
  }

  ghost predicate IsDir(use: seq<Use>, d: nat) {
    d < |use| && use[d] == Dir
  }

  /** A present directory entry points to a frame used for its table ... */
  ghost predicate PdeOk(pages: seq<Page>, use: seq<Use>, d: nat, i: nat)
    requires |use| == |pages|
  {
    IsDir(use, d) && i < NENTRIES && Present(Pde(pages, d, i)) ==>
      Frame(Pde(pages, d, i)) < |pages| && use[Frame(Pde(pages, d, i))] == Table(d, i)
  }

  /** ... and a present user page to a frame used for it. */
  ghost predicate PageOk(pages: seq<Page>, use: seq<Use>, d: nat, v: nat)
    requires |use| == |pages|
  {
    IsDir(use, d) && v < NUSER && Present(Flat(pages, d, v)) ==>
      Frame(Flat(pages, d, v)) < |pages| && use[Frame(Flat(pages, d, v))] == User(d, v)
  }

  ghost predicate EntriesOk(pages: seq<Page>, use: seq<Use>)
    requires |use| == |pages|
  {
    && (forall d: nat, i: nat {:trigger PdeOk(pages, use, d, i)} :: PdeOk(pages, use, d, i))
    && (forall d: nat, v: nat {:trigger PageOk(pages, use, d, v)} :: PageOk(pages, use, d, v))
  }

  ghost predicate UseOk(pages: seq<Page>, use: seq<Use>, f: nat)
    requires |use| == |pages| && f < |use|
  {
    match use[f]
    case Table(d, i) => IsDir(use, d) && i < NENTRIES && Present(Pde(pages, d, i)) && Frame(Pde(pages, d, i)) == f
    case User(d, v) => IsDir(use, d) && v < NUSER && Present(Flat(pages, d, v)) && Frame(Flat(pages, d, v)) == f
    case _ => true
  }

  /** Every frame used for an entry is the one that the entry points to. */
  ghost predicate UsesOk(pages: seq<Page>, use: seq<Use>)
    requires |use| == |pages|
  {
    forall f: nat {:trigger UseOk(pages, use, f)} :: f < |use| ==> UseOk(pages, use, f)
  }

  /** All directories at once are well-formed: no frame serves two purposes. */
  ghost predicate Ok(pages: seq<Page>, use: seq<Use>) {
    && |use| == |pages| <= NVPN
    && EntriesOk(pages, use) && UsesOk(pages, use)
  }

  // ---- Single updates ----

  /** A write into a frame that is neither a directory nor a table changes no map. */
  lemma {:induction false} DataKeepsFlat(pages: seq<Page>, use: seq<Use>, f: nat, p: Page, e: nat, u: nat)
    requires Ok(pages, use) && f < |pages| && use[f] != Dir && !use[f].Table? && IsDir(use, e) && u < NVPN
    ensures Flat(pages[f := p], e, u) == Flat(pages, e, u)
    ensures forall i: nat :: i < NENTRIES ==> Pde(pages[f := p], e, i) == Pde(pages, e, i)
  {
    assert PdeOk(pages, use, e, u / NENTRIES);
  }

  lemma {:induction false} DataKeepsOk(pages: seq<Page>, use: seq<Use>, f: nat, p: Page)
    requires Ok(pages, use) && f < |pages| && use[f] != Dir && !use[f].Table?
    ensures Ok(pages[f := p], use)
  {
    var pages' := pages[f := p];
    forall e: nat, u: nat | IsDir(use, e) && u < NVPN ensures Flat(pages', e, u) == Flat(pages, e, u) {
      DataKeepsFlat(pages, use, f, p, e, u);
    }
    forall e: nat, i: nat | IsDir(use, e) && i < NENTRIES ensures Pde(pages', e, i) == Pde(pages, e, i) {
      DataKeepsFlat(pages, use, f, p, e, 0);
    }
    OkAgain(pages, use, pages', use);
  }

  /** Changes that keep every entry and every use of the frames behind them. */
  lemma {:induction false} OkAgain(pages: seq<Page>, use: seq<Use>, pages': seq<Page>, use': seq<Use>)
    requires Ok(pages, use) && |pages'| == |pages| && |use'| == |use|
    requires forall e: nat {:trigger IsDir(use', e)} :: IsDir(use', e) <==> IsDir(use, e)
    requires forall e: nat, i: nat {:trigger Pde(pages', e, i)} :: IsDir(use, e) && i < NENTRIES ==>
      Pde(pages', e, i) == Pde(pages, e, i)
    requires forall e: nat, u: nat {:trigger Flat(pages', e, u)} :: IsDir(use, e) && u < NVPN ==>
      Flat(pages', e, u) == Flat(pages, e, u)
    requires forall f: nat {:trigger use'[f]} ::
      f < |use| && (use[f].Table? || use[f].User? || use'[f].Table? || use'[f].User?) ==> use'[f] == use[f]
    ensures Ok(pages', use')
  {
    forall e: nat, i: nat ensures PdeOk(pages', use', e, i) {
      assert PdeOk(pages, use, e, i);
    }
    forall e: nat, v: nat ensures PageOk(pages', use', e, v) {
      assert PageOk(pages, use, e, v);
    }
    forall g: nat | g < |use| ensures UseOk(pages', use', g) {
      assert UseOk(pages, use, g);
    }
  }

  /** Storing an entry in the table of virtual page v changes the map at v only. */
  lemma {:induction false} StoreFlat(pages: seq<Page>, use: seq<Use>, d: nat, v: nat, w: Word32, e: nat, u: nat)
    requires Ok(pages, use) && IsDir(use, d) && v < NVPN && Present(Pde(pages, d, v / NENTRIES))
    requires IsDir(use, e) && u < NVPN
    ensures var t := Frame(Pde(pages, d, v / NENTRIES));
            && t < |pages|
            && var pages' := pages[t := pages[t][v % NENTRIES := w]];
            && (forall i: nat :: i < NENTRIES ==> Pde(pages', e, i) == Pde(pages, e, i))
            && Flat(pages', e, u) == if e == d && u == v then w else Flat(pages, e, u)
  {
    assert PdeOk(pages, use, d, v / NENTRIES);
    assert PdeOk(pages, use, e, u / NENTRIES);
    var t := Frame(Pde(pages, d, v / NENTRIES));
    assert use[t] == Table(d, v / NENTRIES);
    var x := Pde(pages, e, u / NENTRIES);
    if Present(x) && Frame(x) == t {
      assert u == u / NENTRIES * NENTRIES + u % NENTRIES && v == v / NENTRIES * NENTRIES + v % NENTRIES;
    }
  }

  function Stored(pages: seq<Page>, d: nat, v: nat, w: Word32): (r: seq<Page>)
    requires d < |pages| && v < NVPN && Frame(Pde(pages, d, v / NENTRIES)) < |pages|
    ensures |r| == |pages|
  {
    var t := Frame(Pde(pages, d, v / NENTRIES));
    var p: Page := pages[t][v % NENTRIES := w];
    pages[t := p]
  }

  /** *pte = pa | perm | PTE_P at an empty user page. */
  lemma {:induction false} MapUser(pages: seq<Page>, use: seq<Use>, d: nat, v: nat, f: nat, perm: nat)
    requires Ok(pages, use) && IsDir(use, d) && v < NUSER && Present(Pde(pages, d, v / NENTRIES))
    requires !Present(Flat(pages, d, v)) && f < |pages| && use[f] == Held && perm < PGSIZE
    ensures Frame(Pde(pages, d, v / NENTRIES)) < |pages|
    ensures Ok(Stored(pages, d, v, Pte(f, perm)), use[f := User(d, v)])
  {
    var w, use' := Pte(f, perm), use[f := User(d, v)];
    forall e: nat, u: nat | IsDir(use, e) && u < NVPN
      ensures Frame(Pde(pages, d, v / NENTRIES)) < |pages|
      ensures Flat(Stored(pages, d, v, w), e, u) == if e == d && u == v then w else Flat(pages, e, u)
    {
      StoreFlat(pages, use, d, v, w, e, u);
    }
    StoreFlat(pages, use, d, v, w, d, v);
    var pages' := Stored(pages, d, v, w);
    forall e: nat, i: nat | IsDir(use, e) && i < NENTRIES ensures Pde(pages', e, i) == Pde(pages, e, i) {
      StoreFlat(pages, use, d, v, w, e, 0);
    }
    assert forall e: nat :: IsDir(use', e) <==> IsDir(use, e);
    forall e: nat, i: nat ensures PdeOk(pages', use', e, i) {
      assert PdeOk(pages, use, e, i);
    }
    forall e: nat, x: nat ensures PageOk(pages', use', e, x) {
      assert PageOk(pages, use, e, x);
    }
    forall g: nat | g < |use| ensures UseOk(pages', use', g) {
      assert UseOk(pages, use, g);
    }
  }

  /** *pte = 0 at a mapped user page whose frame goes back to the free list. */
  lemma {:induction false} UnmapUser(pages: seq<Page>, use: seq<Use>, d: nat, v: nat)
    requires Ok(pages, use) && IsDir(use, d) && v < NUSER && Present(Pde(pages, d, v / NENTRIES))
    requires Present(Flat(pages, d, v))
    ensures Frame(Pde(pages, d, v / NENTRIES)) < |pages| && Frame(Flat(pages, d, v)) < |pages|
    ensures Ok(Stored(pages, d, v, 0), use[Frame(Flat(pages, d, v)) := Free])
  {
    var f := Frame(Flat(pages, d, v));
    assert PageOk(pages, use, d, v);
    var use' := use[f := Free];
    StoreFlat(pages, use, d, v, 0, d, v);
    var pages' := Stored(pages, d, v, 0);
    forall e: nat, u: nat | IsDir(use, e) && u < NVPN
      ensures Flat(pages', e, u) == if e == d && u == v then 0 else Flat(pages, e, u)
    {
      StoreFlat(pages, use, d, v, 0, e, u);
    }
    forall e: nat, i: nat | IsDir(use, e) && i < NENTRIES ensures Pde(pages', e, i) == Pde(pages, e, i) {
      StoreFlat(pages, use, d, v, 0, e, 0);
    }
    assert forall e: nat :: IsDir(use', e) <==> IsDir(use, e);
    forall e: nat, i: nat ensures PdeOk(pages', use', e, i) {
      assert PdeOk(pages, use, e, i);
    }
    forall e: nat, x: nat ensures PageOk(pages', use', e, x) {
      assert PageOk(pages, use, e, x);
    }
    forall g: nat | g < |use| ensures UseOk(pages', use', g) {
      assert UseOk(pages, use, g);
    }
  }

  /** A zeroed page table hung into an empty directory entry maps nothing. */
  lemma {:induction false} NewTableFlat(pages: seq<Page>, use: seq<Use>, d: nat, i: nat, t: nat, e: nat, u: nat)
    requires Ok(pages, use) && IsDir(use, d) && i < NENTRIES && !Present(Pde(pages, d, i))
    requires t < |pages| && use[t] == Held && IsDir(use, e) && u < NVPN
    ensures Flat(WithTable(pages, d, i, t), e, u) == Flat(pages, e, u)
    ensures forall j: nat :: j < NENTRIES && !(e == d && j == i) ==>
      Pde(WithTable(pages, d, i, t), e, j) == Pde(pages, e, j)
  {
    assert PdeOk(pages, use, e, u / NENTRIES);
  }

  function WithTable(pages: seq<Page>, d: nat, i: nat, t: nat): (r: seq<Page>)
    requires d < |pages| <= NVPN && i < NENTRIES && t < |pages| && t != d
    ensures |r| == |pages|
    ensures r[t] == ZeroPage() && Pde(r, d, i) == Pte(t, 7)
  {
    var p: Page := pages[d][i := Pte(t, 7)];
    pages[t := ZeroPage()][d := p]
  }

  lemma {:induction false} NewTableOk(pages: seq<Page>, use: seq<Use>, d: nat, i: nat, t: nat)
    requires Ok(pages, use) && IsDir(use, d) && i < NENTRIES && !Present(Pde(pages, d, i))
    requires t < |pages| && use[t] == Held
    ensures Ok(WithTable(pages, d, i, t), use[t := Table(d, i)])
  {
    var pages', use' := WithTable(pages, d, i, t), use[t := Table(d, i)];
    forall e: nat, u: nat | IsDir(use, e) && u < NVPN ensures Flat(pages', e, u) == Flat(pages, e, u) {
      NewTableFlat(pages, use, d, i, t, e, u);
    }
    forall e: nat, j: nat | IsDir(use, e) && j < NENTRIES && !(e == d && j == i)
      ensures Pde(pages', e, j) == Pde(pages, e, j)
    {
      NewTableFlat(pages, use, d, i, t, e, 0);
    }
    assert forall e: nat :: IsDir(use', e) <==> IsDir(use, e);
    forall e: nat, i: nat ensures PdeOk(pages', use', e, i) {
      assert PdeOk(pages, use, e, i);
    }
    forall e: nat, x: nat ensures PageOk(pages', use', e, x) {
      assert PageOk(pages, use, e, x);
    }
    forall g: nat | g < |use| ensures UseOk(pages', use', g) {
      assert UseOk(pages, use, g);
    }
  }

  /** A zeroed frame becomes an empty directory. */
  lemma {:induction false} NewDirOk(pages: seq<Page>, use: seq<Use>, d: nat)
    requires Ok(pages, use) && d < |pages| && use[d] == Held
    ensures Ok(pages[d := ZeroPage()], use[d := Dir])
    ensures forall v: nat {:trigger Flat(pages[d := ZeroPage()], d, v)} :: v < NVPN ==>
      Flat(pages[d := ZeroPage()], d, v) == 0
    ensures forall e: nat, v: nat :: IsDir(use, e) && v < NVPN ==>
      Flat(pages[d := ZeroPage()], e, v) == Flat(pages, e, v)
  {
    var pages', use' := pages[d := ZeroPage()], use[d := Dir];
    forall e: nat, u: nat | IsDir(use, e) && u < NVPN ensures Flat(pages', e, u) == Flat(pages, e, u) {
      DataKeepsFlat(pages, use, d, ZeroPage(), e, u);
    }
    forall e: nat, i: nat | IsDir(use, e) && i < NENTRIES ensures Pde(pages', e, i) == Pde(pages, e, i) {
      DataKeepsFlat(pages, use, d, ZeroPage(), e, 0);
    }
    assert forall e: nat :: IsDir(use', e) <==> e == d || IsDir(use, e);
    forall e: nat, i: nat ensures PdeOk(pages', use', e, i) {
      assert PdeOk(pages, use, e, i);
    }
    forall e: nat, x: nat ensures PageOk(pages', use', e, x) {
      assert PageOk(pages, use, e, x);
    }
    forall g: nat | g < |use| ensures UseOk(pages', use', g) {
      assert UseOk(pages, use, g);
    }
  }

  /** The frames of directory d apart from its user pages. */
  predicate OfDir(u: Use, f: nat, d: nat) {
    f == d || (u.Table? && u.d == d)
  }

  /** Dropping a directory without user pages, and its tables, leaves the others alone. */
  lemma {:induction false} DropDirOk(pages: seq<Page>, use: seq<Use>, pages': seq<Page>, use': seq<Use>, d: nat)
    requires Ok(pages, use) && IsDir(use, d) && |pages'| == |pages| && |use'| == |use|
    requires forall f: nat :: f < |use| ==> !(use[f].User? && use[f].d == d)
    requires forall f: nat {:trigger use[f]} :: f < |use| ==> use'[f] == if OfDir(use[f], f, d) then Free else use[f]
    requires forall f: nat {:trigger use[f]} :: f < |use| && !OfDir(use[f], f, d) ==> pages'[f] == pages[f]
    ensures Ok(pages', use')
    ensures forall e: nat, v: nat :: IsDir(use, e) && e != d && v < NVPN ==> Flat(pages', e, v) == Flat(pages, e, v)
  {
    assert forall e: nat :: IsDir(use', e) <==> e != d && IsDir(use, e);
    forall e: nat, i: nat | IsDir(use', e) && i < NENTRIES ensures Pde(pages', e, i) == Pde(pages, e, i) {
      assert use[e] == Dir;
    }
    forall e: nat, v: nat | IsDir(use', e) && v < NVPN ensures Flat(pages', e, v) == Flat(pages, e, v) {
      var x := Pde(pages, e, v / NENTRIES);
      assert Pde(pages', e, v / NENTRIES) == x;
      assert PdeOk(pages, use, e, v / NENTRIES);
    }
    forall e: nat, i: nat ensures PdeOk(pages', use', e, i) {
      assert PdeOk(pages, use, e, i);
    }
    forall e: nat, x: nat ensures PageOk(pages', use', e, x) {
      assert PageOk(pages, use, e, x);
    }
    forall g: nat | g < |use| ensures UseOk(pages', use', g) {
      assert UseOk(pages, use, g);
    }
  }

  /** *pte at a kernel page: its frame belongs to nobody. */
  lemma {:induction false} MapKernel(pages: seq<Page>, use: seq<Use>, d: nat, v: nat, w: Word32)
    requires Ok(pages, use) && IsDir(use, d) && NUSER <= v < NVPN && Present(Pde(pages, d, v / NENTRIES))
    ensures Frame(Pde(pages, d, v / NENTRIES)) < |pages| && Ok(Stored(pages, d, v, w), use)
  {
    StoreFlat(pages, use, d, v, w, d, v);
    var pages' := Stored(pages, d, v, w);
    forall e: nat, u: nat | IsDir(use, e) && u < NVPN
      ensures Flat(pages', e, u) == if e == d && u == v then w else Flat(pages, e, u)
    {
      StoreFlat(pages, use, d, v, w, e, u);
    }
    forall e: nat, i: nat | IsDir(use, e) && i < NENTRIES ensures Pde(pages', e, i) == Pde(pages, e, i) {
      StoreFlat(pages, use, d, v, w, e, 0);
    }
    forall e: nat, i: nat ensures PdeOk(pages', use, e, i) {
      assert PdeOk(pages, use, e, i);
    }
    forall e: nat, x: nat ensures PageOk(pages', use, e, x) {
      assert PageOk(pages, use, e, x);
    }
    forall g: nat | g < |use| ensures UseOk(pages', use, g) {
      assert UseOk(pages, use, g);
    }
  }

  // ---- Comparing two states of memory ----

  /** All maps as before, except possibly pages lo to hi of directory d. */
  ghost predicate SameMaps(p0: seq<Page>, u0: seq<Use>, p1: seq<Page>, d: nat, lo: nat, hi: nat)
    requires |p1| == |p0| == |u0|
  {
    forall e: nat, v: nat {:trigger Flat(p1, e, v)} :: IsDir(u0, e) && v < NVPN && !(e == d && lo <= v < hi) ==>
      Flat(p1, e, v) == Flat(p0, e, v)
  }

  /** Frames in use keep that use and user pages their contents, except possibly the
      pages lo to hi of directory d; frames just allocated keep their contents. */
  ghost predicate Keeps(p0: seq<Page>, u0: seq<Use>, p1: seq<Page>, u1: seq<Use>, d: nat, lo: nat, hi: nat)
    requires |p1| == |p0| == |u0| == |u1|
  {
    forall f: nat {:trigger u0[f]} {:trigger u1[f]} {:trigger p1[f]} :: f < |u0| ==>
      && (u0[f].Held? ==> p1[f] == p0[f] && (u1[f].Held? || u1[f].User?))
      && (u0[f].Kernel? || u0[f].Dir? || u0[f].Table? ==> u1[f] == u0[f])
      && (u0[f].User? && !(u0[f].d == d && lo <= u0[f].v < hi) ==> u1[f] == u0[f] && p1[f] == p0[f])
  }

  lemma {:induction false} StoredMaps(p: seq<Page>, use: seq<Use>, d: nat, v: nat, w: Word32)
    requires Ok(p, use) && IsDir(use, d) && v < NVPN && Present(Pde(p, d, v / NENTRIES))
    ensures Frame(Pde(p, d, v / NENTRIES)) < |p|
    ensures SameMaps(p, use, Stored(p, d, v, w), d, v, v + 1) && Flat(Stored(p, d, v, w), d, v) == w
  {
    StoreFlat(p, use, d, v, w, d, v);
    forall e: nat, x: nat | IsDir(use, e) && x < NVPN && !(e == d && v <= x < v + 1)
      ensures Flat(Stored(p, d, v, w), e, x) == Flat(p, e, x)
    {
      StoreFlat(p, use, d, v, w, e, x);
    }
  }

  lemma {:induction false} NewTableMaps(p: seq<Page>, use: seq<Use>, d: nat, i: nat, t: nat)
    requires Ok(p, use) && IsDir(use, d) && i < NENTRIES && !Present(Pde(p, d, i)) && t < |p| && use[t] == Held
    ensures SameMaps(p, use, WithTable(p, d, i, t), d, 0, 0)
  {
    forall e: nat, u: nat | IsDir(use, e) && u < NVPN ensures Flat(WithTable(p, d, i, t), e, u) == Flat(p, e, u) {
      NewTableFlat(p, use, d, i, t, e, u);
    }
  }

  // ---- Counting page tables ----

  /** Which directory entries of d have a page table. */
  ghost function Tables(p: seq<Page>, d: nat): (s: seq<bool>)
    requires d < |p|
    ensures |s| == NENTRIES
  {
    seq(NENTRIES, i requires 0 <= i < NENTRIES => Present(Pde(p, d, i)))
  }

  function Count(s: seq<bool>): (n: nat) {
    if s == [] then 0 else Count(s[..|s| - 1]) + if s[|s| - 1] then 1 else 0
  }

  lemma {:induction false} CountBound(s: seq<bool>)
    ensures Count(s) <= |s|
  {
    if s != [] {
      CountBound(s[..|s| - 1]);
    }
  }

  lemma {:induction false} CountSet(s: seq<bool>, i: nat)
    requires i < |s|
    ensures Count(s[i := true]) == Count(s) + if s[i] then 0 else 1
  {
    var n := |s| - 1;
    if i == n {
      assert s[i := true][..n] == s[..n];
    } else {
      CountSet(s[..n], i);
      assert s[i := true][..n] == s[..n][i := true];
    }
  }

  predicate Within(s: seq<bool>, t: seq<bool>) {
    |s| == |t| && forall i :: 0 <= i < |s| && s[i] ==> t[i]
  }

  lemma {:induction false} CountWithin(s: seq<bool>, t: seq<bool>)
    requires Within(s, t)
    ensures Count(s) <= Count(t)
  {
    if s != [] {
      CountWithin(s[..|s| - 1], t[..|t| - 1]);
    }
  }

  lemma {:induction false} CountLess(s: seq<bool>, t: seq<bool>, i: nat)
    requires Within(s, t) && i < |s| && !s[i] && t[i]
    ensures Count(s) < Count(t)
  {
    CountSet(s, i);
    CountWithin(s[i := true], t);
  }

  /** The entries of all directories are as before. */
  ghost predicate SameTables(p0: seq<Page>, u0: seq<Use>, p1: seq<Page>)
    requires |p1| == |p0| == |u0|
  {
    forall e: nat {:trigger Tables(p1, e)} :: IsDir(u0, e) ==> Tables(p1, e) == Tables(p0, e)
  }

  lemma {:induction false} TablesPlus(p: seq<Page>, use: seq<Use>, d: nat, i: nat, t: nat)
    requires Ok(p, use) && IsDir(use, d) && i < NENTRIES && !Present(Pde(p, d, i)) && t < |p| && use[t] == Held
    ensures Tables(WithTable(p, d, i, t), d) == Tables(p, d)[i := true]
    ensures Count(Tables(WithTable(p, d, i, t), d)) == Count(Tables(p, d)) + 1
  {
    NewTableFlat(p, use, d, i, t, d, 0);
    CountSet(Tables(p, d), i);
  }

  lemma {:induction false} StoredTables(p: seq<Page>, use: seq<Use>, d: nat, v: nat, w: Word32)
    requires Ok(p, use) && IsDir(use, d) && v < NVPN && Present(Pde(p, d, v / NENTRIES))
    ensures Frame(Pde(p, d, v / NENTRIES)) < |p| && Tables(Stored(p, d, v, w), d) == Tables(p, d)
  {
    StoreFlat(p, use, d, v, w, d, v);
  }

  lemma {:induction false} DataKeepsTables(p: seq<Page>, use: seq<Use>, f: nat, x: Page)
    requires Ok(p, use) && f < |p| && use[f] != Dir && !use[f].Table?
    ensures SameTables(p, use, p[f := x])
  {
    forall e: nat | IsDir(use, e) ensures Tables(p[f := x], e) == Tables(p, e) {
      DataKeepsFlat(p, use, f, x, e, 0);
    }
  }
}
