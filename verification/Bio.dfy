/** bio.c: a fixed pool of block buffers on a circular doubly linked list, most
    recently released first. Pointers are indices; the list head is index NBUF. */
module Bio {
  import opened Blocks

  const NBUF: nat := 30

  // ---- The list ----

  /** Node at position i of the circle: the head at both ends, order in between. */
  function Node(order: seq<nat>, i: int): (b: nat)
    requires -1 <= i <= |order|
  {
    if i == -1 || i == |order| then NBUF else order[i]
  }

  predicate Nodup(order: seq<nat>) {
    && (forall i :: 0 <= i < |order| ==> order[i] < NBUF)
    && (forall i, j :: 0 <= i < j < |order| ==> order[i] != order[j])
  }

  /** next and prev thread the buffers of order, in that order, through the head. */
  predicate Linked(next: seq<nat>, prev: seq<nat>, order: seq<nat>) {
    && |next| == |prev| == NBUF + 1 && Nodup(order)
    && (forall i {:trigger next[Node(order, i)]} :: -1 <= i < |order| ==> next[Node(order, i)] == Node(order, i + 1))
    && (forall i {:trigger prev[Node(order, i)]} :: 0 <= i <= |order| ==> prev[Node(order, i)] == Node(order, i - 1))
  }

  function Without(order: seq<nat>, k: nat): (r: seq<nat>)
    requires k < |order|
  {
    order[..k] + order[k + 1..]
  }

  /** Positions of the list without its k-th buffer, in terms of the whole list. */
  lemma {:induction false} WithoutNode(order: seq<nat>, k: nat, i: int)
    requires k < |order| && -1 <= i < |order|
    ensures Node(Without(order, k), i) == if i < k then Node(order, i) else Node(order, i + 1)
  {
  }

  lemma {:induction false} NodeDistinct(order: seq<nat>, i: int, j: int)
    requires Nodup(order) && -1 <= i < j <= |order| && (i >= 0 || j < |order|)
    ensures Node(order, i) != Node(order, j)
  {
  }

  lemma {:induction false} UnlinkNext(next: seq<nat>, prev: seq<nat>, order: seq<nat>, k: nat, i: int)
    requires Linked(next, prev, order) && k < |order| && -1 <= i < |order| - 1
    ensures var b, o := order[k], Without(order, k);
            prev[b] <= NBUF && next[prev[b] := next[b]][Node(o, i)] == Node(o, i + 1)
  {
    var b := order[k];
    assert next[Node(order, k)] == Node(order, k + 1) && prev[Node(order, k)] == Node(order, k - 1);
    WithoutNode(order, k, i);
    WithoutNode(order, k, i + 1);
    if i < k - 1 {
      NodeDistinct(order, i, k - 1);
      assert next[Node(order, i)] == Node(order, i + 1);
    } else if i >= k {
      if i + 1 < |order| {
        NodeDistinct(order, k - 1, i + 1);
      }
      assert next[Node(order, i + 1)] == Node(order, i + 2);
    }
  }

  lemma {:induction false} UnlinkPrev(next: seq<nat>, prev: seq<nat>, order: seq<nat>, k: nat, i: int)
    requires Linked(next, prev, order) && k < |order| && 0 <= i <= |order| - 1
    ensures var b, o := order[k], Without(order, k);
            next[b] <= NBUF && prev[next[b] := prev[b]][Node(o, i)] == Node(o, i - 1)
  {
    var b := order[k];
    assert next[Node(order, k)] == Node(order, k + 1) && prev[Node(order, k)] == Node(order, k - 1);
    WithoutNode(order, k, i);
    WithoutNode(order, k, i - 1);
    if i < k {
      NodeDistinct(order, i, k + 1);
      assert prev[Node(order, i)] == Node(order, i - 1);
    } else if i > k {
      NodeDistinct(order, k + 1, i + 1);
      assert prev[Node(order, i + 1)] == Node(order, i);
    }
  }

  /** b->next->prev = b->prev; b->prev->next = b->next */
  lemma {:induction false} Unlink(next: seq<nat>, prev: seq<nat>, order: seq<nat>, k: nat)
    requires Linked(next, prev, order) && k < |order|
    ensures var b := order[k];
            && next[b] <= NBUF && prev[b] <= NBUF && next[b] != b && prev[b] != b
            && Linked(next[prev[b] := next[b]], prev[next[b] := prev[b]], Without(order, k))
            && forall i :: 0 <= i < |order| - 1 ==> Without(order, k)[i] != b
  {
    var b, o := order[k], Without(order, k);
    assert next[Node(order, k)] == Node(order, k + 1) && prev[Node(order, k)] == Node(order, k - 1);
    forall i | -1 <= i < |o| ensures next[prev[b] := next[b]][Node(o, i)] == Node(o, i + 1) {
      UnlinkNext(next, prev, order, k, i);
    }
    forall i | 0 <= i <= |o| ensures prev[next[b] := prev[b]][Node(o, i)] == Node(o, i - 1) {
      UnlinkPrev(next, prev, order, k, i);
    }
  }

  /** Insert b between the head and the first buffer. */
  lemma {:induction false} InsertFront(next: seq<nat>, prev: seq<nat>, order: seq<nat>, b: nat)
    requires Linked(next, prev, order) && b < NBUF && forall i :: 0 <= i < |order| ==> order[i] != b
    ensures next[NBUF] <= NBUF
    ensures Linked(next[b := next[NBUF]][NBUF := b], prev[b := NBUF][next[NBUF] := b], [b] + order)
  {
    var o := [b] + order;
    assert next[Node(order, -1)] == Node(order, 0);
    var n', p' := next[b := next[NBUF]][NBUF := b], prev[b := NBUF][next[NBUF] := b];
    forall i | -1 <= i < |o| ensures n'[Node(o, i)] == Node(o, i + 1) {
      if i >= 1 {
        assert Node(o, i) == Node(order, i - 1) && Node(o, i + 1) == Node(order, i);
        assert next[Node(order, i - 1)] == Node(order, i);
      }
    }
    forall i | 0 <= i <= |o| ensures p'[Node(o, i)] == Node(o, i - 1) {
      if i >= 2 {
        assert Node(o, i) == Node(order, i - 1) && Node(o, i - 1) == Node(order, i - 2);
        NodeDistinct(order, 0, i - 1);
        assert prev[Node(order, i - 1)] == Node(order, i - 2);
      }
    }
  }

  // ---- The cache ----

  type Addr = (nat, nat)   // device, block number

  datatype Buf = Buf(addr: Addr, valid: bool, dirty: bool, refcnt: nat, data: Block)

  /** bget may take this buffer over for another block. */
  predicate Eligible(b: Buf) {
    b.refcnt == 0 && !b.dirty
  }

  /** order is a permutation of all buffers, sorted by the time of their last final release. */
  ghost predicate RecencyOk(order: seq<nat>, stamp: seq<nat>, clock: nat) {
    && |order| == |stamp| == NBUF && Nodup(order)
    && (forall b :: 0 <= b < NBUF ==> stamp[b] < clock)
    && (forall i, j :: 0 <= i < j < NBUF ==> stamp[order[i]] > stamp[order[j]])
  }

  /** Apart from the initial address (0, 0), no block is cached twice. */
  ghost predicate Unique(bufs: seq<Buf>) {
    forall i, j :: 0 <= i < j < |bufs| && bufs[i].addr == bufs[j].addr ==> bufs[i].addr == (0, 0)
  }

  /** Clean buffers agree with the disk; the exceptions are those a holder has
      changed and not yet logged or written. */
  ghost predicate Coherent(bufs: seq<Buf>, disk: map<Addr, Block>, edited: set<nat>) {
    forall b :: 0 <= b < |bufs| ==>
      && (bufs[b].dirty ==> bufs[b].valid)
      && (b in edited ==> bufs[b].valid && bufs[b].refcnt > 0)
      && (bufs[b].valid ==> bufs[b].addr in disk)
      && (bufs[b].valid && !bufs[b].dirty && b !in edited ==> bufs[b].data == disk[bufs[b].addr])
  }

  ghost predicate Cached(bufs: seq<Buf>, b: nat, a: Addr) {
    b < |bufs| && bufs[b].valid && bufs[b].addr == a
  }

  /** What a reader of address a gets: the cached copy if there is one, else the disk. */
  ghost function View(bufs: seq<Buf>, disk: map<Addr, Block>, a: Addr): Block
    requires a in disk
  {
    if b: nat :| Cached(bufs, b, a) then bufs[b].data else disk[a]
  }

  ghost predicate SameView(bufs: seq<Buf>, disk: map<Addr, Block>, bufs': seq<Buf>, disk': map<Addr, Block>)
    requires disk'.Keys == disk.Keys
  {
    forall a {:trigger a in disk} :: a in disk && a != (0, 0) ==> View(bufs', disk', a) == View(bufs, disk, a)
  }

  lemma {:induction false} ViewCached(bufs: seq<Buf>, disk: map<Addr, Block>, a: Addr, b: nat)
    requires Unique(bufs) && a in disk && a != (0, 0) && Cached(bufs, b, a)
    ensures View(bufs, disk, a) == bufs[b].data
  {
    assert forall c: nat :: Cached(bufs, c, a) ==> c == b;
  }

  lemma {:induction false} ViewUncached(bufs: seq<Buf>, disk: map<Addr, Block>, a: Addr)
    requires a in disk && forall b: nat :: !Cached(bufs, b, a)
    ensures View(bufs, disk, a) == disk[a]
  {
  }

  /** Changing one buffer keeps the view if that buffer's contribution to it stays the same. */
  lemma {:induction false} ViewUpdate(bufs: seq<Buf>, disk: map<Addr, Block>, k: nat, nb: Buf, a: Addr)
    requires k < |bufs| && Unique(bufs) && Unique(bufs[k := nb]) && a in disk && a != (0, 0)
    requires nb.addr == a && nb.valid ==> nb.data == View(bufs, disk, a)
    requires bufs[k].addr == a && bufs[k].valid && !(nb.addr == a && nb.valid) ==> bufs[k].data == disk[a]
    ensures View(bufs[k := nb], disk, a) == View(bufs, disk, a)
  {
    var bufs' := bufs[k := nb];
    if b: nat :| Cached(bufs', b, a) {
      ViewCached(bufs', disk, a, b);
      if b != k {
        assert Cached(bufs, b, a);
        ViewCached(bufs, disk, a, b);
      }
    } else {
      ViewUncached(bufs', disk, a);
      if b: nat :| Cached(bufs, b, a) {
        assert b != k ==> Cached(bufs', b, a);
        assert !Cached(bufs', k, a);
        ViewCached(bufs, disk, a, b);
      } else {
        ViewUncached(bufs, disk, a);
      }
    }
  }

  /** Buffer r of bufs, taken for one more reader of block a, is now nb: a hit, or a free
      buffer for a block that was nowhere cached. */
  predicate Taken(bufs: seq<Buf>, r: nat, a: Addr, nb: Buf)
    requires r < |bufs|
  {
    && nb.addr == a && nb.valid
    && if bufs[r].addr == a then nb.refcnt == bufs[r].refcnt + 1 && nb.dirty == bufs[r].dirty
       else nb.refcnt == 1 && !nb.dirty && Eligible(bufs[r]) && forall c :: 0 <= c < |bufs| ==> bufs[c].addr != a
  }

  class BufferCache {
    var bufs: seq<Buf>
    var next: seq<nat>
    var prev: seq<nat>
    var disk: map<Addr, Block>
    ghost var order: seq<nat>    // buffers from head.next to head.prev
    ghost var stamp: seq<nat>    // when each buffer was last released for good
    ghost var clock: nat
    ghost var edited: set<nat>   // changed by their holder, not yet logged or written

    ghost predicate Valid()
      reads this
    {
      && |bufs| == NBUF
      && Linked(next, prev, order) && RecencyOk(order, stamp, clock)
      && Unique(bufs) && Coherent(bufs, disk, edited)
    }

    /** binit: every buffer on the list, the last one first. */
    constructor (disk: map<Addr, Block>)
      ensures Valid() && this.disk == disk && edited == {}
      ensures forall b :: 0 <= b < NBUF ==> bufs[b].addr == (0, 0) && !bufs[b].valid && Eligible(bufs[b])
    {
      this.disk := disk;
      bufs := seq(NBUF, _ => Buf((0, 0), false, false, 0, Zeroed()));
      next := seq(NBUF + 1, _ => NBUF);
      prev := seq(NBUF + 1, _ => NBUF);
      order, edited := [], {};
      stamp, clock := seq(NBUF, i => i), NBUF;
      new;
      var b := 0;
      while b < NBUF
        invariant 0 <= b <= NBUF
        invariant Linked(next, prev, order) && |order| == b
        invariant forall i :: 0 <= i < b ==> order[i] == b - 1 - i
        invariant this.disk == disk && edited == {} && clock == NBUF && stamp == seq(NBUF, i => i)
        invariant bufs == seq(NBUF, _ => Buf((0, 0), false, false, 0, Zeroed()))
      {
        InsertFront(next, prev, order, b);
        var first := next[NBUF];
        next := next[b := first];
        prev := prev[b := NBUF];
        prev := prev[first := b];
        next := next[NBUF := b];
        order := [b] + order;
        b := b + 1;
      }
    }

    /** The first loop of bget: the buffer that caches a block, looked for from the
        most recently used end. */
    method Find(a: Addr) returns (b: nat)
      requires Valid()
      ensures b <= NBUF
      ensures b < NBUF ==> bufs[b].addr == a
      ensures b == NBUF ==> forall c :: 0 <= c < NBUF ==> bufs[c].addr != a
    {
      ghost var i := 0;
      assert next[Node(order, -1)] == Node(order, 0);
      b := next[NBUF];
      while b != NBUF
        invariant 0 <= i <= NBUF && b == Node(order, i)
        invariant forall j :: 0 <= j < i ==> bufs[order[j]].addr != a
        decreases NBUF - i
      {
        if bufs[b].addr == a {
          return;
        }
        assert next[Node(order, i)] == Node(order, i + 1);
        b := next[b];
        i := i + 1;
      }
      forall c | 0 <= c < NBUF ensures bufs[c].addr != a {
        var j := PositionOf(order, c);
      }
    }

    /** The second loop of bget: of all buffers that may be recycled, the one released
        longest ago. */
    method Victim() returns (b: nat)
      requires Valid()
      ensures b <= NBUF
      ensures b < NBUF ==> Eligible(bufs[b]) && forall c :: 0 <= c < NBUF && Eligible(bufs[c]) ==> stamp[b] <= stamp[c]
      ensures b == NBUF ==> forall c :: 0 <= c < NBUF ==> !Eligible(bufs[c])
    {
      ghost var i := NBUF - 1;
      assert prev[Node(order, NBUF)] == Node(order, NBUF - 1);
      b := prev[NBUF];
      while b != NBUF
        invariant -1 <= i < NBUF && b == Node(order, i)
        invariant forall j :: i < j < NBUF ==> !Eligible(bufs[order[j]])
        decreases i
      {
        if bufs[b].refcnt == 0 && !bufs[b].dirty {
          forall c | 0 <= c < NBUF && Eligible(bufs[c]) ensures stamp[b] <= stamp[c] {
            var j := PositionOf(order, c);
          }
          return;
        }
        assert prev[Node(order, i)] == Node(order, i - 1);
        b := prev[b];
        i := i - 1;
      }
      forall c | 0 <= c < NBUF ensures !Eligible(bufs[c]) {
        var j := PositionOf(order, c);
      }
    }

    /** bget: a hit, or the least recently released buffer that nobody uses and no
        uncommitted transaction has pinned; None is the "no buffers" panic. No reader
        can tell that the buffer changed hands. */
    method Bget(a: Addr) returns (r: nat)
      requires Valid() && a in disk && a != (0, 0)
      modifies this`bufs
      ensures Valid() && r <= NBUF
      ensures r < NBUF ==>
        && bufs == old(bufs)[r := bufs[r]]
        && bufs[r].addr == a && bufs[r].refcnt == old(bufs)[r].refcnt + 1
        && (old(bufs)[r].addr == a ==> bufs[r] == old(bufs)[r].(refcnt := bufs[r].refcnt))
        && (old(bufs)[r].addr != a ==>
              && !bufs[r].valid && !bufs[r].dirty
              && (forall c :: 0 <= c < NBUF ==> old(bufs)[c].addr != a)
              && Eligible(old(bufs)[r])
              && forall c :: 0 <= c < NBUF && Eligible(old(bufs)[c]) ==> stamp[r] <= stamp[c])
      ensures r == NBUF ==>
        bufs == old(bufs) && forall c :: 0 <= c < NBUF ==> bufs[c].addr != a && !Eligible(bufs[c])
      ensures SameView(old(bufs), disk, bufs, disk)
    {
      r := Find(a);
      if r != NBUF {
        ghost var was := bufs;
        bufs := bufs[r := bufs[r].(refcnt := bufs[r].refcnt + 1)];
        CountKeepsView(was, disk, r, bufs[r].refcnt);
        return;
      }
      r := Victim();
      if r == NBUF {
        return;
      }
      RecycleKeepsView(bufs, disk, edited, r, a);
      bufs := bufs[r := bufs[r].(addr := a, valid := false, dirty := false, refcnt := 1)];
    }

    /** bread: a counted buffer with the contents that any reader of the block must see. */
    method Bread(a: Addr) returns (r: nat)
      requires Valid() && a in disk && a != (0, 0)
      modifies this`bufs
      ensures Valid() && r <= NBUF
      ensures r < NBUF ==>
        && bufs == old(bufs)[r := bufs[r]]
        && Taken(old(bufs), r, a, bufs[r]) && bufs[r].data == View(old(bufs), disk, a)
      ensures r == NBUF ==>
        bufs == old(bufs) && forall c :: 0 <= c < NBUF ==> bufs[c].addr != a && !Eligible(bufs[c])
      ensures SameView(old(bufs), disk, bufs, disk)
    {
      r := Bget(a);
      if r == NBUF {
        return;
      }
      if !bufs[r].valid {
        ghost var was := bufs;
        LoadKeepsView(bufs, disk, edited, r);
        bufs := bufs[r := bufs[r].(valid := true, data := disk[a])];
      }
      ViewCached(bufs, disk, a, r);
    }

    /** The holder of a buffer changes its contents. */
    method Edit(b: nat, data: Block)
      requires Valid() && b < NBUF && bufs[b].refcnt > 0 && bufs[b].valid && bufs[b].addr != (0, 0)
      modifies this`bufs, this`edited
      ensures Valid()
      ensures bufs == old(bufs)[b := old(bufs)[b].(data := data)] && edited == old(edited) + {b}
      ensures View(bufs, disk, bufs[b].addr) == data
      ensures forall a :: a in disk && a != (0, 0) && a != bufs[b].addr ==>
        View(bufs, disk, a) == View(old(bufs), disk, a)
    {
      EditKeepsOthers(bufs, disk, b, data);
      bufs := bufs[b := bufs[b].(data := data)];
      edited := edited + {b};
      ViewCached(bufs, disk, bufs[b].addr, b);
    }

    /** The part of log_write that concerns the buffer: B_DIRTY pins it. */
    method Pin(b: nat)
      requires Valid() && b < NBUF && bufs[b].refcnt > 0 && bufs[b].valid && bufs[b].addr != (0, 0)
      modifies this`bufs, this`edited
      ensures Valid()
      ensures bufs == old(bufs)[b := old(bufs)[b].(dirty := true)] && edited == old(edited) - {b}
      ensures SameView(old(bufs), disk, bufs, disk)
    {
      ghost var was := bufs;
      bufs := bufs[b := bufs[b].(dirty := true)];
      edited := edited - {b};
      FlagKeepsView(was, disk, b, true);
    }

    /** bwrite: the contents reach the disk and the buffer is clean again. */
    method Bwrite(b: nat)
      requires Valid() && b < NBUF && bufs[b].refcnt > 0 && bufs[b].valid && bufs[b].addr != (0, 0)
      modifies this`bufs, this`edited, this`disk
      ensures Valid()
      ensures bufs == old(bufs)[b := old(bufs)[b].(dirty := false)] && edited == old(edited) - {b}
      ensures disk == old(disk)[bufs[b].addr := bufs[b].data] && disk.Keys == old(disk).Keys
      ensures SameView(old(bufs), old(disk), bufs, disk)
    {
      ghost var was, d := bufs, disk;
      disk := disk[bufs[b].addr := bufs[b].data];
      bufs := bufs[b := bufs[b].(dirty := false)];
      edited := edited - {b};
      WriteKeepsView(was, d, bufs, disk, b);
    }

    /** brelse: the last user moves the buffer to the front of the list. */
    method Brelse(b: nat)
      requires Valid() && b < NBUF && bufs[b].refcnt > 0 && b !in edited
      modifies this`bufs, this`next, this`prev, this`order, this`stamp, this`clock
      ensures Valid()
      ensures bufs == old(bufs)[b := old(bufs)[b].(refcnt := old(bufs)[b].refcnt - 1)]
      ensures bufs[b].refcnt > 0 ==> order == old(order) && stamp == old(stamp)
      ensures bufs[b].refcnt == 0 ==>
        && order[0] == b
        && (exists k :: 0 <= k < NBUF && old(order)[k] == b && order == [b] + Without(old(order), k))
        && stamp == old(stamp)[b := old(clock)]
      ensures SameView(old(bufs), disk, bufs, disk)
    {
      ghost var was := bufs;
      bufs := bufs[b := bufs[b].(refcnt := bufs[b].refcnt - 1)];
      CountKeepsView(was, disk, b, bufs[b].refcnt);
      if bufs[b].refcnt == 0 {
        MoveToFront(b);
      }
    }

    method MoveToFront(b: nat)
      requires Linked(next, prev, order) && RecencyOk(order, stamp, clock) && b < NBUF
      modifies this`next, this`prev, this`order, this`stamp, this`clock
      ensures Linked(next, prev, order) && RecencyOk(order, stamp, clock)
      ensures exists k :: 0 <= k < NBUF && old(order)[k] == b && order == [b] + Without(old(order), k)
      ensures stamp == old(stamp)[b := old(clock)]
    {
      ghost var k := PositionOf(order, b);
      Unlink(next, prev, order, k);
      prev := prev[next[b] := prev[b]];
      next := next[prev[b] := next[b]];
      ghost var rest := Without(order, k);
      InsertFront(next, prev, rest, b);
      var first := next[NBUF];
      next := next[b := first];
      prev := prev[b := NBUF];
      prev := prev[first := b];
      next := next[NBUF := b];
      FrontIsRecent(order, stamp, clock, k);
      order, stamp, clock := [b] + rest, stamp[b := clock], clock + 1;
    }
  }

  lemma {:induction false} FrontIsRecent(order: seq<nat>, stamp: seq<nat>, clock: nat, k: nat)
    requires RecencyOk(order, stamp, clock) && k < NBUF
    ensures RecencyOk([order[k]] + Without(order, k), stamp[order[k] := clock], clock + 1)
  {
    var b, o, t := order[k], [order[k]] + Without(order, k), stamp[order[k] := clock];
    forall i | 1 <= i < NBUF ensures o[i] == if i - 1 < k then order[i - 1] else order[i] {
    }
  }

  lemma {:induction false} CountKeepsView(bufs: seq<Buf>, disk: map<Addr, Block>, k: nat, n: nat)
    requires k < |bufs| && Unique(bufs)
    ensures var bufs' := bufs[k := bufs[k].(refcnt := n)];
            Unique(bufs') && SameView(bufs, disk, bufs', disk)
  {
    var nb := bufs[k].(refcnt := n);
    assert Unique(bufs[k := nb]);
    forall a | a in disk && a != (0, 0) ensures View(bufs[k := nb], disk, a) == View(bufs, disk, a) {
      if Cached(bufs, k, a) {
        ViewCached(bufs, disk, a, k);
      }
      ViewUpdate(bufs, disk, k, nb, a);
    }
  }

  lemma {:induction false} FlagKeepsView(bufs: seq<Buf>, disk: map<Addr, Block>, k: nat, dirty: bool)
    requires k < |bufs| && Unique(bufs)
    ensures var bufs' := bufs[k := bufs[k].(dirty := dirty)];
            Unique(bufs') && SameView(bufs, disk, bufs', disk)
  {
    var nb := bufs[k].(dirty := dirty);
    assert Unique(bufs[k := nb]);
    forall a | a in disk && a != (0, 0) ensures View(bufs[k := nb], disk, a) == View(bufs, disk, a) {
      if Cached(bufs, k, a) {
        ViewCached(bufs, disk, a, k);
      }
      ViewUpdate(bufs, disk, k, nb, a);
    }
  }

  lemma {:induction false} EditKeepsOthers(bufs: seq<Buf>, disk: map<Addr, Block>, k: nat, data: Block)
    requires k < |bufs| && Unique(bufs)
    ensures var bufs' := bufs[k := bufs[k].(data := data)];
            Unique(bufs') && forall a :: a in disk && a != (0, 0) && a != bufs[k].addr ==>
              View(bufs', disk, a) == View(bufs, disk, a)
  {
    var nb := bufs[k].(data := data);
    assert Unique(bufs[k := nb]);
    forall a | a in disk && a != (0, 0) && a != bufs[k].addr
      ensures View(bufs[k := nb], disk, a) == View(bufs, disk, a)
    {
      ViewUpdate(bufs, disk, k, nb, a);
    }
  }

  /** Only clean, unused buffers are recycled, so their contents are on disk. */
  lemma {:induction false} RecycleKeepsView(bufs: seq<Buf>, disk: map<Addr, Block>, edited: set<nat>, k: nat, a: Addr)
    requires k < |bufs| && Unique(bufs) && Coherent(bufs, disk, edited) && Eligible(bufs[k])
    requires forall c :: 0 <= c < |bufs| ==> bufs[c].addr != a
    ensures var bufs' := bufs[k := bufs[k].(addr := a, valid := false, dirty := false, refcnt := 1)];
            Unique(bufs') && Coherent(bufs', disk, edited) && SameView(bufs, disk, bufs', disk)
  {
    var nb := bufs[k].(addr := a, valid := false, dirty := false, refcnt := 1);
    assert Unique(bufs[k := nb]);
    forall x | x in disk && x != (0, 0) ensures View(bufs[k := nb], disk, x) == View(bufs, disk, x) {
      ViewUpdate(bufs, disk, k, nb, x);
    }
  }

  /** Reading the disk into an invalid buffer shows readers what they saw before. */
  lemma {:induction false} LoadKeepsView(bufs: seq<Buf>, disk: map<Addr, Block>, edited: set<nat>, k: nat)
    requires k < |bufs| && Unique(bufs) && Coherent(bufs, disk, edited)
    requires !bufs[k].valid && bufs[k].addr in disk && bufs[k].addr != (0, 0)
    ensures var bufs' := bufs[k := bufs[k].(valid := true, data := disk[bufs[k].addr])];
            Unique(bufs') && Coherent(bufs', disk, edited) && SameView(bufs, disk, bufs', disk)
  {
    var nb := bufs[k].(valid := true, data := disk[bufs[k].addr]);
    assert Unique(bufs[k := nb]);
    forall x | x in disk && x != (0, 0) ensures View(bufs[k := nb], disk, x) == View(bufs, disk, x) {
      if x == nb.addr {
        forall b: nat ensures !Cached(bufs, b, x) {
          assert b < |bufs| && bufs[b].addr == x ==> b == k;
        }
        ViewUncached(bufs, disk, x);
      }
      ViewUpdate(bufs, disk, k, nb, x);
    }
  }

  lemma {:induction false} WriteKeepsView(bufs: seq<Buf>, disk: map<Addr, Block>, bufs': seq<Buf>,
      disk': map<Addr, Block>, k: nat)
    requires k < |bufs| && Unique(bufs) && bufs[k].valid && bufs[k].addr in disk && bufs[k].addr != (0, 0)
    requires bufs' == bufs[k := bufs[k].(dirty := false)] && disk' == disk[bufs[k].addr := bufs[k].data]
    ensures disk'.Keys == disk.Keys && Unique(bufs') && SameView(bufs, disk, bufs', disk')
  {
    FlagKeepsView(bufs, disk, k, false);
    forall a | a in disk && a != (0, 0) ensures View(bufs', disk', a) == View(bufs, disk, a) {
      if b: nat :| Cached(bufs', b, a) {
        ViewCached(bufs', disk', a, b);
        assert Cached(bufs, b, a);
        ViewCached(bufs, disk, a, b);
      } else {
        ViewUncached(bufs', disk', a);
        assert !Cached(bufs', k, a);
        forall b: nat ensures !Cached(bufs, b, a) {
          assert Cached(bufs, b, a) ==> Cached(bufs', b, a);
        }
        ViewUncached(bufs, disk, a);
      }
    }
  }

  lemma {:induction false} PositionOf(order: seq<nat>, c: nat) returns (j: nat)
    requires Nodup(order) && |order| == NBUF && c < NBUF
    ensures j < NBUF && order[j] == c
  {
    if forall i :: 0 <= i < NBUF ==> order[i] != c {
      Pigeonhole(order, c);
    } else {
      j :| 0 <= j < NBUF && order[j] == c;
    }
  }

  function Elements(s: seq<nat>): set<nat> {
    set i | 0 <= i < |s| :: s[i]
  }

  lemma {:induction false} ElementsSize(s: seq<nat>)
    requires forall i, j :: 0 <= i < j < |s| ==> s[i] != s[j]
    ensures |Elements(s)| == |s|
  {
    if s != [] {
      var n := |s| - 1;
      ElementsSize(s[..n]);
      assert Elements(s) == Elements(s[..n]) + {s[n]};
    }
  }

  /** NBUF distinct indices below NBUF leave none out. */
  lemma {:induction false} Pigeonhole(order: seq<nat>, c: nat)
    requires Nodup(order) && |order| == NBUF && c < NBUF
    ensures exists j :: 0 <= j < NBUF && order[j] == c
  {
    ElementsSize(order);
    if c !in Elements(order) {
      var all := Interval(0, NBUF);
      assert Elements(order) <= all - {c};
      SubsetSize(Elements(order), all - {c});
    }
  }
}
