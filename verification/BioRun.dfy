/** Every run of the buffer cache against a flat disk: what a reader of each block sees,
    what is on the device, and which blocks are held, pinned or being edited. */
module BioRun {
  import opened Blocks
  import opened Bio

  datatype Op =
    | Read(a: Addr)               // bread
    | Change(a: Addr, data: Block)   // the holder stores into b->data
    | LogWrite(a: Addr)           // log_write: B_DIRTY
    | Write(a: Addr)              // bwrite
    | Release(a: Addr)            // brelse

  /** The flat disk: now is what readers see and stable what is on the device. */
  datatype Flat = Flat(now: map<Addr, Block>, stable: map<Addr, Block>, held: multiset<Addr>, pinned: set<Addr>,
    edited: set<Addr>)

  /** What the callers of the cache keep to: only holders touch a block, and a changed
      block is logged or written before it is released. */
  predicate Allowed(f: Flat, op: Op) {
    && op.a in f.now && op.a != (0, 0)
    && (!op.Read? ==> op.a in f.held)
    && (op.Release? ==> op.a !in f.edited)
  }

  function Step(f: Flat, op: Op): (g: Flat)
    requires Allowed(f, op)
  {
    match op
    case Read(a) => f.(held := f.held + multiset{a})
    case Change(a, data) => f.(now := f.now[a := data], edited := f.edited + {a})
    case LogWrite(a) => f.(pinned := f.pinned + {a}, edited := f.edited - {a})
    case Write(a) => f.(stable := f.stable[a := f.now[a]], pinned := f.pinned - {a}, edited := f.edited - {a})
    case Release(a) => f.(held := f.held - multiset{a})
  }

  /** Blocks that must stay in memory. */
  function InUse(f: Flat): (u: set<Addr>) {
    (set a | a in f.held) + f.pinned
  }

  /** bget's panic: a block that is not in use, and NBUF others that are. */
  predicate NoBuffers(f: Flat, op: Op) {
    op.Read? && op.a !in InUse(f) && |InUse(f)| >= NBUF
  }

  // ---- The cache tracks the flat disk ----

  predicate BufOk(b: Buf, edited: bool, f: Flat) {
    if b.addr == (0, 0) then b.refcnt == 0 && !b.dirty && !edited
    else b.refcnt == f.held[b.addr] && (b.dirty <==> b.addr in f.pinned) && (edited <==> b.addr in f.edited)
  }

  /** The buffer that the holder of a has a pointer to. */
  predicate Handle(bufs: seq<Buf>, handle: map<Addr, nat>, a: Addr) {
    a in handle && handle[a] < |bufs| && bufs[handle[a]].addr == a && bufs[handle[a]].valid
  }

  ghost predicate Sees(bufs: seq<Buf>, disk: map<Addr, Block>, now: map<Addr, Block>, a: Addr)
    requires a in disk
  {
    a in now && View(bufs, disk, a) == now[a]
  }

  ghost predicate Tracks(bufs: seq<Buf>, disk: map<Addr, Block>, edited: set<nat>, f: Flat, handle: map<Addr, nat>) {
    && |bufs| == NBUF && Unique(bufs) && disk == f.stable && f.now.Keys == disk.Keys && (0, 0) !in InUse(f)
    && (forall a {:trigger Sees(bufs, disk, f.now, a)} :: a in disk && a != (0, 0) ==> Sees(bufs, disk, f.now, a))
    && (forall b {:trigger bufs[b]} :: 0 <= b < NBUF ==> BufOk(bufs[b], b in edited, f))
    && (forall a {:trigger Handle(bufs, handle, a)} :: a in InUse(f) ==> Handle(bufs, handle, a))
    && (forall a :: a in f.edited ==> a in f.held)
  }

  /** A block in no buffer is not in use. */
  lemma {:induction false} Unheld(bufs: seq<Buf>, disk: map<Addr, Block>, edited: set<nat>, f: Flat,
      handle: map<Addr, nat>, a: Addr)
    requires Tracks(bufs, disk, edited, f, handle) && forall c :: 0 <= c < NBUF ==> bufs[c].addr != a
    ensures a !in f.held && a !in f.pinned && a !in f.edited
  {
    assert a in InUse(f) ==> Handle(bufs, handle, a);
  }

  lemma {:induction false} ReadTracks(bufs: seq<Buf>, bufs': seq<Buf>, disk: map<Addr, Block>, edited: set<nat>,
      f: Flat, handle: map<Addr, nat>, a: Addr, r: nat)
    requires Tracks(bufs, disk, edited, f, handle) && Allowed(f, Read(a)) && r < NBUF && Unique(bufs')
    requires |bufs'| == NBUF && bufs' == bufs[r := bufs'[r]] && Taken(bufs, r, a, bufs'[r])
      && SameView(bufs, disk, bufs', disk)
    ensures Tracks(bufs', disk, edited, Step(f, Read(a)), handle[a := r])
  {
    var g, h := Step(f, Read(a)), handle[a := r];
    if bufs[r].addr != a {
      Unheld(bufs, disk, edited, f, handle, a);
    }
    forall x | x in disk && x != (0, 0) ensures Sees(bufs', disk, g.now, x) {
      assert Sees(bufs, disk, f.now, x);
    }
    forall b | 0 <= b < NBUF ensures BufOk(bufs'[b], b in edited, g) {
      assert BufOk(bufs[b], b in edited, f);
      assert b != r ==> bufs'[b] == bufs[b] && bufs[b].addr != a;
    }
    forall x | x in InUse(g) ensures Handle(bufs', h, x) {
      if x != a {
        assert x in InUse(f) && Handle(bufs, handle, x);
        assert BufOk(bufs[r], r in edited, f);
      }
    }
  }

  /** A change that leaves every buffer its block and stays valid keeps all handles. */
  lemma {:induction false} HandlesStay(bufs: seq<Buf>, bufs': seq<Buf>, disk: map<Addr, Block>, edited: set<nat>,
      f: Flat, handle: map<Addr, nat>, b: nat, nb: Buf)
    requires Tracks(bufs, disk, edited, f, handle) && b < NBUF && nb.addr == bufs[b].addr && nb.valid == bufs[b].valid
    requires bufs' == bufs[b := nb]
    ensures Unique(bufs') && forall a {:trigger Handle(bufs', handle, a)} :: a in InUse(f) ==> Handle(bufs', handle, a)
  {
    forall a | a in InUse(f) ensures Handle(bufs', handle, a) {
      assert Handle(bufs, handle, a);
    }
  }

  lemma {:induction false} ChangeTracks(bufs: seq<Buf>, disk: map<Addr, Block>, edited: set<nat>, f: Flat,
      handle: map<Addr, nat>, a: Addr, data: Block)
    requires Tracks(bufs, disk, edited, f, handle) && Allowed(f, Change(a, data)) && Handle(bufs, handle, a)
    ensures Tracks(bufs[handle[a] := bufs[handle[a]].(data := data)], disk, edited + {handle[a]},
      Step(f, Change(a, data)), handle)
  {
    var b, g := handle[a], Step(f, Change(a, data));
    var bufs' := bufs[b := bufs[b].(data := data)];
    HandlesStay(bufs, bufs', disk, edited, f, handle, b, bufs'[b]);
    EditKeepsOthers(bufs, disk, b, data);
    forall x | x in disk && x != (0, 0) ensures Sees(bufs', disk, g.now, x) {
      assert Sees(bufs, disk, f.now, x);
      if x == a {
        ViewCached(bufs', disk, a, b);
      }
    }
    forall c | 0 <= c < NBUF ensures BufOk(bufs'[c], c in edited + {b}, g) {
      assert BufOk(bufs[c], c in edited, f);
    }
  }

  lemma {:induction false} LogWriteTracks(bufs: seq<Buf>, disk: map<Addr, Block>, edited: set<nat>, f: Flat,
      handle: map<Addr, nat>, a: Addr)
    requires Tracks(bufs, disk, edited, f, handle) && Allowed(f, LogWrite(a)) && Handle(bufs, handle, a)
    ensures Tracks(bufs[handle[a] := bufs[handle[a]].(dirty := true)], disk, edited - {handle[a]}, Step(f, LogWrite(a)),
      handle)
  {
    var b, g := handle[a], Step(f, LogWrite(a));
    var bufs' := bufs[b := bufs[b].(dirty := true)];
    assert InUse(g) == InUse(f);
    HandlesStay(bufs, bufs', disk, edited, f, handle, b, bufs'[b]);
    FlagKeepsView(bufs, disk, b, true);
    forall x | x in disk && x != (0, 0) ensures Sees(bufs', disk, g.now, x) {
      assert Sees(bufs, disk, f.now, x);
    }
    forall c | 0 <= c < NBUF ensures BufOk(bufs'[c], c in edited - {b}, g) {
      assert BufOk(bufs[c], c in edited, f);
    }
  }

  lemma {:induction false} WriteTracks(bufs: seq<Buf>, disk: map<Addr, Block>, edited: set<nat>, f: Flat,
      handle: map<Addr, nat>, a: Addr)
    requires Tracks(bufs, disk, edited, f, handle) && Allowed(f, Write(a)) && Handle(bufs, handle, a)
    ensures Tracks(bufs[handle[a] := bufs[handle[a]].(dirty := false)], disk[a := bufs[handle[a]].data],
      edited - {handle[a]}, Step(f, Write(a)), handle)
  {
    var b, g := handle[a], Step(f, Write(a));
    var bufs', disk' := bufs[b := bufs[b].(dirty := false)], disk[a := bufs[b].data];
    assert InUse(g) == InUse(f);
    HandlesStay(bufs, bufs', disk, edited, f, handle, b, bufs'[b]);
    WriteKeepsView(bufs, disk, bufs', disk', b);
    ViewCached(bufs, disk, a, b);
    assert Sees(bufs, disk, f.now, a);
    forall x | x in disk' && x != (0, 0) ensures Sees(bufs', disk', g.now, x) {
      assert x in disk && Sees(bufs, disk, f.now, x);
    }
    forall c | 0 <= c < NBUF ensures BufOk(bufs'[c], c in edited - {b}, g) {
      assert BufOk(bufs[c], c in edited, f);
    }
  }

  lemma {:induction false} ReleaseTracks(bufs: seq<Buf>, disk: map<Addr, Block>, edited: set<nat>, f: Flat,
      handle: map<Addr, nat>, a: Addr)
    requires Tracks(bufs, disk, edited, f, handle) && Allowed(f, Release(a)) && Handle(bufs, handle, a)
    ensures bufs[handle[a]].refcnt > 0 && handle[a] !in edited
    ensures Tracks(bufs[handle[a] := bufs[handle[a]].(refcnt := bufs[handle[a]].refcnt - 1)], disk, edited,
      Step(f, Release(a)), handle)
  {
    var b, g := handle[a], Step(f, Release(a));
    assert BufOk(bufs[b], b in edited, f);
    var bufs' := bufs[b := bufs[b].(refcnt := bufs[b].refcnt - 1)];
    HandlesStay(bufs, bufs', disk, edited, f, handle, b, bufs'[b]);
    CountKeepsView(bufs, disk, b, bufs'[b].refcnt);
    forall x | x in disk && x != (0, 0) ensures Sees(bufs', disk, g.now, x) {
      assert Sees(bufs, disk, f.now, x);
    }
    forall c | 0 <= c < NBUF ensures BufOk(bufs'[c], c in edited, g) {
      assert BufOk(bufs[c], c in edited, f);
    }
  }

  // ---- When bread finds no buffer ----

  lemma {:induction false} Injection<X, Y>(u: set<X>, v: set<Y>, h: map<X, Y>)
    requires forall x :: x in u ==> x in h && h[x] in v
    requires forall x, y :: x in u && y in u && h[x] == h[y] ==> x == y
    ensures |u| <= |v|
    decreases |u|
  {
    if x :| x in u {
      Injection(u - {x}, v - {h[x]}, h);
    }
  }

  /** A buffer whose block is not in use leaves fewer than NBUF blocks in use. */
  lemma {:induction false} SpareBuffer(bufs: seq<Buf>, disk: map<Addr, Block>, edited: set<nat>, f: Flat,
      handle: map<Addr, nat>, r: nat)
    requires Tracks(bufs, disk, edited, f, handle) && r < NBUF && bufs[r].addr !in InUse(f)
    ensures |InUse(f)| < NBUF
  {
    var all := Interval(0, NBUF);
    var u := InUse(f);
    var v := all - {r};
    forall a | a in u ensures a in handle && handle[a] in v {
      assert Handle(bufs, handle, a);
    }
    forall a, b | a in u && b in u && handle[a] == handle[b] ensures a == b {
      assert Handle(bufs, handle, a) && Handle(bufs, handle, b);
    }
    Injection(u, v, handle);
  }

  lemma {:induction false} FoundBuffer(bufs: seq<Buf>, disk: map<Addr, Block>, edited: set<nat>, f: Flat,
      handle: map<Addr, nat>, a: Addr, r: nat, nb: Buf)
    requires Tracks(bufs, disk, edited, f, handle) && r < NBUF && Taken(bufs, r, a, nb)
    ensures !NoBuffers(f, Read(a))
  {
    if a !in InUse(f) {
      assert BufOk(bufs[r], r in edited, f);
      SpareBuffer(bufs, disk, edited, f, handle, r);
    }
  }

  lemma {:induction false} InUseBuffer(b: Buf, edited: bool, f: Flat)
    requires BufOk(b, edited, f) && !Eligible(b)
    ensures b.addr in InUse(f) && b.addr != (0, 0)
  {
  }

  ghost function Addrs(bufs: seq<Buf>, n: nat): (s: set<Addr>)
    requires n <= |bufs|
  {
    set c | 0 <= c < n :: bufs[c].addr
  }

  lemma {:induction false} AddrsCount(bufs: seq<Buf>, n: nat)
    requires n <= |bufs| && Unique(bufs) && forall c :: 0 <= c < n ==> bufs[c].addr != (0, 0)
    ensures |Addrs(bufs, n)| == n
  {
    if n > 0 {
      AddrsCount(bufs, n - 1);
      assert bufs[n - 1].addr !in Addrs(bufs, n - 1);
      assert Addrs(bufs, n) == Addrs(bufs, n - 1) + {bufs[n - 1].addr};
    }
  }

  lemma {:induction false} NoneFound(bufs: seq<Buf>, disk: map<Addr, Block>, edited: set<nat>, f: Flat,
      handle: map<Addr, nat>, a: Addr)
    requires Tracks(bufs, disk, edited, f, handle)
    requires forall c :: 0 <= c < NBUF ==> bufs[c].addr != a && !Eligible(bufs[c])
    ensures NoBuffers(f, Read(a))
  {
    Unheld(bufs, disk, edited, f, handle, a);
    forall c | 0 <= c < NBUF ensures bufs[c].addr in InUse(f) && bufs[c].addr != (0, 0) {
      InUseBuffer(bufs[c], c in edited, f);
    }
    AddrsCount(bufs, NBUF);
    SubsetSize(Addrs(bufs, NBUF), InUse(f));
  }

  // ---- Runs ----

  /** fs is the run of the flat disk under ops, each within the callers' rules. */
  ghost predicate Runs(fs: seq<Flat>, ops: seq<Op>) {
    |fs| == |ops| + 1 && forall k {:trigger Steps(fs, ops, k)} :: 0 <= k < |ops| ==> Steps(fs, ops, k)
  }

  ghost predicate Steps(fs: seq<Flat>, ops: seq<Op>, k: nat)
    requires |fs| == |ops| + 1 && k < |ops|
  {
    Allowed(fs[k], ops[k]) && fs[k + 1] == Step(fs[k], ops[k])
  }

  /** The answer to operation k is what readers of its block see on the flat disk. */
  ghost predicate Answered(fs: seq<Flat>, ops: seq<Op>, k: nat, reply: Block)
    requires |fs| == |ops| + 1 && k < |ops|
  {
    && !NoBuffers(fs[k], ops[k])
    && ops[k].a in fs[k + 1].now && reply == fs[k + 1].now[ops[k].a]
  }

  method PerformRead(c: BufferCache, a: Addr, handle: map<Addr, nat>, ghost f: Flat)
      returns (ok: bool, reply: Block, handle': map<Addr, nat>)
    requires c.Valid() && Tracks(c.bufs, c.disk, c.edited, f, handle) && Allowed(f, Read(a))
    modifies c
    ensures c.Valid() && (ok <==> !NoBuffers(f, Read(a)))
    ensures ok ==> Tracks(c.bufs, c.disk, c.edited, Step(f, Read(a)), handle') && reply == f.now[a]
    ensures !ok ==> Tracks(c.bufs, c.disk, c.edited, f, handle')
  {
    ghost var bufs := c.bufs;
    var r := c.Bread(a);
    if r == NBUF {
      NoneFound(bufs, c.disk, c.edited, f, handle, a);
      return false, Zeroed(), handle;
    }
    FoundBuffer(bufs, c.disk, c.edited, f, handle, a, r, c.bufs[r]);
    ReadTracks(bufs, c.bufs, c.disk, c.edited, f, handle, a, r);
    assert Sees(bufs, c.disk, f.now, a);
    return true, c.bufs[r].data, handle[a := r];
  }

  /** A buffer that caches a block holds what readers of it see. */
  lemma {:induction false} BufferShows(bufs: seq<Buf>, disk: map<Addr, Block>, edited: set<nat>, f: Flat,
      handle: map<Addr, nat>, a: Addr, b: nat)
    requires Tracks(bufs, disk, edited, f, handle) && b < NBUF && bufs[b].valid && bufs[b].addr == a && a in disk
      && a != (0, 0)
    ensures a in f.now && bufs[b].data == f.now[a]
  {
    ViewCached(bufs, disk, a, b);
    assert Sees(bufs, disk, f.now, a);
  }

  /** The operations of a holder on its buffer b. */
  method PerformChange(c: BufferCache, a: Addr, data: Block, b: nat, ghost handle: map<Addr, nat>, ghost f: Flat)
    requires c.Valid() && Tracks(c.bufs, c.disk, c.edited, f, handle) && Allowed(f, Change(a, data))
    requires Handle(c.bufs, handle, a) && b == handle[a]
    modifies c
    ensures c.Valid() && Tracks(c.bufs, c.disk, c.edited, Step(f, Change(a, data)), handle)
      && c.disk.Keys == old(c.disk).Keys
    ensures c.bufs[b].valid && c.bufs[b].addr == a
  {
    ChangeTracks(c.bufs, c.disk, c.edited, f, handle, a, data);
    c.Edit(b, data);
  }

  method PerformLogWrite(c: BufferCache, a: Addr, b: nat, ghost handle: map<Addr, nat>, ghost f: Flat)
    requires c.Valid() && Tracks(c.bufs, c.disk, c.edited, f, handle) && Allowed(f, LogWrite(a))
    requires Handle(c.bufs, handle, a) && b == handle[a]
    modifies c
    ensures c.Valid() && Tracks(c.bufs, c.disk, c.edited, Step(f, LogWrite(a)), handle)
      && c.disk.Keys == old(c.disk).Keys
    ensures c.bufs[b].valid && c.bufs[b].addr == a
  {
    LogWriteTracks(c.bufs, c.disk, c.edited, f, handle, a);
    c.Pin(b);
  }

  method PerformWrite(c: BufferCache, a: Addr, b: nat, ghost handle: map<Addr, nat>, ghost f: Flat)
    requires c.Valid() && Tracks(c.bufs, c.disk, c.edited, f, handle) && Allowed(f, Write(a))
    requires Handle(c.bufs, handle, a) && b == handle[a]
    modifies c
    ensures c.Valid() && Tracks(c.bufs, c.disk, c.edited, Step(f, Write(a)), handle) && c.disk.Keys == old(c.disk).Keys
    ensures c.bufs[b].valid && c.bufs[b].addr == a
  {
    WriteTracks(c.bufs, c.disk, c.edited, f, handle, a);
    c.Bwrite(b);
  }

  method PerformRelease(c: BufferCache, a: Addr, b: nat, ghost handle: map<Addr, nat>, ghost f: Flat)
    requires c.Valid() && Tracks(c.bufs, c.disk, c.edited, f, handle) && Allowed(f, Release(a))
    requires Handle(c.bufs, handle, a) && b == handle[a]
    modifies c
    ensures c.Valid() && Tracks(c.bufs, c.disk, c.edited, Step(f, Release(a)), handle)
      && c.disk.Keys == old(c.disk).Keys
    ensures c.bufs[b].valid && c.bufs[b].addr == a
  {
    ReleaseTracks(c.bufs, c.disk, c.edited, f, handle, a);
    c.Brelse(b);
  }

  method PerformHeld(c: BufferCache, op: Op, b: nat, ghost handle: map<Addr, nat>, ghost f: Flat)
    requires c.Valid() && Tracks(c.bufs, c.disk, c.edited, f, handle) && Allowed(f, op) && !op.Read?
    requires Handle(c.bufs, handle, op.a) && b == handle[op.a]
    modifies c
    ensures c.Valid() && Tracks(c.bufs, c.disk, c.edited, Step(f, op), handle) && c.disk.Keys == old(c.disk).Keys
    ensures c.bufs[b].valid && c.bufs[b].addr == op.a
  {
    match op {
      case Change(a, data) => PerformChange(c, a, data, b, handle, f);
      case LogWrite(a) => PerformLogWrite(c, a, b, handle, f);
      case Write(a) => PerformWrite(c, a, b, handle, f);
      case Release(a) => PerformRelease(c, a, b, handle, f);
    }
  }

  /** One operation on the cache; false is the panic. */
  method Perform(c: BufferCache, op: Op, handle: map<Addr, nat>, ghost f: Flat)
      returns (ok: bool, reply: Block, handle': map<Addr, nat>)
    requires c.Valid() && Tracks(c.bufs, c.disk, c.edited, f, handle) && Allowed(f, op)
    modifies c
    ensures c.Valid() && (ok <==> !NoBuffers(f, op))
    ensures ok ==> Tracks(c.bufs, c.disk, c.edited, Step(f, op), handle') && reply == Step(f, op).now[op.a]
    ensures !ok ==> Tracks(c.bufs, c.disk, c.edited, f, handle')
  {
    if op.Read? {
      ok, reply, handle' := PerformRead(c, op.a, handle, f);
    } else {
      assert op.a in InUse(f) && Handle(c.bufs, handle, op.a);
      var b := handle[op.a];
      PerformHeld(c, op, b, handle, f);
      BufferShows(c.bufs, c.disk, c.edited, Step(f, op), handle, op.a, b);
      ok, reply, handle' := true, c.bufs[b].data, handle;
    }
  }

  ghost function Start(disk: map<Addr, Block>): (f: Flat) {
    Flat(disk, disk, multiset{}, {}, {})
  }

  lemma {:induction false} StartTracks(bufs: seq<Buf>, disk: map<Addr, Block>)
    requires |bufs| == NBUF && forall b :: 0 <= b < NBUF ==>
      bufs[b].addr == (0, 0) && !bufs[b].valid && Eligible(bufs[b])
    ensures Tracks(bufs, disk, {}, Start(disk), map[])
  {
    forall a | a in disk && a != (0, 0) ensures Sees(bufs, disk, disk, a) {
      ViewUncached(bufs, disk, a);
    }
  }

  ghost predicate AllAnswered(fs: seq<Flat>, ops: seq<Op>, replies: seq<Block>)
    requires |fs| == |ops| + 1
  {
    |replies| <= |ops| && forall k {:trigger replies[k]} :: 0 <= k < |replies| ==> Answered(fs, ops, k, replies[k])
  }

  lemma {:induction false} OneMore(fs: seq<Flat>, ops: seq<Op>, replies: seq<Block>, reply: Block)
    requires |fs| == |ops| + 1 && AllAnswered(fs, ops, replies) && |replies| < |ops|
    requires Answered(fs, ops, |replies|, reply)
    ensures AllAnswered(fs, ops, replies + [reply])
  {
    var r := replies + [reply];
    forall k | 0 <= k < |r| ensures Answered(fs, ops, k, r[k]) {
      assert k < |replies| ==> r[k] == replies[k];
    }
  }

  /** Whatever the callers do within their rules, a boot of the cache answers as the flat
      disk does, the device holds exactly what bwrite put there, and the run stops early
      exactly at a read that finds NBUF other blocks in use. */
  method Run(disk: map<Addr, Block>, ops: seq<Op>, ghost fs: seq<Flat>) returns (c: BufferCache, replies: seq<Block>)
    requires Runs(fs, ops) && fs[0] == Start(disk)
    ensures AllAnswered(fs, ops, replies) && c.Valid() && c.disk == fs[|replies|].stable
    ensures |replies| < |ops| ==> NoBuffers(fs[|replies|], ops[|replies|])
  {
    c := new BufferCache(disk);
    StartTracks(c.bufs, disk);
    var handle := map[];
    replies := [];
    while |replies| < |ops|
      invariant AllAnswered(fs, ops, replies) && fresh(c) && c.Valid()
      invariant Tracks(c.bufs, c.disk, c.edited, fs[|replies|], handle)
      decreases |ops| - |replies|
    {
      var k := |replies|;
      assert Steps(fs, ops, k);
      var ok, reply, h := Perform(c, ops[k], handle, fs[k]);
      if !ok {
        return;
      }
      handle := h;
      OneMore(fs, ops, replies, reply);
      replies := replies + [reply];
    }
  }
}
