/** Which blocks a call of bmap passes to log_write, and how many at most a chunk of
    consecutive file blocks needs. */
module TreeLog {
  import opened Blocks
  import opened Bitmap
  import opened Tree

  /** Blocks of the file below byte n are all mapped. */
  ghost predicate Mapped(f: Forest, ip: nat, n: nat)
    requires Shaped(f) && ip < |f.addrs|
  {
    forall bn: nat {:trigger PathOf(ip, bn)} :: bn < MAXFILE && bn * BSIZE < n ==>
      Tree.Valid(|f.addrs|, PathOf(ip, bn)) && Ptr(f, PathOf(ip, bn)) != 0
  }

  /** Positions that point to a block keep pointing to it. */
  ghost predicate KeepsPtrs(f: Forest, f': Forest)
    requires Shaped(f) && Shaped(f')
  {
    && |f'.addrs| == |f.addrs|
    && forall s {:trigger Ptr(f', s)} :: Tree.Valid(|f.addrs|, s) && Ptr(f, s) != 0 ==> Ptr(f', s) == Ptr(f, s)
  }

  lemma {:induction false} KeepsPtrsTrans(f: Forest, g: Forest, h: Forest)
    requires Shaped(f) && Shaped(g) && Shaped(h) && KeepsPtrs(f, g) && KeepsPtrs(g, h)
    ensures KeepsPtrs(f, h)
  {
    forall s | Tree.Valid(|f.addrs|, s) && Ptr(f, s) != 0 ensures Ptr(h, s) == Ptr(f, s) {
      assert Ptr(g, s) == Ptr(f, s);
    }
  }

  /** Everything that hanging a fresh block at p preserves. */
  lemma {:induction false} AttachAll(f: Forest, g: Forest, h: Forest, lo: nat, t: Path, p: Path, nb: Word32)
    requires Shaped(f) && WF(g, lo) && Grown(f, g, t)
    requires Tree.Valid(|f.addrs|, p) && OnPath(p, t) && Ptr(f, p) == 0 && Attached(g, h, lo, p, nb)
    ensures WF(h, lo) && Grown(f, h, t) && KeepsPtrs(g, h) && Ptr(h, p) == nb
  {
    GrownAttach(f, g, h, lo, t, p, nb);
    forall s | Tree.Valid(|g.addrs|, s) && Ptr(g, s) != 0 ensures Ptr(h, s) == Ptr(g, s) {
      AttachedPtr(g, h, lo, p, nb, s);
    }
    AttachedPtr(g, h, lo, p, nb, p);
  }

  /** Blocks that differ have been logged, and what was logged lies at low or above. */
  ghost predicate Journaled(low: nat, d0: seq<Block>, d1: seq<Block>, l0: set<nat>, l1: set<nat>) {
    && |d1| == |d0| && l0 <= l1
    && (forall b {:trigger d1[b]} :: 0 <= b < |d0| && d1[b] != d0[b] ==> b in l1 && low <= b)
    && (forall b :: b in l1 && b !in l0 ==> low <= b < |d0|)
  }

  lemma {:induction false} JournaledLower(low: nat, low': nat, d0: seq<Block>, d1: seq<Block>, l0: set<nat>,
      l1: set<nat>)
    requires Journaled(low, d0, d1, l0, l1) && low' <= low
    ensures Journaled(low', d0, d1, l0, l1)
  {
  }

  lemma {:induction false} JournaledTrans(low: nat, d0: seq<Block>, d1: seq<Block>, d2: seq<Block>, l0: set<nat>,
      l1: set<nat>, l2: set<nat>)
    requires Journaled(low, d0, d1, l0, l1) && Journaled(low, d1, d2, l1, l2)
    ensures Journaled(low, d0, d2, l0, l2)
  {
    forall b | 0 <= b < |d0| && d2[b] != d0[b] ensures b in l2 && low <= b {
      assert d2[b] != d1[b] || d1[b] != d0[b];
    }
    forall b | b in l2 && b !in l0 ensures low <= b < |d0| {
      assert b in l1 || b !in l1;
    }
  }

  /** Only inode ip's slots may differ. */
  predicate OthersSame(a0: seq<seq<Word32>>, a1: seq<seq<Word32>>, ip: nat) {
    |a1| == |a0| && forall jp :: 0 <= jp < |a0| && jp != ip ==> a1[jp] == a0[jp]
  }

  /** Writing below the data area changes no pointer ... */
  lemma {:induction false} LowPtr(f: Forest, f': Forest, lo: nat, s: Path)
    requires WF(f, lo) && Tree.Valid(|f.addrs|, s) && f'.addrs == f.addrs && |f'.disk| == |f.disk|
    requires forall b {:trigger f'.disk[b]} :: lo <= b < |f.disk| ==> f'.disk[b] == f.disk[b]
    ensures Shaped(f') && Ptr(f', s) == Ptr(f, s)
  {
    if s.Entry? {
      LowPtr(f, f', lo, s.node);
      assert Ptr(f, s.node) == 0 || lo <= Ptr(f, s.node) < |f.disk|;
    }
  }

  /** ... and no byte of any file. */
  lemma {:induction false} LowWrite(f: Forest, f': Forest, lo: nat)
    requires WF(f, lo) && f'.addrs == f.addrs && |f'.disk| == |f.disk| && f'.used == f.used
    requires forall b {:trigger f'.disk[b]} :: lo <= b < |f.disk| ==> f'.disk[b] == f.disk[b]
    ensures WF(f', lo) && KeepsPtrs(f, f') && SameBytes(f, f')
  {
    forall s | Tree.Valid(|f.addrs|, s) ensures Shaped(f') && Ptr(f', s) == Ptr(f, s) {
      LowPtr(f, f', lo, s);
    }
    forall s, t | Tree.Valid(|f.addrs|, s) && Tree.Valid(|f.addrs|, t) ensures Apart(f', s, t) {
      assert Apart(f, s, t);
    }
    forall ip: nat, i: nat | ip < |f.addrs| && i / BSIZE < MAXFILE ensures ByteAt(f', ip, i) == ByteAt(f, ip, i) {
      PathOfIsLeaf(|f.addrs|, ip, i / BSIZE);
      LowPtr(f, f', lo, PathOf(ip, i / BSIZE));
    }
  }

  predicate InBitmap(sb: Super, b: nat) {
    sb.bmapstart <= b < sb.datastart
  }

  /** The bitmap blocks that hold the bits of s. */
  ghost function MapBlocks(sb: Super, s: set<nat>): (m: set<nat>) {
    set b | b in s :: sb.bmapstart + b / BPB
  }

  lemma {:induction false} MapBlocksUnion(sb: Super, a: set<nat>, b: set<nat>)
    ensures MapBlocks(sb, a + b) == MapBlocks(sb, a) + MapBlocks(sb, b)
  {
  }

  /** Freeing the blocks s journals the change of their bitmap blocks, and nothing else. */
  ghost predicate Cleared(sb: Super, d0: seq<Block>, d1: seq<Block>, l0: set<nat>, l1: set<nat>, s: set<nat>) {
    Journaled(sb.bmapstart, d0, d1, l0, l1) && l1 == l0 + MapBlocks(sb, s)
  }

  lemma {:induction false} ClearedNone(sb: Super, d: seq<Block>, l: set<nat>)
    ensures Cleared(sb, d, d, l, l, {})
  {
  }

  lemma {:induction false} ClearedMore(sb: Super, d0: seq<Block>, d1: seq<Block>, d2: seq<Block>,
      l0: set<nat>, l1: set<nat>, l2: set<nat>, a: set<nat>, b: set<nat>)
    requires Cleared(sb, d0, d1, l0, l1, a) && Cleared(sb, d1, d2, l1, l2, b)
    ensures Cleared(sb, d0, d2, l0, l2, a + b)
  {
    JournaledTrans(sb.bmapstart, d0, d1, d2, l0, l1, l2);
    MapBlocksUnion(sb, a, b);
  }

  /** The block that s points to changes when bmap goes down to t: it is the missing
      block at t, or the index block of a missing position. */
  ghost predicate Dirty(f: Forest, s: Path, t: Path)
    requires Shaped(f)
  {
    && Tree.Valid(|f.addrs|, s)
    && ((s == t && Ptr(f, t) == 0)
        || exists i: nat {:trigger Entry(s, i)} ::
             Tree.Valid(|f.addrs|, Entry(s, i)) && OnPath(Entry(s, i), t) && Ptr(f, Entry(s, i)) == 0)
  }

  /** Block b is one that the way from f to h along t had to change. */
  ghost predicate Accounted(f: Forest, h: Forest, t: Path, b: nat)
    requires Shaped(f) && Shaped(h) && |h.addrs| == |f.addrs|
  {
    exists s {:trigger Dirty(f, s, t)} :: Dirty(f, s, t) && Ptr(h, s) == b
  }

  /** The blocks logged since before are bitmap blocks or accounted for by the path. */
  ghost predicate LogsPath(sb: Super, f: Forest, h: Forest, t: Path, before: set<nat>, after: set<nat>)
    requires Shaped(f) && Shaped(h) && |h.addrs| == |f.addrs|
  {
    forall b :: b in after && b !in before ==> InBitmap(sb, b) || (b != 0 && Accounted(f, h, t, b))
  }

  lemma {:induction false} MissingIsDirty(f: Forest, p: Path, t: Path)
    requires Shaped(f) && Tree.Valid(|f.addrs|, p) && Tree.Valid(|f.addrs|, t) && OnPath(p, t) && Ptr(f, p) == 0
    ensures Dirty(f, p, t)
    ensures p.Entry? ==> Dirty(f, p.node, t)
  {
    if p != t {
      var c := Below(p, t);
      BelowPath(|f.addrs|, p, t);
      assert c == Entry(p, c.i);
    }
    if p.Entry? {
      assert p == Entry(p.node, p.i);
    }
  }

  /** The position after p on the way down to t. */
  function Below(p: Path, t: Path): (c: Path)
    requires OnPath(p, t) && p != t
    ensures c.Entry? && c.node == p && OnPath(c, t)
  {
    if t.node == p then t else Below(p, t.node)
  }

  lemma {:induction false} BelowPath(n: nat, p: Path, t: Path)
    requires OnPath(p, t) && p != t && Tree.Valid(n, t)
    ensures Tree.Valid(n, Below(p, t))
    decreases t
  {
    if t.node != p {
      BelowPath(n, p, t.node);
    }
  }

  /** Hanging nb at p logs a bitmap block, nb and, for an entry, its index block. */
  lemma {:induction false} LogsMore(sb: Super, f: Forest, g: Forest, h: Forest, t: Path, p: Path, nb: Word32,
      l0: set<nat>, l1: set<nat>, l2: set<nat>, bm: nat)
    requires Shaped(f) && Shaped(g) && Shaped(h) && |g.addrs| == |f.addrs| && KeepsPtrs(g, h)
    requires Tree.Valid(|f.addrs|, p) && Tree.Valid(|f.addrs|, t) && OnPath(p, t) && Ptr(f, p) == 0
      && Ptr(h, p) == nb != 0
    requires LogsPath(sb, f, g, t, l0, l1) && InBitmap(sb, bm)
    requires if p.Entry? then Ptr(g, p.node) != 0 && l2 == l1 + {bm, nb as nat, Ptr(g, p.node) as nat}
      else l2 == l1 + {bm, nb as nat}
    ensures LogsPath(sb, f, h, t, l0, l2)
  {
    MissingIsDirty(f, p, t);
    forall b | b in l2 && b !in l0
      ensures InBitmap(sb, b) || (b != 0 && Accounted(f, h, t, b))
    {
      if b in l1 && !InBitmap(sb, b) {
        var s :| Dirty(f, s, t) && Ptr(g, s) == b;
        assert Ptr(h, s) == b;
      } else if b == nb as nat {
        assert Dirty(f, p, t) && Ptr(h, p) == b;
      } else if p.Entry? && b == Ptr(g, p.node) as nat {
        assert Dirty(f, p.node, t) && Ptr(h, p.node) == b;
      }
    }
  }
}
