/** A chunk of at most four consecutive file blocks: the blocks it logs are pointed to by
    at most eight positions, wherever it crosses from one index block to the next. */
module ChunkLog {
  import opened Blocks
  import opened Bitmap
  import opened Tree
  import opened TreeLog

  function Up(p: Path): (q: Path) {
    if p.Entry? then p.node else p
  }

  /** Neighbouring file blocks below one index block are neighbouring entries. */
  lemma {:induction false} NextLeaf(ip: nat, bn: nat)
    requires bn + 1 < MAXFILE && PathOf(ip, bn).Entry? && PathOf(ip, bn).i + 1 < NINDIRECT
    ensures PathOf(ip, bn + 1) == Entry(PathOf(ip, bn).node, PathOf(ip, bn).i + 1)
  {
    var b1 := bn - NDIRECT;
    var b2 := b1 - NINDIRECT;
    var b3 := b2 - NINDIRECT * NINDIRECT;
    if b1 >= NINDIRECT {
      if b2 < 16384 {
        assert b2 % 128 + 1 < 128;
        NextDigit(b2);
      } else {
        assert b3 % 16384 % 128 + 1 < 128;
        NextDigits(b3);
      }
    }
  }

  lemma {:induction false} NextDigit(b: nat)
    requires b % 128 + 1 < 128
    ensures (b + 1) / 128 == b / 128 && (b + 1) % 128 == b % 128 + 1
  {
  }

  lemma {:induction false} NextDigits(b: nat)
    requires b % 16384 % 128 + 1 < 128
    ensures (b + 1) / 16384 == b / 16384 && (b + 1) % 16384 == b % 16384 + 1
    ensures (b + 1) % 16384 / 128 == b % 16384 / 128 && (b + 1) % 16384 % 128 == b % 16384 % 128 + 1
  {
    var r := b % 16384;
    assert r % 128 + 1 < 128 && r < 16384;
    assert r + 1 < 16384;
    NextDigit(r);
    assert b == b / 16384 * 16384 + r;
  }

  /** Every file block past the direct ones lies below an index block. */
  lemma {:induction false} LeafShape(ip: nat, bn: nat)
    requires bn < MAXFILE
    ensures PathOf(ip, bn).Entry? <==> bn >= NDIRECT
    ensures PathOf(ip, bn).Entry? ==> PathOf(ip, bn).i < NINDIRECT
  {
  }

  lemma {:induction false} LaterLeaf(ip: nat, bn: nat, k: nat)
    requires bn + k < MAXFILE && PathOf(ip, bn).Entry? && PathOf(ip, bn).i + k < NINDIRECT
    ensures PathOf(ip, bn + k) == Entry(PathOf(ip, bn).node, PathOf(ip, bn).i + k)
  {
    if k > 0 {
      LaterLeaf(ip, bn, k - 1);
      NextLeaf(ip, bn + k - 1);
    }
  }

  /** The entry before, if this is not the first one of its index block. */
  lemma {:induction false} EarlierLeaf(ip: nat, bn: nat, k: nat)
    requires k <= bn < MAXFILE && PathOf(ip, bn).Entry? && k <= PathOf(ip, bn).i
    ensures PathOf(ip, bn - k) == Entry(PathOf(ip, bn).node, PathOf(ip, bn).i - k)
  {
    if k > 0 {
      EarlierLeaf(ip, bn, k - 1);
      PrevLeaf(ip, bn - k + 1);
    }
  }

  lemma {:induction false} PrevLeaf(ip: nat, bn: nat)
    requires 0 < bn < MAXFILE && PathOf(ip, bn).Entry? && 0 < PathOf(ip, bn).i
    ensures PathOf(ip, bn - 1) == Entry(PathOf(ip, bn).node, PathOf(ip, bn).i - 1)
  {
    LeafShape(ip, bn);
    LeafShape(ip, bn - 1);
    var p := PathOf(ip, bn - 1);
    if bn - 1 >= NDIRECT {
      if p.i + 1 < NINDIRECT {
        NextLeaf(ip, bn - 1);
      } else {
        LastThenFirst(ip, bn - 1);
      }
    }
  }

  /** After the last entry of an index block comes the first of another. */
  lemma {:induction false} LastThenFirst(ip: nat, bn: nat)
    requires bn + 1 < MAXFILE && PathOf(ip, bn).Entry? && PathOf(ip, bn).i == NINDIRECT - 1
    ensures PathOf(ip, bn + 1).Entry? && PathOf(ip, bn + 1).i == 0
  {
    var b1 := bn - NDIRECT;
    var b2 := b1 - NINDIRECT;
    var b3 := b2 - NINDIRECT * NINDIRECT;
    if b1 >= NINDIRECT {
      if b2 < 16384 {
        assert b2 % 128 == 127;
        assert (b2 + 1) % 128 == 0;
      } else {
        assert b3 % 16384 % 128 == 127;
        assert b3 % 128 == 127 by { DigitOf(b3); }
        assert (b3 + 1) % 128 == 0;
        DigitOf(b3 + 1);
      }
    }
  }

  lemma {:induction false} DigitOf(b: nat)
    ensures b % 16384 % 128 == b % 128
  {
    assert b == b / 16384 * 128 * 128 + b % 16384;
  }

  // ---- The window ----

  /** In a window of four blocks every index block just above a leaf is that of the first
      block or that of the last. */
  lemma {:induction false} UpInWindow(ip: nat, b0: nat, b1: nat, bn: nat)
    requires b0 <= bn <= b1 <= b0 + 3 && b1 < MAXFILE && PathOf(ip, bn).Entry?
    ensures Up(PathOf(ip, bn)) == Up(PathOf(ip, b0)) || Up(PathOf(ip, bn)) == Up(PathOf(ip, b1))
  {
    LeafShape(ip, bn);
    if bn - b0 <= PathOf(ip, bn).i {
      EarlierLeaf(ip, bn, bn - b0);
    } else {
      LaterLeaf(ip, bn, b1 - bn);
    }
  }

  predicate StartsIndex(ip: nat, bn: nat)
    requires bn < MAXFILE
  {
    PathOf(ip, bn).Entry? && PathOf(ip, bn).i == 0
  }

  /** The block of the window at which a new index block begins, if there is one. */
  function Start(ip: nat, b0: nat, b1: nat): (x: nat)
    requires b0 <= b1 < MAXFILE
    ensures b0 <= x <= b1
    decreases b1 - b0
  {
    if b0 == b1 || StartsIndex(ip, b0) then b0 else Start(ip, b0 + 1, b1)
  }

  lemma {:induction false} StartUnique(ip: nat, b0: nat, b1: nat, bn: nat)
    requires b0 <= bn <= b1 <= b0 + 3 && b1 < MAXFILE && StartsIndex(ip, bn)
    ensures Start(ip, b0, b1) == bn
    decreases b1 - b0
  {
    if b0 < bn && StartsIndex(ip, b0) {
      LaterLeaf(ip, b0, bn - b0);
    }
    if b0 < bn {
      StartUnique(ip, b0 + 1, b1, bn);
    }
  }

  function Clip(x: nat, hi: nat): nat {
    if x < hi then x else hi
  }

  /** The eight candidate positions: the leaves of the window, the index blocks above its
      ends, and the two levels above a new index block. */
  function Candidates(ip: nat, b0: nat, b1: nat): (c: seq<Path>)
    requires b0 <= b1 < MAXFILE
    ensures |c| == 8
  {
    var x := PathOf(ip, Start(ip, b0, b1));
    [PathOf(ip, b0), PathOf(ip, Clip(b0 + 1, b1)), PathOf(ip, Clip(b0 + 2, b1)), PathOf(ip, b1),
     Up(PathOf(ip, b0)), Up(PathOf(ip, b1)), Up(Up(x)), Up(Up(Up(x)))]
  }

  ghost function At(h: Forest, p: Path): (b: nat)
    requires Shaped(h)
  {
    if Tree.Valid(|h.addrs|, p) then Ptr(h, p) as nat else 0
  }

  ghost function Pointed(h: Forest, c: seq<Path>): (s: set<nat>)
    requires Shaped(h)
  {
    set i | 0 <= i < |c| :: At(h, c[i])
  }

  lemma {:induction false} PointedSize(h: Forest, c: seq<Path>)
    requires Shaped(h)
    ensures |Pointed(h, c)| <= |c|
  {
    if c != [] {
      var n := |c| - 1;
      PointedSize(h, c[..n]);
      assert Pointed(h, c) == Pointed(h, c[..n]) + {At(h, c[n])};
    }
  }

  /** When all earlier blocks of the file are mapped, a missing index block just above leaf
      bn can only be one that begins there. */
  lemma {:induction false} MissingIndexStarts(g: Forest, ip: nat, bn: nat)
    requires Shaped(g) && ip < |g.addrs| && bn < MAXFILE && Mapped(g, ip, bn * BSIZE)
    requires PathOf(ip, bn).Entry? && Tree.Valid(|g.addrs|, PathOf(ip, bn).node) && Ptr(g, PathOf(ip, bn).node) == 0
    ensures StartsIndex(ip, bn)
  {
    if PathOf(ip, bn).i > 0 {
      LeafShape(ip, bn);
      EarlierLeaf(ip, bn, 1);
    }
  }

  /** A dirty position is the leaf, the index block above it, or lies higher up and a
      missing index block is between. */
  lemma {:induction false} DirtyCases(g: Forest, s: Path, t: Path)
    requires Shaped(g) && Tree.Valid(|g.addrs|, t) && Dirty(g, s, t) && s != t
    ensures t.Entry? && Tree.Valid(|g.addrs|, t.node)
    ensures s == t.node || (Ptr(g, t.node) == 0 && OnPath(s, t.node))
  {
    var i: nat :| Tree.Valid(|g.addrs|, Entry(s, i)) && OnPath(Entry(s, i), t) && Ptr(g, Entry(s, i)) == 0;
    if Entry(s, i) != t {
      MissingBelow(g, Entry(s, i), t.node);
      ParentOnPath(s, i, t.node);
    }
  }

  lemma {:induction false} MissingBelow(g: Forest, p: Path, t: Path)
    requires Shaped(g) && Tree.Valid(|g.addrs|, p) && Tree.Valid(|g.addrs|, t) && OnPath(p, t) && Ptr(g, p) == 0
    ensures Ptr(g, t) == 0
    decreases t
  {
    if p != t {
      MissingBelow(g, p, t.node);
    }
  }

  /** At most three index blocks lie above a leaf. */
  lemma {:induction false} AboveLeaf(ip: nat, bn: nat, s: Path)
    requires bn < MAXFILE && PathOf(ip, bn).Entry? && OnPath(s, PathOf(ip, bn).node)
    ensures var t := PathOf(ip, bn); s == Up(t) || s == Up(Up(t)) || s == Up(Up(Up(t)))
  {
    var q := PathOf(ip, bn).node;
    if s != q {
      assert OnPath(s, q.node);
      if s != q.node {
        assert OnPath(s, q.node.node);
      }
    }
  }

  /** Every block that bmap logs for block bn of the window is one of the candidates. */
  lemma {:induction false} DirtyIsCandidate(g: Forest, ip: nat, b0: nat, b1: nat, bn: nat, s: Path)
    requires Shaped(g) && ip < |g.addrs| && b0 <= bn <= b1 <= b0 + 3 && b1 < MAXFILE
    requires Mapped(g, ip, bn * BSIZE) && Dirty(g, s, PathOf(ip, bn))
    ensures s in Candidates(ip, b0, b1)
  {
    var c, t := Candidates(ip, b0, b1), PathOf(ip, bn);
    PathOfIsLeaf(|g.addrs|, ip, bn);
    LeafIsCandidate(ip, b0, b1, bn);
    if s != t {
      DirtyCases(g, s, t);
      UpInWindow(ip, b0, b1, bn);
      UpIsCandidate(ip, b0, b1);
      if s != t.node {
        MissingIndexStarts(g, ip, bn);
        StartUnique(ip, b0, b1, bn);
        AboveLeaf(ip, bn, s);
      }
    }
  }

  lemma {:induction false} LeafIsCandidate(ip: nat, b0: nat, b1: nat, bn: nat)
    requires b0 <= bn <= b1 <= b0 + 3 && b1 < MAXFILE
    ensures PathOf(ip, bn) in Candidates(ip, b0, b1)
  {
    var c := Candidates(ip, b0, b1);
    assert PathOf(ip, bn) == if bn == b1 then c[3] else if bn == b0 then c[0] else if bn == b0 + 1 then c[1] else c[2];
  }

  lemma {:induction false} UpIsCandidate(ip: nat, b0: nat, b1: nat)
    requires b0 <= b1 < MAXFILE
    ensures var c, x := Candidates(ip, b0, b1), PathOf(ip, Start(ip, b0, b1));
      Up(PathOf(ip, b0)) in c && Up(PathOf(ip, b1)) in c && Up(Up(x)) in c && Up(Up(Up(x))) in c
  {
    var c := Candidates(ip, b0, b1);
    assert c[4] in c && c[5] in c && c[6] in c && c[7] in c;
  }

  // ---- What a chunk logs ----

  /** The blocks logged since l0 are bitmap blocks or pointed to by the positions c. */
  ghost predicate LogsIn(sb: Super, h: Forest, c: seq<Path>, l0: set<nat>, l1: set<nat>)
    requires Shaped(h)
  {
    forall b {:trigger LogIn(sb, h, c, b)} :: b in l1 && b !in l0 ==> LogIn(sb, h, c, b)
  }

  ghost predicate LogIn(sb: Super, h: Forest, c: seq<Path>, b: nat)
    requires Shaped(h)
  {
    InBitmap(sb, b) || (b != 0 && b in Pointed(h, c))
  }

  /** The same for one block: bmap's blocks and the data block itself. */
  ghost predicate LogsBlock(sb: Super, g: Forest, h: Forest, t: Path, l1: set<nat>, l2: set<nat>)
    requires Shaped(g) && Shaped(h) && |h.addrs| == |g.addrs| && Tree.Valid(|h.addrs|, t)
  {
    forall b :: b in l2 && b !in l1 ==> InBitmap(sb, b) || (b != 0 && (b == Ptr(h, t) as nat || Accounted(g, h, t, b)))
  }

  lemma {:induction false} LogsStore(sb: Super, f: Forest, g: Forest, h: Forest, t: Path, l0: set<nat>, l1: set<nat>,
      l2: set<nat>)
    requires Shaped(f) && Shaped(g) && Shaped(h) && |g.addrs| == |f.addrs| && KeepsPtrs(g, h)
    requires Tree.Valid(|f.addrs|, t) && Ptr(g, t) != 0 && LogsPath(sb, f, g, t, l0, l1)
      && l2 == l1 + {Ptr(g, t) as nat}
    ensures LogsBlock(sb, f, h, t, l0, l2)
  {
    forall b | b in l2 && b !in l0
      ensures InBitmap(sb, b) || (b != 0 && (b == Ptr(h, t) as nat || Accounted(f, h, t, b)))
    {
      if b in l1 && !InBitmap(sb, b) {
        var s :| Dirty(f, s, t) && Ptr(g, s) == b;
        assert Ptr(h, s) == b;
      } else if b !in l1 {
        assert b == Ptr(h, t) as nat;
      }
    }
  }

  lemma {:induction false} PointedKept(g: Forest, h: Forest, c: seq<Path>, b: nat)
    requires Shaped(g) && Shaped(h) && KeepsPtrs(g, h) && b != 0 && b in Pointed(g, c)
    ensures b in Pointed(h, c)
  {
    var i :| 0 <= i < |c| && At(g, c[i]) == b;
    assert Ptr(h, c[i]) == Ptr(g, c[i]);
    assert At(h, c[i]) == b;
  }

  lemma {:induction false} PointedBy(h: Forest, c: seq<Path>, s: Path)
    requires Shaped(h) && Tree.Valid(|h.addrs|, s) && s in c
    ensures Ptr(h, s) as nat in Pointed(h, c)
  {
    var i :| 0 <= i < |c| && c[i] == s;
    assert At(h, c[i]) == Ptr(h, s) as nat;
  }

  lemma {:induction false} LogsStep(sb: Super, g: Forest, h: Forest, ip: nat, b0: nat, b1: nat, bn: nat,
      l0: set<nat>, l1: set<nat>, l2: set<nat>)
    requires Shaped(g) && Shaped(h) && ip < |g.addrs| && KeepsPtrs(g, h)
    requires b0 <= bn <= b1 <= b0 + 3 && b1 < MAXFILE && Mapped(g, ip, bn * BSIZE)
    requires Tree.Valid(|h.addrs|, PathOf(ip, bn))
    requires LogsIn(sb, g, Candidates(ip, b0, b1), l0, l1) && LogsBlock(sb, g, h, PathOf(ip, bn), l1, l2)
    ensures LogsIn(sb, h, Candidates(ip, b0, b1), l0, l2)
  {
    var c, t := Candidates(ip, b0, b1), PathOf(ip, bn);
    forall b | b in l2 && b !in l0
      ensures LogIn(sb, h, c, b)
    {
      if !InBitmap(sb, b) {
        if b in l1 {
          assert LogIn(sb, g, c, b);
          PointedKept(g, h, c, b);
        } else if b == Ptr(h, t) as nat {
          LeafIsCandidate(ip, b0, b1, bn);
          PointedBy(h, c, t);
        } else {
          var s :| Dirty(g, s, t) && Ptr(h, s) == b;
          DirtyIsCandidate(g, ip, b0, b1, bn, s);
          PointedBy(h, c, s);
        }
      }
    }
  }

  ghost function NonBitmap(sb: Super, l: set<nat>): (s: set<nat>) {
    set b | b in l && !InBitmap(sb, b)
  }

  /** A chunk and the inode block: at most nine blocks besides the bitmap. */
  lemma {:induction false} AtMostNine(sb: Super, h: Forest, ip: nat, b0: nat, b1: nat, l0: set<nat>, l1: set<nat>,
      inode: nat)
    requires Shaped(h) && b0 <= b1 < MAXFILE && LogsIn(sb, h, Candidates(ip, b0, b1), l0, l1)
    ensures |NonBitmap(sb, l1 + {inode} - l0)| <= 9 && |NonBitmap(sb, l1 - l0)| <= 8
  {
    var c := Candidates(ip, b0, b1);
    PointedSize(h, c);
    forall b | b in l1 && b !in l0 && !InBitmap(sb, b) ensures b in Pointed(h, c) {
      assert LogIn(sb, h, c, b);
    }
    assert NonBitmap(sb, l1 - l0) <= Pointed(h, c);
    SubsetSize(NonBitmap(sb, l1 - l0), Pointed(h, c));
    assert NonBitmap(sb, l1 + {inode} - l0) <= Pointed(h, c) + {inode};
    SubsetSize(NonBitmap(sb, l1 + {inode} - l0), Pointed(h, c) + {inode});
  }

  /** What is logged besides those lies in the bitmap. */
  lemma {:induction false} WithBitmap(sb: Super, l: set<nat>)
    requires sb.bmapstart <= sb.datastart
    ensures |l| <= |NonBitmap(sb, l)| + sb.datastart - sb.bmapstart
  {
    var maps := Interval(sb.bmapstart, sb.datastart - sb.bmapstart);
    assert l <= NonBitmap(sb, l) + maps;
    SubsetSize(l, NonBitmap(sb, l) + maps);
  }
}
