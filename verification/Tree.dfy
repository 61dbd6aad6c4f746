/** The block trees of all inodes at once: ten direct slots and one single, double
    and triple indirect slot each, index blocks on disk below them. */
module Tree {
  import opened Blocks

  const NDIRECT: nat := 10
  const NSLOTS: nat := 13
  const MAXFILE: nat := 2113674   // 10 + 128 + 128 * 128 + 128 * 128 * 128

  /** A pointer position: a slot of an inode, or an entry of the index block that
      another position points to. */
  datatype Path = Slot(ip: nat, r: nat) | Entry(node: Path, i: nat)

  /** addrs[ip] are the slots of inode ip, used the blocks marked in the bitmap. */
  datatype Forest = Forest(addrs: seq<seq<Word32>>, disk: Disk, used: set<nat>)

  /** Levels of index blocks below a position; 0 means it points to file data. */
  function Height(p: Path): int {
    match p
    case Slot(_, r) => if r < NDIRECT then 0 else r - NDIRECT + 1
    case Entry(q, _) => Height(q) - 1
  }

  predicate Valid(n: nat, p: Path) {
    match p
    case Slot(ip, r) => ip < n && r < NSLOTS
    case Entry(q, i) => Valid(n, q) && Height(q) > 0 && i < NINDIRECT
  }

  function Owner(p: Path): nat {
    match p
    case Slot(ip, _) => ip
    case Entry(q, _) => Owner(q)
  }

  predicate Shaped(f: Forest) {
    forall ip :: 0 <= ip < |f.addrs| ==> |f.addrs[ip]| == NSLOTS
  }

  function SetSlot(addrs: seq<seq<Word32>>, ip: nat, r: nat, a: Word32): seq<seq<Word32>>
    requires ip < |addrs| && r < |addrs[ip]|
  {
    var slots: seq<Word32> := addrs[ip][r := a];
    addrs[ip := slots]
  }

  /** The block number stored at a position; 0 if there is none. */
  function Ptr(f: Forest, p: Path): (a: Word32)
    requires Shaped(f) && Valid(|f.addrs|, p)
  {
    match p
    case Slot(ip, r) => f.addrs[ip][r]
    case Entry(q, i) =>
      var a := Ptr(f, q);
      if a == 0 || a >= |f.disk| then 0 else Word(f.disk[a], i)
  }

  /** Well-formed: pointers lie in the data area, are marked in the bitmap, and no
      block is pointed to twice by any positions of any inodes. */
  ghost predicate WF(f: Forest, lo: nat) {
    && Shaped(f) && 0 < lo
    && (forall p {:trigger Ptr(f, p)} :: Valid(|f.addrs|, p) && Ptr(f, p) != 0 ==>
          lo <= Ptr(f, p) < |f.disk| && Ptr(f, p) in f.used)
    && (forall p, q {:trigger Apart(f, p, q)} :: Valid(|f.addrs|, p) && Valid(|f.addrs|, q) ==> Apart(f, p, q))
  }

  predicate Apart(f: Forest, p: Path, q: Path)
    requires Shaped(f) && Valid(|f.addrs|, p) && Valid(|f.addrs|, q)
  {
    Ptr(f, p) != 0 && Ptr(f, p) == Ptr(f, q) ==> p == q
  }

  // ---- File block numbers ----

  /** The position that bmap reaches for file block bn. */
  function PathOf(ip: nat, bn: nat): (p: Path)
    requires bn < MAXFILE
  {
    if bn < NDIRECT then Slot(ip, bn)
    else
      var b1 := bn - NDIRECT;
      if b1 < NINDIRECT then Entry(Slot(ip, NDIRECT), b1)
      else
        var b2 := b1 - NINDIRECT;
        if b2 < NINDIRECT * NINDIRECT then
          Entry(Entry(Slot(ip, NDIRECT + 1), b2 / NINDIRECT), b2 % NINDIRECT)
        else
          var b3 := b2 - NINDIRECT * NINDIRECT;
          Entry(Entry(Entry(Slot(ip, NDIRECT + 2), b3 / (NINDIRECT * NINDIRECT)),
                      b3 % (NINDIRECT * NINDIRECT) / NINDIRECT),
                b3 % (NINDIRECT * NINDIRECT) % NINDIRECT)
  }

  /** Number of a data position among those below its slot. */
  function Rank(p: Path): int {
    match p
    case Slot(_, _) => 0
    case Entry(q, i) => Rank(q) * NINDIRECT + i
  }

  function Base(r: nat): nat {
    if r <= NDIRECT then r
    else if r == NDIRECT + 1 then NDIRECT + NINDIRECT
    else NDIRECT + NINDIRECT + NINDIRECT * NINDIRECT
  }

  function SlotOf(p: Path): nat {
    match p
    case Slot(_, r) => r
    case Entry(q, _) => SlotOf(q)
  }

  /** The file block that a data position holds. */
  function BlockOf(p: Path): int {
    Base(SlotOf(p)) + Rank(p)
  }

  /** What each function says of an entry, in terms of its index block. */
  lemma {:induction false} EntryFacts(n: nat, q: Path, i: nat)
    ensures Valid(n, Entry(q, i)) <==> Valid(n, q) && Height(q) > 0 && i < NINDIRECT
    ensures Height(Entry(q, i)) == Height(q) - 1 && Owner(Entry(q, i)) == Owner(q)
    ensures SlotOf(Entry(q, i)) == SlotOf(q) && Rank(Entry(q, i)) == Rank(q) * NINDIRECT + i
  {
  }

  lemma {:induction false} PathOfIsLeaf(n: nat, ip: nat, bn: nat)
    requires ip < n && bn < MAXFILE
    ensures Valid(n, PathOf(ip, bn)) && Height(PathOf(ip, bn)) == 0 && Owner(PathOf(ip, bn)) == ip
    ensures BlockOf(PathOf(ip, bn)) == bn
  {
    match PathOf(ip, bn)
    case Slot(_, _) =>
    case Entry(s, i) =>
      EntryFacts(n, s, i);
      if s.Entry? {
        EntryFacts(n, s.node, s.i);
        if s.node.Entry? {
          EntryFacts(n, s.node.node, s.node.i);
        }
      }
  }

  /** PathOf is one-to-one: distinct file blocks live at distinct positions. */
  lemma {:induction false} PathOfInjective(ip: nat, bn: nat, ip': nat, bn': nat)
    requires bn < MAXFILE && bn' < MAXFILE && PathOf(ip, bn) == PathOf(ip', bn')
    ensures ip == ip' && bn == bn'
  {
    PathOfIsLeaf(ip + 1, ip, bn);
    PathOfIsLeaf(ip' + 1, ip', bn');
  }

  /** ... and onto: every data position holds some file block. */
  lemma {:induction false} PathOfOnto(n: nat, p: Path)
    requires Valid(n, p) && Height(p) == 0
    ensures 0 <= BlockOf(p) < MAXFILE && PathOf(Owner(p), BlockOf(p)) == p
  {
    match p
    case Slot(ip, r) =>
    case Entry(q, k) =>
      EntryFacts(n, q, k);
      if q.Slot? {
        assert q.r == NDIRECT;
      } else {
        var j := q.i;
        EntryFacts(n, q.node, j);
        if q.node.Slot? {
          assert q.node.r == NDIRECT + 1;
          assert (j * 128 + k) / 128 == j && (j * 128 + k) % 128 == k;
        } else {
          var i := q.node.i;
          EntryFacts(n, q.node.node, i);
          HeightBound(n, q.node.node);
          TopOfThree(n, q.node.node);
          var b := (i * 128 + j) * 128 + k;
          assert b == i * 16384 + (j * 128 + k) && 0 <= j * 128 + k < 16384;
          assert b / 16384 == i && b % 16384 == j * 128 + k;
          assert (j * 128 + k) / 128 == j && (j * 128 + k) % 128 == k;
        }
      }
  }

  lemma {:induction false} TopOfThree(n: nat, p: Path)
    requires Valid(n, p) && Height(p) >= 3
    ensures p.Slot? && p.r == NDIRECT + 2
  {
    if p.Entry? {
      HeightBound(n, p.node);
    }
  }

  lemma {:induction false} HeightBound(n: nat, p: Path)
    requires Valid(n, p)
    ensures 0 <= Height(p) <= 3
  {
    match p
    case Slot(_, _) =>
    case Entry(q, _) => HeightBound(n, q);
  }

  // ---- Hanging a fresh block into the tree ----

  /** f' is f with a fresh zeroed block nb written at position p, which was empty.
      Nothing else in the data area changes. */
  ghost predicate Attached(f: Forest, f': Forest, lo: nat, p: Path, nb: Word32)
    requires Shaped(f) && Valid(|f.addrs|, p)
  {
    && Ptr(f, p) == 0
    && 0 < lo <= nb < |f.disk| && nb !in f.used && f'.used == f.used + {nb}
    && |f'.disk| == |f.disk| && f'.disk[nb] == Zeroed()
    && match p
       case Slot(ip, r) =>
         && f'.addrs == SetSlot(f.addrs, ip, r, nb)
         && (forall b {:trigger f'.disk[b]} :: lo <= b < |f.disk| && b != nb ==> f'.disk[b] == f.disk[b])
       case Entry(q, i) =>
         var a := Ptr(f, q);
         && f'.addrs == f.addrs
         && lo <= a < |f.disk| && f'.disk[a] == SetWord(f.disk[a], i, nb)
         && (forall b {:trigger f'.disk[b]} :: lo <= b < |f.disk| && b != nb && b != a ==> f'.disk[b] == f.disk[b])
  }

  /** Exactly one position changes. */
  lemma {:induction false} AttachedPtr(f: Forest, f': Forest, lo: nat, p: Path, nb: Word32, s: Path)
    requires WF(f, lo) && Valid(|f.addrs|, p) && Attached(f, f', lo, p, nb)
    requires Valid(|f.addrs|, s)
    ensures Shaped(f') && |f'.addrs| == |f.addrs|
    ensures Ptr(f', s) == if s == p then nb else Ptr(f, s)
    decreases s
  {
    match s
    case Slot(ip, r) =>
    case Entry(t, j) =>
      AttachedPtr(f, f', lo, p, nb, t);
      var a := Ptr(f, t);
      if t == p {
        WordOfZeroed(j);
      } else if a != 0 {
        assert a in f.used && a != nb;
        if p.Entry? && Ptr(f, p.node) == a {
          assert Apart(f, p.node, t);
          WordOfSetWord(f.disk[a], p.i, nb, j);
        }
      } else if p.Entry? {
        assert p.node != t;
      }
  }

  lemma {:induction false} AttachedWF(f: Forest, f': Forest, lo: nat, p: Path, nb: Word32)
    requires WF(f, lo) && Valid(|f.addrs|, p) && Attached(f, f', lo, p, nb)
    ensures WF(f', lo) && |f'.addrs| == |f.addrs|
  {
    forall s | Valid(|f.addrs|, s)
      ensures Shaped(f') && |f'.addrs| == |f.addrs| && Ptr(f', s) == if s == p then nb else Ptr(f, s)
    {
      AttachedPtr(f, f', lo, p, nb, s);
    }
    AttachedPtr(f, f', lo, p, nb, p);
    forall s, t | Valid(|f.addrs|, s) && Valid(|f.addrs|, t) ensures Apart(f', s, t) {
      assert Apart(f, s, t);
    }
  }

  // ---- File bytes ----

  /** Byte i of the file of inode ip; unmapped blocks count as zero. */
  ghost function ByteAt(f: Forest, ip: nat, i: nat): (x: Byte)
    requires Shaped(f) && ip < |f.addrs| && i / BSIZE < MAXFILE
  {
    PathOfIsLeaf(|f.addrs|, ip, i / BSIZE);
    var a := Ptr(f, PathOf(ip, i / BSIZE));
    if a == 0 || a >= |f.disk| then 0 else f.disk[a][i % BSIZE]
  }

  /** A fresh zeroed block changes no byte of any file. */
  lemma {:induction false} AttachedBytes(f: Forest, f': Forest, lo: nat, p: Path, nb: Word32, ip: nat, i: nat)
    requires WF(f, lo) && Valid(|f.addrs|, p) && Attached(f, f', lo, p, nb)
    requires ip < |f.addrs| && i / BSIZE < MAXFILE
    ensures Shaped(f') && |f'.addrs| == |f.addrs|
    ensures ByteAt(f', ip, i) == ByteAt(f, ip, i)
  {
    var s := PathOf(ip, i / BSIZE);
    PathOfIsLeaf(|f.addrs|, ip, i / BSIZE);
    AttachedPtr(f, f', lo, p, nb, s);
    var a := Ptr(f, s);
    if s != p && a != 0 {
      assert a in f.used && a != nb;
      assert p.Entry? ==> Apart(f, s, p.node);
    }
  }

  /** f' is f with the data block at leaf position p replaced. */
  ghost predicate Written(f: Forest, f': Forest, p: Path, data: Block)
    requires Shaped(f) && Valid(|f.addrs|, p)
  {
    && Height(p) == 0 && 0 < Ptr(f, p) < |f.disk|
    && f'.addrs == f.addrs && f'.used == f.used
    && f'.disk == f.disk[Ptr(f, p) := data]
  }

  /** File data never feeds back into the tree. */
  lemma {:induction false} WrittenPtr(f: Forest, f': Forest, lo: nat, p: Path, data: Block, s: Path)
    requires WF(f, lo) && Valid(|f.addrs|, p) && Written(f, f', p, data) && Valid(|f.addrs|, s)
    ensures Shaped(f') && Ptr(f', s) == Ptr(f, s)
  {
    match s
    case Slot(_, _) =>
    case Entry(t, j) =>
      WrittenPtr(f, f', lo, p, data, t);
      assert Apart(f, p, t);
  }

  lemma {:induction false} WrittenWF(f: Forest, f': Forest, lo: nat, p: Path, data: Block)
    requires WF(f, lo) && Valid(|f.addrs|, p) && Written(f, f', p, data)
    ensures WF(f', lo)
  {
    forall s | Valid(|f.addrs|, s) ensures Shaped(f') && Ptr(f', s) == Ptr(f, s) {
      WrittenPtr(f, f', lo, p, data, s);
    }
    forall s, t | Valid(|f.addrs|, s) && Valid(|f.addrs|, t) ensures Apart(f', s, t) {
      assert Apart(f, s, t);
    }
  }

  lemma {:induction false} WrittenBytes(f: Forest, f': Forest, lo: nat, p: Path, data: Block, ip: nat, i: nat)
    requires WF(f, lo) && Valid(|f.addrs|, p) && Written(f, f', p, data)
    requires ip < |f.addrs| && i / BSIZE < MAXFILE
    ensures Shaped(f')
    ensures ByteAt(f', ip, i) == if PathOf(ip, i / BSIZE) == p then data[i % BSIZE] else ByteAt(f, ip, i)
  {
    var s := PathOf(ip, i / BSIZE);
    PathOfIsLeaf(|f.addrs|, ip, i / BSIZE);
    WrittenPtr(f, f', lo, p, data, s);
    assert Apart(f, p, s);
  }

  // ---- Growth along one path, as bmap does it ----

  predicate OnPath(s: Path, t: Path) {
    s == t || (t.Entry? && OnPath(s, t.node))
  }

  lemma {:induction false} ParentOnPath(s: Path, i: nat, t: Path)
    requires OnPath(Entry(s, i), t)
    ensures OnPath(s, t)
    decreases t
  {
    if t != Entry(s, i) {
      ParentOnPath(s, i, t.node);
    }
  }

  ghost predicate GrownPtrs(f: Forest, f': Forest, t: Path)
    requires Shaped(f) && Shaped(f') && |f'.addrs| == |f.addrs|
  {
    forall s {:trigger Ptr(f', s)} :: Valid(|f.addrs|, s) ==>
      || Ptr(f', s) == Ptr(f, s)
      || (Ptr(f, s) == 0 && OnPath(s, t) && Ptr(f', s) !in f.used)
  }

  ghost predicate GrownUsed(f: Forest, f': Forest, t: Path)
    requires Shaped(f) && Shaped(f') && |f'.addrs| == |f.addrs|
  {
    && f.used <= f'.used
    && forall b :: b in f'.used && b !in f.used ==> b != 0 && NewOnPath(f, f', t, b)
  }

  ghost predicate NewOnPath(f: Forest, f': Forest, t: Path, b: nat)
    requires Shaped(f) && Shaped(f') && |f'.addrs| == |f.addrs|
  {
    exists s {:trigger Ptr(f', s)} :: Valid(|f.addrs|, s) && OnPath(s, t) && Ptr(f', s) == b && Ptr(f, s) == 0
  }

  ghost predicate SameBytes(f: Forest, f': Forest)
    requires Shaped(f) && Shaped(f') && |f'.addrs| == |f.addrs|
  {
    forall ip: nat, i: nat {:trigger ByteAt(f', ip, i)} :: ip < |f.addrs| && i / BSIZE < MAXFILE ==>
      ByteAt(f', ip, i) == ByteAt(f, ip, i)
  }

  /** f' differs from f only by fresh zeroed blocks hung at empty positions on the
      way to t; every other mapping and every file byte is as before. */
  ghost predicate Grown(f: Forest, f': Forest, t: Path)
    requires Shaped(f) && Shaped(f')
  {
    && |f'.addrs| == |f.addrs| && |f'.disk| == |f.disk|
    && GrownPtrs(f, f', t) && GrownUsed(f, f', t) && SameBytes(f, f')
  }

  lemma {:induction false} GrownAttachUsed(f: Forest, g: Forest, h: Forest, lo: nat, t: Path, p: Path, nb: Word32)
    requires Shaped(f) && WF(g, lo) && |g.addrs| == |f.addrs| && GrownUsed(f, g, t)
    requires Valid(|f.addrs|, p) && OnPath(p, t) && Ptr(f, p) == 0 && Attached(g, h, lo, p, nb)
    ensures Shaped(h) && |h.addrs| == |f.addrs| && GrownUsed(f, h, t)
  {
    AttachedPtr(g, h, lo, p, nb, p);
    forall b | b in h.used && b !in f.used ensures b != 0 && NewOnPath(f, h, t, b) {
      if b != nb {
        var s :| Valid(|f.addrs|, s) && OnPath(s, t) && Ptr(g, s) == b && Ptr(f, s) == 0;
        AttachedPtr(g, h, lo, p, nb, s);
      }
    }
  }

  lemma {:induction false} GrownAttach(f: Forest, g: Forest, h: Forest, lo: nat, t: Path, p: Path, nb: Word32)
    requires Shaped(f) && WF(g, lo) && Grown(f, g, t)
    requires Valid(|f.addrs|, p) && OnPath(p, t) && Ptr(f, p) == 0 && Attached(g, h, lo, p, nb)
    ensures WF(h, lo) && Grown(f, h, t)
  {
    AttachedWF(g, h, lo, p, nb);
    GrownAttachUsed(f, g, h, lo, t, p, nb);
    assert GrownPtrs(f, h, t) by {
      forall s | Valid(|f.addrs|, s) ensures Ptr(h, s) == if s == p then nb else Ptr(g, s) {
        AttachedPtr(g, h, lo, p, nb, s);
      }
    }
    forall ip: nat, i: nat | ip < |f.addrs| && i / BSIZE < MAXFILE ensures ByteAt(h, ip, i) == ByteAt(f, ip, i) {
      AttachedBytes(g, h, lo, p, nb, ip, i);
      assert ByteAt(g, ip, i) == ByteAt(f, ip, i);
    }
  }
}
