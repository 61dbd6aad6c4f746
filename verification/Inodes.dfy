/** Inodes on disk: eight to a block, sixteen words each, at the place of their number. */
module Inodes {
  import opened Blocks

  const IPB: nat := 8         // inodes per block
  const DWORDS: nat := 16     // words of a struct dinode
  const NADDRS: nat := 13     // NDIRECT + 3

  /** type and major in the first word, minor and nlink in the second. */
  datatype Meta = Meta(w0: Word32, w1: Word32)

  datatype Dinode = Dinode(meta: Meta, size: Word32, addrs: seq<Word32>)

  function IBlock(start: nat, ip: nat): (b: nat) {
    start + ip / IPB
  }

  function WordsAt(b: Block, base: nat, n: nat): (ws: seq<Word32>)
    requires base + n <= NINDIRECT
    ensures |ws| == n
    ensures forall i :: 0 <= i < n ==> ws[i] == Word(b, base + i)
  {
    seq<Word32>(n, i requires 0 <= i < n => Word(b, base + i))
  }

  function Unpack(ws: seq<Word32>): (di: Dinode)
    requires |ws| == DWORDS
    ensures |di.addrs| == NADDRS
  {
    Dinode(Meta(ws[0], ws[1]), ws[2], ws[3..])
  }

  /** The inode at place k of a block. */
  function DinodeOf(b: Block, k: nat): (di: Dinode)
    requires k < IPB
    ensures |di.addrs| == NADDRS
  {
    Unpack(WordsAt(b, DWORDS * k, DWORDS))
  }

  function DinodeAt(start: nat, d: seq<Block>, ip: nat): (di: Dinode)
    requires IBlock(start, ip) < |d|
    ensures |di.addrs| == NADDRS
  {
    DinodeOf(d[IBlock(start, ip)], ip % IPB)
  }

  // ---- Storing one ----

  function PutWords(b: Block, base: nat, ws: seq<Word32>): (r: Block)
    requires base + |ws| <= NINDIRECT
  {
    if ws == [] then b
    else SetWord(PutWords(b, base, ws[..|ws| - 1]), base + |ws| - 1, ws[|ws| - 1])
  }

  lemma {:induction false} WordOfPutWords(b: Block, base: nat, ws: seq<Word32>, j: nat)
    requires base + |ws| <= NINDIRECT && j < NINDIRECT
    ensures Word(PutWords(b, base, ws), j) == if base <= j < base + |ws| then ws[j - base] else Word(b, j)
    decreases |ws|
  {
    if ws != [] {
      var n := |ws| - 1;
      WordOfPutWords(b, base, ws[..n], j);
      WordOfSetWord(PutWords(b, base, ws[..n]), base + n, ws[n], j);
    }
  }

  function WordsOf(di: Dinode): (ws: seq<Word32>)
    ensures |ws| == 3 + |di.addrs|
  {
    [di.meta.w0, di.meta.w1, di.size] + di.addrs
  }

  function PutDinode(b: Block, k: nat, di: Dinode): (r: Block)
    requires k < IPB && |di.addrs| == NADDRS
  {
    PutWords(b, DWORDS * k, WordsOf(di))
  }

  /** An inode stored at place k reads back, and the other seven keep theirs. */
  lemma {:induction false} DinodeOfPut(b: Block, k: nat, di: Dinode, j: nat)
    requires k < IPB && j < IPB && |di.addrs| == NADDRS
    ensures DinodeOf(PutDinode(b, k, di), j) == if j == k then di else DinodeOf(b, j)
  {
    if j == k {
      WordsBack(b, DWORDS * k, WordsOf(di));
    } else {
      WordsKept(b, DWORDS * k, WordsOf(di), DWORDS * j);
    }
    assert Unpack(WordsOf(di)) == di;
  }

  lemma {:induction false} WordsBack(b: Block, base: nat, ws: seq<Word32>)
    requires base + |ws| <= NINDIRECT
    ensures WordsAt(PutWords(b, base, ws), base, |ws|) == ws
  {
    var got := WordsAt(PutWords(b, base, ws), base, |ws|);
    forall i | 0 <= i < |ws| ensures got[i] == ws[i] {
      WordOfPutWords(b, base, ws, base + i);
    }
  }

  lemma {:induction false} WordsKept(b: Block, base: nat, ws: seq<Word32>, at: nat)
    requires base + |ws| <= NINDIRECT && at + |ws| <= NINDIRECT && (at + |ws| <= base || base + |ws| <= at)
    ensures WordsAt(PutWords(b, base, ws), at, |ws|) == WordsAt(b, at, |ws|)
  {
    var got, want := WordsAt(PutWords(b, base, ws), at, |ws|), WordsAt(b, at, |ws|);
    forall i | 0 <= i < |ws| ensures got[i] == want[i] {
      WordOfPutWords(b, base, ws, at + i);
    }
  }

  /** The disk with inode ip stored in its block. */
  function WithDinode(start: nat, d: seq<Block>, ip: nat, di: Dinode): (r: seq<Block>)
    requires IBlock(start, ip) < |d| && |di.addrs| == NADDRS
    ensures |r| == |d| && forall b :: 0 <= b < |d| && b != IBlock(start, ip) ==> r[b] == d[b]
  {
    d[IBlock(start, ip) := PutDinode(d[IBlock(start, ip)], ip % IPB, di)]
  }

  /** On disk exactly inode ip changes. */
  lemma {:induction false} DinodeAtWith(start: nat, d: seq<Block>, ip: nat, di: Dinode, jp: nat)
    requires IBlock(start, ip) < |d| && IBlock(start, jp) < |d| && |di.addrs| == NADDRS
    ensures DinodeAt(start, WithDinode(start, d, ip, di), jp) == if jp == ip then di else DinodeAt(start, d, jp)
  {
    if IBlock(start, jp) == IBlock(start, ip) {
      DinodeOfPut(d[IBlock(start, ip)], ip % IPB, di, jp % IPB);
      assert jp == jp / IPB * IPB + jp % IPB && ip == ip / IPB * IPB + ip % IPB;
    }
  }
}
