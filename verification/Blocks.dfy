/** A disk block as the kernel sees it: 512 bytes that the inode and log code
    also read as 128 little-endian unsigned words. */
module Blocks {

  const BSIZE: nat := 512
  const NINDIRECT: nat := 128

  type Byte = x: int | 0 <= x < 256
  type Word32 = x: int | 0 <= x < 0x1_0000_0000
  type Block = s: seq<Byte> | |s| == 512 witness seq(512, _ => 0)
  type Disk = seq<Block>

  /** What bzero leaves in a block. */
  function Zeroed(): (b: Block)
    ensures forall i :: 0 <= i < BSIZE ==> b[i] == 0
  {
    seq(512, _ => 0)
  }

  function Word(b: Block, i: nat): (w: Word32)
    requires i < NINDIRECT
  {
    var b0: int, b1: int, b2: int, b3: int := b[4 * i], b[4 * i + 1], b[4 * i + 2], b[4 * i + 3];
    b0 + 0x100 * b1 + 0x1_0000 * b2 + 0x100_0000 * b3
  }

  function SetWord(b: Block, i: nat, w: Word32): (r: Block)
    requires i < NINDIRECT
  {
    b[4 * i := w % 0x100][4 * i + 1 := w / 0x100 % 0x100]
    [4 * i + 2 := w / 0x1_0000 % 0x100][4 * i + 3 := w / 0x100_0000]
  }

  /** Splitting a word into its four bytes loses nothing. */
  lemma {:induction false} BytesOfWord(w: Word32)
    ensures w % 0x100 + 0x100 * (w / 0x100 % 0x100) + 0x1_0000 * (w / 0x1_0000 % 0x100)
            + 0x100_0000 * (w / 0x100_0000) == w
  {
    assert w / 0x1_0000 == w / 0x100 / 0x100;
    assert w / 0x100_0000 == w / 0x1_0000 / 0x100;
  }

  lemma {:induction false} WordOfSetWord(b: Block, i: nat, w: Word32, j: nat)
    requires i < NINDIRECT && j < NINDIRECT
    ensures Word(SetWord(b, i, w), j) == if i == j then w else Word(b, j)
  {
    BytesOfWord(w);
  }

  lemma {:induction false} WordOfZeroed(i: nat)
    requires i < NINDIRECT
    ensures Word(Zeroed(), i) == 0
  {
  }

  lemma {:induction false} SubsetSize<T>(a: set<T>, b: set<T>)
    requires a <= b
    ensures |a| <= |b|
  {
    assert b == a + (b - a);
  }

  lemma {:induction false} Interval(lo: nat, n: nat) returns (s: set<nat>)
    ensures |s| == n && forall b: nat :: b in s <==> lo <= b < lo + n
  {
    if n == 0 {
      return {};
    }
    s := Interval(lo, n - 1);
    s := s + {lo + n - 1};
  }
}
