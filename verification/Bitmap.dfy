/** The free map: one bit per block, packed into the bitmap blocks of the disk. */
module Bitmap {
  import opened Blocks

  const BPB: nat := 4096   // bits per bitmap block

  datatype Super = Super(size: nat, bmapstart: nat, datastart: nat)

  /** Bitmap blocks lie below the data area and cover every block. */
  predicate Layout(sb: Super, d: Disk) {
    && |d| == sb.size <= 0x1_0000_0000
    && 0 < sb.datastart <= sb.size
    && sb.bmapstart + (sb.size - 1) / BPB < sb.datastart
  }

  /** 1 << k */
  function Mask(k: nat): (m: nat)
    ensures m > 0
  {
    if k == 0 then 1 else 2 * Mask(k - 1)
  }

  /** (x & (1 << k)) != 0 */
  predicate Bit(x: nat, k: nat) {
    if k == 0 then x % 2 == 1 else Bit(x / 2, k - 1)
  }

  lemma {:induction false} Halves(x: nat, m: nat)
    ensures (x + 2 * m) / 2 == x / 2 + m && (x + 2 * m) % 2 == x % 2
  {
  }

  /** x | (1 << k) for a clear bit k is an addition: it stays below 1 << n ... */
  lemma {:induction false} SetBitFits(x: nat, k: nat, n: nat)
    requires k < n && x < Mask(n) && !Bit(x, k)
    ensures x + Mask(k) < Mask(n)
  {
    var m := Mask(n - 1);
    assert Mask(n) == 2 * m;
    if k > 0 {
      SetBitFits(x / 2, k - 1, n - 1);
      assert Mask(k) == 2 * Mask(k - 1);
    }
  }

  /** ... and sets one bit. */
  lemma {:induction false} SetBit(x: nat, k: nat, n: nat, j: nat)
    requires k < n && x < Mask(n) && !Bit(x, k)
    ensures x + Mask(k) < Mask(n)
    ensures Bit(x + Mask(k), j) <==> j == k || Bit(x, j)
  {
    SetBitFits(x, k, n);
    if k > 0 {
      assert Mask(n) == 2 * Mask(n - 1);
      Halves(x, Mask(k - 1));
      if j > 0 {
        SetBit(x / 2, k - 1, n - 1, j - 1);
      }
    } else {
      assert (x + 1) / 2 == x / 2;
    }
  }

  /** x & ~(1 << k) for a set bit k is a subtraction that clears one bit. */
  lemma {:induction false} ClearBit(x: nat, k: nat, j: nat)
    requires Bit(x, k)
    ensures Mask(k) <= x
    ensures Bit(x - Mask(k), j) <==> j != k && Bit(x, j)
  {
    if k > 0 {
      ClearBit(x / 2, k - 1, if j == 0 then 0 else j - 1);
      assert (x - Mask(k)) / 2 == x / 2 - Mask(k - 1) && (x - Mask(k)) % 2 == x % 2;
    } else {
      assert (x - 1) / 2 == x / 2;
    }
  }

  /** Block b is marked in use. */
  predicate Marked(sb: Super, d: Disk, b: nat)
    requires Layout(sb, d) && b < sb.size
  {
    Bit(d[sb.bmapstart + b / BPB][b % BPB / 8], b % 8)
  }

  /** All blocks marked in use. */
  function UsedSet(sb: Super, d: Disk): (u: set<nat>)
    requires Layout(sb, d)
  {
    set b: nat | b < sb.size && Marked(sb, d, b)
  }

  /** The bitmap block of b with b's bit turned on. */
  function Mark(sb: Super, d: Disk, b: nat): (d': Disk)
    requires Layout(sb, d) && b < sb.size && !Marked(sb, d, b)
  {
    var k, i := sb.bmapstart + b / BPB, b % BPB / 8;
    SetBit(d[k][i], b % 8, 8, 0);
    assert Mask(8) == 256;
    d[k := d[k][i := d[k][i] + Mask(b % 8)]]
  }

  function Unmark(sb: Super, d: Disk, b: nat): (d': Disk)
    requires Layout(sb, d) && b < sb.size && Marked(sb, d, b)
  {
    var k, i := sb.bmapstart + b / BPB, b % BPB / 8;
    ClearBit(d[k][i], b % 8, 0);
    d[k := d[k][i := d[k][i] - Mask(b % 8)]]
  }

  /** Bitmap block, byte and bit together determine the block number. */
  lemma {:induction false} BitAddress(b: nat, c: nat)
    requires b / BPB == c / BPB && b % BPB / 8 == c % BPB / 8 && b % 8 == c % 8
    ensures b == c
  {
    assert b % BPB % 8 == b % 8 && c % BPB % 8 == c % 8;
  }

  lemma {:induction false} MarkOne(sb: Super, d: Disk, b: nat, c: nat)
    requires Layout(sb, d) && b < sb.size && c < sb.size && !Marked(sb, d, b)
    ensures Layout(sb, Mark(sb, d, b))
    ensures Marked(sb, Mark(sb, d, b), c) <==> c == b || Marked(sb, d, c)
  {
    SetBit(d[sb.bmapstart + b / BPB][b % BPB / 8], b % 8, 8, c % 8);
    if b / BPB == c / BPB && b % BPB / 8 == c % BPB / 8 && b % 8 == c % 8 {
      BitAddress(b, c);
    }
  }

  lemma {:induction false} MarkIsUsed(sb: Super, d: Disk, b: nat)
    requires Layout(sb, d) && b < sb.size && !Marked(sb, d, b)
    ensures Layout(sb, Mark(sb, d, b))
    ensures UsedSet(sb, Mark(sb, d, b)) == UsedSet(sb, d) + {b}
  {
    forall c: nat | c < sb.size
      ensures Layout(sb, Mark(sb, d, b)) && (Marked(sb, Mark(sb, d, b), c) <==> c == b || Marked(sb, d, c))
    {
      MarkOne(sb, d, b, c);
    }
  }

  lemma {:induction false} UnmarkOne(sb: Super, d: Disk, b: nat, c: nat)
    requires Layout(sb, d) && b < sb.size && c < sb.size && Marked(sb, d, b)
    ensures Layout(sb, Unmark(sb, d, b))
    ensures Marked(sb, Unmark(sb, d, b), c) <==> c != b && Marked(sb, d, c)
  {
    ClearBit(d[sb.bmapstart + b / BPB][b % BPB / 8], b % 8, c % 8);
    if b / BPB == c / BPB && b % BPB / 8 == c % BPB / 8 && b % 8 == c % 8 {
      BitAddress(b, c);
    }
  }

  lemma {:induction false} UnmarkIsFree(sb: Super, d: Disk, b: nat)
    requires Layout(sb, d) && b < sb.size && Marked(sb, d, b)
    ensures Layout(sb, Unmark(sb, d, b))
    ensures UsedSet(sb, Unmark(sb, d, b)) == UsedSet(sb, d) - {b}
  {
    forall c: nat | c < sb.size
      ensures Layout(sb, Unmark(sb, d, b)) && (Marked(sb, Unmark(sb, d, b), c) <==> c != b && Marked(sb, d, c))
    {
      UnmarkOne(sb, d, b, c);
    }
  }
}
