/** How many blocks a truncation logs, against the budget of one operation. */
module TruncateLog {
  import opened Blocks
  import opened Bitmap
  import opened Tree
  import opened TreeFree
  import opened TreeLog
  import opened Inodes
  import LogDisk

  /** The blocks that itrunc logs for the file of inode ip: the bitmap blocks of the file
      and, apart from those, the inode block. */
  ghost function LogsOf(sb: Super, f: Forest, ip: nat): (n: nat)
    requires Shaped(f) && ip < |f.addrs|
  {
    |MapBlocks(sb, UnderSlots(f, ip, NSLOTS))| + 1
  }

  /** The inode block is none of the bitmap blocks. */
  lemma {:induction false} LogsBoth(sb: Super, f: Forest, ip: nat, start: nat)
    requires Shaped(f) && ip < |f.addrs| && IBlock(start, ip) < sb.bmapstart
    ensures |MapBlocks(sb, UnderSlots(f, ip, NSLOTS)) + {IBlock(start, ip)}| == LogsOf(sb, f, ip)
  {
    assert IBlock(start, ip) !in MapBlocks(sb, UnderSlots(f, ip, NSLOTS));
  }

  /** The bitmap blocks that cover the data area. */
  function DataMaps(sb: Super): (n: int)
    requires 0 < sb.datastart <= sb.size
  {
    (sb.size - 1) / BPB - sb.datastart / BPB + 1
  }

  /** A truncation logs at most one block more than the data area has bitmap blocks. */
  lemma {:induction false} LogsAtMost(sb: Super, f: Forest, ip: nat)
    requires 0 < sb.datastart <= sb.size && WF(f, sb.datastart) && |f.disk| == sb.size && ip < |f.addrs|
    ensures LogsOf(sb, f, ip) <= DataMaps(sb) + 1
  {
    var u := UnderSlots(f, ip, NSLOTS);
    var m := MapBlocks(sb, u);
    assert sb.datastart / BPB <= (sb.size - 1) / BPB + 1;
    if u == {} {
      assert m == {};
    } else {
      forall b | b in u ensures sb.datastart <= b < sb.size {
        var s := SlotsWitness(f, ip, NSLOTS, b);
      }
      var b :| b in u;
      assert sb.datastart <= b < sb.size;
      var all := Interval(sb.bmapstart + sb.datastart / BPB, DataMaps(sb));
      assert m <= all;
      SubsetSize(m, all);
    }
  }

  // ---- A file spread over ten bitmap blocks ----

  /** The first data block in the k-th bitmap block of the data area. */
  function Spread(sb: Super, k: nat): (b: nat)
    ensures sb.datastart <= b && b / BPB == sb.datastart / BPB + k
  {
    if k == 0 then sb.datastart else (sb.datastart / BPB + k) * BPB
  }

  function SpreadSlots(sb: Super): (a: seq<Word32>)
    requires 0 < sb.datastart <= sb.size <= 0x1_0000_0000 && DataMaps(sb) >= NDIRECT
    ensures |a| == NSLOTS
  {
    seq(NSLOTS, r requires 0 <= r < NSLOTS => if r < NDIRECT then Spread(sb, r) else 0)
  }

  /** One file of ten direct blocks. */
  ghost function SpreadFile(sb: Super): (f: Forest)
    requires 0 < sb.datastart <= sb.size <= 0x1_0000_0000 && DataMaps(sb) >= NDIRECT
    ensures Shaped(f) && |f.addrs| == 1
  {
    Forest([SpreadSlots(sb)], seq(sb.size, _ => Zeroed()), set r: nat | r < NDIRECT :: Spread(sb, r))
  }

  lemma {:induction false} SpreadPtr(sb: Super, p: Path)
    requires 0 < sb.datastart <= sb.size <= 0x1_0000_0000 && DataMaps(sb) >= NDIRECT && Tree.Valid(1, p)
    ensures var f := SpreadFile(sb);
      Ptr(f, p) == if p.Slot? && p.r < NDIRECT then Spread(sb, p.r) else 0
  {
    var f := SpreadFile(sb);
    if p.Entry? {
      SpreadPtr(sb, p.node);
      assert Ptr(f, p.node) == 0;
    }
  }

  lemma {:induction false} SpreadWF(sb: Super)
    requires 0 < sb.datastart <= sb.size <= 0x1_0000_0000 && DataMaps(sb) >= NDIRECT
    ensures WF(SpreadFile(sb), sb.datastart)
  {
    var f := SpreadFile(sb);
    forall p | Tree.Valid(1, p)
      ensures Ptr(f, p) == if p.Slot? && p.r < NDIRECT then Spread(sb, p.r) else 0
    {
      SpreadPtr(sb, p);
    }
  }

  lemma {:induction false} SpreadLogs(sb: Super)
    requires 0 < sb.datastart <= sb.size <= 0x1_0000_0000 && DataMaps(sb) >= NDIRECT
    ensures LogsOf(sb, SpreadFile(sb), 0) >= NDIRECT + 1
  {
    var f := SpreadFile(sb);
    var m := MapBlocks(sb, UnderSlots(f, 0, NSLOTS));
    var all := Interval(sb.bmapstart + sb.datastart / BPB, NDIRECT);
    forall c | c in all ensures c in m {
      var k: nat := c - sb.bmapstart - sb.datastart / BPB;
      SpreadPtr(sb, Slot(0, k));
      FileBlocks(f, 0, Slot(0, k));
      assert Spread(sb, k) in UnderSlots(f, 0, NSLOTS);
    }
    SubsetSize(all, m);
  }

  /** A truncation can log more than MAXOPBLOCKS blocks exactly on a disk whose data area
      has at least MAXOPBLOCKS bitmap blocks; a disk of 40000 blocks has ten. */
  lemma {:induction false} TruncateOverBudgetIff(sb: Super)
    requires 0 < sb.datastart <= sb.size <= 0x1_0000_0000
    ensures (exists f, ip ::
      WF(f, sb.datastart) && |f.disk| == sb.size && 0 <= ip < |f.addrs| && LogsOf(sb, f, ip) > LogDisk.MAXOPBLOCKS)
       <==> DataMaps(sb) >= LogDisk.MAXOPBLOCKS
  {
    if DataMaps(sb) >= LogDisk.MAXOPBLOCKS {
      SpreadWF(sb);
      SpreadLogs(sb);
    }
    forall f, ip | WF(f, sb.datastart) && |f.disk| == sb.size && 0 <= ip < |f.addrs|
      && LogsOf(sb, f, ip) > LogDisk.MAXOPBLOCKS
      ensures DataMaps(sb) >= LogDisk.MAXOPBLOCKS
    {
      LogsAtMost(sb, f, ip);
    }
  }
}
