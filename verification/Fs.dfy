/** fs.c: block allocation, the map from file blocks to disk blocks, truncation, and
    reading and writing file bytes, on a disk, a bitmap and inodes updated in place. */
module Fs {
  import opened Blocks
  import opened Bitmap
  import opened Tree
  import opened TreeFree
  import opened TreeLog
  import opened Inodes

  /** Where the kernel panics, and with which message. */
  datatype Outcome<T> =
    | Ok(value: T)
    | OutOfBlocks        // balloc: out of blocks
    | OutOfRange         // bmap: out of range
    | FreeingFree        // freeing free block

  class FileSystem {
    const sb: Super
    const inodestart: nat
    var disk: seq<Block>
    var addrs: seq<seq<Word32>>   // ip->addrs of every inode in memory
    var size: seq<nat>            // ip->size
    var meta: seq<Meta>           // ip->type, major, minor and nlink
    ghost var logged: set<nat>    // blocks passed to log_write so far

    ghost predicate Sound()
      reads this
    {
      && Layout(sb, disk)
      && (forall b: nat :: b < sb.datastart ==> b in UsedSet(sb, disk))
    }

    ghost function View(): (f: Forest)
      requires Layout(sb, disk)
      reads this
    {
      Forest(addrs, disk, UsedSet(sb, disk))
    }

    ghost predicate Valid()
      reads this
    {
      && Sound() && WF(View(), sb.datastart)
      && |size| == |addrs| == |meta| && InodesFit()
    }

    /** Inode blocks lie below the bitmap. */
    ghost predicate InodesFit()
      reads this
    {
      forall ip: nat {:trigger IBlock(inodestart, ip)} :: ip < |addrs| ==> IBlock(inodestart, ip) < sb.bmapstart
    }

    /** iupdate: the inode block holds the in-memory inode at its place, the other inodes
        keep theirs, and no other block changes. */
    method Iupdate(ip: nat)
      requires Valid() && ip < |addrs| && size[ip] < 0x1_0000_0000
      modifies this`disk, this`logged
      ensures Valid() && |disk| == |old(disk)|
      ensures forall jp: nat :: jp < |addrs| ==>
        && IBlock(inodestart, jp) < |disk|
        && DinodeAt(inodestart, disk, jp) == (
             if jp == ip then Dinode(meta[ip], size[ip], addrs[ip]) else DinodeAt(inodestart, old(disk), jp))
      ensures forall b :: 0 <= b < |disk| && b != IBlock(inodestart, ip) ==> disk[b] == old(disk)[b]
      ensures logged == old(logged) + {IBlock(inodestart, ip)}
      ensures KeepsPtrs(old(View()), View()) && SameBytes(old(View()), View()) && View().used == old(View().used)
    {
      ghost var g := View();
      assert IBlock(inodestart, ip) < sb.bmapstart;
      var di := Dinode(meta[ip], size[ip], addrs[ip]);
      disk := WithDinode(inodestart, disk, ip, di);
      logged := logged + {IBlock(inodestart, ip)};
      SameBitmap(sb, g.disk, disk);
      LowWrite(g, View(), sb.datastart);
      forall jp: nat | jp < |addrs|
        ensures IBlock(inodestart, jp) < |disk|
        ensures DinodeAt(inodestart, disk, jp) == if jp == ip then di else DinodeAt(inodestart, g.disk, jp)
      {
        assert IBlock(inodestart, jp) < sb.bmapstart;
        DinodeAtWith(inodestart, g.disk, ip, di, jp);
      }
    }

    /** No free block is left. */
    ghost predicate Full()
      requires Layout(sb, disk)
      reads this
    {
      forall b: nat :: b < sb.size ==> b in UsedSet(sb, disk)
    }

    /** The success branch of balloc: mark the block in the bitmap and zero it. */
    method Take(blk: nat)
      requires Sound() && blk < sb.size && blk !in UsedSet(sb, disk)
      modifies this`disk, this`logged
      ensures Sound() && |disk| == |old(disk)|
      ensures UsedSet(sb, disk) == UsedSet(sb, old(disk)) + {blk}
      ensures disk[blk] == Zeroed()
      ensures forall b :: 0 <= b < sb.size && b != blk && b != sb.bmapstart + blk / BPB ==> disk[b] == old(disk)[b]
      ensures logged == old(logged) + {sb.bmapstart + blk / BPB, blk}
      ensures Journaled(sb.bmapstart, old(disk), disk, old(logged), logged)
    {
      MarkIsUsed(sb, disk, blk);
      disk := Mark(sb, disk, blk);
      logged := logged + {sb.bmapstart + blk / BPB};
      Bzero(blk);
      TwoBlocks(sb.bmapstart, old(disk), disk, old(logged), sb.bmapstart + blk / BPB, blk);
    }

    /** balloc: the lowest free block, marked and zeroed. */
    method Balloc() returns (r: Outcome<Word32>)
      requires Sound()
      modifies this`disk, this`logged
      ensures Sound() && |disk| == |old(disk)|
      ensures r.Ok? || r.OutOfBlocks?
      ensures r.OutOfBlocks? ==>
        disk == old(disk) && logged == old(logged) && Full()
      ensures r.Ok? ==>
        && sb.datastart <= r.value < sb.size
        && r.value !in UsedSet(sb, old(disk))
        && (forall b: nat :: b < r.value ==> b in UsedSet(sb, old(disk)))
        && UsedSet(sb, disk) == UsedSet(sb, old(disk)) + {r.value as nat}
        && disk[r.value] == Zeroed()
        && (forall b :: 0 <= b < sb.size && b != r.value && b != sb.bmapstart + r.value / BPB ==>
          disk[b] == old(disk)[b])
        && logged == old(logged) + {sb.bmapstart + r.value / BPB, r.value as nat}
      ensures Journaled(sb.bmapstart, old(disk), disk, old(logged), logged)
    {
      var b: nat := 0;
      while b < sb.size
        invariant b % BPB == 0
        invariant forall c: nat :: c < b && c < sb.size ==> Marked(sb, disk, c)
      {
        var bi: nat := 0;
        while bi < BPB && b + bi < sb.size
          invariant bi <= BPB
          invariant forall c: nat :: c < b + bi && c < sb.size ==> Marked(sb, disk, c)
        {
          if !Marked(sb, disk, b + bi) {
            var blk: nat := b + bi;
            assert blk !in UsedSet(sb, disk);
            Take(blk);
            return Ok(blk);
          }
          bi := bi + 1;
        }
        b := b + BPB;
      }
      return OutOfBlocks;
    }

    /** bfree: clear the block's bit; a clear bit is a panic. */
    method Bfree(b: nat) returns (r: Outcome<()>)
      requires Layout(sb, disk) && b < sb.size
      modifies this`disk, this`logged
      ensures r == if b in UsedSet(sb, old(disk)) then Ok(()) else FreeingFree
      ensures Layout(sb, disk) && |disk| == |old(disk)|
      ensures UsedSet(sb, disk) == UsedSet(sb, old(disk)) - {b}
      ensures forall c :: 0 <= c < sb.size && c != sb.bmapstart + b / BPB ==> disk[c] == old(disk)[c]
      ensures r.Ok? ==> Cleared(sb, old(disk), disk, old(logged), logged, {b})
    {
      if !Marked(sb, disk, b) {
        return FreeingFree;
      }
      UnmarkIsFree(sb, disk, b);
      disk := Unmark(sb, disk, b);
      logged := logged + {sb.bmapstart + b / BPB};
      return Ok(());
    }

    method Bzero(b: nat)
      requires Layout(sb, disk) && sb.datastart <= b < sb.size
      modifies this`disk, this`logged
      ensures disk == old(disk)[b := Zeroed()]
      ensures Layout(sb, disk) && UsedSet(sb, disk) == UsedSet(sb, old(disk))
      ensures logged == old(logged) + {b}
    {
      disk := disk[b := Zeroed()];
      logged := logged + {b};
      SameBitmap(sb, old(disk), disk);
    }

    /** Since l0, only bitmap blocks and blocks on the way to t were logged. */
    ghost predicate Logs(f0: Forest, t: Path, l0: set<nat>)
      requires Layout(sb, disk) && Shaped(f0) && Shaped(View()) && |addrs| == |f0.addrs|
      reads this
    {
      && LogsPath(sb, f0, View(), t, l0, logged)
      && Journaled(sb.bmapstart, f0.disk, disk, l0, logged)
      && OthersSame(f0.addrs, addrs, Owner(t))
    }

    /** The block at a slot of the inode, allocated if there is none yet. */
    method SlotBlock(ip: nat, r: nat, ghost f0: Forest, ghost t: Path, ghost l0: set<nat>) returns (o: Outcome<Word32>)
      requires Valid() && ip < |addrs| && r < NSLOTS
      requires Shaped(f0) && Grown(f0, View(), t) && OnPath(Slot(ip, r), t) && Tree.Valid(|addrs|, t) && Owner(t) == ip
      requires Logs(f0, t, l0)
      modifies this`disk, this`addrs, this`logged
      ensures Valid() && Grown(f0, View(), t) && |addrs| == |old(addrs)| && Logs(f0, t, l0)
      ensures o.Ok? || o.OutOfBlocks?
      ensures o.OutOfBlocks? ==> Full()
      ensures o.Ok? ==> o.value == Ptr(View(), Slot(ip, r)) != 0
      ensures Ptr(old(View()), Slot(ip, r)) != 0 ==>
        o.Ok? && disk == old(disk) && addrs == old(addrs) && logged == old(logged)
    {
      var a := addrs[ip][r];
      if a == 0 {
        o := NewSlot(ip, r, f0, t, l0);
      } else {
        o := Ok(a);
      }
    }

    /** Allocate a block into an empty slot. */
    method NewSlot(ip: nat, r: nat, ghost f0: Forest, ghost t: Path, ghost l0: set<nat>) returns (o: Outcome<Word32>)
      requires Valid() && ip < |addrs| && r < NSLOTS && addrs[ip][r] == 0
      requires Shaped(f0) && Grown(f0, View(), t) && OnPath(Slot(ip, r), t) && Tree.Valid(|addrs|, t) && Owner(t) == ip
      requires Logs(f0, t, l0)
      modifies this`disk, this`addrs, this`logged
      ensures Valid() && Grown(f0, View(), t) && |addrs| == |old(addrs)| && Logs(f0, t, l0)
      ensures o.Ok? || o.OutOfBlocks?
      ensures o.OutOfBlocks? ==> Full()
      ensures o.Ok? ==> o.value == Ptr(View(), Slot(ip, r)) != 0
    {
      ghost var g, p, l1 := View(), Slot(ip, r), logged;
      o := Balloc();
      if o.OutOfBlocks? {
        return;
      }
      addrs := SetSlot(addrs, ip, r, o.value);
      assert Attached(g, View(), sb.datastart, p, o.value);
      BlockHung(sb, f0, g, View(), t, p, o.value, l0, l1, logged);
    }

    /** The block at entry i of index block a, which position q points to, allocated
        if there is none yet; the index block is then logged too. */
    method EntryBlock(a: Word32, i: nat, ghost q: Path, ghost f0: Forest, ghost t: Path, ghost l0: set<nat>)
      returns (o: Outcome<Word32>)
      requires Valid() && Tree.Valid(|addrs|, Entry(q, i)) && a == Ptr(View(), q) != 0
      requires Shaped(f0) && Grown(f0, View(), t) && OnPath(Entry(q, i), t) && Tree.Valid(|addrs|, t) && Logs(f0, t, l0)
      modifies this`disk, this`logged
      ensures Valid() && Grown(f0, View(), t) && |addrs| == |old(addrs)| && Logs(f0, t, l0)
      ensures o.Ok? || o.OutOfBlocks?
      ensures o.OutOfBlocks? ==> Full()
      ensures o.Ok? ==> o.value == Ptr(View(), Entry(q, i)) != 0
      ensures Ptr(old(View()), Entry(q, i)) != 0 ==> o.Ok? && disk == old(disk) && logged == old(logged)
    {
      var e := Word(disk[a], i);
      if e == 0 {
        assert Ptr(View(), Entry(q, i)) == 0;
        o := NewEntry(a, i, q, f0, t, l0);
      } else {
        o := Ok(e);
      }
    }

    /** Balloc and the store into the index block: a fresh block hangs at the entry. */
    method HangEntry(a: Word32, i: nat, ghost q: Path) returns (o: Outcome<Word32>)
      requires Sound() && Shaped(View()) && Tree.Valid(|addrs|, Entry(q, i))
      requires a == Ptr(View(), q) && sb.datastart <= a < sb.size && a in UsedSet(sb, disk)
        && Ptr(View(), Entry(q, i)) == 0
      modifies this`disk, this`logged
      ensures Sound() && |disk| == |old(disk)|
      ensures o.Ok? || (o.OutOfBlocks? && disk == old(disk) && logged == old(logged) && Full())
      ensures o.Ok? ==> Attached(old(View()), View(), sb.datastart, Entry(q, i), o.value) && o.value < sb.size
      ensures o.Ok? ==> logged == old(logged) + {sb.bmapstart + o.value / BPB, o.value as nat} + {a as nat}
      ensures Journaled(sb.bmapstart, old(disk), disk, old(logged), logged)
    {
      ghost var g := View();
      o := Balloc();
      if o.OutOfBlocks? {
        return;
      }
      StoreEntry(sb, g, disk, q, i, o.value, old(logged), logged);
      disk := disk[a := SetWord(disk[a], i, o.value)];
      logged := logged + {a as nat};
    }

    /** Allocate a block into an empty entry. */
    method NewEntry(a: Word32, i: nat, ghost q: Path, ghost f0: Forest, ghost t: Path, ghost l0: set<nat>)
      returns (o: Outcome<Word32>)
      requires Valid() && Tree.Valid(|addrs|, Entry(q, i)) && a == Ptr(View(), q) != 0 && Ptr(View(), Entry(q, i)) == 0
      requires Shaped(f0) && Grown(f0, View(), t) && OnPath(Entry(q, i), t) && Tree.Valid(|addrs|, t) && Logs(f0, t, l0)
      modifies this`disk, this`logged
      ensures Valid() && Grown(f0, View(), t) && Logs(f0, t, l0)
      ensures o.Ok? || o.OutOfBlocks?
      ensures o.OutOfBlocks? ==> Full()
      ensures o.Ok? ==> o.value == Ptr(View(), Entry(q, i)) != 0
    {
      ghost var g, p, l1 := View(), Entry(q, i), logged;
      assert a in g.used && sb.datastart <= a < sb.size;
      o := HangEntry(a, i, q);
      if o.OutOfBlocks? {
        assert View() == g;
        return;
      }
      BlockHung(sb, f0, g, View(), t, p, o.value, l0, l1, logged);
    }

    /** bmap: the disk block of file block bn, with every missing block on the way
        to it allocated. A block that is already mapped is found without any change. */
    method Bmap(ip: nat, bn: nat) returns (o: Outcome<Word32>)
      requires Valid() && ip < |addrs|
      modifies this`disk, this`addrs, this`logged
      ensures Valid() && |addrs| == |old(addrs)|
      ensures o.OutOfRange? <==> bn >= MAXFILE
      ensures o.OutOfRange? ==> disk == old(disk) && addrs == old(addrs) && logged == old(logged)
      ensures !o.FreeingFree?
      ensures o.OutOfBlocks? ==> Full()
      ensures bn < MAXFILE ==>
        && Tree.Valid(|addrs|, PathOf(ip, bn))
        && Grown(old(View()), View(), PathOf(ip, bn))
        && (o.Ok? ==> o.value == Ptr(View(), PathOf(ip, bn)) != 0)
        && LogsPath(sb, old(View()), View(), PathOf(ip, bn), old(logged), logged)
        && Journaled(sb.bmapstart, old(disk), disk, old(logged), logged)
        && OthersSame(old(addrs), addrs, ip)
        && (Ptr(old(View()), PathOf(ip, bn)) != 0 ==>
              o.Ok? && disk == old(disk) && addrs == old(addrs) && logged == old(logged))
    {
      if bn >= MAXFILE {
        return OutOfRange;
      }
      PathOfIsLeaf(|addrs|, ip, bn);
      ghost var f0, t := View(), PathOf(ip, bn);
      var bn1 := bn;
      if bn1 < NDIRECT {
        GrownSelf(f0, t);
        o := SlotBlock(ip, bn1, f0, t, logged);
        return;
      }
      bn1 := bn1 - NDIRECT;
      if bn1 < NINDIRECT {
        o := Walk1(ip, bn1, f0, t);
        return;
      }
      bn1 := bn1 - NINDIRECT;
      if bn1 < NINDIRECT * NINDIRECT {
        o := Walk2(ip, bn1 / NINDIRECT, bn1 % NINDIRECT, f0, t);
        return;
      }
      bn1 := bn1 - NINDIRECT * NINDIRECT;
      o := Walk3(ip, bn1 / (NINDIRECT * NINDIRECT), bn1 % (NINDIRECT * NINDIRECT) / NINDIRECT,
                 bn1 % (NINDIRECT * NINDIRECT) % NINDIRECT, f0, t);
    }

    /** Nothing is missing on the way to t. */
    ghost predicate Complete(f0: Forest, t: Path)
      requires Shaped(f0)
    {
      Tree.Valid(|f0.addrs|, t) && Ptr(f0, t) != 0
    }

    /** The index block of an indirect slot and the block at its entry i. */
    method TopEntry(ip: nat, r: nat, i: nat, ghost f0: Forest, ghost t: Path, ghost l0: set<nat>)
        returns (o: Outcome<Word32>)
      requires Valid() && ip < |addrs| && NDIRECT <= r < NSLOTS && i < NINDIRECT
      requires f0 == View() && l0 == logged && Tree.Valid(|addrs|, t) && Owner(t) == ip
        && OnPath(Entry(Slot(ip, r), i), t)
      requires Tree.Valid(|addrs|, Entry(Slot(ip, r), i))
      modifies this`disk, this`addrs, this`logged
      ensures Valid() && |addrs| == |old(addrs)| && Tree.Valid(|addrs|, Entry(Slot(ip, r), i)) && Grown(f0, View(), t)
        && Logs(f0, t, l0)
      ensures o.Ok? || o.OutOfBlocks?
      ensures o.OutOfBlocks? ==> Full()
      ensures o.Ok? ==> o.value == Ptr(View(), Entry(Slot(ip, r), i)) != 0
      ensures Ptr(f0, Entry(Slot(ip, r), i)) != 0 ==>
        o.Ok? && disk == old(disk) && addrs == old(addrs) && logged == old(logged)
    {
      ghost var s := Slot(ip, r);
      GrownSelf(f0, t);
      ParentOnPath(s, i, t);
      o := SlotBlock(ip, r, f0, t, l0);
      if o.Ok? {
        o := EntryBlock(o.value, i, s, f0, t, l0);
      }
    }

    /** The single indirect branch of bmap. */
    method Walk1(ip: nat, i: nat, ghost f0: Forest, ghost t: Path) returns (o: Outcome<Word32>)
      requires Valid() && ip < |addrs| && i < NINDIRECT && f0 == View() && Tree.Valid(|addrs|, t) && Owner(t) == ip
      requires t == Entry(Slot(ip, NDIRECT), i)
      modifies this`disk, this`addrs, this`logged
      ensures Valid() && |addrs| == |old(addrs)| && Tree.Valid(|addrs|, t) && Grown(f0, View(), t)
        && Logs(f0, t, old(logged))
      ensures o.Ok? || o.OutOfBlocks?
      ensures o.OutOfBlocks? ==> Full()
      ensures o.Ok? ==> o.value == Ptr(View(), t) != 0
      ensures Complete(f0, t) ==> o.Ok? && disk == old(disk) && addrs == old(addrs) && logged == old(logged)
    {
      o := TopEntry(ip, NDIRECT, i, f0, t, logged);
    }

    /** The double indirect branch. */
    method Walk2(ip: nat, i: nat, j: nat, ghost f0: Forest, ghost t: Path) returns (o: Outcome<Word32>)
      requires Valid() && ip < |addrs| && i < NINDIRECT && j < NINDIRECT && Owner(t) == ip
      requires f0 == View() && Tree.Valid(|addrs|, t) && t == Entry(Entry(Slot(ip, NDIRECT + 1), i), j)
      modifies this`disk, this`addrs, this`logged
      ensures Valid() && |addrs| == |old(addrs)| && Tree.Valid(|addrs|, t) && Grown(f0, View(), t)
        && Logs(f0, t, old(logged))
      ensures o.Ok? || o.OutOfBlocks?
      ensures o.OutOfBlocks? ==> Full()
      ensures o.Ok? ==> o.value == Ptr(View(), t) != 0
      ensures Complete(f0, t) ==> o.Ok? && disk == old(disk) && addrs == old(addrs) && logged == old(logged)
    {
      ghost var l0 := logged;
      assert OnPath(t.node, t);
      o := TopEntry(ip, NDIRECT + 1, i, f0, t, l0);
      if o.Ok? {
        o := EntryBlock(o.value, j, t.node, f0, t, l0);
      }
    }

    /** The triple indirect branch. */
    method Walk3(ip: nat, i: nat, j: nat, k: nat, ghost f0: Forest, ghost t: Path) returns (o: Outcome<Word32>)
      requires Valid() && ip < |addrs| && i < NINDIRECT && j < NINDIRECT && k < NINDIRECT && Owner(t) == ip
      requires f0 == View() && Tree.Valid(|addrs|, t) && t == Entry(Entry(Entry(Slot(ip, NDIRECT + 2), i), j), k)
      modifies this`disk, this`addrs, this`logged
      ensures Valid() && |addrs| == |old(addrs)| && Tree.Valid(|addrs|, t) && Grown(f0, View(), t)
        && Logs(f0, t, old(logged))
      ensures o.Ok? || o.OutOfBlocks?
      ensures o.OutOfBlocks? ==> Full()
      ensures o.Ok? ==> o.value == Ptr(View(), t) != 0
      ensures Complete(f0, t) ==> o.Ok? && disk == old(disk) && addrs == old(addrs) && logged == old(logged)
    {
      ghost var q, l0 := t.node.node, logged;
      assert OnPath(t.node, t);
      ParentOnPath(q, j, t);
      assert Tree.Valid(|addrs|, t.node) && Tree.Valid(|addrs|, q);
      assert Complete(f0, t) ==> Ptr(f0, t.node) != 0;
      assert Complete(f0, t) ==> Ptr(f0, q) != 0;
      o := TopEntry(ip, NDIRECT + 2, i, f0, t, l0);
      if o.Ok? {
        o := LastEntries(o.value, j, k, q, f0, t, l0);
      }
    }

    /** The last two levels of the triple indirect branch. */
    method LastEntries(a: Word32, j: nat, k: nat, ghost q: Path, ghost f0: Forest, ghost t: Path, ghost l0: set<nat>)
      returns (o: Outcome<Word32>)
      requires Valid() && Tree.Valid(|addrs|, t) && t == Entry(Entry(q, j), k) && Tree.Valid(|addrs|, q)
        && a == Ptr(View(), q) != 0
      requires Shaped(f0) && Grown(f0, View(), t) && Logs(f0, t, l0)
      modifies this`disk, this`logged
      ensures Valid() && |addrs| == |old(addrs)| && Grown(f0, View(), t) && Logs(f0, t, l0)
      ensures o.Ok? || o.OutOfBlocks?
      ensures o.OutOfBlocks? ==> Full()
      ensures o.Ok? ==> o.value == Ptr(View(), t) != 0
      ensures Ptr(old(View()), t) != 0 ==> o.Ok? && disk == old(disk) && logged == old(logged)
    {
      assert OnPath(t.node, t);
      o := EntryBlock(a, j, q, f0, t, l0);
      if o.Ok? {
        o := EntryBlock(o.value, k, t.node, f0, t, l0);
      }
    }

    /** The data area of the disk is that of f. */
    ghost predicate SameData(f: Forest)
      reads this
    {
      |disk| == |f.disk| && forall b :: sb.datastart <= b < |disk| ==> disk[b] == f.disk[b]
    }

    /** The loops of itrunc over one slot: free what the entries of the index block
        point to, then the block itself. height counts the nested loops. */
    method FreeTree(addr: Word32, height: nat, ghost f: Forest, ghost p: Path) returns (o: Outcome<()>)
      requires Layout(sb, disk) && WF(f, sb.datastart) && SameData(f)
      requires Tree.Valid(|f.addrs|, p) && addr == Ptr(f, p) != 0 && height == Height(p)
      requires Under(f, p) <= UsedSet(sb, disk)
      modifies this`disk, this`logged
      ensures o.Ok?
      ensures Layout(sb, disk) && SameData(f)
      ensures UsedSet(sb, disk) == UsedSet(sb, old(disk)) - Under(f, p)
      ensures Cleared(sb, old(disk), disk, old(logged), logged, Under(f, p))
      decreases height, 2
    {
      ghost var d0, l0 := disk, logged;
      ClearedNone(sb, disk, logged);
      if height > 0 {
        o := FreeEntries(addr, height, f, p);
        EntriesExcludeSelf(f, sb.datastart, p);
      }
      ghost var d1, l1 := disk, logged;
      o := Bfree(addr);
      ghost var below := if height > 0 then UnderEntries(f, p, NINDIRECT) else {};
      ClearedMore(sb, d0, d1, disk, l0, l1, logged, below, {addr as nat});
    }

    method FreeEntries(addr: Word32, height: nat, ghost f: Forest, ghost p: Path) returns (o: Outcome<()>)
      requires Layout(sb, disk) && WF(f, sb.datastart) && SameData(f)
      requires Tree.Valid(|f.addrs|, p) && addr == Ptr(f, p) != 0 && height == Height(p) > 0
      requires Under(f, p) <= UsedSet(sb, disk)
      modifies this`disk, this`logged
      ensures o.Ok?
      ensures Layout(sb, disk) && SameData(f)
      ensures UsedSet(sb, disk) == UsedSet(sb, old(disk)) - UnderEntries(f, p, NINDIRECT)
      ensures Cleared(sb, old(disk), disk, old(logged), logged, UnderEntries(f, p, NINDIRECT))
      decreases height, 1
    {
      o := Ok(());
      ghost var u, d0, l0 := UsedSet(sb, disk), disk, logged;
      ClearedNone(sb, disk, logged);
      var j := 0;
      while j < NINDIRECT
        invariant 0 <= j <= NINDIRECT && o.Ok?
        invariant EntriesFreed(f, p, j, u, d0, l0)
      {
        o := FreeNext(addr, height, j, f, p, u, d0, l0);
        j := j + 1;
      }
    }

    /** Of the blocks u in use, what the first j entries point to has been freed. */
    ghost predicate EntriesFreed(f: Forest, p: Path, j: nat, u: set<nat>, d0: seq<Block>, l0: set<nat>)
      requires Shaped(f) && Tree.Valid(|f.addrs|, p) && Height(p) > 0 && j <= NINDIRECT
      reads this
    {
      && Layout(sb, disk) && SameData(f)
      && UsedSet(sb, disk) == u - UnderEntries(f, p, j)
      && Cleared(sb, d0, disk, l0, logged, UnderEntries(f, p, j))
    }

    /** One turn of that loop, with what it keeps. */
    method FreeNext(addr: Word32, height: nat, j: nat, ghost f: Forest, ghost p: Path,
        ghost u: set<nat>, ghost d0: seq<Block>, ghost l0: set<nat>) returns (o: Outcome<()>)
      requires Layout(sb, disk) && WF(f, sb.datastart) && SameData(f)
      requires Tree.Valid(|f.addrs|, p) && addr == Ptr(f, p) != 0 && height == Height(p) > 0 && j < NINDIRECT
      requires Under(f, p) <= u && EntriesFreed(f, p, j, u, d0, l0)
      modifies this`disk, this`logged
      ensures o.Ok? && EntriesFreed(f, p, j + 1, u, d0, l0)
      decreases height, 0, 1
    {
      ghost var d1, l1 := disk, logged;
      EntriesDisjoint(f, sb.datastart, p, j);
      ChildIsUnder(f, p, j);
      o := FreeEntry(addr, height, j, f, p);
      ClearedMore(sb, d0, d1, disk, l0, l1, logged, UnderEntries(f, p, j), Under(f, Entry(p, j)));
    }

    method FreeEntry(addr: Word32, height: nat, j: nat, ghost f: Forest, ghost p: Path) returns (o: Outcome<()>)
      requires Layout(sb, disk) && WF(f, sb.datastart) && SameData(f)
      requires Tree.Valid(|f.addrs|, p) && addr == Ptr(f, p) != 0 && height == Height(p) > 0 && j < NINDIRECT
      requires Under(f, Entry(p, j)) <= UsedSet(sb, disk)
      modifies this`disk, this`logged
      ensures o.Ok?
      ensures Layout(sb, disk) && SameData(f)
      ensures UsedSet(sb, disk) == UsedSet(sb, old(disk)) - Under(f, Entry(p, j))
      ensures Cleared(sb, old(disk), disk, old(logged), logged, Under(f, Entry(p, j)))
      decreases height, 0, 0
    {
      o := Ok(());
      ClearedNone(sb, disk, logged);
      var a := Word(disk[addr], j);
      assert a == Ptr(f, Entry(p, j));
      if a != 0 {
        o := FreeTree(a, height - 1, f, Entry(p, j));
      }
    }

    /** Slots below r of inode ip are empty, all others as in f. */
    ghost predicate WipedTo(f: Forest, ip: nat, r: nat)
      reads this
    {
      && |addrs| == |f.addrs| && ip < |addrs| && |addrs[ip]| == |f.addrs[ip]| == NSLOTS
      && (forall k :: 0 <= k < |addrs| && k != ip ==> addrs[k] == f.addrs[k])
      && (forall k :: 0 <= k < NSLOTS ==> addrs[ip][k] == if k < r then 0 else f.addrs[ip][k])
    }

    /** The first r slots of inode ip are done. */
    ghost predicate FreedTo(f: Forest, ip: nat, r: nat, l0: set<nat>)
      requires Shaped(f) && ip < |f.addrs| && r <= NSLOTS
      reads this
    {
      && Layout(sb, disk) && SameData(f) && WipedTo(f, ip, r)
      && UsedSet(sb, disk) == f.used - UnderSlots(f, ip, r)
      && Cleared(sb, f.disk, disk, l0, logged, UnderSlots(f, ip, r))
    }

    /** One slot of itrunc. */
    method FreeSlot(ip: nat, r: nat, ghost f: Forest, ghost l0: set<nat>) returns (o: Outcome<()>)
      requires WF(f, sb.datastart) && ip < |f.addrs| && r < NSLOTS && FreedTo(f, ip, r, l0)
      modifies this`disk, this`addrs, this`logged
      ensures o.Ok? && FreedTo(f, ip, r + 1, l0)
    {
      o := Ok(());
      ghost var d1, l1 := disk, logged;
      ClearedNone(sb, disk, logged);
      if addrs[ip][r] != 0 {
        SlotsDisjoint(f, sb.datastart, ip, r);
        UnderUsed(f, sb.datastart, Slot(ip, r));
        o := FreeTree(addrs[ip][r], if r < NDIRECT then 0 else r - NDIRECT + 1, f, Slot(ip, r));
        addrs := SetSlot(addrs, ip, r, 0);
      }
      ClearedMore(sb, f.disk, d1, disk, l0, l1, logged, UnderSlots(f, ip, r), Under(f, Slot(ip, r)));
    }

    /** itrunc: every data and index block of the file is freed once, nothing else is,
        no "freeing free block" panic is possible, and all slots end up empty, in memory
        and in the inode block. It logs the bitmap blocks of the file and the inode block. */
    method Itrunc(ip: nat) returns (o: Outcome<()>)
      requires Valid() && ip < |addrs|
      modifies this`disk, this`addrs, this`logged, this`size
      ensures o.Ok?
      ensures Valid() && Truncated(old(View()), View(), sb.datastart, ip)
      ensures size == old(size)[ip := 0]
      ensures forall jp: nat :: jp < |addrs| ==>
        && IBlock(inodestart, jp) < |disk|
        && DinodeAt(inodestart, disk, jp) == (
             if jp == ip then Dinode(meta[ip], 0, seq(NSLOTS, _ => 0)) else DinodeAt(inodestart, old(disk), jp))
      ensures logged == old(logged) + MapBlocks(sb, UnderSlots(old(View()), ip, NSLOTS)) + {IBlock(inodestart, ip)}
    {
      ghost var f := View();
      o := FreeSlots(ip);
      size := size[ip := 0];
      InodesKept(sb, inodestart, |addrs|, f.disk, disk, old(logged), logged);
      Iupdate(ip);
    }

    method FreeSlots(ip: nat) returns (o: Outcome<()>)
      requires Valid() && ip < |addrs|
      modifies this`disk, this`addrs, this`logged
      ensures o.Ok?
      ensures Valid() && Truncated(old(View()), View(), sb.datastart, ip)
      ensures Cleared(sb, old(disk), disk, old(logged), logged, UnderSlots(old(View()), ip, NSLOTS))
    {
      ghost var f, l0 := View(), logged;
      ClearedNone(sb, disk, logged);
      o := Ok(());
      var r := 0;
      while r < NSLOTS
        invariant 0 <= r <= NSLOTS && o.Ok?
        invariant FreedTo(f, ip, r, l0)
      {
        o := FreeSlot(ip, r, f, l0);
        r := r + 1;
      }
      assert addrs[ip] == seq(NSLOTS, _ => 0);
      assert addrs == f.addrs[ip := seq(NSLOTS, _ => 0)];
      TruncatedWF(f, View(), sb.datastart, ip);
      FileBlocksAreData(f, sb.datastart, ip);
    }
  }

  /** Changes above the inode blocks leave every inode on disk alone. */
  lemma {:induction false} InodesKept(sb: Super, start: nat, n: nat, d0: seq<Block>, d1: seq<Block>, l0: set<nat>,
      l1: set<nat>)
    requires Layout(sb, d0) && Journaled(sb.bmapstart, d0, d1, l0, l1)
    requires forall ip: nat {:trigger IBlock(start, ip)} :: ip < n ==> IBlock(start, ip) < sb.bmapstart
    ensures forall ip: nat :: ip < n ==> IBlock(start, ip) < |d0| && DinodeAt(start, d1, ip) == DinodeAt(start, d0, ip)
  {
    forall ip: nat | ip < n ensures IBlock(start, ip) < |d0| && DinodeAt(start, d1, ip) == DinodeAt(start, d0, ip) {
      assert IBlock(start, ip) < sb.bmapstart;
      assert d1[IBlock(start, ip)] == d0[IBlock(start, ip)];
    }
  }

  lemma {:induction false} TwoBlocks(low: nat, d0: seq<Block>, d1: seq<Block>, l0: set<nat>, a: nat, b: nat)
    requires |d1| == |d0| && low <= a < |d0| && low <= b < |d0|
    requires forall c :: 0 <= c < |d0| && c != a && c != b ==> d1[c] == d0[c]
    ensures Journaled(low, d0, d1, l0, l0 + {a, b})
  {
  }

  lemma {:induction false} GrownSelf(f: Forest, t: Path)
    requires Shaped(f)
    ensures Grown(f, f, t)
  {
  }

  /** Since f0 the trees have become g, and now a fresh block nb hangs at the empty position
      p on the way to t; the block, its bitmap block and its index block have been logged. */
  ghost predicate Hanging(sb: Super, f0: Forest, g: Forest, h: Forest, t: Path, p: Path, nb: Word32,
      l0: set<nat>, l1: set<nat>, l2: set<nat>)
  {
    && Shaped(f0) && WF(g, sb.datastart) && Grown(f0, g, t) && Layout(sb, h.disk) && nb < sb.size
    && Tree.Valid(|f0.addrs|, p) && Tree.Valid(|f0.addrs|, t) && OnPath(p, t)
    && Ptr(g, p) == 0 && Attached(g, h, sb.datastart, p, nb)
    && LogsPath(sb, f0, g, t, l0, l1)
    && Journaled(sb.bmapstart, f0.disk, g.disk, l0, l1) && Journaled(sb.bmapstart, g.disk, h.disk, l1, l2)
    && (p.Entry? ==> Ptr(g, p.node) != 0)
    && l2 == l1 + {sb.bmapstart + nb / BPB, nb as nat} + (if p.Entry? then {Ptr(g, p.node) as nat} else {})
  }

  /** It keeps what holds since f0. */
  lemma {:induction false} BlockHung(sb: Super, f0: Forest, g: Forest, h: Forest, t: Path, p: Path, nb: Word32,
      l0: set<nat>, l1: set<nat>, l2: set<nat>)
    requires Hanging(sb, f0, g, h, t, p, nb, l0, l1, l2)
    ensures WF(h, sb.datastart) && Grown(f0, h, t) && Ptr(h, p) == nb
    ensures LogsPath(sb, f0, h, t, l0, l2) && Journaled(sb.bmapstart, f0.disk, h.disk, l0, l2)
  {
    AttachAll(f0, g, h, sb.datastart, t, p, nb);
    BitmapBlock(sb, h.disk, nb);
    JournaledTrans(sb.bmapstart, f0.disk, g.disk, h.disk, l0, l1, l2);
    LogsMore(sb, f0, g, h, t, p, nb, l0, l1, l2, sb.bmapstart + nb / BPB);
  }

  lemma {:induction false} BitmapBlock(sb: Super, d: seq<Block>, b: nat)
    requires Layout(sb, d) && b < sb.size
    ensures InBitmap(sb, sb.bmapstart + b / BPB)
  {
    assert b / BPB <= (sb.size - 1) / BPB;
  }

  lemma {:induction false} FileBlocksAreData(f: Forest, lo: nat, ip: nat)
    requires WF(f, lo) && ip < |f.addrs|
    ensures forall b :: b in UnderSlots(f, ip, NSLOTS) ==> lo <= b
  {
    forall b | b in UnderSlots(f, ip, NSLOTS) ensures lo <= b {
      var s := SlotsWitness(f, ip, NSLOTS, b);
    }
  }

  /** balloc left disk d; storing its block in the index block completes the attachment. */
  lemma {:induction false} StoreEntry(sb: Super, g: Forest, d: seq<Block>, q: Path, i: nat, nb: Word32, l0: set<nat>,
      l1: set<nat>)
    requires Shaped(g) && Tree.Valid(|g.addrs|, Entry(q, i)) && Ptr(g, Entry(q, i)) == 0
    requires sb.datastart <= Ptr(g, q) < |g.disk| && Ptr(g, q) in g.used
    requires Layout(sb, d) && |d| == |g.disk| && sb.datastart <= nb < |d| && nb !in g.used
    requires d[nb] == Zeroed() && UsedSet(sb, d) == g.used + {nb as nat}
    requires forall b :: sb.datastart <= b < sb.size && b != nb ==> d[b] == g.disk[b]
    requires Journaled(sb.bmapstart, g.disk, d, l0, l1)
    ensures var a := Ptr(g, q);
            && sb.datastart <= a < |d|
            && var d' := d[a := SetWord(d[a], i, nb)];
            && Layout(sb, d') && UsedSet(sb, d') == UsedSet(sb, d)
            && Attached(g, Forest(g.addrs, d', UsedSet(sb, d')), sb.datastart, Entry(q, i), nb)
            && Journaled(sb.bmapstart, g.disk, d', l0, l1 + {a as nat})
  {
    var a := Ptr(g, q);
    SameBitmap(sb, d, d[a := SetWord(d[a], i, nb)]);
  }

  /** The bitmap lies below the data area. */
  lemma {:induction false} SameBitmap(sb: Super, d: seq<Block>, d': seq<Block>)
    requires Layout(sb, d) && |d'| == |d| && forall b :: sb.bmapstart <= b < sb.datastart ==> d'[b] == d[b]
    ensures Layout(sb, d') && UsedSet(sb, d') == UsedSet(sb, d)
  {
    forall b: nat | b < sb.size ensures Marked(sb, d', b) == Marked(sb, d, b) {
      assert b / BPB <= (sb.size - 1) / BPB;
    }
  }
}
