/** The log code itself: global log state and disk updated in place, the copy loops
    of write_log, install_trans and recovery, and admission of operations. */
module Log {
  import opened Blocks
  import opened LogDisk
  import opened LogMachine

  lemma {:induction false} RecoverPasses(L: Layout, d: Disk)
    requires Formatted(L, d)
    ensures var ws, u := RecoverWrites(L, d), InstallWrites(Header(L, d), Images(L, d));
            && InRange(d, u)
            && After(d, u, |u|)[L.start] == d[L.start]
            && After(d, ws, |ws|) == After(d, u, |u|)[L.start := PutHeader(d[L.start], [])]
  {
    var bs, im := Header(L, d), Images(L, d);
    InstallPass(L, d, bs, im, InstallWrites(bs, im), 0, |bs|);
    AfterOne(d, InstallWrites(bs, im), Write(L.start, PutHeader(d[L.start], [])));
  }

  lemma {:induction false} Regroup(t: seq<Write>, u: seq<Write>, x: Write, v: seq<Write>, y: Write)
    ensures t + u + [x] + v + [y] == t + (u + [x] + v + [y])
  {
  }

  lemma {:induction false} Rejoin(t: seq<Write>, v: seq<Write>, y: Write)
    ensures t + v + [y] == t + (v + [y])
  {
  }

  lemma {:induction false} UnpinOne(m: map<Word32, Block>, bs: seq<Word32>, k: nat)
    requires k < |bs|
    ensures m - Listed(bs, k) - {bs[k]} == m - Listed(bs, k + 1)
  {
    assert Listed(bs, k + 1) == Listed(bs, k) + {bs[k]};
  }

  /** Installing a home block leaves the images in the log area alone. */
  lemma {:induction false} InstallKeepsImages(L: Layout, e: Disk, bs: seq<Word32>, im: seq<Block>, k: nat)
    requires L.start + L.size <= |e| && Transaction(L, |e|, bs) && |im| == |bs| && k < |bs| && Imaged(L, e, im, |bs|)
    ensures e[L.start + 1 + k] == im[k]
    ensures Imaged(L, e[bs[k] := im[k]], im, |bs|)
  {
    assert Home(L, bs[k]);
    assert e[L.start + 1 + k] == im[k];
  }

  class Log {
    const layout: Layout
    var disk: Disk
    ghost var trace: seq<Write>        // every single-block write so far
    var cache: map<Word32, Block>      // buffers pinned by B_DIRTY
    var n: nat                         // log.lh.n
    var block: seq<Word32>             // log.lh.block, LOGSIZE entries
    var outstanding: int
    var committing: bool

    /** The block numbers of the open transaction. */
    ghost function Lh(): seq<Word32>
      requires n <= |block|
      reads this
    {
      block[..n]
    }

    ghost predicate Valid()
      reads this
    {
      && |block| == LOGSIZE && n <= LOGSIZE
      && layout.start + layout.size <= |disk| && 0 < layout.size
      && Transaction(layout, |disk|, Lh())
    }

    /** bwrite: one block reaches the disk. */
    method BlockWrite(addr: nat, data: Block)
      requires addr < |disk|
      modifies this`disk, this`trace
      ensures disk == old(disk)[addr := data]
      ensures trace == old(trace) + [Write(addr, data)]
    {
      disk := disk[addr := data];
      trace := trace + [Write(addr, data)];
    }

    method WriteLog()
      requires Valid() && Pinned(Lh(), cache)
      modifies this`disk, this`trace
      ensures var ws := LogWrites(layout, CacheImages(Lh(), cache));
              && InRange(old(disk), ws) && disk == After(old(disk), ws, |ws|)
              && trace == old(trace) + ws
    {
      ghost var ws := LogWrites(layout, CacheImages(Lh(), cache));
      var tail := 0;
      while tail < n
        invariant 0 <= tail <= n && |disk| == |old(disk)|
        invariant InRange(old(disk), ws) && disk == After(old(disk), ws, tail)
        invariant trace == old(trace) + ws[..tail]
      {
        BlockWrite(layout.start + tail + 1, cache[block[tail]]);
        tail := tail + 1;
      }
    }

    method WriteHead()
      requires Valid()
      modifies this`disk, this`trace
      ensures var h := PutHeader(old(disk)[layout.start], Lh());
              disk == old(disk)[layout.start := h] && trace == old(trace) + [Write(layout.start, h)]
    {
      var h := SetWord(disk[layout.start], 0, n);
      var i := 0;
      while i < n
        invariant 0 <= i <= n
        invariant h == PutEntries(SetWord(disk[layout.start], 0, n), Lh(), i)
      {
        h := SetWord(h, i + 1, block[i]);
        i := i + 1;
      }
      BlockWrite(layout.start, h);
    }

    method ReadHead()
      requires |block| == LOGSIZE && Formatted(layout, disk)
      modifies this`n, this`block
      ensures Valid() && Lh() == Header(layout, disk)
    {
      var h := disk[layout.start];
      n := Word(h, 0);
      var i := 0;
      while i < n
        invariant 0 <= i <= n == Word(h, 0)
        invariant |block| == LOGSIZE && block[..i] == HeaderOf(h)[..i]
      {
        block := block[i := Word(h, i + 1)];
        i := i + 1;
      }
      assert block[..n] == HeaderOf(h);
    }

    /** One turn of install_trans: copy an image home, which also unpins the buffer. */
    method InstallBlock(tail: nat, ghost im: seq<Block>)
      requires Valid() && |im| == n && Imaged(layout, disk, im, n) && tail < n
      modifies this`disk, this`trace, this`cache
      ensures disk == old(disk)[block[tail] := im[tail]]
      ensures trace == old(trace) + [Write(block[tail], im[tail])]
      ensures cache == old(cache) - {block[tail]}
      ensures Imaged(layout, disk, im, n)
    {
      InstallKeepsImages(layout, disk, Lh(), im, tail);
      BlockWrite(block[tail], disk[layout.start + tail + 1]);
      cache := cache - {block[tail]};
    }

    /** Copy the log area to the home blocks; each write also unpins its buffer. */
    method InstallTrans(ghost im: seq<Block>)
      requires Valid() && |im| == n && Imaged(layout, disk, im, n)
      modifies this`disk, this`trace, this`cache
      ensures var ws := InstallWrites(Lh(), im);
              && InRange(old(disk), ws) && disk == After(old(disk), ws, |ws|)
              && trace == old(trace) + ws
      ensures cache == old(cache) - Listed(Lh(), n)
    {
      ghost var ws := InstallWrites(Lh(), im);
      var tail := 0;
      while tail < n
        invariant 0 <= tail <= n && InRange(old(disk), ws)
        invariant Installed(old(disk), old(trace), old(cache), ws, im, tail)
      {
        InstallTurn(tail, im, ws, old(disk), old(trace), old(cache));
        tail := tail + 1;
      }
    }

    /** The first k install writes are done, and their blocks unpinned. */
    ghost predicate Installed(d: Disk, t: seq<Write>, c: map<Word32, Block>, ws: seq<Write>, im: seq<Block>, k: nat)
      requires InRange(d, ws) && k <= |ws|
      reads this
    {
      && k <= n <= |block| && |im| == n && layout.start + |im| < |disk| == |d|
      && disk == After(d, ws, k) && trace == t + ws[..k]
      && Imaged(layout, disk, im, n)
      && cache == c - Listed(Lh(), k)
    }

    method InstallTurn(tail: nat, ghost im: seq<Block>, ghost ws: seq<Write>,
        ghost d: Disk, ghost t: seq<Write>, ghost c: map<Word32, Block>)
      requires Valid() && tail < n == |im| && ws == InstallWrites(Lh(), im) && InRange(d, ws)
      requires Installed(d, t, c, ws, im, tail)
      modifies this`disk, this`trace, this`cache
      ensures Valid() && Installed(d, t, c, ws, im, tail + 1)
    {
      UnpinOne(c, Lh(), tail);
      InstallBlock(tail, im);
      assert ws[..tail + 1] == ws[..tail] + [ws[tail]];
    }

    /** commit(): the disk writes are exactly CommitWrites, in that order. */
    method Commit()
      requires Valid() && Pinned(Lh(), cache)
      modifies this`disk, this`trace, this`cache, this`n
      ensures Valid() && n == 0
      ensures var ws := CommitWrites(layout, old(disk), old(Lh()), CacheImages(old(Lh()), old(cache)));
              && disk == After(old(disk), ws, |ws|)
              && trace == old(trace) + ws
      ensures cache == old(cache) - Listed(old(Lh()), old(n))
    {
      if n > 0 {
        ghost var d, t, bs, im := disk, trace, Lh(), CacheImages(Lh(), cache);
        ghost var h := PutHeader(d[layout.start], bs);
        ghost var u, v := LogWrites(layout, im), InstallWrites(bs, im);
        ghost var x, y := Write(layout.start, h), Write(layout.start, PutHeader(h, []));
        CommitPasses(layout, d, bs, im, h);
        WriteLog();
        WriteHead();
        assert disk == After(d, u, |u|)[layout.start := h] && trace == t + u + [x];
        InstallTrans(im);
        assert trace == t + u + [x] + v && cache == old(cache) - Listed(bs, old(n));
        n := 0;
        assert Lh() == [];
        WriteHead();
        assert trace == t + u + [x] + v + [y];
        Regroup(t, u, x, v, y);
        AfterPasses(d, u, x, v, y);
      }
    }

    /** recover_from_log(): the disk writes are exactly RecoverWrites. */
    method RecoverFromLog()
      requires |block| == LOGSIZE && Formatted(layout, disk)
      modifies this`disk, this`trace, this`cache, this`n, this`block
      ensures Valid() && n == 0
      ensures var ws := RecoverWrites(layout, old(disk));
              disk == After(old(disk), ws, |ws|) && trace == old(trace) + ws
    {
      ghost var d, t := disk, trace;
      ReadHead();
      ghost var im := Images(layout, d);
      ghost var v, y := InstallWrites(Header(layout, d), im), Write(layout.start, PutHeader(d[layout.start], []));
      InstallTrans(im);
      RecoverPasses(layout, d);
      assert disk == After(d, v, |v|) && trace == t + v;
      n := 0;
      WriteHead();
      assert trace == t + v + [y];
      Rejoin(t, v, y);
    }

    /** One pass of begin_op's loop under log.lock: admitted, or sent back to sleep. */
    method BeginOp() returns (admitted: bool)
      requires Valid()
      modifies this`outstanding
      ensures admitted <==> !committing && n + (old(outstanding) + 1) * MAXOPBLOCKS <= LOGSIZE
      ensures outstanding == old(outstanding) + if admitted then 1 else 0
    {
      if committing {
        return false;
      } else if n + (outstanding + 1) * MAXOPBLOCKS > LOGSIZE {
        return false;
      } else {
        outstanding := outstanding + 1;
        return true;
      }
    }

    /** end_op: the last operation out commits; Lh() becomes durable or stays open. */
    method EndOp() returns (panic: bool)
      requires Valid() && Pinned(Lh(), cache)
      modifies this`disk, this`trace, this`cache, this`n, this`outstanding, this`committing
      ensures Valid()
      ensures panic == old(committing)
      ensures outstanding == old(outstanding) - 1
      ensures !panic && outstanding == 0 ==>
        var ws := CommitWrites(layout, old(disk), old(Lh()), CacheImages(old(Lh()), old(cache)));
        && n == 0 && !committing
        && disk == After(old(disk), ws, |ws|) && trace == old(trace) + ws
      ensures panic || outstanding != 0 ==>
        n == old(n) && disk == old(disk) && trace == old(trace) && cache == old(cache) && committing == old(committing)
    {
      panic := false;
      outstanding := outstanding - 1;
      if committing {
        return true;
      }
      if outstanding == 0 {
        committing := true;
        Commit();
        committing := false;
      }
    }

    /** log_write: absorb or append the block number and pin the buffer. */
    method LogWrite(b: Word32, data: Block) returns (panic: bool)
      requires Valid() && b < |disk| && Home(layout, b)
      modifies this`n, this`cache, this`block
      ensures Valid()
      ensures panic <==> TooBig(layout, old(Lh())) || outstanding < 1
      ensures panic ==> Lh() == old(Lh()) && cache == old(cache)
      ensures !panic ==> Lh() == Absorb(old(Lh()), b) && cache == old(cache)[b := data]
    {
      if n >= LOGSIZE || n >= layout.size - 1 {
        return true;
      }
      if outstanding < 1 {
        return true;
      }
      var i := 0;
      while i < n && block[i] != b
        invariant 0 <= i <= n
        invariant b !in block[..i]
      {
        i := i + 1;
      }
      block := block[i := b];
      if i == n {
        n := n + 1;
        assert Lh() == old(Lh()) + [b];
      } else {
        assert old(Lh())[i] == b;
        assert Lh() == old(Lh());
      }
      cache := cache[b := data];
      return false;
    }
  }
}
