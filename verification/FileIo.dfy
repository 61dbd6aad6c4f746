/** readi, writei, pwritei and the chunk loops of file.c, against flat byte arrays. */
module FileIo {
  import opened Blocks
  import opened Bitmap
  import opened Tree
  import opened TreeLog
  import opened ChunkLog
  import opened Inodes
  import opened Fs
  import opened FileSpec

  /** What every file keeps: all blocks below its size are mapped, and every byte
      past its size is zero. */
  ghost predicate FileOk(f: Forest, ip: nat, n: nat)
    requires Shaped(f) && ip < |f.addrs|
  {
    && n <= MAXBYTES
    && Mapped(f, ip, n)
    && forall i: nat {:trigger ByteAt(f, ip, i)} :: n <= i && i / BSIZE < MAXFILE ==> ByteAt(f, ip, i) == 0
  }

  ghost predicate FilesOk(f: Forest, size: seq<nat>)
    requires Shaped(f) && |size| == |f.addrs|
  {
    forall ip: nat {:trigger size[ip]} :: ip < |size| ==> FileOk(f, ip, size[ip])
  }

  ghost predicate Ready(fs: FileSystem)
    reads fs
  {
    fs.Valid() && FilesOk(fs.View(), fs.size)
  }

  /** The file of inode ip as a byte array. */
  ghost function Content(f: Forest, ip: nat, n: nat): (c: seq<Byte>)
    requires Shaped(f) && ip < |f.addrs| && n <= MAXBYTES
    ensures |c| == n
    ensures forall i :: 0 <= i < n ==> i / BSIZE < MAXFILE && c[i] == ByteAt(f, ip, i)
  {
    seq(n, i requires 0 <= i < n => ByteAt(f, ip, i))
  }

  lemma {:induction false} InBlock(off: nat, k: nat)
    requires off % BSIZE + k < BSIZE
    ensures (off + k) / BSIZE == off / BSIZE && (off + k) % BSIZE == off % BSIZE + k
  {
  }

  /** Bytes of a file within one block are a slice of that block. */
  lemma {:induction false} SliceOfBlock(f: Forest, ip: nat, n: nat, off: nat, m: nat)
    requires Shaped(f) && ip < |f.addrs| && off + m <= n <= MAXBYTES && off / BSIZE < MAXFILE
      && off % BSIZE + m <= BSIZE
    requires Tree.Valid(|f.addrs|, PathOf(ip, off / BSIZE)) && 0 < Ptr(f, PathOf(ip, off / BSIZE)) < |f.disk|
    ensures Content(f, ip, n)[off..off + m] == f.disk[Ptr(f, PathOf(ip, off / BSIZE))][off % BSIZE..off % BSIZE + m]
  {
    var l, r := Content(f, ip, n)[off..off + m], f.disk[Ptr(f, PathOf(ip, off / BSIZE))][off % BSIZE..off % BSIZE + m];
    forall k | 0 <= k < m ensures l[k] == r[k] {
      InBlock(off, k);
      assert l[k] == ByteAt(f, ip, off + k);
    }
  }

  /** One turn of readi's loop: the block is mapped, so bmap allocates nothing. */
  method ReadBlock(fs: FileSystem, ip: nat, off: nat, m: nat) returns (bytes: seq<Byte>)
    requires fs.Valid() && ip < |fs.addrs| && FileOk(fs.View(), ip, fs.size[ip])
    requires off + m <= fs.size[ip] && 0 < m && off % BSIZE + m <= BSIZE
    modifies fs
    ensures unchanged(fs)
    ensures bytes == Content(fs.View(), ip, fs.size[ip])[off..off + m]
  {
    ghost var f, p := fs.View(), PathOf(ip, off / BSIZE);
    assert off / BSIZE * BSIZE < fs.size[ip];
    assert Ptr(f, p) != 0;
    var b := fs.Bmap(ip, off / BSIZE);
    bytes := fs.disk[b.value][off % BSIZE..off % BSIZE + m];
    SliceOfBlock(f, ip, fs.size[ip], off, m);
  }

  lemma {:induction false} SlicesJoin(c: seq<Byte>, i: nat, j: nat, k: nat)
    requires i <= j <= k <= |c|
    ensures c[i..j] + c[j..k] == c[i..k]
  {
  }

  /** The next m bytes, after those from off0 to off. */
  method ReadTurn(fs: FileSystem, ip: nat, ghost off0: nat, off: nat, m: nat, dst: seq<Byte>) returns (more: seq<Byte>)
    requires fs.Valid() && ip < |fs.addrs| && FileOk(fs.View(), ip, fs.size[ip])
    requires off0 <= off && off + m <= fs.size[ip] && 0 < m && off % BSIZE + m <= BSIZE
    requires dst == Content(fs.View(), ip, fs.size[ip])[off0..off]
    modifies fs
    ensures unchanged(fs)
    ensures more == Content(fs.View(), ip, fs.size[ip])[off0..off + m]
  {
    ghost var c := Content(fs.View(), ip, fs.size[ip]);
    var bytes := ReadBlock(fs, ip, off, m);
    SlicesJoin(c, off0, off, off + m);
    more := dst + bytes;
  }

  /** readi's loop. */
  method ReadLoop(fs: FileSystem, ip: nat, off0: nat, n: nat) returns (dst: seq<Byte>)
    requires fs.Valid() && ip < |fs.addrs| && FileOk(fs.View(), ip, fs.size[ip])
    requires off0 + n <= fs.size[ip]
    modifies fs
    ensures unchanged(fs)
    ensures dst == Content(fs.View(), ip, fs.size[ip])[off0..off0 + n]
  {
    dst := [];
    var tot: nat, off: nat := 0, off0;
    while tot < n
      invariant unchanged(fs)
      invariant tot <= n && off == off0 + tot
      invariant dst == Content(fs.View(), ip, fs.size[ip])[off0..off]
    {
      var m := Min(n - tot, BSIZE - off % BSIZE);
      assert 0 < m;
      dst := ReadTurn(fs, ip, off0, off, m, dst);
      tot := tot + m;
      off := off + m;
    }
  }

  /** readi: the bytes from off clipped at the size, with nothing allocated. */
  method Readi(fs: FileSystem, ip: nat, off: Word32, n0: Word32) returns (r: Reply)
    requires Ready(fs) && ip < |fs.addrs|
    modifies fs
    ensures unchanged(fs)
    ensures fs.size[ip] <= MAXBYTES
    ensures r == ReadReply(Content(fs.View(), ip, fs.size[ip]), off, n0)
    ensures var c := Content(fs.View(), ip, fs.size[ip]);
      if off > |c| || off + n0 >= 0x1_0000_0000 then r == Error
      else
        && r.Data? && |r.bytes| == (if n0 < |c| - off then n0 else |c| - off)
        && forall i :: 0 <= i < |r.bytes| ==> r.bytes[i] == c[off + i]
  {
    var n: nat := n0;
    assert FileOk(fs.View(), ip, fs.size[ip]);
    if off > fs.size[ip] || (off + n) % 0x1_0000_0000 < off {
      return Error;
    }
    if off + n > fs.size[ip] {
      n := fs.size[ip] - off;
    }
    var dst := ReadLoop(fs, ip, off, n);
    return Data(dst);
  }

  // ---- Writing ----

  /** Every byte of every file as in f, except that src lies at off in file ip. */
  ghost predicate Patched(f: Forest, f': Forest, ip: nat, off: nat, src: seq<Byte>)
    requires Shaped(f) && Shaped(f')
  {
    && |f'.addrs| == |f.addrs|
    && forall jp: nat, i: nat {:trigger BytePatched(f, f', ip, off, src, jp, i)} ::
      jp < |f.addrs| && i / BSIZE < MAXFILE ==>
      BytePatched(f, f', ip, off, src, jp, i)
  }

  ghost predicate BytePatched(f: Forest, f': Forest, ip: nat, off: nat, src: seq<Byte>, jp: nat, i: nat)
    requires Shaped(f) && Shaped(f') && |f'.addrs| == |f.addrs| && jp < |f.addrs| && i / BSIZE < MAXFILE
  {
    ByteAt(f', jp, i) == if jp == ip && off <= i < off + |src| then src[i - off] else ByteAt(f, jp, i)
  }

  lemma {:induction false} PatchedTrans(f: Forest, g: Forest, h: Forest, ip: nat, off: nat, a: seq<Byte>, b: seq<Byte>)
    requires Shaped(f) && Shaped(g) && Shaped(h)
    requires Patched(f, g, ip, off, a) && Patched(g, h, ip, off + |a|, b)
    ensures Patched(f, h, ip, off, a + b)
  {
    forall jp: nat, i: nat | jp < |f.addrs| && i / BSIZE < MAXFILE
      ensures BytePatched(f, h, ip, off, a + b, jp, i)
    {
      assert BytePatched(f, g, ip, off, a, jp, i) && BytePatched(g, h, ip, off + |a|, b, jp, i);
    }
  }

  function Patch(b: Block, o: nat, src: seq<Byte>): (r: Block)
    requires o + |src| <= BSIZE
  {
    b[..o] + src + b[o + |src|..]
  }

  /** Overwriting part of one data block, as memmove into the buffer does. */
  lemma {:induction false} PatchBlock(f: Forest, f': Forest, lo: nat, ip: nat, off: nat, src: seq<Byte>)
    requires WF(f, lo) && ip < |f.addrs| && off / BSIZE < MAXFILE && off % BSIZE + |src| <= BSIZE
    requires Tree.Valid(|f.addrs|, PathOf(ip, off / BSIZE)) && 0 < Ptr(f, PathOf(ip, off / BSIZE)) < |f.disk|
    requires var p := PathOf(ip, off / BSIZE);
             Tree.Written(f, f', p, Patch(f.disk[Ptr(f, p)], off % BSIZE, src))
    ensures WF(f', lo) && Patched(f, f', ip, off, src) && KeepsPtrs(f, f')
  {
    var p := PathOf(ip, off / BSIZE);
    var was := f.disk[Ptr(f, p)];
    var data := Patch(was, off % BSIZE, src);
    WrittenWF(f, f', lo, p, data);
    forall s | Tree.Valid(|f.addrs|, s) && Ptr(f, s) != 0 ensures Ptr(f', s) == Ptr(f, s) {
      WrittenPtr(f, f', lo, p, data, s);
    }
    forall jp: nat, i: nat | jp < |f.addrs| && i / BSIZE < MAXFILE
      ensures BytePatched(f, f', ip, off, src, jp, i)
    {
      WrittenBytes(f, f', lo, p, data, jp, i);
      if PathOf(jp, i / BSIZE) == p {
        PathOfInjective(jp, i / BSIZE, ip, off / BSIZE);
        PatchedByte(was, off, src, i);
      } else {
        assert jp == ip && off <= i < off + |src| ==> i / BSIZE == off / BSIZE by {
          if off <= i < off + |src| { InBlock(off, i - off); }
        }
      }
    }
  }

  lemma {:induction false} PatchedByte(b: Block, off: nat, src: seq<Byte>, i: nat)
    requires off % BSIZE + |src| <= BSIZE && i / BSIZE == off / BSIZE
    ensures Patch(b, off % BSIZE, src)[i % BSIZE] == if off <= i < off + |src| then src[i - off] else b[i % BSIZE]
  {
    assert i - off == i % BSIZE - off % BSIZE;
  }

  /** Growing the tree is a patch of no bytes. */
  lemma {:induction false} GrownIsPatched(f: Forest, f': Forest, t: Path, ip: nat, off: nat)
    requires Shaped(f) && Shaped(f') && Grown(f, f', t)
    ensures Patched(f, f', ip, off, []) && KeepsPtrs(f, f')
  {
  }

  /** src has been written inside the block at off, which is mapped and, like the index
      blocks it took, logged. */
  ghost predicate BlockDone(sb: Super, g: Forest, h: Forest, ip: nat, off: nat, src: seq<Byte>, l1: set<nat>,
      l2: set<nat>)
    requires Shaped(g) && Shaped(h) && |h.addrs| == |g.addrs| && off / BSIZE < MAXFILE
      && Tree.Valid(|h.addrs|, PathOf(ip, off / BSIZE))
  {
    && Patched(g, h, ip, off, src) && KeepsPtrs(g, h)
    && Ptr(h, PathOf(ip, off / BSIZE)) != 0
    && LogsBlock(sb, g, h, PathOf(ip, off / BSIZE), l1, l2)
    && Journaled(sb.bmapstart, g.disk, h.disk, l1, l2)
    && OthersSame(g.addrs, h.addrs, ip)
    && (Ptr(g, PathOf(ip, off / BSIZE)) != 0 ==> h.addrs == g.addrs)
  }

  /** One turn of the write loop: map the block, overwrite part of it, log it. */
  method WriteBlock(fs: FileSystem, ip: nat, off: nat, src: seq<Byte>) returns (o: Outcome<()>)
    requires fs.Valid() && ip < |fs.addrs| && off / BSIZE < MAXFILE && off % BSIZE + |src| <= BSIZE
    modifies fs`disk, fs`addrs, fs`logged
    ensures fs.Valid() && |fs.addrs| == |old(fs.addrs)|
    ensures o.Ok? || (o.OutOfBlocks? && fs.Full())
    ensures Tree.Valid(|fs.addrs|, PathOf(ip, off / BSIZE))
    ensures o.Ok? ==> BlockDone(fs.sb, old(fs.View()), fs.View(), ip, off, src, old(fs.logged), fs.logged)
    ensures Ptr(old(fs.View()), PathOf(ip, off / BSIZE)) != 0 ==> o.Ok?
  {
    ghost var f, l0 := fs.View(), fs.logged;
    var b := fs.Bmap(ip, off / BSIZE);
    if b.OutOfBlocks? {
      return OutOfBlocks;
    }
    ghost var p, g, l1 := PathOf(ip, off / BSIZE), fs.View(), fs.logged;
    StoreBlock(fs, b.value, ip, off, src);
    MapThenStore(fs.sb, f, g, fs.View(), p, ip, off, src, l0, l1, fs.logged);
    JournaledTrans(fs.sb.bmapstart, f.disk, g.disk, fs.disk, l0, l1, fs.logged);
    return Ok(());
  }

  lemma {:induction false} MapThenStore(sb: Super, f: Forest, g: Forest, h: Forest, p: Path, ip: nat, off: nat,
      src: seq<Byte>, l0: set<nat>, l1: set<nat>, l2: set<nat>)
    requires Shaped(f) && Shaped(g) && Shaped(h) && Grown(f, g, p) && Tree.Valid(|f.addrs|, p) && Ptr(g, p) != 0
    requires Patched(g, h, ip, off, src) && KeepsPtrs(g, h)
    requires LogsPath(sb, f, g, p, l0, l1) && l2 == l1 + {Ptr(g, p) as nat}
    ensures Patched(f, h, ip, off, src) && KeepsPtrs(f, h) && LogsBlock(sb, f, h, p, l0, l2)
  {
    GrownIsPatched(f, g, p, ip, off);
    PatchedTrans(f, g, h, ip, off, [], src);
    assert [] + src == src;
    KeepsPtrsTrans(f, g, h);
    LogsStore(sb, f, g, h, p, l0, l1, l2);
  }

  /** memmove into the buffer of a mapped block, and log_write. */
  method StoreBlock(fs: FileSystem, a: Word32, ip: nat, off: nat, src: seq<Byte>)
    requires fs.Valid() && ip < |fs.addrs| && off / BSIZE < MAXFILE && off % BSIZE + |src| <= BSIZE
    requires Tree.Valid(|fs.addrs|, PathOf(ip, off / BSIZE)) && a == Ptr(fs.View(), PathOf(ip, off / BSIZE)) != 0
    modifies fs`disk, fs`logged
    ensures fs.Valid()
    ensures Patched(old(fs.View()), fs.View(), ip, off, src)
    ensures KeepsPtrs(old(fs.View()), fs.View())
    ensures fs.logged == old(fs.logged) + {a as nat}
    ensures Journaled(fs.sb.bmapstart, old(fs.disk), fs.disk, old(fs.logged), fs.logged)
  {
    ghost var p, g := PathOf(ip, off / BSIZE), fs.View();
    PathOfIsLeaf(|fs.addrs|, ip, off / BSIZE);
    fs.disk := fs.disk[a := Patch(fs.disk[a], off % BSIZE, src)];
    fs.logged := fs.logged + {a as nat};
    SameBitmap(fs.sb, g.disk, fs.disk);
    assert Tree.Written(g, fs.View(), p, Patch(g.disk[a], off % BSIZE, src));
    PatchBlock(g, fs.View(), fs.sb.datastart, ip, off, src);
  }

  lemma {:induction false} MappedExtend(f: Forest, f': Forest, ip: nat, off: nat, m: nat)
    requires Shaped(f) && Shaped(f') && ip < |f.addrs| && KeepsPtrs(f, f') && Mapped(f, ip, off)
    requires off / BSIZE < MAXFILE && off % BSIZE + m <= BSIZE
    requires Tree.Valid(|f'.addrs|, PathOf(ip, off / BSIZE)) && Ptr(f', PathOf(ip, off / BSIZE)) != 0
    ensures Mapped(f', ip, off + m)
  {
    forall bn: nat | bn < MAXFILE && bn * BSIZE < off + m
      ensures Tree.Valid(|f'.addrs|, PathOf(ip, bn)) && Ptr(f', PathOf(ip, bn)) != 0
    {
      if bn * BSIZE < off {
        assert Ptr(f, PathOf(ip, bn)) != 0;
      } else {
        assert bn == off / BSIZE;
      }
    }
  }

  lemma {:induction false} MappedPtr(f: Forest, g: Forest, ip: nat, n: nat, off: nat)
    requires Shaped(f) && Shaped(g) && ip < |f.addrs| && KeepsPtrs(f, g) && Mapped(f, ip, n) && off < n
      && off / BSIZE < MAXFILE
    ensures Tree.Valid(|g.addrs|, PathOf(ip, off / BSIZE)) && Ptr(g, PathOf(ip, off / BSIZE)) != 0
  {
    assert off / BSIZE * BSIZE < n;
    assert Ptr(f, PathOf(ip, off / BSIZE)) != 0;
  }

  /** The first tot bytes of src have been written and their blocks are mapped. */
  ghost predicate WrittenTo(f: Forest, g: Forest, ip: nat, off: nat, src: seq<Byte>, tot: nat)
    requires Shaped(f) && Shaped(g) && ip < |f.addrs| && tot <= |src|
  {
    Patched(f, g, ip, off, src[..tot]) && KeepsPtrs(f, g) && Mapped(g, ip, off + tot)
  }

  lemma {:induction false} WriteStep(f: Forest, g: Forest, h: Forest, ip: nat, off: nat, src: seq<Byte>, tot: nat,
      m: nat)
    requires Shaped(f) && Shaped(g) && Shaped(h) && ip < |f.addrs| && tot + m <= |src| && off + tot + m <= MAXBYTES
    requires WrittenTo(f, g, ip, off, src, tot)
    requires (off + tot) / BSIZE < MAXFILE && (off + tot) % BSIZE + m <= BSIZE
    requires Patched(g, h, ip, off + tot, src[tot..tot + m]) && KeepsPtrs(g, h)
    requires Tree.Valid(|h.addrs|, PathOf(ip, (off + tot) / BSIZE)) && Ptr(h, PathOf(ip, (off + tot) / BSIZE)) != 0
    ensures WrittenTo(f, h, ip, off, src, tot + m)
  {
    PatchedTrans(f, g, h, ip, off, src[..tot], src[tot..tot + m]);
    assert src[..tot] + src[tot..tot + m] == src[..tot + m];
    KeepsPtrsTrans(f, g, h);
    MappedExtend(g, h, ip, off + tot, m);
  }

  /** Since f and l0, a chunk of n bytes has changed only blocks it logged, of the bitmap or
      the data area, and slots of ip; if it is no longer than filewrite's chunks, those are
      bitmap blocks and blocks of the positions c. */
  ghost predicate ChunkLogs(sb: Super, f: Forest, h: Forest, ip: nat, n: nat, c: seq<Path>, l0: set<nat>, l1: set<nat>)
    requires Shaped(h)
  {
    && Journaled(sb.bmapstart, f.disk, h.disk, l0, l1)
    && OthersSame(f.addrs, h.addrs, ip)
    && (0 < n <= CHUNK ==> LogsIn(sb, h, c, l0, l1))
  }

  /** c are the eight candidate positions of a chunk of n bytes at off. */
  ghost predicate Around(c: seq<Path>, ip: nat, off: nat, n: nat) {
    forall b0: nat, b1: nat {:trigger Candidates(ip, b0, b1)} ::
      0 < n <= CHUNK && b0 == off / BSIZE && b1 == (off + n - 1) / BSIZE && b0 <= b1 < MAXFILE ==>
        c == Candidates(ip, b0, b1)
  }

  /** One more block of the chunk. */
  lemma {:induction false} ChunkLogsStep(sb: Super, f: Forest, g: Forest, h: Forest, ip: nat, off: nat, n: nat,
      tot: nat, c: seq<Path>, l0: set<nat>, l1: set<nat>, l2: set<nat>)
    requires Shaped(g) && Shaped(h) && ip < |g.addrs| && KeepsPtrs(g, h) && tot < n && off + n <= MAXBYTES
    requires (off + tot) / BSIZE < MAXFILE && Mapped(g, ip, off + tot) && Around(c, ip, off, n)
    requires Tree.Valid(|h.addrs|, PathOf(ip, (off + tot) / BSIZE))
    requires ChunkLogs(sb, f, g, ip, n, c, l0, l1) && LogsBlock(sb, g, h, PathOf(ip, (off + tot) / BSIZE), l1, l2)
    requires Journaled(sb.bmapstart, g.disk, h.disk, l1, l2) && OthersSame(g.addrs, h.addrs, ip)
    ensures ChunkLogs(sb, f, h, ip, n, c, l0, l2)
  {
    JournaledTrans(sb.bmapstart, f.disk, g.disk, h.disk, l0, l1, l2);
    if n <= CHUNK {
      var b0, bn, b1 := off / BSIZE, (off + tot) / BSIZE, (off + n - 1) / BSIZE;
      assert b0 <= bn <= b1 <= b0 + 3;
      assert bn * BSIZE <= off + tot;
      LogsStep(sb, g, h, ip, b0, b1, bn, l0, l1, l2);
    }
  }

  /** What the copy loop is to do, the trees and logged blocks it started from, and the
      positions whose blocks it may log. */
  datatype Job = Job(ip: nat, off: nat, src: seq<Byte>, f: Forest, l0: set<nat>, c: seq<Path>)

  ghost predicate JobOk(j: Job) {
    Shaped(j.f) && j.ip < |j.f.addrs| && j.off + |j.src| <= MAXBYTES && Around(j.c, j.ip, j.off, |j.src|)
  }

  /** Where the copy loop stands after tot bytes. */
  ghost predicate Progress(sb: Super, j: Job, g: Forest, tot: nat, l1: set<nat>)
    requires JobOk(j) && Shaped(g) && tot <= |j.src|
  {
    match j
    case Job(ip, off, src, f, l0, c) =>
      && WrittenTo(f, g, ip, off, src, tot) && ChunkLogs(sb, f, g, ip, |src|, c, l0, l1)
      && (Mapped(f, ip, off + |src|) ==> g.addrs == f.addrs)
  }

  lemma {:induction false} NewJob(ip: nat, off: nat, src: seq<Byte>, f: Forest, l0: set<nat>) returns (j: Job)
    requires off + |src| <= MAXBYTES
    ensures j.ip == ip && j.off == off && j.src == src && j.f == f && j.l0 == l0 && Around(j.c, ip, off, |src|)
  {
    var c := if 0 < |src| <= CHUNK then Candidates(ip, off / BSIZE, (off + |src| - 1) / BSIZE) else [];
    j := Job(ip, off, src, f, l0, c);
  }

  lemma {:induction false} NoProgress(sb: Super, j: Job)
    requires JobOk(j) && Mapped(j.f, j.ip, j.off)
    ensures Progress(sb, j, j.f, 0, j.l0)
  {
  }

  /** The file system in the copy loop after tot bytes. */
  ghost predicate Copying(fs: FileSystem, j: Job, tot: nat)
    reads fs
  {
    && fs.Valid() && JobOk(j) && |fs.addrs| == |j.f.addrs| && tot <= |j.src|
    && Progress(fs.sb, j, fs.View(), tot, fs.logged)
  }

  /** One turn of the copy loop, with what it keeps. */
  method WriteTurn(fs: FileSystem, ip: nat, off: nat, bytes: seq<Byte>, ghost j: Job, ghost tot: nat, ghost tot': nat)
      returns (o: Outcome<()>)
    requires Copying(fs, j, tot) && j.ip == ip && off == j.off + tot
    requires tot < tot' <= |j.src| && bytes == j.src[tot..tot'] && tot' - tot <= BSIZE - off % BSIZE
    modifies fs`disk, fs`addrs, fs`logged
    ensures fs.Valid() && |fs.addrs| == |old(fs.addrs)|
    ensures o.Ok? || (o.OutOfBlocks? && fs.Full())
    ensures o.Ok? ==> Copying(fs, j, tot')
    ensures Mapped(j.f, ip, j.off + |j.src|) ==> o.Ok?
  {
    ghost var g, l1 := fs.View(), fs.logged;
    TurnReady(fs.sb, j, g, tot, tot' - tot, l1);
    o := WriteBlock(fs, ip, off, bytes);
    if o.Ok? {
      TurnDone(fs.sb, j, g, fs.View(), tot, tot', off, bytes, l1, fs.logged);
    }
  }

  lemma {:induction false} TurnReady(sb: Super, j: Job, g: Forest, tot: nat, m: nat, l1: set<nat>)
    requires JobOk(j) && Shaped(g) && tot + m <= |j.src| && 0 < m && Progress(sb, j, g, tot, l1)
    ensures (j.off + tot) / BSIZE < MAXFILE
    ensures Mapped(j.f, j.ip, j.off + |j.src|) ==>
      && Tree.Valid(|g.addrs|, PathOf(j.ip, (j.off + tot) / BSIZE))
      && Ptr(g, PathOf(j.ip, (j.off + tot) / BSIZE)) != 0
  {
    if Mapped(j.f, j.ip, j.off + |j.src|) {
      MappedPtr(j.f, g, j.ip, j.off + |j.src|, j.off + tot);
    }
  }

  /** The block at off has been written, as the next bytes of the job. */
  ghost predicate TurnMade(sb: Super, j: Job, g: Forest, h: Forest, tot: nat, tot': nat, off: nat,
      bytes: seq<Byte>, l1: set<nat>, l2: set<nat>)
    requires JobOk(j) && Shaped(g) && Shaped(h) && tot < tot' <= |j.src|
  {
    match j
    case Job(ip, off0, src, _, _, _) =>
      && ip < |g.addrs| == |h.addrs| && off == off0 + tot
      && tot' - tot <= BSIZE - off % BSIZE && bytes == src[tot..tot']
      && off / BSIZE < MAXFILE && Tree.Valid(|h.addrs|, PathOf(ip, off / BSIZE))
      && Progress(sb, j, g, tot, l1)
      && BlockDone(sb, g, h, ip, off, bytes, l1, l2)
  }

  /** What a turn adds to the bytes written and to the blocks logged. */
  lemma {:induction false} TurnDone(sb: Super, j: Job, g: Forest, h: Forest, tot: nat, tot': nat, off: nat,
      bytes: seq<Byte>, l1: set<nat>, l2: set<nat>)
    requires JobOk(j) && Shaped(g) && Shaped(h) && tot < tot' <= |j.src|
    requires TurnMade(sb, j, g, h, tot, tot', off, bytes, l1, l2)
    ensures Progress(sb, j, h, tot', l2)
  {
    TurnWritten(sb, j, g, h, tot, tot', off, bytes, l1, l2);
    TurnLogged(sb, j, g, h, tot, tot', off, bytes, l1, l2);
    TurnReady(sb, j, g, tot, tot' - tot, l1);
  }

  lemma {:induction false} TurnWritten(sb: Super, j: Job, g: Forest, h: Forest, tot: nat, tot': nat, off: nat,
      bytes: seq<Byte>, l1: set<nat>, l2: set<nat>)
    requires JobOk(j) && Shaped(g) && Shaped(h) && tot < tot' <= |j.src|
      && TurnMade(sb, j, g, h, tot, tot', off, bytes, l1, l2)
    ensures WrittenTo(j.f, h, j.ip, j.off, j.src, tot')
  {
    WriteStep(j.f, g, h, j.ip, j.off, j.src, tot, tot' - tot);
  }

  lemma {:induction false} TurnLogged(sb: Super, j: Job, g: Forest, h: Forest, tot: nat, tot': nat, off: nat,
      bytes: seq<Byte>, l1: set<nat>, l2: set<nat>)
    requires JobOk(j) && Shaped(g) && Shaped(h) && tot < tot' <= |j.src|
      && TurnMade(sb, j, g, h, tot, tot', off, bytes, l1, l2)
    ensures ChunkLogs(sb, j.f, h, j.ip, |j.src|, j.c, j.l0, l2)
  {
    ChunkLogsStep(sb, j.f, g, h, j.ip, j.off, |j.src|, tot, j.c, j.l0, l1, l2);
  }

  /** The copy loop of writei and pwritei. */
  method WriteLoop(fs: FileSystem, ip: nat, off0: nat, src: seq<Byte>, ghost j: Job) returns (o: Outcome<()>)
    requires fs.Valid() && ip < |fs.addrs| && JobOk(j) && Mapped(fs.View(), ip, off0)
    requires j.ip == ip && j.off == off0 && j.src == src && j.f == fs.View() && j.l0 == fs.logged
    modifies fs`disk, fs`addrs, fs`logged
    ensures fs.Valid() && |fs.addrs| == |old(fs.addrs)|
    ensures o.Ok? || (o.OutOfBlocks? && fs.Full())
    ensures o.Ok? ==> Progress(fs.sb, j, fs.View(), |src|, fs.logged)
    ensures src == [] ==> fs.logged == old(fs.logged)
    ensures Mapped(old(fs.View()), ip, off0 + |src|) ==> o.Ok?
  {
    NoProgress(fs.sb, j);
    var n := |src|;
    var tot: nat, off: nat := 0, off0;
    while tot < n
      invariant tot <= n && off == off0 + tot && Copying(fs, j, tot)
      invariant src == [] ==> fs.logged == j.l0
    {
      var m := Min(n - tot, BSIZE - off % BSIZE);
      assert 0 < m;
      o := WriteTurn(fs, ip, off, src[tot..tot + m], j, tot, tot + m);
      if o.OutOfBlocks? {
        return;
      }
      tot := tot + m;
      off := off + m;
    }
    return Ok(());
  }

  /** All files as byte arrays. */
  ghost function Files(f: Forest, size: seq<nat>): (c: seq<seq<Byte>>)
    requires Shaped(f) && |size| == |f.addrs| && FilesOk(f, size)
    ensures |c| == |size|
  {
    seq(|size|, ip requires 0 <= ip < |size| => assert FileOk(f, ip, size[ip]); Content(f, ip, size[ip]))
  }

  lemma {:induction false} FileAfterPatch(f: Forest, g: Forest, jp: nat, n: nat, n': nat, ip: nat, off: nat,
      src: seq<Byte>)
    requires Shaped(f) && Shaped(g) && jp < |f.addrs| && FileOk(f, jp, n)
    requires Patched(f, g, ip, off, src) && KeepsPtrs(f, g)
    requires n' == (if jp == ip && src != [] && n < off + |src| then off + |src| else n) <= MAXBYTES
    requires n' == n || Mapped(g, jp, n')
    ensures FileOk(g, jp, n')
    ensures Content(g, jp, n') == if jp == ip then Splice(Content(f, jp, n), off, src) else Content(f, jp, n)
  {
    if n' == n {
      forall bn: nat | bn < MAXFILE && bn * BSIZE < n
        ensures Tree.Valid(|g.addrs|, PathOf(jp, bn)) && Ptr(g, PathOf(jp, bn)) != 0
      {
        assert Ptr(f, PathOf(jp, bn)) != 0;
      }
    }
    forall i: nat | n' <= i && i / BSIZE < MAXFILE ensures ByteAt(g, jp, i) == 0 {
      assert ByteAt(f, jp, i) == 0 && BytePatched(f, g, ip, off, src, jp, i);
    }
    var c, c' := Content(f, jp, n), Content(g, jp, n');
    forall i | 0 <= i < n'
      ensures c'[i] == if jp == ip && off <= i < off + |src| then src[i - off] else if i < n then c[i] else 0
    {
      assert i / BSIZE < MAXFILE;
      assert c'[i] == ByteAt(g, jp, i) && BytePatched(f, g, ip, off, src, jp, i);
    }
    SpliceAt(c, off, src);
  }

  lemma {:induction false} FilesAfterPatch(f: Forest, g: Forest, size: seq<nat>, size': seq<nat>, ip: nat, off: nat,
      src: seq<Byte>)
    requires Shaped(f) && Shaped(g) && |size| == |f.addrs| && ip < |size| && FilesOk(f, size)
    requires Patched(f, g, ip, off, src) && KeepsPtrs(f, g) && Mapped(g, ip, off + |src|) && off + |src| <= MAXBYTES
    requires size' == size[ip := if src != [] && size[ip] < off + |src| then off + |src| else size[ip]]
    ensures FilesOk(g, size')
    ensures Files(g, size') == Files(f, size)[ip := Splice(Files(f, size)[ip], off, src)]
  {
    forall jp: nat | jp < |size|
      ensures FileOk(f, jp, size[jp]) && FileOk(g, jp, size'[jp])
      ensures Content(g, jp, size'[jp])
           == if jp == ip then Splice(Content(f, jp, size[jp]), off, src) else Content(f, jp, size[jp])
    {
      assert FileOk(f, jp, size[jp]);
      FileAfterPatch(f, g, jp, size[jp], size'[jp], ip, off, src);
    }
  }

  /** The blocks a chunk logs besides bitmap blocks: at most eight, with the inode block nine. */
  lemma {:induction false} ChunkBound(sb: Super, j: Job, h: Forest, l1: set<nat>, inode: nat)
    requires JobOk(j) && Shaped(h) && Progress(sb, j, h, |j.src|, l1) && (j.src == [] ==> l1 == j.l0)
    ensures |j.src| <= CHUNK ==> |NonBitmap(sb, l1 - j.l0)| <= 8 && |NonBitmap(sb, l1 + {inode} - j.l0)| <= 9
  {
    var n := |j.src|;
    if 0 < n <= CHUNK {
      AtMostNine(sb, h, j.ip, j.off / BSIZE, (j.off + n - 1) / BSIZE, j.l0, l1, inode);
    } else if n == 0 {
      assert NonBitmap(sb, l1 - j.l0) == {};
      SubsetSize(NonBitmap(sb, l1 + {inode} - j.l0), {inode});
    }
  }

  /** The inodes on disk d are these. */
  ghost predicate Agrees(start: nat, d: seq<Block>, meta: seq<Meta>, size: seq<nat>, addrs: seq<seq<Word32>>)
    requires |meta| == |size| == |addrs|
  {
    forall ip: nat {:trigger IBlock(start, ip)} :: ip < |addrs| ==>
      && IBlock(start, ip) < |d|
      && var di := DinodeAt(start, d, ip);
      di.meta == meta[ip] && di.size == size[ip] && di.addrs == addrs[ip]
  }

  ghost predicate AllSynced(fs: FileSystem)
    requires fs.Valid()
    reads fs
  {
    Agrees(fs.inodestart, fs.disk, fs.meta, fs.size, fs.addrs)
  }

  /** The same, except that the slots of inode ip may be newer in memory if it is still to
      be flushed. */
  ghost predicate AgreesBut(start: nat, d: seq<Block>, meta: seq<Meta>, size: seq<nat>, addrs: seq<seq<Word32>>,
      ip: nat, stale: bool)
    requires |meta| == |size| == |addrs|
  {
    forall jp: nat {:trigger IBlock(start, jp)} :: jp < |addrs| ==>
      && IBlock(start, jp) < |d|
      && var di := DinodeAt(start, d, jp);
      (jp == ip && stale) || (di.meta == meta[jp] && di.size == size[jp] && di.addrs == addrs[jp])
  }

  /** The copy loop leaves the inodes on disk alone, and the slots of all inodes but ip. */
  lemma {:induction false} LoopAgrees(sb: Super, start: nat, d0: seq<Block>, d1: seq<Block>, l0: set<nat>, l1: set<nat>,
      meta: seq<Meta>, size: seq<nat>, a0: seq<seq<Word32>>, a1: seq<seq<Word32>>, ip: nat, stale: bool)
    requires Layout(sb, d0) && |meta| == |size| == |a0| && Agrees(start, d0, meta, size, a0)
    requires forall jp: nat {:trigger IBlock(start, jp)} :: jp < |a0| ==> IBlock(start, jp) < sb.bmapstart
    requires Journaled(sb.bmapstart, d0, d1, l0, l1) && OthersSame(a0, a1, ip) && (stale || a1 == a0)
    ensures AgreesBut(start, d1, meta, size, a1, ip, stale)
  {
    InodesKept(sb, start, |a0|, d0, d1, l0, l1);
  }

  /** The size update that writei and pwritei share: the inode is flushed if it grew. */
  method Resize(fs: FileSystem, ip: nat, end: nat)
    requires fs.Valid() && ip < |fs.addrs| && end <= MAXBYTES
    modifies fs`size, fs`disk, fs`logged
    ensures fs.Valid() && |fs.disk| == |old(fs.disk)|
      && fs.size == old(fs.size)[ip := if old(fs.size)[ip] < end then end else old(fs.size)[ip]]
    ensures Patched(old(fs.View()), fs.View(), ip, 0, []) && KeepsPtrs(old(fs.View()), fs.View())
    ensures Journaled(fs.inodestart, old(fs.disk), fs.disk, old(fs.logged), fs.logged)
    ensures fs.logged <= old(fs.logged) + {IBlock(fs.inodestart, ip)}
    ensures forall jp: nat :: jp < |fs.addrs| ==>
      && IBlock(fs.inodestart, jp) < |fs.disk|
      && DinodeAt(fs.inodestart, fs.disk, jp) == (
           if jp == ip && old(fs.size)[ip] < end then Dinode(fs.meta[ip], end, fs.addrs[ip])
           else DinodeAt(fs.inodestart, old(fs.disk), jp))
    ensures old(AgreesBut(fs.inodestart, fs.disk, fs.meta, fs.size, fs.addrs, ip, fs.size[ip] < end)) ==> AllSynced(fs)
  {
    forall jp: nat | jp < |fs.addrs| ensures IBlock(fs.inodestart, jp) < |fs.disk| {
      assert IBlock(fs.inodestart, jp) < fs.sb.bmapstart;
    }
    if end > fs.size[ip] {
      fs.size := fs.size[ip := end];
      fs.Iupdate(ip);
    }
  }

  /** The copy loop and the size update that writei and pwritei share. All blocks
      below off must be mapped already. */
  method WriteAt(fs: FileSystem, ip: nat, off: nat, src: seq<Byte>) returns (o: Outcome<()>)
    requires Ready(fs) && ip < |fs.addrs| && off + |src| <= MAXBYTES && Mapped(fs.View(), ip, off)
    modifies fs`disk, fs`addrs, fs`size, fs`logged
    ensures fs.Valid() && |fs.addrs| == |old(fs.addrs)|
    ensures o.Ok? || (o.OutOfBlocks? && fs.Full())
    ensures o.Ok? ==>
      && Ready(fs)
      && Files(fs.View(), fs.size) ==
         old(Files(fs.View(), fs.size))[ip := Splice(old(Files(fs.View(), fs.size))[ip], off, src)]
      && Mapped(fs.View(), ip, off + |src|)
    ensures o.Ok? && old(AllSynced(fs)) ==> AllSynced(fs)
    ensures o.Ok? ==> Journaled(fs.inodestart, old(fs.disk), fs.disk, old(fs.logged), fs.logged)
    ensures o.Ok? && |src| <= CHUNK ==> |NonBitmap(fs.sb, fs.logged - old(fs.logged))| <= 9
  {
    ghost var f, size, l0 := fs.View(), fs.size, fs.logged;
    assert FileOk(f, ip, size[ip]);
    ghost var whole := off + |src| <= size[ip];
    assert whole ==> Mapped(f, ip, off + |src|);
    ghost var j := NewJob(ip, off, src, f, l0);
    o := WriteLoop(fs, ip, off, src, j);
    if o.OutOfBlocks? {
      return;
    }
    assert src[..|src|] == src;
    ghost var g, l1 := fs.View(), fs.logged;
    ChunkBound(fs.sb, j, g, l1, IBlock(fs.inodestart, ip));
    ghost var end := if |src| > 0 then off + |src| else 0;
    if old(AllSynced(fs)) {
      LoopAgrees(fs.sb, fs.inodestart, f.disk, g.disk, l0, l1, fs.meta, size, f.addrs, g.addrs, ip, size[ip] < end);
    }
    Resize(fs, ip, if |src| > 0 then off + |src| else 0);
    assert fs.inodestart <= IBlock(fs.inodestart, ip) < fs.sb.bmapstart;
    WriteDone(fs.sb, fs.inodestart, f, g, fs.View(), size, fs.size, ip, off, src, l0, l1, fs.logged);
    if |src| <= CHUNK {
      BoundKept(fs.sb, l0, l1, fs.logged, IBlock(fs.inodestart, ip));
    }
  }

  lemma {:induction false} BoundKept(sb: Super, l0: set<nat>, l1: set<nat>, l2: set<nat>, inode: nat)
    requires l1 <= l2 <= l1 + {inode} && |NonBitmap(sb, l1 + {inode} - l0)| <= 9
    ensures |NonBitmap(sb, l2 - l0)| <= 9
  {
    SubsetSize(NonBitmap(sb, l2 - l0), NonBitmap(sb, l1 + {inode} - l0));
  }

  /** The bytes written and then the inode block: together the write. */
  lemma {:induction false} WriteDone(sb: Super, low: nat, f: Forest, g: Forest, h: Forest, size: seq<nat>,
      size': seq<nat>, ip: nat, off: nat, src: seq<Byte>, l0: set<nat>, l1: set<nat>, l2: set<nat>)
    requires Shaped(f) && Shaped(g) && Shaped(h) && |size| == |f.addrs| && ip < |size| && FilesOk(f, size)
    requires Patched(f, g, ip, off, src) && KeepsPtrs(f, g) && Mapped(g, ip, off + |src|) && off + |src| <= MAXBYTES
    requires Patched(g, h, ip, 0, []) && KeepsPtrs(g, h)
    requires size' == size[ip := if src != [] && size[ip] < off + |src| then off + |src| else size[ip]]
    requires low <= sb.bmapstart && Journaled(sb.bmapstart, f.disk, g.disk, l0, l1)
      && Journaled(low, g.disk, h.disk, l1, l2)
    ensures FilesOk(h, size') && Mapped(h, ip, off + |src|)
    ensures Files(h, size') == Files(f, size)[ip := Splice(Files(f, size)[ip], off, src)]
    ensures Journaled(low, f.disk, h.disk, l0, l2)
  {
    PatchedAgain(f, g, h, ip, off, src);
    KeepsPtrsTrans(f, g, h);
    MappedKept(g, h, ip, off + |src|);
    FilesAfterPatch(f, h, size, size', ip, off, src);
    JournaledLower(sb.bmapstart, low, f.disk, g.disk, l0, l1);
    JournaledTrans(low, f.disk, g.disk, h.disk, l0, l1, l2);
  }

  lemma {:induction false} PatchedAgain(f: Forest, g: Forest, h: Forest, ip: nat, off: nat, src: seq<Byte>)
    requires Shaped(f) && Shaped(g) && Shaped(h) && Patched(f, g, ip, off, src) && Patched(g, h, ip, 0, [])
    ensures Patched(f, h, ip, off, src)
  {
    forall jp: nat, i: nat | jp < |f.addrs| && i / BSIZE < MAXFILE
      ensures BytePatched(f, h, ip, off, src, jp, i)
    {
      assert BytePatched(f, g, ip, off, src, jp, i) && BytePatched(g, h, ip, 0, [], jp, i);
    }
  }

  lemma {:induction false} MappedKept(g: Forest, h: Forest, ip: nat, n: nat)
    requires Shaped(g) && Shaped(h) && ip < |g.addrs| && KeepsPtrs(g, h) && Mapped(g, ip, n)
    ensures Mapped(h, ip, n)
  {
    forall bn: nat | bn < MAXFILE && bn * BSIZE < n
      ensures Tree.Valid(|h.addrs|, PathOf(ip, bn)) && Ptr(h, PathOf(ip, bn)) != 0
    {
      assert Ptr(g, PathOf(ip, bn)) != 0;
    }
  }
}
