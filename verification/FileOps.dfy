/** file.c on top of fs.c: writei and pwritei with their checks, the chunk loops of
    filewrite and filepwrite, hole filling, and whole sequences of operations. */
module FileOps {
  import opened Blocks
  import opened Bitmap
  import opened Tree
  import opened TreeFree
  import opened TreeLog
  import opened ChunkLog
  import opened Inodes
  import opened Fs
  import opened FileSpec
  import opened FileIo

  ghost function Contents(fs: FileSystem): (c: seq<seq<Byte>>)
    requires Ready(fs)
    reads fs
    ensures |c| == |fs.addrs|
  {
    Files(fs.View(), fs.size)
  }

  lemma {:induction false} ContentOf(fs: FileSystem, ip: nat)
    requires Ready(fs) && ip < |fs.addrs|
    ensures |Contents(fs)[ip]| == fs.size[ip] <= MAXBYTES
    ensures Contents(fs)[ip] == Content(fs.View(), ip, fs.size[ip])
    ensures Mapped(fs.View(), ip, fs.size[ip])
  {
    assert FileOk(fs.View(), ip, fs.size[ip]);
  }

  /** writei: refused past the end, past the largest file, or on wrap-around. */
  method Writei(fs: FileSystem, ip: nat, off: Word32, src: seq<Byte>) returns (o: Outcome<Reply>)
    requires Ready(fs) && ip < |fs.addrs| && |src| < 0x1_0000_0000
    modifies fs`disk, fs`addrs, fs`size, fs`logged
    ensures fs.Valid() && |fs.addrs| == |old(fs.addrs)|
    ensures o.Ok? || (o.OutOfBlocks? && fs.Full())
    ensures o.Ok? ==> Ready(fs)
    ensures o.Ok? ==> o.value == StepReply(old(Contents(fs)), Write(ip, off, src))
    ensures o.Ok? ==> Contents(fs) == StepFiles(old(Contents(fs)), Write(ip, off, src))
    ensures o.Ok? && old(AllSynced(fs)) ==> AllSynced(fs)
    ensures o.Ok? ==> Journaled(fs.inodestart, old(fs.disk), fs.disk, old(fs.logged), fs.logged)
    ensures o.Ok? && |src| <= CHUNK ==> |NonBitmap(fs.sb, fs.logged - old(fs.logged))| <= 9
  {
    ContentOf(fs, ip);
    var n := |src|;
    assert NonBitmap(fs.sb, {}) == {};
    if off > fs.size[ip] || (off + n) % 0x1_0000_0000 < off {
      return Ok(Error);
    }
    if off + n > MAXBYTES {
      return Ok(Error);
    }
    assert Mapped(fs.View(), ip, off);
    var r := WriteAt(fs, ip, off, src);
    if r.OutOfBlocks? {
      return OutOfBlocks;
    }
    return Ok(Count(n));
  }

  /** pwritei: as writei without the end-of-file check. Its caller has mapped every
      block below off. */
  method Pwritei(fs: FileSystem, ip: nat, off: Word32, src: seq<Byte>) returns (o: Outcome<Reply>)
    requires Ready(fs) && ip < |fs.addrs| && |src| < 0x1_0000_0000 && Mapped(fs.View(), ip, off)
    modifies fs
    ensures fs.Valid() && |fs.addrs| == |old(fs.addrs)|
    ensures o.Ok? || (o.OutOfBlocks? && fs.Full())
    ensures o.Ok? ==> Ready(fs) && Mapped(fs.View(), ip, off)
    ensures o.Ok? ==> o.value == if off + |src| > MAXBYTES then Error else Count(|src|)
    ensures o.Ok? ==>
      Contents(fs) == if off + |src| > MAXBYTES then old(Contents(fs))
                      else old(Contents(fs))[ip := Splice(old(Contents(fs))[ip], off, src)]
    ensures o.Ok? && old(AllSynced(fs)) ==> AllSynced(fs)
  {
    ContentOf(fs, ip);
    var n := |src|;
    if (off + n) % 0x1_0000_0000 < off {
      return Ok(Error);
    }
    if off + n > MAXBYTES {
      return Ok(Error);
    }
    var r := WriteAt(fs, ip, off, src);
    if r.OutOfBlocks? {
      return OutOfBlocks;
    }
    return Ok(Count(n));
  }

  lemma {:induction false} FilesAfterGrowth(f: Forest, g: Forest, size: seq<nat>, t: Path)
    requires Shaped(f) && Shaped(g) && |size| == |f.addrs| && FilesOk(f, size) && Grown(f, g, t)
    ensures |g.addrs| == |f.addrs| && FilesOk(g, size) && Files(g, size) == Files(f, size)
  {
    forall jp: nat | jp < |size|
      ensures FileOk(f, jp, size[jp]) && FileOk(g, jp, size[jp])
      ensures Content(g, jp, size[jp]) == Content(f, jp, size[jp])
    {
      assert FileOk(f, jp, size[jp]);
      GrownIsPatched(f, g, t, jp, 0);
      FileAfterPatch(f, g, jp, size[jp], size[jp], jp, 0, []);
    }
  }

  /** catchupoffset: map every block from the end of the file up to off's, each in a
      transaction of its own. No byte of any file changes. If off lies beyond the largest
      file, the call ends in bmap's "out of range" panic, or, unless the disk has room for
      a file of MAXFILE blocks, in balloc's before that. */
  method Catchupoffset(fs: FileSystem, ip: nat, off: Word32) returns (o: Outcome<()>)
    requires Ready(fs) && ip < |fs.addrs|
    modifies fs`disk, fs`addrs, fs`logged
    ensures fs.Valid() && |fs.addrs| == |old(fs.addrs)|
    ensures o.Ok? ==> Ready(fs) && Contents(fs) == old(Contents(fs)) && Mapped(fs.View(), ip, off)
    ensures o.OutOfBlocks? ==> fs.Full()
    ensures o.OutOfRange? ==> off >= MAXBYTES && fs.sb.datastart + MAXFILE <= fs.sb.size
    ensures off >= MAXBYTES ==> !o.Ok?
    ensures !o.FreeingFree?
  {
    ContentOf(fs, ip);
    var cur, desti := fs.size[ip] / BSIZE, off / BSIZE;
    assert Mapped(fs.View(), ip, cur * BSIZE);
    while cur <= desti
      invariant cur <= desti + 1 || cur == fs.size[ip] / BSIZE
      invariant Ready(fs) && |fs.addrs| == |old(fs.addrs)| && Contents(fs) == old(Contents(fs))
      invariant Mapped(fs.View(), ip, cur * BSIZE)
      invariant cur <= MAXFILE
    {
      o := CatchupTurn(fs, ip, cur);
      if !o.Ok? {
        return;
      }
      cur := cur + 1;
    }
    MappedDown(fs.View(), ip, cur * BSIZE, off);
    return Ok(());
  }

  /** One transaction of catchupoffset: it logs at most eight blocks besides bitmap blocks. */
  method CatchupTurn(fs: FileSystem, ip: nat, cur: nat) returns (o: Outcome<()>)
    requires Ready(fs) && ip < |fs.addrs| && cur <= MAXFILE && Mapped(fs.View(), ip, cur * BSIZE)
    modifies fs`disk, fs`addrs, fs`logged
    ensures fs.Valid() && |fs.addrs| == |old(fs.addrs)|
    ensures o.Ok? ==>
      cur < MAXFILE && Ready(fs) && Contents(fs) == old(Contents(fs)) && Mapped(fs.View(), ip, (cur + 1) * BSIZE)
    ensures o.Ok? ==> |NonBitmap(fs.sb, fs.logged)| <= 8
    ensures o.OutOfBlocks? ==> fs.Full()
    ensures o.OutOfRange? ==> cur == MAXFILE && fs.sb.datastart + MAXFILE <= fs.sb.size
    ensures !o.FreeingFree?
  {
    fs.logged := {};   // begin_op
    ghost var f := fs.View();
    var b := fs.Bmap(ip, cur);
    if b.OutOfBlocks? {
      return OutOfBlocks;
    }
    if b.OutOfRange? {
      LargestFileFits(f, fs.sb.datastart, ip);
      return OutOfRange;
    }
    ghost var g, l := fs.View(), fs.logged;
    fs.logged := fs.logged + {b.value as nat};
    FilesAfterGrowth(f, g, fs.size, PathOf(ip, cur));
    MapNext(f, g, ip, cur);
    TurnLogs(fs.sb, f, g, ip, cur, l);
    return Ok(());
  }

  lemma {:induction false} TurnLogs(sb: Super, f: Forest, g: Forest, ip: nat, cur: nat, l: set<nat>)
    requires Shaped(f) && Shaped(g) && ip < |f.addrs| && cur < MAXFILE && Mapped(f, ip, cur * BSIZE)
    requires Tree.Valid(|g.addrs|, PathOf(ip, cur)) && Grown(f, g, PathOf(ip, cur)) && Ptr(g, PathOf(ip, cur)) != 0
    requires LogsPath(sb, f, g, PathOf(ip, cur), {}, l)
    ensures |NonBitmap(sb, l + {Ptr(g, PathOf(ip, cur)) as nat})| <= 8
  {
    var l' := l + {Ptr(g, PathOf(ip, cur)) as nat};
    LogsStore(sb, f, g, g, PathOf(ip, cur), {}, l, l');
    LogsStep(sb, f, g, ip, cur, cur, cur, {}, {}, l');
    AtMostNine(sb, g, ip, cur, cur, {}, l', 0);
    assert l' - {} == l';
  }

  ghost predicate BlockAt(f: Forest, ip: nat, bn: nat, b: nat)
    requires Shaped(f)
  {
    bn < MAXFILE && Tree.Valid(|f.addrs|, PathOf(ip, bn)) && Ptr(f, PathOf(ip, bn)) as nat == b
  }

  lemma {:induction false} OneBlockEach(f: Forest, lo: nat, ip: nat, bn: nat, bn': nat)
    requires WF(f, lo) && bn < bn' < MAXFILE && Tree.Valid(|f.addrs|, PathOf(ip, bn')) && Ptr(f, PathOf(ip, bn')) != 0
    ensures !BlockAt(f, ip, bn, Ptr(f, PathOf(ip, bn')) as nat)
  {
    if BlockAt(f, ip, bn, Ptr(f, PathOf(ip, bn')) as nat) {
      assert Apart(f, PathOf(ip, bn'), PathOf(ip, bn));
      PathOfInjective(ip, bn, ip, bn');
    }
  }

  lemma {:induction false} FirstBlocks(f: Forest, lo: nat, ip: nat, n: nat) returns (s: set<nat>)
    requires WF(f, lo) && ip < |f.addrs| && n <= MAXFILE && Mapped(f, ip, MAXFILE * BSIZE)
    ensures |s| == n && forall b :: b in s ==> lo <= b < |f.disk| && exists bn: nat :: bn < n && BlockAt(f, ip, bn, b)
  {
    if n == 0 {
      return {};
    }
    s := FirstBlocks(f, lo, ip, n - 1);
    var p := PathOf(ip, n - 1);
    assert Tree.Valid(|f.addrs|, p) && Ptr(f, p) != 0;
    var a: nat := Ptr(f, p);
    forall bn: nat | bn < n - 1 ensures !BlockAt(f, ip, bn, a) {
      OneBlockEach(f, lo, ip, bn, n - 1);
    }
    assert BlockAt(f, ip, n - 1, a);
    s := s + {a};
  }

  /** A file of MAXFILE blocks takes as many blocks of the disk. */
  lemma {:induction false} LargestFileFits(f: Forest, lo: nat, ip: nat)
    requires WF(f, lo) && ip < |f.addrs| && lo <= |f.disk| && Mapped(f, ip, MAXFILE * BSIZE)
    ensures lo + MAXFILE <= |f.disk|
  {
    var s := FirstBlocks(f, lo, ip, MAXFILE);
    var all := Interval(lo, |f.disk| - lo);
    SubsetSize(s, all);
  }

  lemma {:induction false} MapNext(f: Forest, g: Forest, ip: nat, cur: nat)
    requires Shaped(f) && Shaped(g) && ip < |f.addrs| && cur < MAXFILE && Mapped(f, ip, cur * BSIZE)
    requires Grown(f, g, PathOf(ip, cur)) && Tree.Valid(|g.addrs|, PathOf(ip, cur)) && Ptr(g, PathOf(ip, cur)) != 0
    ensures Mapped(g, ip, (cur + 1) * BSIZE)
  {
    forall bn: nat | bn < MAXFILE && bn * BSIZE < (cur + 1) * BSIZE
      ensures Tree.Valid(|g.addrs|, PathOf(ip, bn)) && Ptr(g, PathOf(ip, bn)) != 0
    {
      if bn < cur {
        assert Ptr(f, PathOf(ip, bn)) != 0;
      }
    }
  }

  lemma {:induction false} MappedDown(f: Forest, ip: nat, n: nat, m: nat)
    requires Shaped(f) && ip < |f.addrs| && Mapped(f, ip, n) && m <= n
    ensures Mapped(f, ip, m)
  {
  }

  /** One turn of filepwrite's loop, when it has made x of the file. */
  method NextPwrite(fs: FileSystem, ip: nat, off: Word32, src: seq<Byte>, ghost x: seq<Byte>, ghost all: seq<seq<Byte>>)
      returns (o: Outcome<Reply>)
    requires Ready(fs) && ip < |fs.addrs| == |all| && |src| < 0x1_0000_0000 && Mapped(fs.View(), ip, off)
    requires Contents(fs) == all[ip := x]
    modifies fs
    ensures fs.Valid() && |fs.addrs| == |old(fs.addrs)|
    ensures o.Ok? || (o.OutOfBlocks? && fs.Full())
    ensures o.Ok? ==> Ready(fs) && Mapped(fs.View(), ip, off)
    ensures o.Ok? ==> o.value == if off + |src| > MAXBYTES then Error else Count(|src|)
    ensures o.Ok? ==> Contents(fs) == all[ip := if off + |src| > MAXBYTES then x else Splice(x, off, src)]
  {
    o := Pwritei(fs, ip, off, src);
  }

  /** filepwrite's chunk loop. Every chunk goes to the same offset. */
  method PwriteLoop(fs: FileSystem, ip: nat, off: Word32, src: seq<Byte>) returns (o: Outcome<Reply>)
    requires Ready(fs) && ip < |fs.addrs| && |src| < 0x1_0000_0000 && Mapped(fs.View(), ip, off)
    modifies fs
    ensures fs.Valid() && |fs.addrs| == |old(fs.addrs)|
    ensures o.Ok? || (o.OutOfBlocks? && fs.Full())
    ensures o.Ok? ==> Ready(fs)
    ensures o.Ok? ==> o.value == StepReply(old(Contents(fs)), Pwrite(ip, off, src))
    ensures o.Ok? ==> Contents(fs) == StepFiles(old(Contents(fs)), Pwrite(ip, off, src))
  {
    ghost var all := Contents(fs);
    ghost var c, x := all[ip], all[ip];
    var n := |src|;
    var i := 0;
    while i < n
      invariant 0 <= i <= n
      invariant |fs.addrs| == |old(fs.addrs)| && Ready(fs) && Mapped(fs.View(), ip, off)
      invariant i > 0 ==> off + Min(n, CHUNK) <= MAXBYTES
      invariant i == 0 ==> x == c
      invariant Contents(fs) == all[ip := x]
      invariant PwriteChunks(c, off, src) == PwriteChunks(x, off, src[i..])
    {
      var n1 := if n - i > CHUNK then CHUNK else n - i;
      ghost var rest := src[i..];
      assert rest[..n1] == src[i..i + n1] && rest[n1..] == src[i + n1..];
      LastChunk(x, off, rest, n1);
      o := NextPwrite(fs, ip, off, src[i..i + n1], x, all);
      if o.OutOfBlocks? || o.value.Error? {
        return;
      }
      x := Splice(x, off, src[i..i + n1]);
      i := i + n1;
    }
    assert src[n..] == [];
    SpliceNothing(x, off);
    return Ok(Count(n));
  }

  /** Writing the first chunk of what is left leaves the rest to be written at the same offset. */
  lemma {:induction false} LastChunk(c: seq<Byte>, off: nat, rest: seq<Byte>, n1: nat)
    requires 0 < |rest| && n1 == if |rest| > CHUNK then CHUNK else |rest|
    ensures PwriteChunks(c, off, rest) == PwriteChunks(Splice(c, off, rest[..n1]), off, rest[n1..])
  {
    if |rest| <= CHUNK {
      assert rest[..n1] == rest && rest[n1..] == [];
      SpliceNothing(Splice(c, off, rest), off);
    }
  }

  /** filepwrite: holes are filled first. */
  method Filepwrite(fs: FileSystem, ip: nat, src: seq<Byte>, off: Word32) returns (o: Outcome<Reply>)
    requires Ready(fs) && ip < |fs.addrs| && |src| < 0x1_0000_0000
    modifies fs
    ensures fs.Valid() && |fs.addrs| == |old(fs.addrs)|
    ensures o.OutOfBlocks? ==> fs.Full()
    ensures o.OutOfRange? ==> off >= MAXBYTES && off > |old(Contents(fs))[ip]|
    ensures off >= MAXBYTES && off > |old(Contents(fs))[ip]| ==> !o.Ok?
    ensures !o.FreeingFree?
    ensures o.Ok? ==> Ready(fs)
    ensures o.Ok? ==> o.value == StepReply(old(Contents(fs)), Pwrite(ip, off, src))
    ensures o.Ok? ==> Contents(fs) == StepFiles(old(Contents(fs)), Pwrite(ip, off, src))
  {
    ContentOf(fs, ip);
    if off > fs.size[ip] {
      var r := Catchupoffset(fs, ip, off);
      if r.OutOfBlocks? {
        return OutOfBlocks;
      }
      if r.OutOfRange? {
        return OutOfRange;
      }
    } else {
      MappedDown(fs.View(), ip, fs.size[ip], off);
    }
    o := PwriteLoop(fs, ip, off, src);
  }

  /** One chunk of filewrite, a transaction of its own: it logs at most nine blocks besides
      bitmap blocks, whatever index blocks it has to add. */
  method WriteChunk(fs: FileSystem, ip: nat, off: Word32, src: seq<Byte>) returns (o: Outcome<Reply>)
    requires Ready(fs) && ip < |fs.addrs| && |src| <= CHUNK
    modifies fs`disk, fs`addrs, fs`size, fs`logged
    ensures fs.Valid() && |fs.addrs| == |old(fs.addrs)|
    ensures o.Ok? || (o.OutOfBlocks? && fs.Full())
    ensures o.Ok? ==> Ready(fs)
    ensures o.Ok? ==> o.value == StepReply(old(Contents(fs)), Write(ip, off, src))
    ensures o.Ok? ==> Contents(fs) == StepFiles(old(Contents(fs)), Write(ip, off, src))
    ensures o.Ok? ==> |NonBitmap(fs.sb, fs.logged)| <= 9
    ensures o.Ok? ==> |fs.logged| <= 9 + fs.sb.datastart - fs.sb.bmapstart
    ensures o.Ok? && old(AllSynced(fs)) ==> AllSynced(fs)
    ensures o.Ok? ==> Journaled(fs.inodestart, old(fs.disk), fs.disk, {}, fs.logged)
  {
    fs.logged := {};   // begin_op
    ghost var c := Contents(fs);
    assert c == old(Contents(fs)) && AllSynced(fs) == old(AllSynced(fs));
    o := Writei(fs, ip, off, src);
    assert fs.logged - {} == fs.logged;
    WithBitmap(fs.sb, fs.logged);
  }

  /** The files are all, with the bytes part written at off0 of file ip. */
  ghost predicate Holds(fs: FileSystem, all: seq<seq<Byte>>, ip: nat, off0: nat, part: seq<Byte>)
    requires Ready(fs) && ip < |all|
    reads fs
  {
    Contents(fs) == all[ip := Splice(all[ip], off0, part)]
  }

  /** One turn of filewrite's loop: the n1 bytes of src from i on. */
  method NextChunk(fs: FileSystem, ip: nat, off: Word32, src: seq<Byte>, i: nat, n1: nat, ghost off0: nat,
      ghost all: seq<seq<Byte>>) returns (o: Outcome<Reply>)
    requires Ready(fs) && ip < |fs.addrs| == |all| && i + n1 <= |src| && n1 <= CHUNK && off == off0 + i
    requires Holds(fs, all, ip, off0, src[..i])
    modifies fs`disk, fs`addrs, fs`size, fs`logged
    ensures fs.Valid() && |fs.addrs| == |old(fs.addrs)|
    ensures o.Ok? || (o.OutOfBlocks? && fs.Full())
    ensures o.Ok? ==> Ready(fs)
    ensures o.Ok? ==> o.value == if WriteFails(Splice(all[ip], off0, src[..i]), off, n1) then Error else Count(n1)
    ensures o.Ok? ==> Holds(fs, all, ip, off0, if o.value.Error? then src[..i] else src[..i + n1])
  {
    ghost var c := Splice(all[ip], off0, src[..i]);
    assert Contents(fs)[ip] == c;
    o := WriteChunk(fs, ip, off, src[i..i + n1]);
    SpliceConcat(all[ip], off0, src[..i], src[i..i + n1]);
    assert src[..i] + src[i..i + n1] == src[..i + n1];
  }

  /** An open file: its inode and its position. */
  class OpenFile {
    const ip: nat
    var off: nat

    /** filewrite: chunks at the advancing file position. If a chunk does not fit, the
        chunks before it stay written and the call reports failure. */
    method Filewrite(fs: FileSystem, src: seq<Byte>) returns (o: Outcome<Reply>)
      requires Ready(fs) && ip < |fs.addrs| && |src| < 0x8000_0000 && off < 0x1_0000_0000
      modifies fs, this
      ensures fs.Valid() && |fs.addrs| == |old(fs.addrs)|
      ensures o.Ok? || (o.OutOfBlocks? && fs.Full())
      ensures |old(Contents(fs))[ip]| <= MAXBYTES
      ensures o.Ok? ==>
        var c := old(Contents(fs))[ip];
        var k := Accepted(c, old(off), |src|);
        && Ready(fs) && k <= |src|
        && off == old(off) + k
        && o.value == (if k == |src| then Count(k) else Error)
        && Contents(fs) == old(Contents(fs))[ip := Splice(c, old(off), src[..k])]
    {
      ContentOf(fs, ip);
      ghost var c := Contents(fs)[ip];
      ghost var all, off0 := Contents(fs), off;
      SpliceNothing(c, off0);
      assert src[..0] == [] && all[ip := c] == all;
      var n := |src|;
      var i := 0;
      while i < n
        invariant 0 <= i <= n && off == off0 + i
        invariant |fs.addrs| == |old(fs.addrs)| && Ready(fs)
        invariant i > 0 ==> off0 <= |c| && off0 + i <= MAXBYTES
        invariant i < n ==> i % CHUNK == 0
        invariant Holds(fs, all, ip, off0, src[..i])
      {
        var n1 := if n - i > CHUNK then CHUNK else n - i;
        o := NextChunk(fs, ip, off, src, i, n1, off0, all);
        if o.OutOfBlocks? {
          return;
        }
        if o.value.Error? {
          AcceptedAt(c, off0, n, i, n1);
          return;
        }
        off := off + n1;
        i := i + n1;
      }
      assert src[..n] == src;
      return Ok(Count(n));
    }
  }

  /** The chunk at i is the first to be refused, so exactly i bytes were accepted. */
  lemma {:induction false} AcceptedAt(c: seq<Byte>, off: nat, n: nat, i: nat, n1: nat)
    requires |c| <= MAXBYTES && i < n && n1 == (if n - i > CHUNK then CHUNK else n - i) && i % CHUNK == 0
    requires i > 0 ==> off <= |c| && off + i <= MAXBYTES
    requires WriteFails(Splice(c, off, Zeros(i)), off + i, n1)
    ensures Accepted(c, off, n) == i
  {
    if off <= |c| {
      assert MAXBYTES - off < i + CHUNK && i <= MAXBYTES - off;
      assert (MAXBYTES - off) / CHUNK == i / CHUNK;
    }
  }

  lemma {:induction false} FilesAfterTruncate(f: Forest, g: Forest, lo: nat, size: seq<nat>, ip: nat)
    requires WF(f, lo) && WF(g, lo) && |size| == |f.addrs| && ip < |size| && FilesOk(f, size) && Truncated(f, g, lo, ip)
    ensures FilesOk(g, size[ip := 0]) && Files(g, size[ip := 0]) == Files(f, size)[ip := []]
  {
    var size' := size[ip := 0];
    forall jp: nat | jp < |size|
      ensures FileOk(f, jp, size[jp]) && FileOk(g, jp, size'[jp])
      ensures jp != ip ==> Content(g, jp, size'[jp]) == Content(f, jp, size[jp])
    {
      assert FileOk(f, jp, size[jp]);
      forall i: nat | i / BSIZE < MAXFILE ensures ByteAt(g, jp, i) == if jp == ip then 0 else ByteAt(f, jp, i) {
        TruncatedBytes(f, g, lo, ip, jp, i);
      }
      forall bn: nat | bn < MAXFILE && bn * BSIZE < size'[jp]
        ensures Tree.Valid(|g.addrs|, PathOf(jp, bn)) && Ptr(g, PathOf(jp, bn)) != 0
      {
        PathOfIsLeaf(|f.addrs|, jp, bn);
        assert Ptr(f, PathOf(jp, bn)) != 0;
        TruncatedPtr(f, g, lo, ip, PathOf(jp, bn));
      }
    }
  }

  /** Any one operation agrees with its meaning on flat files, unless the disk fills
      up or a pwrite starts beyond the largest file. */
  method Perform(fs: FileSystem, op: Op) returns (o: Outcome<Reply>)
    requires Ready(fs) && OpOk(|fs.addrs|, op)
    modifies fs
    ensures fs.Valid() && |fs.addrs| == |old(fs.addrs)|
    ensures o.OutOfBlocks? ==> fs.Full()
    ensures o.OutOfRange? ==> op.Pwrite? && op.off >= MAXBYTES
    ensures !o.FreeingFree?
    ensures o.Ok? ==> Ready(fs)
    ensures o.Ok? ==> o.value == StepReply(old(Contents(fs)), op)
    ensures o.Ok? ==> Contents(fs) == StepFiles(old(Contents(fs)), op)
  {
    ghost var f, size := fs.View(), fs.size;
    match op
    case Pread(ip, off, n) =>
      ContentOf(fs, ip);
      var r := Readi(fs, ip, off, n);
      o := Ok(r);
    case Write(ip, off, src) =>
      o := Writei(fs, ip, off, src);
    case Pwrite(ip, off, src) =>
      o := Filepwrite(fs, ip, src, off);
    case Truncate(ip) =>
      var r := fs.Itrunc(ip);
      FilesAfterTruncate(f, fs.View(), fs.sb.datastart, size, ip);
      o := Ok(Count(0));
  }

  /** Refinement over whole runs: whatever the sequence of operations, every answer
      given before the run ends is the answer of the flat byte-array files, and so are
      the files. The run ends early only in a panic. */
  method Run(fs: FileSystem, ops: seq<Op>) returns (replies: seq<Reply>)
    requires Ready(fs) && OpsOk(|fs.addrs|, ops)
    modifies fs
    ensures |replies| <= |ops|
    ensures forall k :: 0 <= k < |replies| ==> replies[k] == RunReply(old(Contents(fs)), ops, k)
    ensures |replies| == |ops| ==> Ready(fs) && Contents(fs) == RunFiles(old(Contents(fs)), ops, |ops|)
    ensures |replies| < |ops| ==>
      fs.Valid() && (fs.Full() || (ops[|replies|].Pwrite? && ops[|replies|].off >= MAXBYTES))
  {
    ghost var files := Contents(fs);
    replies := [];
    var k := 0;
    while k < |ops|
      invariant 0 <= k <= |ops| && |replies| == k
      invariant Ready(fs) && |fs.addrs| == |files| && Contents(fs) == RunFiles(files, ops, k)
      invariant forall j :: 0 <= j < k ==> replies[j] == RunReply(files, ops, j)
    {
      var o := Perform(fs, ops[k]);
      if !o.Ok? {
        return;
      }
      replies := replies + [o.value];
      k := k + 1;
    }
  }
}
