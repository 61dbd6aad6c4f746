/** Files as flat byte arrays, and what writes mean on them. */
module FileSpec {
  import opened Blocks

  /** A write of src at off: other bytes keep their value, a gap reads as zero. */
  function Splice(c: seq<Byte>, off: nat, src: seq<Byte>): (r: seq<Byte>)
    ensures |r| == NewSize(|c|, off, |src|)
  {
    seq(NewSize(|c|, off, |src|), i requires 0 <= i < NewSize(|c|, off, |src|) =>
        if off <= i < off + |src| then src[i - off] else if i < |c| then c[i] else 0)
  }

  function NewSize(size: nat, off: nat, n: nat): nat {
    if n == 0 || off + n <= size then size else off + n
  }

  /** The written file, byte by byte. */
  lemma {:induction false} SpliceAt(c: seq<Byte>, off: nat, src: seq<Byte>)
    ensures var r := Splice(c, off, src);
            forall i :: 0 <= i < |r| ==>
              r[i] == if off <= i < off + |src| then src[i - off] else if i < |c| then c[i] else 0
  {
  }

  function Zeros(n: nat): (z: seq<Byte>)
    ensures |z| == n && forall i :: 0 <= i < n ==> z[i] == 0
  {
    if n == 0 then [] else Zeros(n - 1) + [0]
  }

  lemma {:induction false} SpliceNothing(c: seq<Byte>, off: nat)
    ensures Splice(c, off, []) == c
  {
    SpliceAt(c, off, []);
  }

  /** Consecutive writes join up. */
  lemma {:induction false} SpliceConcat(c: seq<Byte>, off: nat, a: seq<Byte>, b: seq<Byte>)
    ensures Splice(Splice(c, off, a), off + |a|, b) == Splice(c, off, a + b)
  {
    if a == [] {
      assert a + b == b;
    } else if b == [] {
      assert a + b == a;
    } else {
      var m := Splice(c, off, a);
      SpliceAt(c, off, a);
      SpliceAt(m, off + |a|, b);
      SpliceAt(c, off, a + b);
      assert Splice(m, off + |a|, b) == Splice(c, off, a + b);
    }
  }

  /** Bytes that a write leaves in the file, read back. */
  lemma {:induction false} ReadBack(c: seq<Byte>, off: nat, src: seq<Byte>)
    requires src != []
    ensures var r := Splice(c, off, src);
      && off + |src| <= |r| && r[off..off + |src|] == src
      && (forall i :: |c| <= i < off ==> r[i] == 0)
      && (forall i :: 0 <= i < |c| && !(off <= i < off + |src|) ==> r[i] == c[i])
  {
    SpliceAt(c, off, src);
  }

  // ---- filepwrite ----

  const CHUNK: nat := 1536   // ((MAXOPBLOCKS - 1 - 1 - 2) / 2) * 512

  /** filepwrite's chunk loop: off is the same for every chunk. */
  function PwriteChunks(c: seq<Byte>, off: nat, src: seq<Byte>): (r: seq<Byte>)
    decreases |src|
  {
    if |src| <= CHUNK then Splice(c, off, src)
    else PwriteChunks(Splice(c, off, src[..CHUNK]), off, src[CHUNK..])
  }

  /** The loop never reaches past the first chunk. */
  lemma {:induction false} PwriteChunksLength(c: seq<Byte>, off: nat, src: seq<Byte>)
    requires |src| > CHUNK
    ensures |PwriteChunks(c, off, src)| == if off + CHUNK <= |c| then |c| else off + CHUNK
    decreases |src|
  {
    var d := Splice(c, off, src[..CHUNK]);
    if |src| - CHUNK > CHUNK {
      PwriteChunksLength(d, off, src[CHUNK..]);
    }
  }

  /** filepwrite is the write it promises for exactly the requests of at most one chunk. */
  lemma {:induction false} PwriteIsWriteIffOneChunk(n: nat, off: nat)
    ensures (forall c: seq<Byte>, src: seq<Byte> :: |src| == n ==> PwriteChunks(c, off, src) == Splice(c, off, src))
       <==> n <= CHUNK
  {
    if n > CHUNK {
      var src := Zeros(n);
      PwriteChunksLength([], off, src);
      assert |Splice([], off, src)| == off + n;
    }
  }

  /** A concrete loss: 1537 bytes at offset 0 of an empty file leave a file of 1536. */
  lemma {:induction false} PwriteLosesBytes(src: seq<Byte>)
    requires |src| == 1537
    ensures |PwriteChunks([], 0, src)| == 1536 && |Splice([], 0, src)| == 1537
    ensures PwriteChunks([], 0, src)[0] == src[1536]
  {
    PwriteChunksLength([], 0, src);
    var d := Splice([], 0, src[..CHUNK]);
    SpliceAt(d, 0, src[CHUNK..]);
  }

  // ---- Sequences of operations on several files ----

  const MAXBYTES: nat := 1082201088   // MAXFILE * BSIZE

  /** pread, writei, pwrite and truncation of a file. */
  datatype Op =
    | Pread(ip: nat, off: Word32, n: Word32)
    | Write(ip: nat, off: Word32, src: seq<Byte>)
    | Pwrite(ip: nat, off: Word32, src: seq<Byte>)
    | Truncate(ip: nat)

  datatype Reply = Data(bytes: seq<Byte>) | Count(n: nat) | Error

  function Min(a: nat, b: nat): nat { if a < b then a else b }

  predicate ReadFails(c: seq<Byte>, off: nat, n: nat) {
    off > |c| || off + n >= 0x1_0000_0000
  }

  function ReadReply(c: seq<Byte>, off: nat, n: nat): Reply {
    if ReadFails(c, off, n) then Error
    else if off + n > |c| then Data(c[off..])
    else Data(c[off..off + n])
  }

  predicate WriteFails(c: seq<Byte>, off: nat, n: nat) {
    off > |c| || off + n > MAXBYTES
  }

  /** How far filewrite gets: everything, or the whole chunks that still fit the
      largest file. */
  function Accepted(c: seq<Byte>, off: nat, n: nat): (k: nat)
    requires |c| <= MAXBYTES
  {
    if off > |c| then 0
    else if off + n <= MAXBYTES then n
    else (MAXBYTES - off) / CHUNK * CHUNK
  }

  predicate PwriteFails(off: nat, n: nat) {
    n > 0 && off + Min(n, CHUNK) > MAXBYTES
  }

  predicate OpOk(files: nat, op: Op) {
    op.ip < files && (op.Write? || op.Pwrite? ==> |op.src| < 0x1_0000_0000)
  }

  function StepReply(files: seq<seq<Byte>>, op: Op): Reply
    requires OpOk(|files|, op)
  {
    match op
    case Pread(ip, off, n) => ReadReply(files[ip], off, n)
    case Write(ip, off, src) => if WriteFails(files[ip], off, |src|) then Error else Count(|src|)
    case Pwrite(ip, off, src) => if PwriteFails(off, |src|) then Error else Count(|src|)
    case Truncate(_) => Count(0)
  }

  function StepFiles(files: seq<seq<Byte>>, op: Op): (r: seq<seq<Byte>>)
    requires OpOk(|files|, op)
    ensures |r| == |files|
  {
    match op
    case Pread(_, _, _) => files
    case Write(ip, off, src) => if WriteFails(files[ip], off, |src|) then files
      else files[ip := Splice(files[ip], off, src)]
    case Pwrite(ip, off, src) => if PwriteFails(off, |src|) then files
      else files[ip := PwriteChunks(files[ip], off, src)]
    case Truncate(ip) => files[ip := []]
  }

  /** A read right after a write answers with the bytes written ... */
  lemma {:induction false} WriteThenRead(files: seq<seq<Byte>>, ip: nat, off: Word32, src: seq<Byte>)
    requires OpOk(|files|, Write(ip, off, src)) && StepReply(files, Write(ip, off, src)) == Count(|src|)
    ensures StepReply(StepFiles(files, Write(ip, off, src)), Pread(ip, off, |src|)) == Data(src)
  {
    SpliceAt(files[ip], off, src);
  }

  /** ... and one from the middle of a file with what is left of it, however much it asks for. */
  lemma {:induction false} ShortRead(c: seq<Byte>, off: nat, n: nat)
    requires off <= |c| < off + n < 0x1_0000_0000
    ensures ReadReply(c, off, n) == ReadReply(c, off, |c| - off) == Data(c[off..])
  {
  }

  predicate OpsOk(files: nat, ops: seq<Op>) {
    forall i :: 0 <= i < |ops| ==> OpOk(files, ops[i])
  }

  /** The files after the first k operations ... */
  function RunFiles(files: seq<seq<Byte>>, ops: seq<Op>, k: nat): (r: seq<seq<Byte>>)
    requires OpsOk(|files|, ops) && k <= |ops|
    ensures |r| == |files|
  {
    if k == 0 then files else StepFiles(RunFiles(files, ops, k - 1), ops[k - 1])
  }

  /** ... and the answer to operation k. */
  function RunReply(files: seq<seq<Byte>>, ops: seq<Op>, k: nat): Reply
    requires OpsOk(|files|, ops) && k < |ops|
  {
    StepReply(RunFiles(files, ops, k), ops[k])
  }
}
