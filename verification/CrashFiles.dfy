/** The file system on top of the log: however a run crashes, every chunk of filewrite is
    wholly in the file or wholly absent, and what has been committed stays. */
module CrashFiles {
  import opened Blocks
  import opened Bitmap
  import opened Tree
  import opened TreeLog
  import opened Inodes
  import opened Fs
  import opened FileSpec
  import opened FileIo
  import FileOps
  import LogDisk
  import opened LogMachine

  // ---- The files that a disk image holds ----

  /** The block trees that the inodes on d describe, with the marks of its bitmap. */
  ghost function Image(sb: Super, start: nat, n: nat, d: seq<Block>): (f: Forest)
    requires Layout(sb, d) && (n > 0 ==> IBlock(start, n - 1) < |d|)
    ensures Shaped(f) && |f.addrs| == n
  {
    Forest(seq(n, ip requires 0 <= ip < n => DinodeAt(start, d, ip).addrs), d, UsedSet(sb, d))
  }

  /** Read through its own inodes, index blocks and bitmap, d is a well-formed file system
      (no block is pointed to twice, every pointer is marked in the bitmap, and so are the
      blocks below the data area) that holds exactly these files. */
  ghost predicate HoldsFiles(sb: Super, start: nat, d: seq<Block>, files: seq<seq<Byte>>) {
    && Layout(sb, d) && (|files| > 0 ==> IBlock(start, |files| - 1) < |d|)
    && var f := Image(sb, start, |files|, d);
    && WF(f, sb.datastart) && (forall b: nat :: b < sb.datastart ==> b in f.used)
    && forall ip: nat {:trigger files[ip]} :: ip < |files| ==>
      && |files[ip]| == DinodeAt(start, d, ip).size <= MAXBYTES
      && files[ip] == Content(f, ip, |files[ip]|)
  }

  /** Two disks agree from block low on. */
  ghost predicate SameFrom(low: nat, d: seq<Block>, e: seq<Block>) {
    |e| == |d| && forall b {:trigger e[b]} :: low <= b < |d| ==> e[b] == d[b]
  }

  /** Memory and disk of a file system between two operations. */
  ghost predicate Consistent(sb: Super, start: nat, f: Forest, size: seq<nat>, meta: seq<Meta>) {
    && Layout(sb, f.disk) && f.used == UsedSet(sb, f.disk) && start <= sb.bmapstart
    && (forall b: nat :: b < sb.datastart ==> b in f.used)
    && WF(f, sb.datastart) && |f.addrs| == |size| == |meta| && FilesOk(f, size)
    && Agrees(start, f.disk, meta, size, f.addrs)
  }

  lemma {:induction false} ConsistentNow(fs: FileSystem)
    requires Ready(fs) && AllSynced(fs) && fs.inodestart <= fs.sb.bmapstart
    ensures Consistent(fs.sb, fs.inodestart, fs.View(), fs.size, fs.meta)
  {
  }

  /** A disk that agrees from the inode blocks on describes the same trees. */
  lemma {:induction false} ImageOf(sb: Super, start: nat, f: Forest, size: seq<nat>, meta: seq<Meta>, e: seq<Block>)
    requires Consistent(sb, start, f, size, meta) && SameFrom(start, f.disk, e)
    ensures Layout(sb, e) && (|size| > 0 ==> IBlock(start, |size| - 1) < |e|)
    ensures var g := Image(sb, start, |size|, e);
      g.addrs == f.addrs && g.used == f.used && WF(g, sb.datastart) && SameBytes(f, g)
    ensures forall ip: nat {:trigger IBlock(start, ip)} :: ip < |size| ==>
      IBlock(start, ip) < |e| && DinodeAt(start, e, ip).size == size[ip]
  {
    var n := |size|;
    SameBitmap(sb, f.disk, e);
    forall ip: nat {:trigger IBlock(start, ip)} | ip < n
      ensures IBlock(start, ip) < |e| && DinodeAt(start, e, ip) == DinodeAt(start, f.disk, ip)
    {
      assert IBlock(start, ip) < |f.disk|;
      assert e[IBlock(start, ip)] == f.disk[IBlock(start, ip)];
    }
    assert n > 0 ==> IBlock(start, n - 1) < |e|;
    var g := Image(sb, start, n, e);
    forall ip | 0 <= ip < n ensures g.addrs[ip] == f.addrs[ip] {
      assert IBlock(start, ip) < |f.disk|;
    }
    assert g.addrs == f.addrs;
    LowWrite(f, g, sb.datastart);
  }

  lemma {:induction false} SameContent(f: Forest, g: Forest, ip: nat, n: nat)
    requires Shaped(f) && Shaped(g) && |g.addrs| == |f.addrs| && SameBytes(f, g) && ip < |f.addrs| && n <= MAXBYTES
    ensures Content(g, ip, n) == Content(f, ip, n)
  {
    forall i | 0 <= i < n ensures i / BSIZE < MAXFILE && ByteAt(g, ip, i) == ByteAt(f, ip, i) {
    }
  }

  /** Any disk that agrees from the inode blocks on is well-formed and holds the files. */
  lemma {:induction false} AgreementHolds(sb: Super, start: nat, f: Forest, size: seq<nat>, meta: seq<Meta>,
      e: seq<Block>)
    requires Consistent(sb, start, f, size, meta) && SameFrom(start, f.disk, e)
    ensures HoldsFiles(sb, start, e, Files(f, size))
  {
    ImageOf(sb, start, f, size, meta, e);
    var n, files := |size|, Files(f, size);
    var g := Image(sb, start, n, e);
    forall ip: nat | ip < n
      ensures |files[ip]| == DinodeAt(start, e, ip).size <= MAXBYTES && files[ip] == Content(g, ip, |files[ip]|)
    {
      assert FileOk(f, ip, size[ip]);
      assert IBlock(start, ip) < |e|;
      SameContent(f, g, ip, size[ip]);
    }
  }

  // ---- Operations on the log, one at a time ----

  /** Operation k takes image D[k] to D[k + 1] and logs the blocks ls[k], all from low on. */
  datatype Plan = Plan(low: nat, D: seq<seq<Block>>, ls: seq<set<nat>>)

  ghost predicate PlanOk(m: Plan) {
    && |m.D| == |m.ls| + 1
    && forall k {:trigger m.ls[k]} :: 0 <= k < |m.ls| ==>
      Journaled(m.low, m.D[k], m.D[k + 1], {}, m.ls[k]) && |m.D[k]| <= 0x1_0000_0000
  }

  /** How many operations of the plan readers see as done, and how many a crash leaves. */
  datatype Tally = Tally(seen: nat, kept: nat)

  function Advance(c: Tally, s: State, a: Step): (r: Tally)
    ensures c.kept <= c.seen ==> c.kept <= r.kept <= r.seen
  {
    match a
    case EndOp(_) => Tally(c.seen + 1, c.kept)
    case CommitDone => Tally(c.seen, c.seen)
    case Crash => Tally(c.kept, c.kept)
    case _ => if Kind(s, a).Flush? then Tally(c.seen, c.seen) else c
  }

  /** The count at state i of a run that is at rest in state p. */
  function TallyAt(ss: seq<State>, acts: seq<Step>, p: nat, i: nat): (c: Tally)
    requires p <= i <= |acts| < |ss|
    ensures c.kept <= c.seen
  {
    if i == p then Tally(0, 0) else Advance(TallyAt(ss, acts, p, i - 1), ss[i - 1], acts[i - 1])
  }

  /** What a crash leaves never becomes less, and what was seen when a commit finished stays. */
  lemma {:induction false} KeptStays(ss: seq<State>, acts: seq<Step>, p: nat, q: nat, i: nat)
    requires p <= q <= i <= |acts| < |ss|
    ensures TallyAt(ss, acts, p, q).kept <= TallyAt(ss, acts, p, i).kept
    ensures q < i && acts[q].CommitDone? ==> TallyAt(ss, acts, p, q).seen <= TallyAt(ss, acts, p, i).kept
    decreases i
  {
    if q < i - 1 {
      KeptStays(ss, acts, p, q, i - 1);
    }
  }

  /** The next operation of the plan starts when no other is open, writes what it likes to
      the blocks it logs, and ends when they are as in the next image. Commits, crashes and
      recoveries come as they like; after a crash the plan goes on from what was kept. */
  ghost predicate Turn(s: State, a: Step, c: Tally, m: Plan)
    requires |m.D| == |m.ls| + 1
  {
    match a
    case BeginOp(k) => k == c.seen < |m.ls| && s.ops == map[]
    case LogWrite(k, b, _) => k == c.seen < |m.ls| && b in m.ls[k]
    case EndOp(k) =>
      && k == c.seen < |m.ls|
      && forall b: Word32 :: b in m.ls[k] && b < |m.D[k + 1]| ==> b in s.cache && s.cache[b] == m.D[k + 1][b]
    case _ => true
  }

  /** v is d, except perhaps in the blocks l. */
  ghost predicate Outside(low: nat, d: seq<Block>, v: seq<Block>, l: set<nat>) {
    |v| == |d| && forall b {:trigger v[b]} :: low <= b < |d| && b !in l ==> v[b] == d[b]
  }

  /** What a run keeps: the durable image is that after the operations kept, and the
      volatile one that after those seen, up to the blocks of the operation in progress. */
  ghost predicate Whole(x: Atomic, c: Tally, m: Plan)
    requires |m.D| == |m.ls| + 1
  {
    && c.kept <= c.seen <= |m.ls|
    && SameFrom(m.low, m.D[c.kept], x.durable)
    && if x.open == {} then SameFrom(m.low, m.D[c.seen], x.volatile)
       else c.seen < |m.ls| && x.open == {c.seen} && Outside(m.low, m.D[c.seen], x.volatile, m.ls[c.seen])
  }

  lemma {:induction false} BeginWhole(x: Atomic, c: Tally, y: Atomic, m: Plan)
    requires PlanOk(m) && Whole(x, c, m) && AtomicNext(x, Begin(c.seen), y) && c.seen < |m.ls| && x.open == {}
    ensures Whole(y, c, m)
  {
    assert y.open == {c.seen};
  }

  lemma {:induction false} UpdateWhole(x: Atomic, c: Tally, b: nat, data: Block, y: Atomic, m: Plan)
    requires PlanOk(m) && Whole(x, c, m) && AtomicNext(x, Update(c.seen, b, data), y)
    requires c.seen < |m.ls| && b in m.ls[c.seen]
    ensures Whole(y, c, m)
  {
  }

  /** With every block of the operation in its final state, the old image is the new one. */
  lemma {:induction false} EndWhole(x: Atomic, c: Tally, y: Atomic, m: Plan)
    requires PlanOk(m) && Whole(x, c, m) && AtomicNext(x, End(c.seen), y) && c.seen < |m.ls|
    requires forall b :: b in m.ls[c.seen] && b < |x.volatile| && b < |m.D[c.seen + 1]| ==>
      x.volatile[b] == m.D[c.seen + 1][b]
    ensures Whole(y, Tally(c.seen + 1, c.kept), m)
  {
    var v, d, d' := x.volatile, m.D[c.seen], m.D[c.seen + 1];
    assert Journaled(m.low, d, d', {}, m.ls[c.seen]) && y.open == {};
    forall b | m.low <= b < |v| ensures v[b] == d'[b] {
      assert b in m.ls[c.seen] || d'[b] == d[b];
    }
  }

  lemma {:induction false} FlushWhole(x: Atomic, c: Tally, y: Atomic, m: Plan)
    requires PlanOk(m) && Whole(x, c, m) && x.open == {}
    requires AtomicNext(x, Flush, y) || (y == x && y.durable == y.volatile)
    ensures Whole(y, Tally(c.seen, c.seen), m)
  {
  }

  lemma {:induction false} FailWhole(x: Atomic, c: Tally, y: Atomic, m: Plan)
    requires PlanOk(m) && Whole(x, c, m) && AtomicNext(x, Fail, y)
    ensures Whole(y, Tally(c.kept, c.kept), m)
  {
  }

  lemma {:induction false} EndsFinal(L: LogDisk.Layout, s: State, c: Tally, m: Plan)
    requires PlanOk(m) && LogDisk.Formatted(L, s.disk) && Turn(s, EndOp(c.seen), c, m)
    ensures var v := Abs(L, s).volatile;
      forall b :: b in m.ls[c.seen] && b < |v| && b < |m.D[c.seen + 1]| ==> v[b] == m.D[c.seen + 1][b]
  {
    var v, k := Abs(L, s).volatile, c.seen;
    forall b | b in m.ls[k] && b < |v| && b < |m.D[k + 1]| ensures v[b] == m.D[k + 1][b] {
      assert Journaled(m.low, m.D[k], m.D[k + 1], {}, m.ls[k]);
      var w: Word32 := b;
      assert w in s.cache;
    }
  }

  /** What one state of a run keeps. */
  ghost predicate WholeAt(L: LogDisk.Layout, s: State, c: Tally, m: Plan)
    requires |m.D| == |m.ls| + 1
  {
    LogDisk.Formatted(L, s.disk) && Whole(Abs(L, s), c, m)
  }

  ghost predicate GoodTurn(L: LogDisk.Layout, s: State, a: Step, c: Tally, m: Plan) {
    PlanOk(m) && Good(L, s, a) && Turn(s, a, c, m) && WholeAt(L, s, c, m)
  }

  /** The steps of an operation. */
  lemma {:induction false} OpStaysWhole(L: LogDisk.Layout, s: State, a: Step, c: Tally, m: Plan)
    requires GoodTurn(L, s, a, c, m) && (a.BeginOp? || a.LogWrite? || a.EndOp?)
    ensures WholeAt(L, Next(L, s, a), Advance(c, s, a), m)
  {
    StepSimulates(L, s, a);
    var x, y := Abs(L, s), Abs(L, Next(L, s, a));
    match a
    case BeginOp(k) => BeginWhole(x, c, y, m);
    case LogWrite(k, b, data) => UpdateWhole(x, c, b, data, y, m);
    case EndOp(k) =>
      EndsFinal(L, s, c, m);
      EndWhole(x, c, y, m);
  }

  lemma {:induction false} CrashStaysWhole(L: LogDisk.Layout, s: State, c: Tally, m: Plan)
    requires GoodTurn(L, s, Crash, c, m)
    ensures WholeAt(L, Next(L, s, Crash), Tally(c.kept, c.kept), m)
  {
    StepSimulates(L, s, Crash);
    FailWhole(Abs(L, s), c, Abs(L, Next(L, s, Crash)), m);
  }

  lemma {:induction false} DoneStaysWhole(L: LogDisk.Layout, s: State, c: Tally, m: Plan)
    requires GoodTurn(L, s, CommitDone, c, m)
    ensures WholeAt(L, Next(L, s, CommitDone), Tally(c.seen, c.seen), m)
  {
    StepSimulates(L, s, CommitDone);
    CommittedIsDurable(L, s);
    FlushWhole(Abs(L, s), c, Abs(L, Next(L, s, CommitDone)), m);
  }

  lemma {:induction false} FlushStaysWhole(L: LogDisk.Layout, s: State, a: Step, c: Tally, m: Plan)
    requires GoodTurn(L, s, a, c, m) && a.CommitWrite? && Kind(s, a).Flush?
    ensures WholeAt(L, Next(L, s, a), Tally(c.seen, c.seen), m)
  {
    StepSimulates(L, s, a);
    FlushWhole(Abs(L, s), c, Abs(L, Next(L, s, a)), m);
  }

  lemma {:induction false} StutterSame(L: LogDisk.Layout, s: State, a: Step)
    requires Good(L, s, a) && Kind(s, a).Stutter?
    ensures LogDisk.Formatted(L, s.disk) && LogDisk.Formatted(L, Next(L, s, a).disk)
    ensures Abs(L, Next(L, s, a)) == Abs(L, s)
  {
    StepSimulates(L, s, a);
    StutterIs(Abs(L, s), Kind(s, a), Abs(L, Next(L, s, a)));
  }

  lemma {:induction false} StutterIs(x: Atomic, e: AtomicStep, y: Atomic)
    requires AtomicNext(x, e, y) && e.Stutter?
    ensures y == x
  {
  }

  lemma {:induction false} SameStaysWhole(L: LogDisk.Layout, s: State, t: State, c: Tally, m: Plan)
    requires |m.D| == |m.ls| + 1 && WholeAt(L, s, c, m) && LogDisk.Formatted(L, t.disk) && Abs(L, t) == Abs(L, s)
    ensures WholeAt(L, t, c, m)
  {
  }

  lemma {:induction false} StutterStaysWhole(L: LogDisk.Layout, s: State, a: Step, c: Tally, m: Plan)
    requires GoodTurn(L, s, a, c, m) && Kind(s, a).Stutter?
    ensures WholeAt(L, Next(L, s, a), c, m)
  {
    StutterSame(L, s, a);
    SameStaysWhole(L, s, Next(L, s, a), c, m);
  }

  /** Commits, crashes and recoveries. */
  lemma {:induction false} LogStaysWhole(L: LogDisk.Layout, s: State, a: Step, c: Tally, m: Plan)
    requires GoodTurn(L, s, a, c, m) && !a.BeginOp? && !a.LogWrite? && !a.EndOp?
    ensures WholeAt(L, Next(L, s, a), Advance(c, s, a), m)
  {
    if a.Crash? {
      CrashStaysWhole(L, s, c, m);
    } else if a.CommitDone? {
      DoneStaysWhole(L, s, c, m);
    } else if Kind(s, a).Flush? {
      FlushStaysWhole(L, s, a, c, m);
    } else {
      StutterStaysWhole(L, s, a, c, m);
    }
  }

  lemma {:induction false} StepStaysWhole(L: LogDisk.Layout, s: State, a: Step, c: Tally, m: Plan)
    requires |m.D| == |m.ls| + 1
    ensures GoodTurn(L, s, a, c, m) ==> WholeAt(L, Next(L, s, a), Advance(c, s, a), m)
  {
    if GoodTurn(L, s, a, c, m) {
      if a.BeginOp? || a.LogWrite? || a.EndOp? {
        OpStaysWhole(L, s, a, c, m);
      } else {
        LogStaysWhole(L, s, a, c, m);
      }
    }
  }

  /** From state p on, the operations of the run are those of the plan. */
  ghost predicate Turns(ss: seq<State>, acts: seq<Step>, p: nat, m: Plan)
    requires |ss| == |acts| + 1 && |m.D| == |m.ls| + 1
  {
    forall k :: p <= k < |acts| ==> Turn(ss[k], acts[k], TallyAt(ss, acts, p, k), m)
  }

  lemma {:induction false} TurnAt(ss: seq<State>, acts: seq<Step>, p: nat, i: nat, m: Plan)
    requires |ss| == |acts| + 1 && |m.D| == |m.ls| + 1 && Turns(ss, acts, p, m) && p <= i < |acts|
    ensures Turn(ss[i], acts[i], TallyAt(ss, acts, p, i), m)
  {
  }

  ghost predicate Keeps(L: LogDisk.Layout, ss: seq<State>, acts: seq<Step>, p: nat, k: nat, m: Plan)
    requires p <= k < |acts| == |ss| - 1 && |m.D| == |m.ls| + 1
  {
    WholeAt(L, ss[k], TallyAt(ss, acts, p, k), m) ==> WholeAt(L, ss[k + 1], TallyAt(ss, acts, p, k + 1), m)
  }

  lemma {:induction false} StepKeeps(L: LogDisk.Layout, ss: seq<State>, acts: seq<Step>, p: nat, i: nat, m: Plan)
    requires LogMachine.Run(L, ss, acts) && PlanOk(m) && Turns(ss, acts, p, m) && p <= i < |acts|
    ensures Keeps(L, ss, acts, p, i, m)
  {
    RunIsGood(L, ss, acts, i);
    TurnAt(ss, acts, p, i, m);
    StepStaysWhole(L, ss[i], acts[i], TallyAt(ss, acts, p, i), m);
  }

  lemma {:induction false} KeepsOn(L: LogDisk.Layout, ss: seq<State>, acts: seq<Step>, p: nat, i: nat, m: Plan)
    requires p <= i <= |acts| == |ss| - 1 && |m.D| == |m.ls| + 1
    requires forall k: nat :: p <= k < |acts| ==> Keeps(L, ss, acts, p, k, m)
    ensures WholeAt(L, ss[p], Tally(0, 0), m) ==> WholeAt(L, ss[i], TallyAt(ss, acts, p, i), m)
    decreases i
  {
    if i > p {
      KeepsOn(L, ss, acts, p, i - 1, m);
      assert Keeps(L, ss, acts, p, i - 1, m);
    }
  }

  /** In every run that from state p on has the operations of the plan one at a time,
      however it goes and however often it crashes, what recovery yields is the image after
      the operations kept. */
  lemma {:induction false} RunStaysWhole(L: LogDisk.Layout, ss: seq<State>, acts: seq<Step>, p: nat, i: nat, m: Plan)
    requires LogMachine.Run(L, ss, acts) && p <= i < |ss| && PlanOk(m) && Turns(ss, acts, p, m)
    ensures WholeAt(L, ss[p], Tally(0, 0), m) ==> WholeAt(L, ss[i], TallyAt(ss, acts, p, i), m)
  {
    forall k: nat | p <= k < |acts| ensures Keeps(L, ss, acts, p, k, m) {
      StepKeeps(L, ss, acts, p, k, m);
    }
    KeepsOn(L, ss, acts, p, i, m);
  }

  // ---- Chunks of file writes ----

  /** The file system in memory. */
  datatype Snap = Snap(f: Forest, size: seq<nat>)

  predicate IsChunk(n: nat, op: Op) {
    OpOk(n, op) && op.Write? && |op.src| <= CHUNK
  }

  /** A chunk as WriteChunk leaves it: consistent before and after, every block it changed
      logged, and the files those of a flat write. */
  ghost predicate Chunk(sb: Super, start: nat, meta: seq<Meta>, x: Snap, y: Snap, l: set<nat>, op: Op) {
    && Consistent(sb, start, x.f, x.size, meta) && Consistent(sb, start, y.f, y.size, meta)
    && Journaled(start, x.f.disk, y.f.disk, {}, l) && |x.f.disk| <= 0x1_0000_0000
    && IsChunk(|x.size|, op)
    && Files(y.f, y.size) == StepFiles(Files(x.f, x.size), op)
  }

  /** One chunk after the other. */
  ghost predicate Chunks(sb: Super, start: nat, meta: seq<Meta>, xs: seq<Snap>, ls: seq<set<nat>>, ops: seq<Op>) {
    && |ls| == |ops| && |xs| == |ops| + 1
    && Consistent(sb, start, xs[0].f, xs[0].size, meta)
    && forall k {:trigger ls[k]} :: 0 <= k < |ops| ==> Chunk(sb, start, meta, xs[k], xs[k + 1], ls[k], ops[k])
  }

  ghost function PlanOf(start: nat, xs: seq<Snap>, ls: seq<set<nat>>): (m: Plan)
    ensures m.low == start && m.ls == ls
    ensures |m.D| == |xs| && forall k :: 0 <= k < |xs| ==> m.D[k] == xs[k].f.disk
  {
    Plan(start, seq(|xs|, k requires 0 <= k < |xs| => xs[k].f.disk), ls)
  }

  lemma {:induction false} ChunksArePlan(sb: Super, start: nat, meta: seq<Meta>, xs: seq<Snap>, ls: seq<set<nat>>,
      ops: seq<Op>)
    requires Chunks(sb, start, meta, xs, ls, ops)
    ensures PlanOk(PlanOf(start, xs, ls))
  {
    var m := PlanOf(start, xs, ls);
    forall k | 0 <= k < |ls| ensures Journaled(start, m.D[k], m.D[k + 1], {}, ls[k]) && |m.D[k]| <= 0x1_0000_0000 {
      assert Chunk(sb, start, meta, xs[k], xs[k + 1], ls[k], ops[k]);
    }
  }

  /** The snapshots hold the files of the flat run. */
  lemma {:induction false} FilesOfChunks(sb: Super, start: nat, meta: seq<Meta>, xs: seq<Snap>, ls: seq<set<nat>>,
      ops: seq<Op>, j: nat)
    requires Chunks(sb, start, meta, xs, ls, ops) && j <= |ops|
    ensures Consistent(sb, start, xs[j].f, xs[j].size, meta)
    ensures OpsOk(|xs[0].size|, ops)
    ensures Files(xs[j].f, xs[j].size) == RunFiles(Files(xs[0].f, xs[0].size), ops, j)
  {
    forall k | 0 <= k < |ops| ensures OpOk(|xs[0].size|, ops[k]) {
      assert Chunk(sb, start, meta, xs[k], xs[k + 1], ls[k], ops[k]);
      assert |xs[k].size| == |meta| == |xs[0].size|;
    }
    if j > 0 {
      FilesOfChunks(sb, start, meta, xs, ls, ops, j - 1);
      assert Chunk(sb, start, meta, xs[j - 1], xs[j - 1 + 1], ls[j - 1], ops[j - 1]);
    }
  }

  /** No operation is open and the disk is the file system's. */
  ghost predicate AtRest(L: LogDisk.Layout, s: State, start: nat, d: seq<Block>) {
    && s.ops == map[] && LogDisk.Formatted(L, s.disk)
    && SameFrom(start, d, Abs(L, s).durable) && SameFrom(start, d, Abs(L, s).volatile)
  }

  /** A run of the log that from state p on has these chunks as its operations. */
  ghost predicate ChunkRun(L: LogDisk.Layout, ss: seq<State>, acts: seq<Step>, p: nat,
      sb: Super, start: nat, meta: seq<Meta>, xs: seq<Snap>, ls: seq<set<nat>>, ops: seq<Op>)
  {
    && LogMachine.Run(L, ss, acts) && p < |ss|
    && Chunks(sb, start, meta, xs, ls, ops)
    && AtRest(L, ss[p], start, xs[0].f.disk)
    && Turns(ss, acts, p, PlanOf(start, xs, ls))
  }

  lemma {:induction false} ChunksStayWhole(L: LogDisk.Layout, ss: seq<State>, acts: seq<Step>, p: nat, i: nat,
      sb: Super, start: nat, meta: seq<Meta>, xs: seq<Snap>, ls: seq<set<nat>>, ops: seq<Op>)
    requires ChunkRun(L, ss, acts, p, sb, start, meta, xs, ls, ops) && p <= i < |ss|
    ensures WholeAt(L, ss[i], TallyAt(ss, acts, p, i), PlanOf(start, xs, ls))
  {
    var m := PlanOf(start, xs, ls);
    ChunksArePlan(sb, start, meta, xs, ls, ops);
    assert Abs(L, ss[p]).open == {};
    assert WholeAt(L, ss[p], Tally(0, 0), m);
    RunStaysWhole(L, ss, acts, p, i, m);
  }

  /** Every chunk is wholly in the file or wholly absent: in every run of the log whose
      operations are these chunks, cut anywhere, with crashes at any disk write of a commit
      or of a recovery, recovery yields a well-formed file system that holds the files as
      the chunks that were kept leave flat files. Those are at least the chunks that readers
      saw when any earlier commit finished. */
  lemma {:induction false} ChunksAreAllOrNothing(L: LogDisk.Layout, ss: seq<State>, acts: seq<Step>, p: nat, i: nat,
      sb: Super, start: nat, meta: seq<Meta>, xs: seq<Snap>, ls: seq<set<nat>>, ops: seq<Op>) returns (j: nat)
    requires ChunkRun(L, ss, acts, p, sb, start, meta, xs, ls, ops) && p <= i < |ss|
    ensures j == TallyAt(ss, acts, p, i).kept <= |ops| && OpsOk(|xs[0].size|, ops)
    ensures LogDisk.Formatted(L, ss[i].disk)
    ensures HoldsFiles(sb, start, Abs(L, ss[i]).durable, RunFiles(Files(xs[0].f, xs[0].size), ops, j))
    ensures forall q :: p <= q < i && acts[q].CommitDone? ==> TallyAt(ss, acts, p, q).seen <= j
  {
    ChunksStayWhole(L, ss, acts, p, i, sb, start, meta, xs, ls, ops);
    j := TallyAt(ss, acts, p, i).kept;
    FilesOfChunks(sb, start, meta, xs, ls, ops, j);
    AgreementHolds(sb, start, xs[j].f, xs[j].size, meta, Abs(L, ss[i]).durable);
    forall q | p <= q < i && acts[q].CommitDone? ensures TallyAt(ss, acts, p, q).seen <= j {
      KeptStays(ss, acts, p, q, i);
    }
  }

  // ---- The chunks of one filewrite ----

  /** How much of n bytes the first j chunks hold. */
  function Upto(n: nat, j: nat): (m: nat)
    ensures m <= n
  {
    if j * CHUNK <= n then j * CHUNK else n
  }

  /** The writes that filewrite's loop makes. */
  ghost predicate Pieces(ops: seq<Op>, ip: nat, off: nat, src: seq<Byte>) {
    && off + |src| <= MAXBYTES && |ops| * CHUNK < |src| + CHUNK && |src| <= |ops| * CHUNK
    && forall k {:trigger ops[k]} :: 0 <= k < |ops| ==>
      ops[k] == Write(ip, off + k * CHUNK, src[Upto(|src|, k)..Upto(|src|, k + 1)])
  }

  /** After j of them the file holds the first j chunks of the data. */
  lemma {:induction false} PiecesJoin(files: seq<seq<Byte>>, ops: seq<Op>, ip: nat, off: nat, src: seq<Byte>, j: nat)
    requires ip < |files| && Pieces(ops, ip, off, src) && off <= |files[ip]| && j <= |ops| && OpsOk(|files|, ops)
    ensures RunFiles(files, ops, j) == files[ip := Splice(files[ip], off, src[..Upto(|src|, j)])]
  {
    var c := files[ip];
    if j == 0 {
      assert src[..0] == [];
      SpliceNothing(c, off);
    } else {
      PiecesJoin(files, ops, ip, off, src, j - 1);
      var m, m' := Upto(|src|, j - 1), Upto(|src|, j);
      assert m == (j - 1) * CHUNK && ops[j - 1] == Write(ip, off + m, src[m..m']);
      SpliceConcat(c, off, src[..m], src[m..m']);
      assert src[..m] + src[m..m'] == src[..m'];
    }
  }

  /** After a crash during filewrite the file holds a whole number of its chunks, no fewer
      than were seen when any commit finished, and all other files are as they were. */
  lemma {:induction false} FilewriteCrash(L: LogDisk.Layout, ss: seq<State>, acts: seq<Step>, p: nat, i: nat,
      sb: Super, start: nat, meta: seq<Meta>, xs: seq<Snap>, ls: seq<set<nat>>, ops: seq<Op>,
      ip: nat, off: nat, src: seq<Byte>) returns (j: nat)
    requires ChunkRun(L, ss, acts, p, sb, start, meta, xs, ls, ops) && p <= i < |ss|
    requires Pieces(ops, ip, off, src) && ip < |xs[0].size| && off <= xs[0].size[ip]
    ensures LogDisk.Formatted(L, ss[i].disk) && j <= |ops|
    ensures var files := Files(xs[0].f, xs[0].size);
      HoldsFiles(sb, start, Abs(L, ss[i]).durable, files[ip := Splice(files[ip], off, src[..Upto(|src|, j)])])
    ensures forall q :: p <= q < i && acts[q].CommitDone? ==> TallyAt(ss, acts, p, q).seen <= j
  {
    j := ChunksAreAllOrNothing(L, ss, acts, p, i, sb, start, meta, xs, ls, ops);
    PiecesJoin(Files(xs[0].f, xs[0].size), ops, ip, off, src, j);
  }

  /** Once the commit of the last chunk has finished, the whole write survives every crash. */
  lemma {:induction false} FilewriteDurable(L: LogDisk.Layout, ss: seq<State>, acts: seq<Step>, p: nat, q: nat, i: nat,
      sb: Super, start: nat, meta: seq<Meta>, xs: seq<Snap>, ls: seq<set<nat>>, ops: seq<Op>,
      ip: nat, off: nat, src: seq<Byte>)
    requires ChunkRun(L, ss, acts, p, sb, start, meta, xs, ls, ops) && p <= q < i < |ss|
    requires Pieces(ops, ip, off, src) && ip < |xs[0].size| && off <= xs[0].size[ip]
    requires acts[q].CommitDone? && TallyAt(ss, acts, p, q).seen == |ops|
    ensures LogDisk.Formatted(L, ss[i].disk)
    ensures var files := Files(xs[0].f, xs[0].size);
      HoldsFiles(sb, start, Abs(L, ss[i]).durable, files[ip := Splice(files[ip], off, src)])
  {
    var j := FilewriteCrash(L, ss, acts, p, i, sb, start, meta, xs, ls, ops, ip, off, src);
    assert j == |ops|;
    assert src[..Upto(|src|, j)] == src;
  }

  // ---- The chunks that the file system writes ----

  /** The transactions of WriteChunk, one after the other, are such chunks. */
  method WriteChunks(fs: FileSystem, ops: seq<Op>) returns (done: nat, ghost xs: seq<Snap>, ghost ls: seq<set<nat>>)
    requires Ready(fs) && AllSynced(fs) && fs.inodestart <= fs.sb.bmapstart && |fs.disk| <= 0x1_0000_0000
    requires forall k :: 0 <= k < |ops| ==> IsChunk(|fs.size|, ops[k])
    modifies fs
    ensures done <= |ops| && Chunks(fs.sb, fs.inodestart, old(fs.meta), xs, ls, ops[..done])
    ensures xs[0] == Snap(old(fs.View()), old(fs.size))
    ensures done < |ops| ==> fs.Valid() && fs.Full()
    ensures done == |ops| ==>
      Ready(fs) && AllSynced(fs) && xs[done] == Snap(fs.View(), fs.size) && fs.meta == old(fs.meta)
  {
    ConsistentNow(fs);
    xs, ls := [Snap(fs.View(), fs.size)], [];
    done := 0;
    while done < |ops|
      invariant done <= |ops| && Chunks(fs.sb, fs.inodestart, old(fs.meta), xs, ls, ops[..done])
      invariant Ready(fs) && AllSynced(fs) && fs.meta == old(fs.meta) && |fs.size| == |old(fs.size)|
        && |fs.disk| <= 0x1_0000_0000
      invariant xs[0] == Snap(old(fs.View()), old(fs.size)) && xs[done] == Snap(fs.View(), fs.size)
    {
      ConsistentNow(fs);
      var op := ops[done];
      assert IsChunk(|fs.size|, op);
      var o := FileOps.WriteChunk(fs, op.ip, op.off, op.src);
      if !o.Ok? {
        return;
      }
      ConsistentNow(fs);
      ghost var y := Snap(fs.View(), fs.size);
      ChunksMore(fs.sb, fs.inodestart, fs.meta, xs, ls, ops, done, y, fs.logged);
      xs, ls, done := xs + [y], ls + [fs.logged], done + 1;
    }
    assert ops[..done] == ops;
  }

  lemma {:induction false} ChunksMore(sb: Super, start: nat, meta: seq<Meta>, xs: seq<Snap>, ls: seq<set<nat>>,
      ops: seq<Op>, k: nat, y: Snap, l: set<nat>)
    requires k < |ops| && Chunks(sb, start, meta, xs, ls, ops[..k]) && Chunk(sb, start, meta, xs[k], y, l, ops[k])
    ensures Chunks(sb, start, meta, xs + [y], ls + [l], ops[..k + 1])
  {
    var xs', ls', ops' := xs + [y], ls + [l], ops[..k + 1];
    forall j | 0 <= j < |ops'| ensures Chunk(sb, start, meta, xs'[j], xs'[j + 1], ls'[j], ops'[j]) {
      if j < k {
        assert Chunk(sb, start, meta, xs[j], xs[j + 1], ls[j], ops[..k][j]);
      }
    }
  }
}
