/** Every run of the log: concurrent operations, group commit one disk write at a
    time, crashes at any moment and recovery one disk write at a time. The runs
    refine an atomic disk on which only a moment with no open operation ever
    becomes durable. */
module LogMachine {
  import opened Blocks
  import opened LogDisk

  datatype Phase =
    | Running
    | Committing(base: Disk, done: nat)   // inside commit(), done writes after state base
    | Recovering(base: Disk, done: nat)   // inside recover_from_log(), likewise

  /** What an open operation has done: its log_write calls, and the distinct blocks they named. */
  datatype Use = Use(calls: nat, blocks: set<Word32>)

  /** lh is log.lh.block[0..n), cache the buffers pinned by B_DIRTY, ops the open operations. */
  datatype State = State(disk: Disk, phase: Phase, lh: seq<Word32>, cache: map<Word32, Block>, ops: map<nat, Use>)

  datatype Step =
    | BeginOp(op: nat)
    | LogWrite(op: nat, b: Word32, data: Block)
    | EndOp(op: nat)
    | CommitWrite
    | CommitDone
    | Crash
    | RecoverWrite
    | RecoverDone

  /** log absorption: a block already in the transaction is not listed again. */
  function Absorb(lh: seq<Word32>, b: Word32): (r: seq<Word32>)
    ensures b in r
    ensures Distinct(lh) ==> Distinct(r)
  {
    if b in lh then lh else lh + [b]
  }

  predicate Pinned(lh: seq<Word32>, cache: map<Word32, Block>) {
    forall i :: 0 <= i < |lh| ==> lh[i] in cache
  }

  function CacheImages(lh: seq<Word32>, cache: map<Word32, Block>): (im: seq<Block>)
    requires Pinned(lh, cache)
    ensures |im| == |lh|
  {
    seq(|lh|, i requires 0 <= i < |lh| => cache[lh[i]])
  }

  // ---- Invariant ----

  ghost predicate PhaseOk(L: Layout, s: State)
    requires Transaction(L, |s.disk|, s.lh) && Pinned(s.lh, s.cache)
  {
    match s.phase
    case Running => Formatted(L, s.disk) && Header(L, s.disk) == []
    case Committing(base, done) =>
      && s.ops == map[]
      && |base| == |s.disk| && Formatted(L, base) && Header(L, base) == []
      && var ws := CommitWrites(L, base, s.lh, CacheImages(s.lh, s.cache));
      && done <= |ws| && s.disk == After(base, ws, done)
    case Recovering(base, done) =>
      && s.ops == map[] && s.lh == [] && s.cache == map[]
      && |base| == |s.disk| && Formatted(L, base)
      && done <= |RecoverWrites(L, base)| && s.disk == After(base, RecoverWrites(L, base), done)
  }

  ghost predicate Inv(L: Layout, s: State) {
    && Transaction(L, |s.disk|, s.lh)
    && Pinned(s.lh, s.cache)
    && (forall b :: b in s.cache ==> b in s.lh)
    && PhaseOk(L, s)
  }

  // ---- Transitions ----

  /** The test at the head of log_write. */
  predicate TooBig(L: Layout, lh: seq<Word32>) {
    |lh| >= LOGSIZE || |lh| >= L.size - 1
  }

  predicate Enabled(L: Layout, s: State, a: Step) {
    match a
    case BeginOp(op) => s.phase.Running? && op !in s.ops && |s.lh| + (|s.ops| + 1) * MAXOPBLOCKS <= LOGSIZE
    case LogWrite(op, b, _) =>
      s.phase.Running? && op in s.ops && b < |s.disk| && Home(L, b)
    case EndOp(op) => s.phase.Running? && op in s.ops
    case CommitWrite =>
      && s.phase.Committing? && Transaction(L, |s.phase.base|, s.lh) && Pinned(s.lh, s.cache)
      && L.start + L.size <= |s.phase.base| == |s.disk|
      && s.phase.done < |CommitWrites(L, s.phase.base, s.lh, CacheImages(s.lh, s.cache))|
    case CommitDone =>
      && s.phase.Committing? && Transaction(L, |s.phase.base|, s.lh) && Pinned(s.lh, s.cache)
      && L.start + L.size <= |s.phase.base|
      && s.phase.done == |CommitWrites(L, s.phase.base, s.lh, CacheImages(s.lh, s.cache))|
    case Crash => true
    case RecoverWrite =>
      && s.phase.Recovering? && Formatted(L, s.phase.base) && |s.phase.base| == |s.disk|
      && s.phase.done < |RecoverWrites(L, s.phase.base)|
    case RecoverDone =>
      && s.phase.Recovering? && Formatted(L, s.phase.base)
      && s.phase.done == |RecoverWrites(L, s.phase.base)|
  }

  /** log_write stops the kernel. */
  predicate Panics(L: Layout, s: State, a: Step) {
    Enabled(L, s, a) && a.LogWrite? && TooBig(L, s.lh)
  }

  function Do(w: Write, d: Disk): Disk
    requires w.addr < |d|
  {
    d[w.addr := w.data]
  }

  function Used(u: Use, b: Word32): Use {
    Use(u.calls + 1, u.blocks + {b})
  }

  function Next(L: Layout, s: State, a: Step): (t: State)
    requires Enabled(L, s, a) && !Panics(L, s, a)
  {
    match a
    case BeginOp(op) => s.(ops := s.ops[op := Use(0, {})])
    case LogWrite(op, b, data) =>
      s.(lh := Absorb(s.lh, b), cache := s.cache[b := data], ops := s.ops[op := Used(s.ops[op], b)])
    case EndOp(op) =>
      var rest := s.ops - {op};
      s.(ops := rest, phase := if rest == map[] then Committing(s.disk, 0) else Running)
    case CommitWrite =>
      var ws := CommitWrites(L, s.phase.base, s.lh, CacheImages(s.lh, s.cache));
      s.(disk := Do(ws[s.phase.done], s.disk), phase := Committing(s.phase.base, s.phase.done + 1))
    case CommitDone => s.(phase := Running, lh := [], cache := map[])
    case Crash => State(s.disk, Recovering(s.disk, 0), [], map[], map[])
    case RecoverWrite =>
      var ws := RecoverWrites(L, s.phase.base);
      s.(disk := Do(ws[s.phase.done], s.disk), phase := Recovering(s.phase.base, s.phase.done + 1))
    case RecoverDone => s.(phase := Running)
  }

  // ---- The atomic disk ----

  /** What users of the log may rely on: blocks on stable storage, blocks as
      operations see them, and the operations in progress. */
  datatype Atomic = Atomic(durable: seq<Block>, volatile: seq<Block>, open: set<nat>)

  datatype AtomicStep =
    | Begin(op: nat)
    | Update(op: nat, b: nat, data: Block)
    | End(op: nat)
    | Flush
    | Fail
    | Stutter

  ghost predicate AtomicNext(a: Atomic, e: AtomicStep, a': Atomic) {
    match e
    case Begin(op) => op !in a.open && a' == a.(open := a.open + {op})
    case Update(op, b, data) => op in a.open && b < |a.volatile| && a' == a.(volatile := a.volatile[b := data])
    case End(op) => op in a.open && a' == a.(open := a.open - {op})
    case Flush => a.open == {} && a' == a.(durable := a.volatile)
    case Fail => a' == Atomic(a.durable, a.durable, {})
    case Stutter => a' == a
  }

  /** The disk as recovery would leave it, with the log area blanked. */
  ghost function Blank(L: Layout, f: Disk): (r: Disk) {
    seq(|f|, b requires 0 <= b < |f| => if Home(L, b) then f[b] else Zeroed())
  }

  ghost function Durable(L: Layout, d: Disk): (r: Disk)
    requires Formatted(L, d)
  {
    Blank(L, Meaning(L, d))
  }

  /** A block as bread returns it: the pinned buffer if there is one. */
  ghost function Volatile(f: Disk, cache: map<Word32, Block>): (r: Disk) {
    seq(|f|, b requires 0 <= b < |f| => if b in cache then cache[b] else f[b])
  }

  ghost function Abs(L: Layout, s: State): Atomic
    requires Formatted(L, s.disk)
  {
    Atomic(Durable(L, s.disk), Volatile(Durable(L, s.disk), s.cache), s.ops.Keys)
  }

  function Kind(s: State, a: Step): AtomicStep {
    match a
    case BeginOp(op) => Begin(op)
    case LogWrite(op, b, data) => Update(op, b, data)
    case EndOp(op) => End(op)
    case CommitWrite => if s.phase.Committing? && s.phase.done == |s.lh| then Flush else Stutter
    case Crash => Fail
    case _ => Stutter
  }

  lemma {:induction false} DurableIs(L: Layout, d: Disk, f: Disk)
    requires Means(L, d, f)
    ensures Durable(L, d) == Blank(L, f)
  {
    forall b | 0 <= b < |d| ensures Durable(L, d)[b] == Blank(L, f)[b] {
      if Home(L, b) {
        assert Logical(L, d, b) == f[b];
        assert Logical(L, d, b) == Meaning(L, d)[b];
      }
    }
  }

  /** Laying the cache over the disk is laying the transaction over it. */
  lemma {:induction false} OverlayIsVolatile(L: Layout, base: Disk, lh: seq<Word32>, cache: map<Word32, Block>)
    requires Transaction(L, |base|, lh) && Pinned(lh, cache) && forall b :: b in cache ==> b in lh
    ensures var f := Overlay(base, lh, CacheImages(lh, cache), |lh|);
            && Blank(L, f) == Volatile(Blank(L, base), cache)
            && Volatile(Blank(L, f), cache) == Blank(L, f)
  {
    var im := CacheImages(lh, cache);
    var f := Overlay(base, lh, im, |lh|);
    forall b | 0 <= b < |base|
      ensures Blank(L, f)[b] == Volatile(Blank(L, base), cache)[b]
      ensures b in cache ==> Blank(L, f)[b] == cache[b]
    {
      if b in lh {
        var i :| 0 <= i < |lh| && lh[i] == b;
        OverlayLogged(base, lh, im, |lh|, i);
      } else {
        OverlayOther(base, lh, im, |lh|, b);
      }
    }
  }

  /** Where a commit stands: everything is volatile, and durable from the header on. */
  lemma {:induction false} CommittingMeans(L: Layout, s: State)
    requires Inv(L, s) && s.phase.Committing?
    ensures Formatted(L, s.disk)
    ensures var base := s.phase.base;
            && Durable(L, s.disk) == (if s.phase.done <= |s.lh| then Blank(L, base)
              else Volatile(Blank(L, base), s.cache))
            && Volatile(Durable(L, s.disk), s.cache) == Volatile(Blank(L, base), s.cache)
    ensures s.phase.done == |CommitWrites(L, s.phase.base, s.lh, CacheImages(s.lh, s.cache))| ==>
      Header(L, s.disk) == [] && Durable(L, s.disk) == Volatile(Blank(L, s.phase.base), s.cache)
  {
    var base, done := s.phase.base, s.phase.done;
    var im := CacheImages(s.lh, s.cache);
    CommitPrefix(L, base, s.lh, im, done);
    var f := Overlay(base, s.lh, im, |s.lh|);
    DurableIs(L, s.disk, if done <= |s.lh| then base else f);
    OverlayIsVolatile(L, base, s.lh, s.cache);
    if s.lh == [] {
      assert f == base;
    }
  }

  lemma {:induction false} RecoveringMeans(L: Layout, s: State)
    requires Inv(L, s) && s.phase.Recovering?
    ensures Formatted(L, s.disk)
    ensures Durable(L, s.disk) == Durable(L, s.phase.base)
    ensures s.phase.done == |RecoverWrites(L, s.phase.base)| ==> Header(L, s.disk) == []
  {
    RecoverPrefix(L, s.phase.base, s.phase.done, Meaning(L, s.phase.base));
    DurableIs(L, s.disk, Meaning(L, s.phase.base));
  }

  lemma {:induction false} AlwaysFormatted(L: Layout, s: State)
    requires Inv(L, s)
    ensures Formatted(L, s.disk)
  {
    match s.phase
    case Running =>
    case Committing(_, _) => CommittingMeans(L, s);
    case Recovering(_, _) => RecoveringMeans(L, s);
  }

  // ---- Every step keeps the invariant and is a step of the atomic disk ----

  ghost predicate Good(L: Layout, s: State, a: Step) {
    && Inv(L, s) && Enabled(L, s, a) && !Panics(L, s, a)
  }

  ghost predicate Simulates(L: Layout, s: State, a: Step)
    requires Good(L, s, a)
  {
    var t := Next(L, s, a);
    && Inv(L, t)
    && Formatted(L, s.disk) && Formatted(L, t.disk)
    && AtomicNext(Abs(L, s), Kind(s, a), Abs(L, t))
  }

  lemma {:induction false} BeginOpSimulates(L: Layout, s: State, a: Step)
    requires Good(L, s, a) && a.BeginOp?
    ensures Simulates(L, s, a)
  {
    var ops := s.ops[a.op := Use(0, {})];
    OpsOnly(L, s, ops);
    assert ops.Keys == s.ops.Keys + {a.op};
    assert Next(L, s, a) == s.(ops := ops);
  }

  /** Outside commit and recovery the table of open operations is free to change. */
  lemma {:induction false} OpsOnly(L: Layout, s: State, ops: map<nat, Use>)
    requires Inv(L, s) && s.phase.Running?
    ensures Inv(L, s.(ops := ops)) && Formatted(L, s.disk)
    ensures Abs(L, s.(ops := ops)) == Abs(L, s).(open := ops.Keys)
  {
  }

  lemma {:induction false} LogWriteSimulates(L: Layout, s: State, a: Step)
    requires Good(L, s, a) && a.LogWrite?
    ensures Simulates(L, s, a)
  {
    var t := Next(L, s, a);
    assert t.ops.Keys == s.ops.Keys;
    var f := Durable(L, s.disk);
    assert Volatile(f, t.cache) == Volatile(f, s.cache)[a.b := a.data];
  }

  lemma {:induction false} EndOpSimulates(L: Layout, s: State, a: Step)
    requires Good(L, s, a) && a.EndOp?
    ensures Simulates(L, s, a)
  {
    assert (s.ops - {a.op}).Keys == s.ops.Keys - {a.op};
  }

  lemma {:induction false} CommitWriteSimulates(L: Layout, s: State, a: Step)
    requires Good(L, s, a) && a.CommitWrite?
    ensures Simulates(L, s, a)
  {
    var t := Next(L, s, a);
    CommitWriteKeepsInv(L, s);
    CommittingMeans(L, s);
    CommittingMeans(L, t);
  }

  lemma {:induction false} CommitWriteKeepsInv(L: Layout, s: State)
    requires Good(L, s, CommitWrite)
    ensures Inv(L, Next(L, s, CommitWrite))
  {
    NextCommitWrite(L, s);
  }

  /** One more write of the commit, and nothing else. */
  lemma {:induction false} NextCommitWrite(L: Layout, s: State)
    requires Good(L, s, CommitWrite)
    ensures var ws := CommitWrites(L, s.phase.base, s.lh, CacheImages(s.lh, s.cache));
      && s.phase.done < |ws|
      && Next(L, s, CommitWrite) ==
         s.(disk := After(s.phase.base, ws, s.phase.done + 1), phase := Committing(s.phase.base, s.phase.done + 1))
  {
    var ws := CommitWrites(L, s.phase.base, s.lh, CacheImages(s.lh, s.cache));
    assert After(s.phase.base, ws, s.phase.done + 1) == Do(ws[s.phase.done], s.disk);
  }

  lemma {:induction false} CommitDoneSimulates(L: Layout, s: State, a: Step)
    requires Good(L, s, a) && a.CommitDone?
    ensures Simulates(L, s, a)
  {
    var t := Next(L, s, a);
    CommittingMeans(L, s);
    var f := Durable(L, s.disk);
    assert Volatile(f, t.cache) == f;
  }

  lemma {:induction false} CrashSimulates(L: Layout, s: State, a: Step)
    requires Good(L, s, a) && a.Crash?
    ensures Simulates(L, s, a)
  {
    AlwaysFormatted(L, s);
    var f := Durable(L, s.disk);
    assert Volatile(f, map[]) == f;
  }

  lemma {:induction false} RecoverSimulates(L: Layout, s: State, a: Step)
    requires Good(L, s, a) && (a.RecoverWrite? || a.RecoverDone?)
    ensures Simulates(L, s, a)
  {
    var t := Next(L, s, a);
    RecoveringMeans(L, s);
    if a.RecoverWrite? {
      RecoverWriteKeepsInv(L, s);
      RecoveringMeans(L, t);
    }
  }

  lemma {:induction false} RecoverWriteKeepsInv(L: Layout, s: State)
    requires Good(L, s, RecoverWrite)
    ensures Inv(L, Next(L, s, RecoverWrite))
  {
    var ws := RecoverWrites(L, s.phase.base);
    assert After(s.phase.base, ws, s.phase.done + 1) == Do(ws[s.phase.done], s.disk);
  }

  lemma {:induction false} StepSimulates(L: Layout, s: State, a: Step)
    requires Good(L, s, a)
    ensures Simulates(L, s, a)
  {
    match a
    case BeginOp(_) => BeginOpSimulates(L, s, a);
    case LogWrite(_, _, _) => LogWriteSimulates(L, s, a);
    case EndOp(_) => EndOpSimulates(L, s, a);
    case CommitWrite => CommitWriteSimulates(L, s, a);
    case CommitDone => CommitDoneSimulates(L, s, a);
    case Crash => CrashSimulates(L, s, a);
    case RecoverWrite => RecoverSimulates(L, s, a);
    case RecoverDone => RecoverSimulates(L, s, a);
  }

  // ---- Runs ----

  /** A kernel that has just booted, with recovery about to start or just finished. */
  ghost predicate Init(L: Layout, s: State) {
    && Formatted(L, s.disk)
    && s.lh == [] && s.cache == map[] && s.ops == map[]
    && (s.phase == Recovering(s.disk, 0) || (s.phase == Running && Header(L, s.disk) == []))
  }

  predicate StepTo(L: Layout, s: State, a: Step, t: State) {
    Enabled(L, s, a) && !Panics(L, s, a) && t == Next(L, s, a)
  }

  ghost predicate Run(L: Layout, ss: seq<State>, acts: seq<Step>) {
    && |ss| == |acts| + 1 && Init(L, ss[0])
    && forall i :: 0 <= i < |acts| ==> StepTo(L, ss[i], acts[i], ss[i + 1])
  }

  lemma {:induction false} RunKeepsInv(L: Layout, ss: seq<State>, acts: seq<Step>, i: nat)
    requires Run(L, ss, acts) && i < |ss|
    ensures Inv(L, ss[i]) && Formatted(L, ss[i].disk)
  {
    if i > 0 {
      RunKeepsInv(L, ss, acts, i - 1);
      assert StepTo(L, ss[i - 1], acts[i - 1], ss[i - 1 + 1]);
      StepSimulates(L, ss[i - 1], acts[i - 1]);
    }
  }

  /** Refinement over whole runs: the log behaves as the atomic disk. */
  lemma {:induction false} RunRefinesAtomicDisk(L: Layout, ss: seq<State>, acts: seq<Step>, i: nat)
    requires Run(L, ss, acts) && i < |acts|
    ensures Formatted(L, ss[i].disk) && Formatted(L, ss[i + 1].disk)
    ensures AtomicNext(Abs(L, ss[i]), Kind(ss[i], acts[i]), Abs(L, ss[i + 1]))
  {
    RunKeepsInv(L, ss, acts, i);
    assert StepTo(L, ss[i], acts[i], ss[i + 1]);
    StepSimulates(L, ss[i], acts[i]);
  }

  lemma {:induction false} OnlyFlushIsDurable(a: Atomic, e: AtomicStep, a': Atomic)
    requires AtomicNext(a, e, a')
    ensures a'.durable == if e.Flush? then a.volatile else a.durable
    ensures e.Flush? ==> a.open == {}
  {
  }

  /** A finished commit leaves nothing to lose: what survives a crash is what readers see. */
  lemma {:induction false} CommittedIsDurable(L: Layout, s: State)
    requires Good(L, s, CommitDone)
    ensures var t := Next(L, s, CommitDone);
      Formatted(L, t.disk) && t.ops == map[] && Abs(L, t).durable == Abs(L, t).volatile
  {
    var t := Next(L, s, CommitDone);
    CommittingMeans(L, s);
    assert Volatile(Durable(L, t.disk), map[]) == Durable(L, t.disk);
  }

  lemma {:induction false} RunIsGood(L: Layout, ss: seq<State>, acts: seq<Step>, i: nat)
    requires Run(L, ss, acts) && i < |acts|
    ensures Good(L, ss[i], acts[i]) && ss[i + 1] == Next(L, ss[i], acts[i])
  {
    RunKeepsInv(L, ss, acts, i);
    assert StepTo(L, ss[i], acts[i], ss[i + 1]);
  }

  /** The blocks that survive a crash change in no other way than by a flush. */
  lemma {:induction false} DurableMoves(L: Layout, ss: seq<State>, acts: seq<Step>, i: nat)
    requires Run(L, ss, acts) && i < |acts|
    ensures Formatted(L, ss[i].disk) && Formatted(L, ss[i + 1].disk)
    ensures Kind(ss[i], acts[i]).Flush? ==>
      ss[i].ops == map[] && Abs(L, ss[i + 1]).durable == Abs(L, ss[i]).volatile
    ensures !Kind(ss[i], acts[i]).Flush? ==> Abs(L, ss[i + 1]).durable == Abs(L, ss[i]).durable
  {
    RunRefinesAtomicDisk(L, ss, acts, i);
    OnlyFlushIsDurable(Abs(L, ss[i]), Kind(ss[i], acts[i]), Abs(L, ss[i + 1]));
    assert Kind(ss[i], acts[i]).Flush? ==> ss[i].ops.Keys == {};
  }

  lemma {:induction false} BootIsQuiet(L: Layout, ss: seq<State>, acts: seq<Step>)
    requires Run(L, ss, acts)
    ensures ss[0].ops == map[] && Formatted(L, ss[0].disk) && Abs(L, ss[0]).durable == Abs(L, ss[0]).volatile
  {
    assert Volatile(Durable(L, ss[0].disk), map[]) == Durable(L, ss[0].disk);
  }

  /** j is a moment without open operations that no commit finished by i comes after, and
      what would survive a crash at i is what readers saw at j. */
  ghost predicate Quiet(L: Layout, ss: seq<State>, acts: seq<Step>, i: nat, j: nat)
    requires |ss| == |acts| + 1 && i < |ss|
  {
    && j <= i && ss[j].ops == map[]
    && (forall q :: 0 <= q < i && acts[q].CommitDone? ==> q < j)
    && Formatted(L, ss[i].disk) && Formatted(L, ss[j].disk)
    && Abs(L, ss[i]).durable == Abs(L, ss[j]).volatile
  }

  /** The moment after step i: this one if a commit finished, the one before it if the
      commit reached the header, otherwise what it was. */
  lemma {:induction false} QuietNext(L: Layout, ss: seq<State>, acts: seq<Step>, i: nat, j: nat, k: nat)
    requires |ss| == |acts| + 1 && i < |acts| && Quiet(L, ss, acts, i, j) && Formatted(L, ss[i + 1].disk)
    requires if k == i + 1 then ss[i + 1].ops == map[] && Abs(L, ss[i + 1]).durable == Abs(L, ss[i + 1]).volatile
      else if k == i then
        !acts[i].CommitDone? && ss[i].ops == map[] && Abs(L, ss[i + 1]).durable == Abs(L, ss[i]).volatile
      else k == j && !acts[i].CommitDone? && Abs(L, ss[i + 1]).durable == Abs(L, ss[i]).durable
    ensures Quiet(L, ss, acts, i + 1, k)
  {
  }

  lemma {:induction false} QuietStep(L: Layout, ss: seq<State>, acts: seq<Step>, i: nat, j: nat) returns (k: nat)
    requires Run(L, ss, acts) && i < |acts| && Quiet(L, ss, acts, i, j)
    ensures Quiet(L, ss, acts, i + 1, k)
  {
    DurableMoves(L, ss, acts, i);
    if acts[i].CommitDone? {
      RunIsGood(L, ss, acts, i);
      CommittedIsDurable(L, ss[i]);
      k := i + 1;
    } else {
      k := if Kind(ss[i], acts[i]).Flush? then i else j;
    }
    QuietNext(L, ss, acts, i, j, k);
  }

  /** Wherever the machine stops, recovery yields the blocks as they were seen at some
      earlier moment at which no operation was in progress, and which no commit that had
      finished by then comes after. */
  lemma {:induction false} CrashLandsOnQuietMoment(L: Layout, ss: seq<State>, acts: seq<Step>, i: nat) returns (j: nat)
    requires Run(L, ss, acts) && i < |ss|
    ensures j <= i && ss[j].ops == map[]
    ensures forall q :: 0 <= q < i && acts[q].CommitDone? ==> q < j
    ensures Formatted(L, ss[i].disk) && Formatted(L, ss[j].disk)
    ensures Abs(L, ss[i]).durable == Abs(L, ss[j]).volatile
  {
    if i == 0 {
      BootIsQuiet(L, ss, acts);
      j := 0;
    } else {
      j := CrashLandsOnQuietMoment(L, ss, acts, i - 1);
      j := QuietStep(L, ss, acts, i - 1, j);
    }
  }

  /** A commit never overlaps an open operation. */
  lemma {:induction false} CommitExcludesOps(L: Layout, ss: seq<State>, acts: seq<Step>, i: nat)
    requires Run(L, ss, acts) && i < |ss|
    ensures !ss[i].phase.Running? ==> ss[i].ops == map[]
    ensures Distinct(ss[i].lh) && |ss[i].lh| <= LOGSIZE
  {
    RunKeepsInv(L, ss, acts, i);
  }
}
