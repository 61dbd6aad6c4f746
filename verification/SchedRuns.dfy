/** Every run of the process table: conservation of CPU shares, the floor under the
    feedback queue's share, and exactly when it gives way. */
module SchedRuns {
  import opened ProcStates
  import opened MlfqQueue
  import opened SchedTable
  import opened SchedShares
  import opened SchedLife

  /** The slot that the first allocproc hands out. */
  const INITPROC: int := 0

  datatype Step =
    | Fork(cur: int, copied: bool)
    | ThreadCreate(cur: int, copied: bool)
    | SetShare(cur: int, n: int)
    | Join(cur: int, entry: nat)
    | ThreadExit(cur: int)
    | Exit(cur: int)
    | Wait(cur: int)
    | Dispatch(p: int, st: ProcState)
    | Boost
    | Drop(p: int)
    | Top(level: nat)

  predicate Running(t: Table, cur: int)
    requires Shape(t)
  {
    Slot(cur) && t.procs[cur].state == RUNNING
  }

  lemma {:induction false} RunningMain(t: Table, cur: int)
    requires ThreadInv(t) && Running(t, cur)
    ensures Main(t, t.procs[cur].mthread)
  {
    assert Belongs(t, cur);
  }

  // ---- droppriority ----

  ghost function Dropped(t: Table, p: int): (r: Table)
    requires QueueInv(t) && Slot(p) && t.procs[p].inqueue && t.procs[p].priority in {0, 1}
    ensures QueueInv(r) && SameThreads(t, r)
  {
    DropDefined(t, p);
    var t1 := Pushed(Taken(t, p), t.procs[p].priority + 1, p);
    DemotedKeeps(t1, p);
    Put(t1, p, Demoted(t1.procs[p]))
  }

  lemma {:induction false} DropDefined(t: Table, p: int)
    requires QueueInv(t) && Slot(p) && t.procs[p].inqueue && t.procs[p].priority in {0, 1}
    ensures var t1 := Pushed(Taken(t, p), t.procs[p].priority + 1, p);
      QueueInv(t1) && SameThreads(t, t1) && t1.procs[p] == t.procs[p]
  {
    TakenOthers(t, p);
    PushedKeeps(Taken(t, p), t.procs[p].priority + 1, p);
  }

  lemma {:induction false} DemotedKeeps(t: Table, p: int)
    requires QueueInv(t) && Slot(p) && t.procs[p].priority in {0, 1}
    ensures QueueInv(Put(t, p, Demoted(t.procs[p]))) && SameThreads(t, Put(t, p, Demoted(t.procs[p])))
  {
    SameFlags(t, Put(t, p, Demoted(t.procs[p])));
  }

  // ---- top ----

  /** Place k of a queue holds a runnable process without a share. */
  predicate Eligible(t: Table, level: nat, k: int)
    requires Shape(t) && level < 3
  {
    && 0 <= k < |t.queues[level]|
    && Slot(t.queues[level][k])
    && t.procs[t.queues[level][k]].state == RUNNABLE
    && t.procs[t.queues[level][k]].percentage == 0
  }

  function Stop(index: int, n: nat): (k: nat)
    requires -1 <= index < NPROC && n <= NPROC
    ensures k < NPROC
  {
    Place(After(index), n)
  }

  lemma {:induction false} NextPlace(index: int, n: nat, at: int)
    requires -1 <= index < NPROC && -1 <= at < NPROC && n < NPROC
    requires at == if n == 0 then index else Stop(index, n - 1)
    ensures After(at) == Stop(index, n)
  {
  }

  /** Stops of the search, from stop n on, before the first eligible place; NPROC if none. */
  function Stops(t: Table, level: nat, n: nat): (d: nat)
    requires Shape(t) && level < 3 && n <= NPROC
    ensures n <= d <= NPROC
    ensures d < NPROC ==> Eligible(t, level, Stop(t.index[level], d))
    ensures forall x :: n <= x < d ==> !Eligible(t, level, Stop(t.index[level], x))
    decreases NPROC - n, t
  {
    if n == NPROC || Eligible(t, level, Stop(t.index[level], n)) then n else Stops(t, level, n + 1)
  }

  /** The index that top leaves behind. */
  function TopIndex(t: Table, level: nat): (k: int)
    requires Shape(t) && level < 3
    ensures 0 <= k < NPROC
  {
    var d := Stops(t, level, 0);
    Stop(t.index[level], if d == NPROC then NPROC - 1 else d)
  }

  function Topped(t: Table, level: nat): (r: Table)
    requires Shape(t) && level < 3
    ensures Shape(r)
  {
    t.(index := t.index[level := TopIndex(t, level)])
  }

  /** top finds a process exactly when the queue holds an eligible one. */
  lemma {:induction false} TopFindsIff(t: Table, level: nat)
    requires Shape(t) && level < 3 && |t.queues[level]| <= NPROC
    ensures Stops(t, level, 0) < NPROC <==> exists k :: Eligible(t, level, k)
  {
    if k :| Eligible(t, level, k) {
      var start := After(t.index[level]);
      var n := if k >= start then k - start else k + NPROC - start;
      assert Stop(t.index[level], n) == k;
    }
  }

  // ---- Steps ----

  /** A system call made by slot cur, a running thread of main thread m. */
  ghost function Called(t: Table, s: Step, m: int): (r: Table)
    requires Inv(t) && SystemCall(s) && Running(t, s.cur) && Main(t, m)
    ensures Inv(r)
  {
    match s
    case Fork(cur, copied) => Forked(t, m, copied)
    case ThreadCreate(cur, copied) => ThreadCreated(t, m, copied)
    case SetShare(cur, n) => ShareSet(t, m, n)
    case Join(cur, i) => if 1 <= i < NPROC then Joined(t, m, i) else t
    case ThreadExit(cur) => ThreadExited(t, m, cur)
    case Exit(cur) => ProcExited(t, m, cur)
    case Wait(cur) => Waited(t, m)
  }

  predicate SystemCall(s: Step) {
    !s.Dispatch? && !s.Boost? && !s.Drop? && !s.Top?
  }

  /** A step of the scheduler. */
  ghost function Scheduled(t: Table, s: Step): (r: Table)
    requires Inv(t) && !SystemCall(s)
    ensures Inv(r) && r.pool == t.pool
  {
    match s
    case Dispatch(p, st) =>
      if Slot(p) && t.procs[p].state in {SLEEPING, RUNNABLE, RUNNING} && st in {SLEEPING, RUNNABLE, RUNNING} then
        DispatchKeeps(t, p, st);
        Put(t, p, t.procs[p].(state := st))
      else t
    case Boost =>
      BoostedInv(t);
      Boosted(t)
    case Drop(p) =>
      if Slot(p) && t.procs[p].inqueue && t.procs[p].priority in {0, 1} then
        SameThreadsKeeps(t, Dropped(t, p));
        Dropped(t, p)
      else t
    case Top(level) =>
      if level < 3 then ToppedKeeps(t, level); Topped(t, level) else t
  }

  ghost function Next(t: Table, s: Step): (r: Table)
    requires Inv(t)
    ensures Inv(r)
  {
    if !SystemCall(s) then Scheduled(t, s)
    else if Running(t, s.cur) then RunningMain(t, s.cur); Called(t, s, t.procs[s.cur].mthread)
    else t
  }

  /** exit; initproc panics instead, which leaves the table as it is. */
  ghost function ProcExited(t: Table, m: int, cur: int): (r: Table)
    requires Inv(t) && Main(t, m)
    ensures Inv(r) && r.pool == t.pool
  {
    if cur == INITPROC then t else Exited(t, m, cur)
  }

  /** thread_exit: the main thread exits the process, a worker just becomes a zombie. */
  ghost function ThreadExited(t: Table, m: int, cur: int): (r: Table)
    requires Inv(t) && Main(t, m) && Running(t, cur)
    ensures Inv(r) && r.pool == t.pool
  {
    if cur == m then ProcExited(t, m, cur)
    else
      DispatchKeeps(t, cur, ZOMBIE);
      Put(t, cur, t.procs[cur].(state := ZOMBIE))
  }

  lemma {:induction false} DispatchKeeps(t: Table, p: int, st: ProcState)
    requires Inv(t) && Slot(p) && t.procs[p].state != UNUSED && st != UNUSED
    ensures Inv(Put(t, p, t.procs[p].(state := st)))
  {
    var r := Put(t, p, t.procs[p].(state := st));
    SameFlags(t, r);
    SameWorkers(t, r);
    ShareInvSame(t, r);
  }

  lemma {:induction false} BoostedInv(t: Table)
    requires Inv(t)
    ensures Inv(Boosted(t)) && SameThreads(t, Boosted(t))
  {
    BoostedKeeps(t);
    BoostedThreads(t);
    SameThreadsKeeps(t, Boosted(t));
  }

  lemma {:induction false} BoostedThreads(t: Table)
    requires Shape(t)
    ensures SameThreads(t, Boosted(t))
  {
  }

  lemma {:induction false} ToppedKeeps(t: Table, level: nat)
    requires Inv(t) && level < 3
    ensures Inv(Topped(t, level))
  {
    SameFlags(t, Topped(t, level));
    SameThreadsKeeps(t, Topped(t, level));
  }

  // ---- Runs ----

  /** After userinit and the scheduler's first lines: one runnable process, its own parent. */
  function Boot(): (t: Table)
    ensures Shape(t)
  {
    Table(
      seq(NPROC, p requires 0 <= p < NPROC =>
        Fresh(p, 0, 0).(state := if p == 0 then RUNNABLE else UNUSED, inqueue := p == 0)),
      [[0], [], []], [-1, 0, 0], 100, 0)
  }

  lemma {:induction false} NoShares(procs: seq<Proc>)
    requires forall p :: 0 <= p < |procs| ==> procs[p].percentage == 0
    ensures Shares(procs) == 0
  {
    if procs != [] {
      NoShares(procs[..|procs| - 1]);
    }
  }

  lemma {:induction false} BootQueues()
    ensures QueueInv(Boot())
  {
    assert All(Boot()) == multiset{0};
  }

  lemma {:induction false} BootShares()
    ensures ShareInv(Boot())
  {
    NoShares(Boot().procs);
  }

  lemma {:induction false} BootThreads()
    ensures ThreadInv(Boot())
  {
    forall m, i, w | Slot(m)
      ensures !Worker(Boot(), m, i, w)
    {
    }
  }

  lemma {:induction false} BootInv()
    ensures Inv(Boot())
  {
    BootQueues();
    BootShares();
    BootThreads();
  }

  ghost function RunFrom(t: Table, steps: seq<Step>): (r: Table)
    requires Inv(t)
    ensures Inv(r)
  {
    if steps == [] then t else Next(RunFrom(t, steps[..|steps| - 1]), steps[|steps| - 1])
  }

  /** In every reachable state the pool and all shares add up to 100, only live main threads
      hold a share, and the three queues are disjoint, without repetitions and marked. */
  lemma {:induction false} RunKeepsInv(steps: seq<Step>)
    ensures Inv(Boot()) && Inv(RunFrom(Boot(), steps))
  {
    BootInv();
  }

  // ---- The floor under the pool ----

  /** The zombie child that wait would reap, or NPROC. */
  function Kid(t: Table, cur: int): (k: nat)
    requires Shape(t)
    ensures k <= NPROC
  {
    if Running(t, cur) then FirstKid(t, t.procs[cur].mthread, 0) else NPROC
  }

  /** How a step moves the pool: only a granted request and a reaped main thread count. */
  lemma {:induction false} PoolMoves(t: Table, s: Step)
    requires Inv(t)
    ensures Next(t, s).pool ==
      if s.SetShare? && Running(t, s.cur) && Slot(t.procs[s.cur].mthread) && Granted(t, t.procs[s.cur].mthread, s.n)
      then t.pool - (s.n - t.procs[t.procs[s.cur].mthread].percentage)
      else if s.Wait? && Kid(t, s.cur) < NPROC then t.pool + t.procs[Kid(t, s.cur)].percentage
      else t.pool
  {
    if SystemCall(s) && Running(t, s.cur) {
      RunningMain(t, s.cur);
      CallPool(t, s, t.procs[s.cur].mthread);
    }
  }

  lemma {:induction false} CallPool(t: Table, s: Step, m: int)
    requires Inv(t) && SystemCall(s) && Running(t, s.cur) && Main(t, m)
    ensures Called(t, s, m).pool ==
      if s.SetShare? then if Granted(t, m, s.n) then t.pool - (s.n - t.procs[m].percentage) else t.pool
      else if s.Wait? && FirstKid(t, m, 0) < NPROC then t.pool + t.procs[FirstKid(t, m, 0)].percentage
      else t.pool
  {
  }

  /** The floor gives way exactly when wait reaps a process whose share is so far below
      zero that the pool cannot bear it. */
  lemma {:induction false} FloorFailsIff(t: Table, s: Step)
    requires Inv(t) && t.pool >= FLOOR
    ensures Next(t, s).pool < FLOOR <==>
      s.Wait? && Kid(t, s.cur) < NPROC && t.pool + t.procs[Kid(t, s.cur)].percentage < FLOOR
  {
    PoolMoves(t, s);
    if s.SetShare? && Running(t, s.cur) {
      RunningMain(t, s.cur);
    }
  }

  ghost predicate NonNegative(t: Table)
    requires Shape(t)
  {
    forall p :: 0 <= p < NPROC ==> t.procs[p].percentage >= 0
  }

  predicate Drops(t: Table, r: Table, p: int)
    requires Shape(t) && Shape(r) && Slot(p)
  {
    r.procs[p].percentage == t.procs[p].percentage || r.procs[p].percentage == 0
  }

  /** Every share is what it was, or gone. */
  ghost predicate SharesDrop(t: Table, r: Table)
    requires Shape(t) && Shape(r)
  {
    forall p {:trigger Drops(t, r, p)} :: Slot(p) ==> Drops(t, r, p)
  }

  lemma {:induction false} KillDrops(t: Table, m: int, cur: int)
    requires Inv(t) && Slot(m)
    ensures SharesDrop(t, KillZombies(t, m, cur, 1))
  {
    KillZombiesFrame(t, m, cur, 1);
    var r := KillZombies(t, m, cur, 1);
    forall p | Slot(p)
      ensures Drops(t, r, p)
    {
      assert p == m || KeptOrCleared(t, r, m, cur, p);
    }
  }

  lemma {:induction false} DropsTrans(t: Table, t1: Table, r: Table)
    requires Shape(t) && Shape(t1) && Shape(r) && SharesDrop(t, t1) && SharesDrop(t1, r)
    ensures SharesDrop(t, r)
  {
    forall p | Slot(p)
      ensures Drops(t, r, p)
    {
      assert Drops(t, t1, p) && Drops(t1, r, p);
    }
  }

  lemma {:induction false} ZombifiedDrops(t: Table, ws: seq<int>, m: int)
    requires Shape(t) && Slot(m)
    ensures SharesDrop(t, Zombified(t, ws)) && SharesDrop(t, Reparented(Zombified(t, ws), m))
  {
  }

  lemma {:induction false} ReleasedDrops(t: Table, p: int)
    requires QueueInv(t) && Slot(p)
    ensures SharesDrop(t, Released(t, p))
  {
  }

  lemma {:induction false} ReapDrops(t: Table, p: int)
    requires Inv(t) && Main(t, p)
    ensures SharesDrop(t, Reaped(t, p))
  {
    WorkersGone(t, p);
    var t0 := Zombified(t, t.procs[p].cthread[1..]);
    var t1 := KillZombies(t0, p, p, 1);
    KillDrops(t0, p, p);
    ZombifiedDrops(t, t.procs[p].cthread[1..], p);
    ReleasedDrops(t1, p);
    DropsTrans(t, t0, t1);
    DropsTrans(t, t1, Reaped(t, p));
  }

  lemma {:induction false} ExitDrops(t: Table, m: int, cur: int)
    requires Inv(t) && Main(t, m)
    ensures SharesDrop(t, Exited(t, m, cur))
  {
    AllZombie(t, m);
    var t0 := Zombified(t, t.procs[m].cthread);
    ReparentedKeeps(t0, m);
    KillDrops(Reparented(t0, m), m, cur);
    ZombifiedDrops(t, t.procs[m].cthread, m);
    DropsTrans(t, Reparented(t0, m), Exited(t, m, cur));
  }

  lemma {:induction false} PutDrops(t: Table, p: int, q: Proc)
    requires Shape(t) && Slot(p) && Threads(q.cthread) && q.percentage == 0
    ensures SharesDrop(t, Put(t, p, q)) && SharesDrop(t, InitPushed(Put(t, p, q), p))
  {
  }

  lemma {:induction false} ForkDrops(t: Table, m: int, copied: bool)
    requires Inv(t) && Slot(m)
    ensures SharesDrop(t, Forked(t, m, copied))
  {
    var k := FirstUnused(t, 0);
    if k < NPROC {
      PutDrops(t, k, Fresh(k, t.procs[k].parent, t.minpass).(state := UNUSED));
      PutDrops(t, k, Fresh(k, m, t.minpass).(state := RUNNABLE));
    }
  }

  lemma {:induction false} EnlistDrops(t: Table, m: int, k: nat, p: int)
    requires Shape(t) && Slot(m) && Slot(p) && k < NPROC
    ensures SharesDrop(t, Enlisted(t, m, k, p)) && SharesDrop(t, InitPushed(Enlisted(t, m, k, p), p))
  {
  }

  lemma {:induction false} CreateDrops(t: Table, m: int, copied: bool)
    requires Inv(t) && Main(t, m)
    ensures SharesDrop(t, ThreadCreated(t, m, copied))
  {
    var p := FirstUnused(t, 0);
    var k := FirstNull(t.procs[m].cthread, 0);
    SelfDrops(t);
    if p < NPROC {
      PutDrops(t, p, Fresh(p, t.procs[p].parent, t.minpass).(state := UNUSED));
      if k < NPROC {
        EnlistDrops(t, m, k, p);
      }
    }
  }

  lemma {:induction false} SameDrops(t: Table, r: Table)
    requires Shape(t) && Shape(r) && SameThreads(t, r)
    ensures SharesDrop(t, r)
  {
  }

  lemma {:induction false} JoinDrops(t: Table, m: int, i: nat)
    requires Inv(t) && Slot(m) && 1 <= i < NPROC
    ensures SharesDrop(t, Joined(t, m, i))
  {
    var c := t.procs[m].cthread[i];
    if c != NULL && t.procs[c].state == ZOMBIE {
      ReapWorkerKeeps(t, m, i, c);
      ReapWorkerFrame(t, m, i, c);
    }
  }

  lemma {:induction false} SelfDrops(t: Table)
    requires Shape(t)
    ensures SharesDrop(t, t)
  {
  }

  lemma {:induction false} CallDrops(t: Table, s: Step, m: int)
    requires Inv(t) && SystemCall(s) && !s.SetShare? && Running(t, s.cur) && Main(t, m)
    ensures SharesDrop(t, Called(t, s, m))
  {
    match s
    case Fork(cur, copied) => ForkDrops(t, m, copied);
    case ThreadCreate(cur, copied) => CreateDrops(t, m, copied);
    case Join(cur, i) => JoinCallDrops(t, m, i);
    case _ => EndDrops(t, s, m);
  }

  lemma {:induction false} EndDrops(t: Table, s: Step, m: int)
    requires Inv(t) && (s.Exit? || s.ThreadExit? || s.Wait?) && Running(t, s.cur) && Main(t, m)
    ensures SharesDrop(t, Called(t, s, m))
  {
    if s.Wait? {
      WaitDrops(t, m);
    } else if s.Exit? {
      ProcExitDrops(t, m, s.cur);
    } else {
      ThreadExitDrops(t, m, s.cur);
    }
  }

  lemma {:induction false} JoinCallDrops(t: Table, m: int, i: nat)
    requires Inv(t) && Main(t, m)
    ensures SharesDrop(t, if 1 <= i < NPROC then Joined(t, m, i) else t)
  {
    SelfDrops(t);
    if 1 <= i < NPROC {
      JoinDrops(t, m, i);
    }
  }

  lemma {:induction false} ProcExitDrops(t: Table, m: int, cur: int)
    requires Inv(t) && Main(t, m)
    ensures SharesDrop(t, ProcExited(t, m, cur))
  {
    SelfDrops(t);
    ExitDrops(t, m, cur);
  }

  lemma {:induction false} ThreadExitDrops(t: Table, m: int, cur: int)
    requires Inv(t) && Main(t, m) && Running(t, cur)
    ensures SharesDrop(t, ThreadExited(t, m, cur))
  {
    if cur == m {
      ProcExitDrops(t, m, cur);
    } else {
      DispatchDrops(t, cur, ZOMBIE);
    }
  }

  lemma {:induction false} WaitDrops(t: Table, m: int)
    requires Inv(t)
    ensures SharesDrop(t, Waited(t, m))
  {
    SelfDrops(t);
    if FirstKid(t, m, 0) < NPROC {
      ReapDrops(t, FirstKid(t, m, 0));
    }
  }

  lemma {:induction false} DispatchDrops(t: Table, p: int, st: ProcState)
    requires Shape(t) && Slot(p)
    ensures SharesDrop(t, Put(t, p, t.procs[p].(state := st)))
  {
  }

  lemma {:induction false} ScheduleDrops(t: Table, s: Step)
    requires Inv(t) && !SystemCall(s)
    ensures SharesDrop(t, Scheduled(t, s))
  {
    SelfDrops(t);
    match s
    case Boost =>
      BoostedInv(t);
      SameDrops(t, Boosted(t));
    case Drop(p) =>
      if Slot(p) && t.procs[p].inqueue && t.procs[p].priority in {0, 1} {
        SameDrops(t, Dropped(t, p));
      }
    case Dispatch(p, st) =>
      if Slot(p) {
        DispatchDrops(t, p, st);
      }
    case Top(level) =>
      if level < 3 {
        SameDrops(t, Topped(t, level));
      }
  }

  lemma {:induction false} StepDrops(t: Table, s: Step)
    requires Inv(t) && !s.SetShare?
    ensures SharesDrop(t, Next(t, s))
  {
    SelfDrops(t);
    if !SystemCall(s) {
      ScheduleDrops(t, s);
    } else if Running(t, s.cur) {
      RunningMain(t, s.cur);
      CallDrops(t, s, t.procs[s.cur].mthread);
    }
  }

  /** With non-negative requests the pool never falls under 20 and no share is negative. */
  lemma {:induction false} FloorHolds(steps: seq<Step>)
    requires forall i :: 0 <= i < |steps| && steps[i].SetShare? ==> steps[i].n >= 0
    ensures Inv(Boot())
    ensures var t := RunFrom(Boot(), steps); FLOOR <= t.pool <= 100 && NonNegative(t)
  {
    BootInv();
    BootNonNegative();
    FloorRun(Boot(), steps);
  }

  lemma {:induction false} BootNonNegative()
    ensures NonNegative(Boot())
  {
  }

  lemma {:induction false} FloorRun(t: Table, steps: seq<Step>)
    requires Inv(t) && t.pool >= FLOOR && NonNegative(t)
    requires forall i :: 0 <= i < |steps| && steps[i].SetShare? ==> steps[i].n >= 0
    ensures var r := RunFrom(t, steps); FLOOR <= r.pool <= 100 && NonNegative(r)
  {
    if steps == [] {
      PoolAtMost(t);
    } else {
      var before, s := steps[..|steps| - 1], steps[|steps| - 1];
      FloorRun(t, before);
      FloorStep(RunFrom(t, before), s);
      PoolAtMost(RunFrom(t, steps));
    }
  }

  lemma {:induction false} PoolAtMost(t: Table)
    requires Inv(t) && NonNegative(t)
    ensures t.pool <= 100
  {
    SharesNonNegative(t.procs);
  }

  lemma {:induction false} SharesNonNegative(procs: seq<Proc>)
    requires forall p :: 0 <= p < |procs| ==> procs[p].percentage >= 0
    ensures Shares(procs) >= 0
  {
    if procs != [] {
      SharesNonNegative(procs[..|procs| - 1]);
    }
  }

  lemma {:induction false} DropsNonNegative(t: Table, r: Table)
    requires Shape(t) && Shape(r) && NonNegative(t) && SharesDrop(t, r)
    ensures NonNegative(r)
  {
    forall p | Slot(p)
      ensures r.procs[p].percentage >= 0
    {
      assert Drops(t, r, p);
    }
  }

  lemma {:induction false} FloorStep(t: Table, s: Step)
    requires Inv(t) && t.pool >= FLOOR && NonNegative(t) && (s.SetShare? ==> s.n >= 0)
    ensures Next(t, s).pool >= FLOOR && NonNegative(Next(t, s))
  {
    FloorFailsIff(t, s);
    if !s.SetShare? {
      StepDrops(t, s);
      DropsNonNegative(t, Next(t, s));
    } else if Running(t, s.cur) {
      RunningMain(t, s.cur);
    }
  }

  // ---- A run in which the floor gives way ----

  /** Slot p is a child of slot 0, its own main thread, in state st with this share. */
  predicate At(t: Table, p: int, st: ProcState, share: int)
    requires Shape(t) && Slot(p)
  {
    t.procs[p].state == st && t.procs[p].parent == 0 && t.procs[p].mthread == p && t.procs[p].percentage == share
  }

  ghost predicate Scene(t: Table, st0: ProcState, share0: int, st1: ProcState, share1: int, pool: int) {
    Inv(t) && At(t, 0, st0, share0) && At(t, 1, st1, share1) && t.pool == pool
  }

  lemma {:induction false} BootScene()
    ensures Scene(Boot(), RUNNABLE, 0, UNUSED, 0, 100)
  {
    BootInv();
    BootSlots();
  }

  lemma {:induction false} BootSlots()
    ensures At(Boot(), 0, RUNNABLE, 0) && At(Boot(), 1, UNUSED, 0)
  {
  }

  lemma {:induction false} ForkScene(t: Table)
    requires Scene(t, RUNNING, 0, UNUSED, 0, 100)
    ensures Scene(Next(t, Fork(0, true)), RUNNING, 0, RUNNABLE, 0, 100)
  {
    assert FirstUnused(t, 0) == 1;
  }

  lemma {:induction false} DispatchScene(t: Table, p: int, st0: ProcState, st1: ProcState)
    requires Scene(t, st0, 0, st1, 0, 100) && p in {0, 1} && (if p == 0 then st0 else st1) == RUNNABLE
    ensures Scene(Next(t, Dispatch(p, RUNNING)),
      if p == 0 then RUNNING else st0, 0, if p == 1 then RUNNING else st1, 0, 100)
  {
  }

  lemma {:induction false} NextShare(t: Table, s: Step, m: int)
    requires Inv(t) && s.SetShare? && Running(t, s.cur) && t.procs[s.cur].mthread == m
    ensures Main(t, m) && Next(t, s) == ShareSet(t, m, s.n)
  {
    RunningMain(t, s.cur);
  }

  lemma {:induction false} ShareScene(t: Table, p: int, share0: int, share1: int, pool: int, n: int)
    requires Scene(t, RUNNING, share0, RUNNING, share1, pool) && p in {0, 1}
    requires Granted(t, p, n)
    ensures Scene(Next(t, SetShare(p, n)), RUNNING, if p == 0 then n else share0, RUNNING, if p == 1 then n else share1,
      pool - (n - (if p == 0 then share0 else share1)))
  {
    NextShare(t, SetShare(p, n), p);
    ShareSetLife(t, p, n, 0);
    ShareSetLife(t, p, n, 1);
  }

  lemma {:induction false} NotListed(t: Table)
    requires ThreadInv(t) && Main(t, 0) && Main(t, 1)
    ensures 0 !in t.procs[1].cthread && t.procs[1].cthread[0] == 1
  {
    assert Belongs(t, 1);
    assert forall i :: 1 <= i < NPROC && t.procs[1].cthread[i] == 0 ==> Worker(t, 1, i, 0);
  }

  lemma {:induction false} ZombieScene(t: Table, ws: seq<int>, share0: int, share1: int)
    requires Shape(t) && At(t, 0, RUNNING, share0) && At(t, 1, RUNNING, share1) && 0 !in ws && 1 in ws
    ensures var r := Reparented(Zombified(t, ws), 1);
      At(r, 0, RUNNING, share0) && At(r, 1, ZOMBIE, share1)
  {
  }

  lemma {:induction false} KillScene(t: Table, share0: int, share1: int)
    requires Inv(t) && At(t, 0, RUNNING, share0) && At(t, 1, ZOMBIE, share1)
    ensures var r := KillZombies(t, 1, 1, 1);
      At(r, 0, RUNNING, share0) && At(r, 1, ZOMBIE, share1)
  {
    KillZombiesFrame(t, 1, 1, 1);
    assert KeptOrCleared(t, KillZombies(t, 1, 1, 1), 1, 1, 0);
  }

  lemma {:induction false} ExitedScene(t: Table, share0: int, share1: int)
    requires Inv(t) && At(t, 0, RUNNING, share0) && At(t, 1, RUNNING, share1)
    ensures var r := Exited(t, 1, 1); At(r, 0, RUNNING, share0) && At(r, 1, ZOMBIE, share1)
  {
    NotListed(t);
    AllZombie(t, 1);
    var t0 := Zombified(t, t.procs[1].cthread);
    ReparentedKeeps(t0, 1);
    ZombieScene(t, t.procs[1].cthread, share0, share1);
    KillScene(Reparented(t0, 1), share0, share1);
  }

  lemma {:induction false} NextExited(t: Table, s: Step, m: int)
    requires Inv(t) && s.Exit? && s.cur != INITPROC && Running(t, s.cur) && t.procs[s.cur].mthread == m
    ensures Main(t, m) && Next(t, s) == Exited(t, m, s.cur)
  {
    RunningMain(t, s.cur);
  }

  lemma {:induction false} ExitScene(t: Table, share0: int, share1: int, pool: int)
    requires Scene(t, RUNNING, share0, RUNNING, share1, pool)
    ensures Scene(Next(t, Exit(1)), RUNNING, share0, ZOMBIE, share1, pool)
  {
    ExitedScene(t, share0, share1);
    NextExited(t, Exit(1), 1);
  }

  lemma {:induction false} WaitScene(t: Table, share0: int, share1: int, pool: int)
    requires Scene(t, RUNNING, share0, ZOMBIE, share1, pool)
    ensures Next(t, Wait(0)).pool == pool + share1
  {
    assert Kid(t, 0) == 1;
    PoolMoves(t, Wait(0));
  }

  /** One process asks for n, its parent for 80 - n, the first exits and is reaped. */
  function Script(n: int, i: nat): (s: Step)
    requires i < 7
  {
    [Dispatch(0, RUNNING), Fork(0, true), Dispatch(1, RUNNING),
     SetShare(1, n), SetShare(0, 80 - n), Exit(1), Wait(0)][i]
  }

  function Failing(n: int, k: nat): (steps: seq<Step>)
    requires k <= 7
    ensures |steps| == k && forall i :: 0 <= i < k ==> steps[i] == Script(n, i)
  {
    if k == 0 then [] else Failing(n, k - 1) + [Script(n, k - 1)]
  }

  lemma {:induction false} ScriptStep(t: Table, n: int, k: nat)
    requires Inv(t) && k < 7
    ensures RunFrom(t, Failing(n, k + 1)) == Next(RunFrom(t, Failing(n, k)), Script(n, k))
  {
    var steps := Failing(n, k);
    assert Failing(n, k + 1)[..|steps|] == steps;
  }

  /** What the first k steps of the script have brought about. */
  ghost predicate Cut(n: int, k: nat, t: Table) {
    match k
    case 0 => Scene(t, RUNNABLE, 0, UNUSED, 0, 100)
    case 1 => Scene(t, RUNNING, 0, UNUSED, 0, 100)
    case 2 => Scene(t, RUNNING, 0, RUNNABLE, 0, 100)
    case 3 => Scene(t, RUNNING, 0, RUNNING, 0, 100)
    case 4 => Scene(t, RUNNING, 0, RUNNING, n, 100 - n)
    case 5 => Scene(t, RUNNING, 80 - n, RUNNING, n, 20)
    case 6 => Scene(t, RUNNING, 80 - n, ZOMBIE, n, 20)
    case _ => Inv(t) && t.pool == 20 + n
  }

  lemma {:induction false} EarlyCut(n: int, k: nat, t: Table, s: Step)
    requires k < 3 && Cut(n, k, t) && Inv(t) && s == Script(n, k)
    ensures Cut(n, k + 1, Next(t, s))
  {
    if k == 1 {
      ForkScene(t);
    } else {
      DispatchCut(n, k, t, s);
    }
  }

  lemma {:induction false} DispatchCut(n: int, k: nat, t: Table, s: Step)
    requires (k == 0 || k == 2) && Cut(n, k, t) && Inv(t) && s == Script(n, k)
    ensures Cut(n, k + 1, Next(t, s))
  {
    if k == 0 {
      DispatchScene(t, 0, RUNNABLE, UNUSED);
    } else {
      DispatchScene(t, 1, RUNNING, RUNNABLE);
    }
  }

  lemma {:induction false} ShareCut(n: int, k: nat, t: Table, s: Step)
    requires n < 0 && 3 <= k < 5 && Cut(n, k, t) && Inv(t) && s == Script(n, k)
    ensures Cut(n, k + 1, Next(t, s))
  {
    if k == 3 {
      ShareScene(t, 1, 0, 0, 100, n);
    } else {
      ShareScene(t, 0, 0, n, 100 - n, 80 - n);
    }
  }

  lemma {:induction false} LateCut(n: int, k: nat, t: Table, s: Step)
    requires 5 <= k < 7 && Cut(n, k, t) && Inv(t) && s == Script(n, k)
    ensures Cut(n, k + 1, Next(t, s))
  {
    if k == 5 {
      ExitScene(t, 80 - n, n, 20);
    } else {
      WaitScene(t, 80 - n, n, 20);
    }
  }

  lemma {:induction false} RunCut(t: Table, n: int, k: nat)
    requires Inv(t) && n < 0 && Cut(n, 0, t) && k <= 7
    ensures Cut(n, k, RunFrom(t, Failing(n, k)))
  {
    if k > 0 {
      RunCut(t, n, k - 1);
      var before := RunFrom(t, Failing(n, k - 1));
      if k - 1 < 3 {
        EarlyCut(n, k - 1, before, Script(n, k - 1));
      } else if k - 1 < 5 {
        ShareCut(n, k - 1, before, Script(n, k - 1));
      } else {
        LateCut(n, k - 1, before, Script(n, k - 1));
      }
      ScriptStep(t, n, k - 1);
    }
  }

  /** Every negative request can take the floor away: it is granted, and after this run from
      the first process on the feedback queue is left with a share of 20 + n. */
  lemma {:induction false} FloorCanFail(n: int)
    requires n < 0
    ensures Inv(Boot()) && RunFrom(Boot(), Failing(n, 7)).pool == 20 + n < FLOOR
  {
    BootScene();
    RunCut(Boot(), n, 7);
  }

  /** No request of the run is below lo. */
  predicate AtLeast(lo: int, steps: seq<Step>) {
    forall i :: 0 <= i < |steps| && steps[i].SetShare? ==> steps[i].n >= lo
  }

  lemma {:induction false} NoneBelow(n: int, lo: int)
    requires lo <= n <= 40
    ensures AtLeast(lo, Failing(n, 7))
  {
    forall i | 0 <= i < 7 && Failing(n, 7)[i].SetShare? ensures Failing(n, 7)[i].n >= lo {
      assert Failing(n, 7)[i] == Script(n, i);
    }
  }

  /** The floor holds in a run from boot. */
  ghost predicate KeepsFloor(steps: seq<Step>) {
    Inv(Boot()) && RunFrom(Boot(), steps).pool >= FLOOR
  }

  lemma {:induction false} FailsFloor(lo: int) returns (steps: seq<Step>)
    requires lo < 0
    ensures AtLeast(lo, steps) && !KeepsFloor(steps)
  {
    steps := Failing(-1, 7);
    FloorCanFail(-1);
    NoneBelow(-1, lo);
  }

  /** The floor holds in all runs whose requests are bounded below exactly if negative ones
      are ruled out. */
  lemma {:induction false} FloorHoldsIff(lo: int)
    ensures (forall steps :: AtLeast(lo, steps) ==> KeepsFloor(steps)) <==> lo >= 0
  {
    if lo < 0 {
      var steps := FailsFloor(lo);
    } else {
      forall steps | AtLeast(lo, steps) ensures KeepsFloor(steps) {
        FloorHolds(steps);
      }
    }
  }
}
