/** The sleep-lock protocol: any number of processes calling acquiresleep and
    releasesleep, interleaved at every spin-lock operation, every write to a shared
    field and every process that the wakeup scan visits. */
module SleepLock {

  /** Where a process stands. The comments name what it holds. */
  datatype Pc =
    | Idle
    | AcquireSpin        // acquiresleep: acquire(&lk->lk)
    | Test               // lk: while (lk->locked)
    | WantPtable         // lk: sleep(): acquire(&ptable.lock)
    | DropLk             // lk, ptable: release(lk)
    | SetChan            // ptable: p->chan = chan
    | SetSleeping        // ptable: p->state = SLEEPING
    | Sched              // ptable: sched(), the scheduler will release ptable.lock
    | Switched           // off the CPU, SLEEPING or woken
    | TidyUp             // ptable: p->chan = 0, release(&ptable.lock)
    | Reacquire          // acquire(lk) at the end of sleep()
    | Taken              // lk: release(&lk->lk) at the end of acquiresleep
    | Critical
    | ReleaseSpin        // releasesleep: acquire(&lk->lk)
    | Clear              // lk: lk->locked = 0, lk->pid = 0
    | WakeSpin           // lk: wakeup(): acquire(&ptable.lock)
    | Scan(i: nat)       // lk, ptable: wakeup1 is about to look at process i
    | Drop               // lk: release(&lk->lk) at the end of releasesleep

  /** sleeping: state == SLEEPING; onChan: chan == lk. */
  datatype Proc = Proc(pc: Pc, sleeping: bool, onChan: bool)

  /** lk and ptable are the processes that hold the two spin locks, -1 for none. */
  datatype State = State(procs: seq<Proc>, lk: int, ptable: int, locked: bool, pid: int)

  datatype Step = Act(p: nat) | Kill(p: nat)

  predicate HoldsLk(pc: Pc) {
    pc.Test? || pc.WantPtable? || pc.DropLk? || pc.Taken? || pc.Clear? || pc.WakeSpin? || pc.Scan? || pc.Drop?
  }

  predicate HoldsPtable(pc: Pc) {
    pc.DropLk? || pc.SetChan? || pc.SetSleeping? || pc.Sched? || pc.TidyUp? || pc.Scan?
  }

  /** Between taking the sleep-lock and clearing it. */
  predicate HoldsSleepLock(pc: Pc) {
    pc.Taken? || pc.Critical? || pc.ReleaseSpin? || pc.Clear?
  }

  predicate Enabled(s: State, a: Step) {
    match a
    case Act(p) =>
      && p < |s.procs|
      && (match s.procs[p].pc
          case AcquireSpin => s.lk == -1
          case Reacquire => s.lk == -1
          case ReleaseSpin => s.lk == -1
          case WantPtable => s.ptable == -1
          case WakeSpin => s.ptable == -1
          case Switched => !s.procs[p].sleeping && s.ptable == -1
          case _ => true)
    case Kill(p) => p < |s.procs| && s.ptable == -1
  }

  function At(s: State, p: nat, pc: Pc): State
    requires p < |s.procs|
  {
    s.(procs := s.procs[p := s.procs[p].(pc := pc)])
  }

  function Next(s: State, a: Step): (t: State)
    requires Enabled(s, a)
  {
    match a
    case Act(p) => (
      match s.procs[p].pc
      case Idle => At(s, p, AcquireSpin)
      case AcquireSpin => At(s, p, Test).(lk := p)
      case Test => if s.locked then At(s, p, WantPtable) else At(s, p, Taken).(locked := true, pid := p)
      case WantPtable => At(s, p, DropLk).(ptable := p)
      case DropLk => At(s, p, SetChan).(lk := -1)
      case SetChan => s.(procs := s.procs[p := s.procs[p].(pc := SetSleeping, onChan := true)])
      case SetSleeping => s.(procs := s.procs[p := s.procs[p].(pc := Sched, sleeping := true)])
      case Sched => At(s, p, Switched).(ptable := -1)
      case Switched => At(s, p, TidyUp).(ptable := p)
      case TidyUp => s.(procs := s.procs[p := s.procs[p].(pc := Reacquire, onChan := false)], ptable := -1)
      case Reacquire => At(s, p, Test).(lk := p)
      case Taken => At(s, p, Critical).(lk := -1)
      case Critical => At(s, p, ReleaseSpin)
      case ReleaseSpin => At(s, p, Clear).(lk := p)
      case Clear => At(s, p, WakeSpin).(locked := false, pid := -1)
      case WakeSpin => At(s, p, Scan(0)).(ptable := p)
      case Scan(i) =>
        if i >= |s.procs| then At(s, p, Drop).(ptable := -1)
        else if s.procs[i].sleeping && s.procs[i].onChan then
          At(s.(procs := s.procs[i := s.procs[i].(sleeping := false)]), p, Scan(i + 1))
        else At(s, p, Scan(i + 1))
      case Drop => At(s, p, Idle).(lk := -1)
    )
    case Kill(p) => s.(procs := s.procs[p := s.procs[p].(sleeping := false)])
  }

  // ---- Invariant ----

  /** The process sleeps on the lock, or holds ptable.lock on its way to sleep. */
  predicate Committed(q: Proc) {
    q.pc.SetChan? || q.pc.SetSleeping? || q.pc.Sched? || (q.pc.Switched? && q.sleeping)
  }

  /** A releaser at pc has not yet passed process p with its wakeup scan. */
  predicate AheadOf(pc: Pc, p: nat) {
    pc.WakeSpin? || (pc.Scan? && pc.i <= p)
  }

  ghost predicate OwnersOk(s: State) {
    && -1 <= s.lk < |s.procs| && -1 <= s.ptable < |s.procs|
    && (forall p :: 0 <= p < |s.procs| ==> (HoldsLk(s.procs[p].pc) <==> s.lk == p))
    && (forall p :: 0 <= p < |s.procs| ==> (HoldsPtable(s.procs[p].pc) <==> s.ptable == p))
  }

  ghost predicate LockOk(s: State) {
    && (s.locked ==> 0 <= s.pid < |s.procs|)
    && (forall p :: 0 <= p < |s.procs| ==> (HoldsSleepLock(s.procs[p].pc) <==> s.locked && s.pid == p))
    && (forall p :: 0 <= p < |s.procs| && (s.procs[p].pc.WantPtable? || s.procs[p].pc.DropLk?) ==> s.locked)
  }

  ghost predicate SleepersOk(s: State) {
    forall p :: 0 <= p < |s.procs| ==>
      && (s.procs[p].sleeping ==> s.procs[p].pc.Sched? || s.procs[p].pc.Switched?)
      && (s.procs[p].pc.Sched? ==> s.procs[p].sleeping)
      && (s.procs[p].pc.SetSleeping? || s.procs[p].pc.Sched? || s.procs[p].pc.Switched? ==> s.procs[p].onChan)
  }

  /** No wakeup is lost: if the lock is free while a process is committed to sleep,
      some releaser holds lk and its scan has that process still ahead of it. */
  ghost predicate WakeupsOk(s: State)
    requires OwnersOk(s)
  {
    !s.locked ==> forall p :: 0 <= p < |s.procs| && Committed(s.procs[p]) ==>
      s.lk != -1 && AheadOf(s.procs[s.lk].pc, p)
  }

  ghost predicate Inv(s: State) {
    OwnersOk(s) && LockOk(s) && SleepersOk(s) && WakeupsOk(s)
  }

  predicate Init(s: State) {
    && s.lk == -1 && s.ptable == -1 && !s.locked && s.pid == -1
    && forall p :: 0 <= p < |s.procs| ==> s.procs[p] == Proc(Idle, false, false)
  }

  // ---- Every step keeps it ----

  /** What OwnersOk says of one process. */
  predicate Owned(s: State, q: nat)
    requires q < |s.procs|
  {
    && (HoldsLk(s.procs[q].pc) <==> s.lk == q)
    && (HoldsPtable(s.procs[q].pc) <==> s.ptable == q)
  }

  lemma {:induction false} LkKeptAt(s: State, a: Step, q: nat)
    requires -1 <= s.lk < |s.procs| && Enabled(s, a) && q < |s.procs| && Owned(s, q) && Owned(s, a.p)
    ensures var t := Next(s, a);
            |t.procs| == |s.procs| && -1 <= t.lk < |s.procs| && (HoldsLk(t.procs[q].pc) <==> t.lk == q)
  {
  }

  lemma {:induction false} PtableKeptAt(s: State, a: Step, q: nat)
    requires -1 <= s.ptable < |s.procs| && Enabled(s, a) && q < |s.procs| && Owned(s, q) && Owned(s, a.p)
    ensures var t := Next(s, a);
            |t.procs| == |s.procs| && -1 <= t.ptable < |s.procs| && (HoldsPtable(t.procs[q].pc) <==> t.ptable == q)
  {
  }

  lemma {:induction false} OwnersKept(s: State, a: Step)
    requires OwnersOk(s) && Enabled(s, a)
    ensures |Next(s, a).procs| == |s.procs| && OwnersOk(Next(s, a))
  {
    var t := Next(s, a);
    forall q | 0 <= q < |s.procs|
      ensures HoldsLk(t.procs[q].pc) <==> t.lk == q
      ensures HoldsPtable(t.procs[q].pc) <==> t.ptable == q
    {
      assert Owned(s, q) && Owned(s, a.p);
      LkKeptAt(s, a, q);
      PtableKeptAt(s, a, q);
    }
    assert Owned(s, a.p);
    LkKeptAt(s, a, a.p);
    PtableKeptAt(s, a, a.p);
  }

  lemma {:induction false} LockKept(s: State, a: Step)
    requires Inv(s) && Enabled(s, a)
    ensures LockOk(Next(s, a))
  {
    var t := Next(s, a);
    forall q | 0 <= q < |s.procs|
      ensures HoldsSleepLock(t.procs[q].pc) <==> t.locked && t.pid == q
      ensures t.procs[q].pc.WantPtable? || t.procs[q].pc.DropLk? ==> t.locked
    {
      assert Owned(s, q) && Owned(s, a.p);
      assert LockedBy(s, q) && LockedBy(s, a.p);
      LockKeptAt(s, a, q);
    }
  }

  /** What LockOk says of one process. */
  predicate LockedBy(s: State, q: nat)
    requires q < |s.procs|
  {
    && (HoldsSleepLock(s.procs[q].pc) <==> s.locked && s.pid == q)
    && (s.procs[q].pc.WantPtable? || s.procs[q].pc.DropLk? ==> s.locked)
  }

  lemma {:induction false} LockKeptAt(s: State, a: Step, q: nat)
    requires Enabled(s, a) && q < |s.procs| && Owned(s, q) && Owned(s, a.p) && LockedBy(s, q) && LockedBy(s, a.p)
    ensures var t := Next(s, a);
            && |t.procs| == |s.procs|
            && (HoldsSleepLock(t.procs[q].pc) <==> t.locked && t.pid == q)
            && (t.procs[q].pc.WantPtable? || t.procs[q].pc.DropLk? ==> t.locked)
  {
  }

  lemma {:induction false} SleepersKept(s: State, a: Step)
    requires Inv(s) && Enabled(s, a)
    ensures SleepersOk(Next(s, a))
  {
    var t := Next(s, a);
    forall q | 0 <= q < |s.procs|
      ensures t.procs[q].sleeping ==> t.procs[q].pc.Sched? || t.procs[q].pc.Switched?
      ensures t.procs[q].pc.Sched? ==> t.procs[q].sleeping
      ensures t.procs[q].pc.SetSleeping? || t.procs[q].pc.Sched? || t.procs[q].pc.Switched? ==> t.procs[q].onChan
    {
      assert Owned(s, q) && Owned(s, a.p) && Slept(s, q) && Slept(s, a.p);
      SleepersKeptAt(s, a, q);
    }
  }

  /** What SleepersOk says of one process. */
  predicate Slept(s: State, q: nat)
    requires q < |s.procs|
  {
    && (s.procs[q].sleeping ==> s.procs[q].pc.Sched? || s.procs[q].pc.Switched?)
    && (s.procs[q].pc.Sched? ==> s.procs[q].sleeping)
    && (s.procs[q].pc.SetSleeping? || s.procs[q].pc.Sched? || s.procs[q].pc.Switched? ==> s.procs[q].onChan)
  }

  lemma {:induction false} SleepersKeptAt(s: State, a: Step, q: nat)
    requires Enabled(s, a) && q < |s.procs| && Owned(s, q) && Owned(s, a.p) && Slept(s, q) && Slept(s, a.p)
    ensures |Next(s, a).procs| == |s.procs| && Slept(Next(s, a), q)
  {
  }

  lemma {:induction false} WakeupsKept(s: State, a: Step)
    requires Inv(s) && Enabled(s, a)
    ensures OwnersOk(Next(s, a)) && WakeupsOk(Next(s, a))
  {
    OwnersKept(s, a);
    var t := Next(s, a);
    forall p | 0 <= p < |t.procs| && Committed(t.procs[p]) && !t.locked
      ensures t.lk != -1 && AheadOf(t.procs[t.lk].pc, p)
    {
      assert HoldsPtable(s.procs[p].pc) <==> s.ptable == p;
      assert HoldsLk(s.procs[a.p].pc) <==> s.lk == a.p;
      assert HoldsPtable(s.procs[a.p].pc) <==> s.ptable == a.p;
    }
  }

  lemma {:induction false} InvKept(s: State, a: Step)
    requires Inv(s) && Enabled(s, a)
    ensures Inv(Next(s, a))
  {
    OwnersKept(s, a);
    LockKept(s, a);
    SleepersKept(s, a);
    WakeupsKept(s, a);
  }

  // ---- What acquiresleep and releasesleep do ----

  /** Inside acquiresleep. */
  predicate Acquiring(pc: Pc) {
    pc.AcquireSpin? || InLoop(pc) || pc.Taken?
  }

  /** Inside its loop: testing, asleep, or on the way to sleep or back from it. */
  predicate InLoop(pc: Pc) {
    || pc.Test? || pc.WantPtable? || pc.DropLk? || pc.SetChan? || pc.SetSleeping?
    || pc.Sched? || pc.Switched? || pc.TidyUp? || pc.Reacquire?
  }

  /** A process leaves the loop of acquiresleep in no other way than by finding the lock
      free and taking it. */
  lemma {:induction false} LeavesLoopTaking(s: State, a: Step, p: nat)
    requires Enabled(s, a) && p < |s.procs| && InLoop(s.procs[p].pc)
    ensures p < |Next(s, a).procs|
    ensures var t := Next(s, a);
      !InLoop(t.procs[p].pc) ==> a == Act(p) && !s.locked && t.locked && t.pid == p && t.procs[p].pc.Taken?
  {
  }

  /** And it leaves acquiresleep in no other way than into its critical section. */
  lemma {:induction false} LeavesAcquiring(s: State, a: Step, p: nat)
    requires Enabled(s, a) && p < |s.procs| && Acquiring(s.procs[p].pc)
    ensures p < |Next(s, a).procs|
    ensures var pc := Next(s, a).procs[p].pc; Acquiring(pc) || pc.Critical?
  {
  }

  /** The steps of its own that a process in its critical section, or in releasesleep on a
      table of n processes, has left until it is outside. */
  function StepsLeft(pc: Pc, n: nat): (k: int) {
    match pc
    case Critical => n + 6
    case ReleaseSpin => n + 5
    case Clear => n + 4
    case WakeSpin => n + 3
    case Scan(i) => if i < n then n - i + 2 else 2
    case Drop => 1
    case _ => 0
  }

  /** releasesleep comes to an end: each own step brings its end one step nearer, and nothing
      else moves the process. */
  lemma {:induction false} ReleaseAdvances(s: State, a: Step, p: nat)
    requires Enabled(s, a) && p < |s.procs| && StepsLeft(s.procs[p].pc, |s.procs|) > 0
    ensures |Next(s, a).procs| == |s.procs|
    ensures var pc, pc' := s.procs[p].pc, Next(s, a).procs[p].pc;
      && StepsLeft(pc', |s.procs|) == StepsLeft(pc, |s.procs|) - (if a == Act(p) then 1 else 0)
      && (StepsLeft(pc', |s.procs|) == 0 ==> pc'.Idle?)
  {
  }

  /** From its scan on, the lock is free or another's. */
  lemma {:induction false} ReleasedByThen(s: State, p: nat)
    requires Inv(s) && p < |s.procs| && 0 < StepsLeft(s.procs[p].pc, |s.procs|) <= |s.procs| + 3
    ensures !(s.locked && s.pid == p)
  {
    assert LockedBy(s, p);
  }

  // ---- Runs ----

  predicate StepTo(s: State, a: Step, t: State) {
    Enabled(s, a) && t == Next(s, a)
  }

  predicate Run(ss: seq<State>, acts: seq<Step>) {
    && |ss| == |acts| + 1 && Init(ss[0])
    && forall i :: 0 <= i < |acts| ==> StepTo(ss[i], acts[i], ss[i + 1])
  }

  lemma {:induction false} RunKeepsInv(ss: seq<State>, acts: seq<Step>, k: nat)
    requires Run(ss, acts) && k < |ss|
    ensures Inv(ss[k])
  {
    if k > 0 {
      RunKeepsInv(ss, acts, k - 1);
      assert StepTo(ss[k - 1], acts[k - 1], ss[k - 1 + 1]);
      InvKept(ss[k - 1], acts[k - 1]);
    }
  }

  /** In every state of every run at most one process is in its critical section,
      and lk->pid names it. */
  lemma {:induction false} MutualExclusion(ss: seq<State>, acts: seq<Step>, k: nat, p: nat, q: nat)
    requires Run(ss, acts) && k < |ss| && p < |ss[k].procs| && q < |ss[k].procs|
    requires ss[k].procs[p].pc.Critical? && ss[k].procs[q].pc.Critical?
    ensures p == q && ss[k].locked && ss[k].pid == p
  {
    RunKeepsInv(ss, acts, k);
  }

  ghost predicate CriticalAt(ss: seq<State>, p: nat, i: nat) {
    i < |ss| && p < |ss[i].procs| && ss[i].procs[p].pc.Critical? && ss[i].locked && ss[i].pid == p
  }

  lemma {:induction false} RunSize(ss: seq<State>, acts: seq<Step>, k: nat)
    requires Run(ss, acts) && k < |ss|
    ensures |ss[k].procs| == |ss[0].procs|
  {
    if k > 0 {
      RunSize(ss, acts, k - 1);
      RunKeepsInv(ss, acts, k - 1);
      assert StepTo(ss[k - 1], acts[k - 1], ss[k - 1 + 1]);
      OwnersKept(ss[k - 1], acts[k - 1]);
    }
  }

  lemma {:induction false} StillAcquiring(ss: seq<State>, acts: seq<Step>, j: nat, k: nat, p: nat)
    requires Run(ss, acts) && j <= k < |ss| && p < |ss[j].procs| && Acquiring(ss[j].procs[p].pc)
    requires forall i :: j < i <= k ==> !CriticalAt(ss, p, i)
    ensures p < |ss[k].procs| && Acquiring(ss[k].procs[p].pc)
    decreases k
  {
    if j < k {
      StillAcquiring(ss, acts, j, k - 1, p);
      assert StepTo(ss[k - 1], acts[k - 1], ss[k - 1 + 1]);
      LeavesAcquiring(ss[k - 1], acts[k - 1], p);
      RunKeepsInv(ss, acts, k);
      assert !CriticalAt(ss, p, k);
    }
  }

  /** acquiresleep returns with the lock: a process that has entered it and is later outside
      of the protocol has been in its critical section in between, as the lock's holder. */
  lemma {:induction false} AcquireTakesLock(ss: seq<State>, acts: seq<Step>, j: nat, k: nat, p: nat)
    requires Run(ss, acts) && j < k < |ss| && p < |ss[j].procs|
    requires Acquiring(ss[j].procs[p].pc) && p < |ss[k].procs| && !Acquiring(ss[k].procs[p].pc)
    ensures exists i :: j < i <= k && CriticalAt(ss, p, i)
  {
    if forall i :: j < i <= k ==> !CriticalAt(ss, p, i) {
      StillAcquiring(ss, acts, j, k, p);
    }
  }

  /** In particular between a call of acquiresleep and the return of the releasesleep that
      follows it. */
  lemma {:induction false} CallHoldsLock(ss: seq<State>, acts: seq<Step>, j: nat, k: nat, p: nat)
    requires Run(ss, acts) && j < k < |ss| && p < |ss[j].procs| && p < |ss[k].procs|
    requires ss[j].procs[p].pc.AcquireSpin? && ss[k].procs[p].pc.Idle?
    ensures exists i :: j < i < k && CriticalAt(ss, p, i)
  {
    AcquireTakesLock(ss, acts, j, k, p);
  }

  // ---- With nobody in the way ----

  /** State s after n steps of process p, if they are possible. */
  ghost predicate Goes(s: State, p: nat, n: nat, t: State)
    decreases n
  {
    if n == 0 then t == s
    else Enabled(s, Act(p)) && Goes(Next(s, Act(p)), p, n - 1, t)
  }

  /** A process takes a free lock in four steps ... */
  lemma {:induction false} UncontendedAcquire(s: State, p: nat)
    requires p < |s.procs| && s.procs[p].pc.Idle? && s.lk == -1 && !s.locked
    ensures Goes(s, p, 4, At(s, p, Critical).(locked := true, pid := p))
  {
    var s1 := At(s, p, AcquireSpin);
    var s2 := At(s, p, Test).(lk := p);
    var s3 := At(s, p, Taken).(lk := p, locked := true, pid := p);
    var s4 := At(s, p, Critical).(locked := true, pid := p);
    assert Next(s, Act(p)) == s1 && Next(s1, Act(p)) == s2 && Next(s2, Act(p)) == s3 && Next(s3, Act(p)) == s4;
    assert Goes(s4, p, 0, s4);
    assert Goes(s3, p, 1, s4);
    assert Goes(s2, p, 2, s4);
    assert Goes(s1, p, 3, s4);
  }

  /** In every state of every run: if the lock is free and a process sleeps on it, or
      is committed to sleep under ptable.lock, a releaser is still to scan it. */
  lemma {:induction false} NoLostWakeup(ss: seq<State>, acts: seq<Step>, k: nat, p: nat)
    requires Run(ss, acts) && k < |ss| && p < |ss[k].procs|
    requires !ss[k].locked && Committed(ss[k].procs[p])
    ensures exists r :: 0 <= r < |ss[k].procs| && HoldsLk(ss[k].procs[r].pc) && AheadOf(ss[k].procs[r].pc, p)
  {
    RunKeepsInv(ss, acts, k);
    var r := ss[k].lk;
    assert HoldsLk(ss[k].procs[r].pc);
  }

  /** The scan does its work: when it moves past process p, p is not asleep on the lock. */
  lemma {:induction false} ScanWakes(s: State, r: nat, p: nat)
    requires Inv(s) && r < |s.procs| && p < |s.procs| && s.procs[r].pc == Scan(p)
    ensures Enabled(s, Act(r))
    ensures var t := Next(s, Act(r));
            t.procs[r].pc == Scan(p + 1) && !Committed(t.procs[p])
  {
    assert HoldsPtable(s.procs[r].pc) <==> s.ptable == r;
    assert HoldsPtable(s.procs[p].pc) <==> s.ptable == p;
  }

  /** Some process that is inside the protocol can take a step. */
  ghost predicate CanMove(s: State) {
    exists p :: 0 <= p < |s.procs| && !s.procs[p].pc.Idle? && Enabled(s, Act(p))
  }

  /** No deadlock: as long as any process is inside acquiresleep, the critical section
      or releasesleep, one of them can move. */
  lemma {:induction false} NoDeadlock(ss: seq<State>, acts: seq<Step>, k: nat, p: nat)
    requires Run(ss, acts) && k < |ss| && p < |ss[k].procs| && !ss[k].procs[p].pc.Idle?
    ensures CanMove(ss[k])
  {
    RunKeepsInv(ss, acts, k);
    var s := ss[k];
    if s.ptable != -1 {
      assert HoldsPtable(s.procs[s.ptable].pc);
      assert Enabled(s, Act(s.ptable));
    } else if s.lk != -1 {
      assert HoldsLk(s.procs[s.lk].pc);
      assert Enabled(s, Act(s.lk));
    } else if s.locked {
      assert HoldsSleepLock(s.procs[s.pid].pc);
      assert Enabled(s, Act(s.pid));
    } else {
      assert !Committed(s.procs[p]);
      assert Enabled(s, Act(p));
    }
  }
}
