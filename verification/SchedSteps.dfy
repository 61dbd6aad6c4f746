/** What every step does to the process table, said of the table before and after it. */
module SchedSteps {
  import opened ProcStates
  import opened MlfqQueue
  import opened SchedTable
  import opened SchedShares
  import opened ShareLaw
  import opened SchedLife
  import opened SchedRuns
  import opened SchedLevels

  // ---- Queues that lose some of their processes ----

  /** p alone if its flag is set. */
  function IfFlagged(procs: seq<Proc>, p: int): (r: seq<int>)
    ensures |r| <= 1
  {
    if 0 <= p < |procs| && procs[p].inqueue then [p] else []
  }

  /** The slots of s whose flag is set, in their order. */
  function Flagged(procs: seq<Proc>, s: seq<int>): (r: seq<int>)
    ensures |r| <= |s|
  {
    if s == [] then [] else IfFlagged(procs, s[0]) + Flagged(procs, s[1..])
  }

  /** No slot has joined a queue, each queue is the old one without those that left, and the
      index of a queue that lost nobody is as it was. */
  ghost predicate Thinned(t: Table, r: Table)
    requires Shape(t) && Shape(r)
  {
    && (forall p {:trigger StaysOff(t, r, p)} :: Slot(p) ==> StaysOff(t, r, p))
    && (forall q {:trigger ThinnedQueue(t, r, q)} :: 0 <= q < 3 ==> ThinnedQueue(t, r, q))
    && r.minpass == t.minpass
  }

  predicate StaysOff(t: Table, r: Table, p: int)
    requires Shape(t) && Shape(r) && Slot(p)
  {
    r.procs[p].inqueue ==> t.procs[p].inqueue
  }

  predicate ThinnedQueue(t: Table, r: Table, q: int)
    requires Shape(t) && Shape(r) && 0 <= q < 3
  {
    r.queues[q] == Flagged(r.procs, t.queues[q]) && (|r.queues[q]| == |t.queues[q]| ==> r.index[q] == t.index[q])
  }

  predicate AllFlagged(procs: seq<Proc>, s: seq<int>) {
    forall k :: 0 <= k < |s| ==> 0 <= s[k] < |procs| && procs[s[k]].inqueue
  }

  lemma {:induction false} FlaggedAll(procs: seq<Proc>, s: seq<int>)
    requires AllFlagged(procs, s)
    ensures Flagged(procs, s) == s
  {
    if s != [] {
      FlaggedAll(procs, s[1..]);
    }
  }

  lemma {:induction false} FlaggedConcat(procs: seq<Proc>, a: seq<int>, b: seq<int>)
    ensures Flagged(procs, a + b) == Flagged(procs, a) + Flagged(procs, b)
  {
    if a == [] {
      assert a + b == b;
    } else {
      FlaggedConcat(procs, a[1..], b);
      assert (a + b)[1..] == a[1..] + b && (a + b)[0] == a[0];
    }
  }

  lemma {:induction false} FlaggedTwice(p: seq<Proc>, p': seq<Proc>, s: seq<int>)
    requires |p| == |p'| && forall x :: 0 <= x < |p| && p'[x].inqueue ==> p[x].inqueue
    ensures Flagged(p', Flagged(p, s)) == Flagged(p', s)
  {
    if s != [] {
      FlaggedTwice(p, p', s[1..]);
      FlaggedConcat(p', IfFlagged(p, s[0]), Flagged(p, s[1..]));
    }
  }

  lemma {:induction false} ThinnedTrans(t: Table, t1: Table, r: Table)
    requires Shape(t) && Shape(t1) && Shape(r) && Thinned(t, t1) && Thinned(t1, r)
    ensures Thinned(t, r)
  {
    forall p | Slot(p)
      ensures StaysOff(t, r, p)
    {
      assert StaysOff(t, t1, p) && StaysOff(t1, r, p);
    }
    forall q | 0 <= q < 3
      ensures ThinnedQueue(t, r, q)
    {
      assert ThinnedQueue(t, t1, q) && ThinnedQueue(t1, r, q);
      forall x | 0 <= x < |t1.procs| && r.procs[x].inqueue
        ensures t1.procs[x].inqueue
      {
        assert StaysOff(t1, r, x);
      }
      FlaggedTwice(t1.procs, r.procs, t.queues[q]);
    }
  }

  /** Queues and flags as they were. */
  lemma {:induction false} ThinnedSame(t: Table, r: Table)
    requires QueueInv(t) && Shape(r) && r.queues == t.queues && r.index == t.index && r.minpass == t.minpass
    requires forall p :: Slot(p) ==> r.procs[p].inqueue == t.procs[p].inqueue
    ensures Thinned(t, r)
  {
    forall q | 0 <= q < 3
      ensures ThinnedQueue(t, r, q)
    {
      QueueSlots(t, q);
      FlaggedAll(r.procs, t.queues[q]);
    }
  }

  /** All of s flagged but place k. */
  predicate AllBut(procs: seq<Proc>, s: seq<int>, k: nat) {
    && k < |s| && IfFlagged(procs, s[k]) == []
    && forall x :: 0 <= x < |s| && x != k ==> 0 <= s[x] < |procs| && procs[s[x]].inqueue
  }

  lemma {:induction false} FlaggedWithout(procs: seq<Proc>, s: seq<int>, k: nat)
    requires AllBut(procs, s, k)
    ensures Flagged(procs, s) == s[..k] + s[k + 1..]
  {
    if k == 0 {
      FlaggedAll(procs, s[1..]);
    } else {
      FlaggedWithout(procs, s[1..], k - 1);
      assert s[..k] == [s[0]] + s[1..][..k - 1] && s[1..][k..] == s[k + 1..];
    }
  }

  lemma {:induction false} Elsewhere(s: seq<int>, k: nat)
    requires k < |s| && s[k] !in s[..k] && s[k] !in s[k + 1..]
    ensures forall x :: 0 <= x < |s| && x != k ==> s[x] != s[k]
  {
    forall x | 0 <= x < |s| && x != k
      ensures s[x] != s[k]
    {
      assert if x < k then s[x] == s[..k][x] else s[x] == s[k + 1..][x - k - 1];
    }
  }

  lemma {:induction false} TakenThins(t: Table, c: int)
    requires QueueInv(t) && Slot(c)
    ensures Thinned(t, Taken(t, c))
  {
    if t.procs[c].inqueue {
      PopDefined(t, c);
      var h := Home(t, c);
      OnePlace(t, c, h, Where(t.queues[h], c));
      PoppedThins(t, c, h, Where(t.queues[h], c));
    } else {
      ThinnedSame(t, t);
    }
  }

  lemma {:induction false} PoppedThins(t: Table, c: int, h: nat, k: nat)
    requires QueueInv(t) && Slot(c) && t.procs[c].inqueue && h == Home(t, c) && Queued(t, c)
    requires k == Where(t.queues[h], c) < |t.queues[h]|
    requires c !in t.queues[h][..k] && c !in t.queues[h][k + 1..]
    requires forall x :: 0 <= x < 3 && x != h ==> c !in t.queues[x]
    ensures Thinned(t, Taken(t, c))
  {
    TakenOthers(t, c);
    PoppedQueues(t, c, h, k);
    TakenQueue(t, c, 0, h, k);
    TakenQueue(t, c, 1, h, k);
    TakenQueue(t, c, 2, h, k);
    ThinnedFrom(t, Taken(t, c), h);
  }

  /** Queue h has lost someone, the others nobody. */
  lemma {:induction false} ThinnedFrom(t: Table, r: Table, h: nat)
    requires Shape(t) && Shape(r) && h < 3 && r.minpass == t.minpass
    requires forall p :: Slot(p) && r.procs[p].inqueue ==> t.procs[p].inqueue
    requires r.queues[0] == Flagged(r.procs, t.queues[0])
    requires r.queues[1] == Flagged(r.procs, t.queues[1])
    requires r.queues[2] == Flagged(r.procs, t.queues[2])
    requires |r.queues[h]| < |t.queues[h]| && forall q :: 0 <= q < 3 && q != h ==> r.index[q] == t.index[q]
    ensures Thinned(t, r)
  {
  }

  lemma {:induction false} PoppedQueues(t: Table, c: int, h: nat, k: nat)
    requires QueueInv(t) && Slot(c) && t.procs[c].inqueue && h == Home(t, c) && Queued(t, c)
    requires k == Where(t.queues[h], c) < |t.queues[h]|
    ensures var r := Taken(t, c);
      && r.minpass == t.minpass && |r.queues[h]| < |t.queues[h]|
      && forall q :: 0 <= q < 3 && q != h ==> r.index[q] == t.index[q]
  {
    PopDefined(t, c);
    WithoutBag(t.queues[h], c);
    assert Taken(t, c).queues == t.queues[h := Without(t.queues[h], c)] && Taken(t, c).index == t.index[h := k];
  }

  lemma {:induction false} TakenQueue(t: Table, c: int, q: nat, h: nat, k: nat)
    requires QueueInv(t) && Slot(c) && t.procs[c].inqueue && q < 3 && h == Home(t, c) && Queued(t, c)
    requires k == Where(t.queues[h], c) < |t.queues[h]|
    requires c !in t.queues[h][..k] && c !in t.queues[h][k + 1..]
    requires forall x :: 0 <= x < 3 && x != h ==> c !in t.queues[x]
    ensures Taken(t, c).queues[q] == Flagged(Taken(t, c).procs, t.queues[q])
  {
    QueueSlots(t, q);
    if q == h {
      HomeFlags(t, c, t.queues[q], k);
      FlaggedWithout(Taken(t, c).procs, t.queues[q], k);
      assert Taken(t, c).queues[q] == t.queues[q][..k] + t.queues[q][k + 1..];
    } else {
      TakenOthers(t, c);
      FlaggedAll(Taken(t, c).procs, t.queues[q]);
    }
  }

  lemma {:induction false} HomeFlags(t: Table, c: int, s: seq<int>, k: nat)
    requires QueueInv(t) && Slot(c) && k < |s| && s[k] == c && c !in s[..k] && c !in s[k + 1..]
    requires forall x :: 0 <= x < |s| ==> Slot(s[x]) && t.procs[s[x]].inqueue
    ensures AllBut(Taken(t, c).procs, s, k)
  {
    TakenOthers(t, c);
    Elsewhere(s, k);
  }

  lemma {:induction false} ReleasedThins(t: Table, c: int)
    requires QueueInv(t) && Slot(c)
    ensures Thinned(t, Released(t, c))
  {
    TakenThins(t, c);
    TakenOthers(t, c);
    ThinnedSame(Taken(t, c), Released(t, c));
    ThinnedTrans(t, Taken(t, c), Released(t, c));
  }

  lemma {:induction false} ReapedWorkerThins(t: Table, m: int, i: nat)
    requires QueueInv(t) && Slot(m) && i < NPROC && t.procs[m].cthread[i] != NULL
    ensures Thinned(t, ReapWorker(t, m, i))
  {
    var t1 := Unlisted(t, m, i);
    SameFlags(t, t1);
    ThinnedSame(t, t1);
    ReleasedThins(t1, t.procs[m].cthread[i]);
    ThinnedTrans(t, t1, ReapWorker(t, m, i));
  }

  lemma {:induction false} KillZombiesThins(t: Table, m: int, cur: int, i: nat)
    requires Inv(t) && Slot(m) && 1 <= i <= NPROC
    ensures Thinned(t, KillZombies(t, m, cur, i))
    decreases NPROC - i
  {
    if i == NPROC {
      ThinnedSame(t, t);
    } else if Doomed(t, m, cur, i) {
      KillStep(t, m, cur, i);
      var t1 := ReapWorker(t, m, i);
      KillZombiesThins(t1, m, cur, i + 1);
      ReapedWorkerThins(t, m, i);
      ThinnedTrans(t, t1, KillZombies(t1, m, cur, i + 1));
    } else {
      KillZombiesThins(t, m, cur, i + 1);
    }
  }

  lemma {:induction false} KillStep(t: Table, m: int, cur: int, i: nat)
    requires Inv(t) && Slot(m) && 1 <= i < NPROC && Doomed(t, m, cur, i)
    ensures Inv(ReapWorker(t, m, i)) && KillZombies(t, m, cur, i) == KillZombies(ReapWorker(t, m, i), m, cur, i + 1)
  {
    ReapWorkerKeeps(t, m, i, t.procs[m].cthread[i]);
  }

  // ---- What the steps do ----

  /** All slots but a and b are as they were. */
  ghost predicate OthersKept(t: Table, r: Table, a: int, b: int)
    requires Shape(t) && Shape(r)
  {
    forall p :: Slot(p) && p != a && p != b ==> r.procs[p] == t.procs[p]
  }

  /** k is the lowest free slot. */
  predicate Lowest(t: Table, k: int)
    requires Shape(t)
  {
    Slot(k) && t.procs[k].state == UNUSED && forall x :: 0 <= x < k ==> t.procs[x].state != UNUSED
  }

  ghost predicate NoSlot(t: Table)
    requires Shape(t)
  {
    forall p :: Slot(p) ==> t.procs[p].state != UNUSED
  }

  /** A new runnable process or thread with full time limits and no share. */
  predicate Newborn(q: Proc, parent: int, mthread: int, first: int, queued: bool, pass: int) {
    && q.state == RUNNABLE && q.parent == parent && q.mthread == mthread
    && q.ticks == 0 && q.curticks == 0 && q.priority == 0 && q.timequantum == 1 && q.timeallotment == 5
    && q.percentage == 0 && q.pass == pass && q.inqueue == queued
    && |q.cthread| == NPROC && q.cthread[0] == first && forall i :: 1 <= i < NPROC ==> q.cthread[i] == NULL
  }

  /** A slot whose allocation came to nothing. */
  predicate Empty(q: Proc) {
    q.state == UNUSED && !q.inqueue && q.percentage == 0
  }

  /** A slot given back. */
  predicate Wiped(q: Proc) {
    && Empty(q) && q.parent == NULL && q.pass == 0
    && q.ticks == 0 && q.curticks == 0 && q.priority == 0 && q.timequantum == 1 && q.timeallotment == 5
  }

  /** Slot k in front of the highest queue. */
  predicate QueuedFirst(t: Table, r: Table, k: int)
    requires Shape(t) && Shape(r)
  {
    r.queues == t.queues[0 := [k] + t.queues[0]] && r.index == t.index[0 := -1]
  }

  predicate SameQueues(t: Table, r: Table) {
    r.queues == t.queues && r.index == t.index
  }

  /** fork: a child of m in the lowest free slot, in front of the highest queue. */
  ghost predicate ForkDoes(t: Table, r: Table, m: int, copied: bool)
    requires Shape(t) && Shape(r)
  {
    (NoSlot(t) && r == t) || exists k :: Lowest(t, k) && ForkAt(t, r, m, copied, k)
  }

  ghost predicate ForkAt(t: Table, r: Table, m: int, copied: bool, k: int)
    requires Shape(t) && Shape(r) && Slot(k)
  {
    && OthersKept(t, r, k, k) && r.pool == t.pool && r.minpass == t.minpass
    && if copied then Newborn(r.procs[k], m, k, k, true, t.minpass) && QueuedFirst(t, r, k)
       else Empty(r.procs[k]) && SameQueues(t, r)
  }

  /** thread_create: a worker of m in the lowest free slot and entry, queued in front if m
      has no share. */
  ghost predicate CreateDoes(t: Table, r: Table, m: int, copied: bool)
    requires Shape(t) && Shape(r) && Slot(m)
  {
    || (NoSlot(t) && r == t)
    || exists k :: Lowest(t, k)
         && if copied && NULL in t.procs[m].cthread then exists e :: CreateAt(t, r, m, k, e) else CreateFails(t, r, k)
  }

  ghost predicate CreateFails(t: Table, r: Table, k: int)
    requires Shape(t) && Shape(r) && Slot(k)
  {
    OthersKept(t, r, k, k) && Empty(r.procs[k]) && SameQueues(t, r) && r.pool == t.pool && r.minpass == t.minpass
  }

  ghost predicate CreateAt(t: Table, r: Table, m: int, k: int, e: int)
    requires Shape(t) && Shape(r) && Slot(m) && Slot(k)
  {
    && 1 <= e < NPROC && t.procs[m].cthread[e] == NULL && (forall x :: 0 <= x < e ==> t.procs[m].cthread[x] != NULL)
    && k != m && OthersKept(t, r, k, m)
    && r.procs[m] == t.procs[m].(cthread := t.procs[m].cthread[e := k])
    && Newborn(r.procs[k], t.procs[m].parent, m, NULL, t.procs[m].percentage == 0, t.minpass)
    && (if t.procs[m].percentage == 0 then QueuedFirst(t, r, k) else SameQueues(t, r))
    && r.pool == t.pool && r.minpass == t.minpass
  }

  /** thread_join on entry i of m: a zombie worker leaves its entry, its slot and its queue. */
  ghost predicate JoinDoes(t: Table, r: Table, m: int, i: nat)
    requires Shape(t) && Shape(r) && Slot(m)
  {
    if 1 <= i < NPROC && t.procs[m].cthread[i] != NULL && t.procs[t.procs[m].cthread[i]].state == ZOMBIE then
      var c := t.procs[m].cthread[i];
      && c != m && OthersKept(t, r, c, m)
      && r.procs[m] == t.procs[m].(cthread := t.procs[m].cthread[i := NULL])
      && Wiped(r.procs[c]) && r.procs[c].mthread == NULL
      && Thinned(t, r) && r.pool == t.pool
    else r == t
  }

  /** p is a worker of m. */
  ghost predicate Lists(t: Table, m: int, p: int)
    requires Shape(t) && Slot(m)
  {
    exists i :: Worker(t, m, i, p)
  }

  /** exit by thread cur of m. Its other workers are gone, m and cur are zombies, and
      children of m have m's parent. */
  ghost predicate ExitDoes(t: Table, r: Table, m: int, cur: int)
    requires Shape(t) && Shape(r) && Slot(m)
  {
    && (forall p {:trigger ExitedSlot(t, r, m, cur, p)} :: Slot(p) ==> ExitedSlot(t, r, m, cur, p))
    && (forall i {:trigger r.procs[m].cthread[i]} :: 0 <= i < NPROC ==>
          r.procs[m].cthread[i] == if i == 0 || t.procs[m].cthread[i] == cur then t.procs[m].cthread[i] else NULL)
    && Thinned(t, r) && r.pool == t.pool
  }

  ghost predicate ExitedSlot(t: Table, r: Table, m: int, cur: int, p: int)
    requires Shape(t) && Shape(r) && Slot(m) && Slot(p)
  {
    var q := t.procs[p].(parent := if t.procs[p].parent == m then t.procs[m].parent else t.procs[p].parent);
    if p == m then r.procs[p] == q.(state := ZOMBIE, cthread := r.procs[p].cthread)
    else if !Lists(t, m, p) then r.procs[p] == q
    else if p == cur then r.procs[p] == q.(state := ZOMBIE)
    else Wiped(r.procs[p])
  }

  /** wait by m: its lowest zombie child and all threads of it are gone, and its share is
      back in the pool. */
  ghost predicate WaitDoes(t: Table, r: Table, m: int)
    requires Shape(t) && Shape(r) && Slot(m)
  {
    || ((forall p :: Slot(p) ==> !Exiting(t, m, p)) && r == t)
    || exists k :: Slot(k) && Exiting(t, m, k) && (forall x :: 0 <= x < k ==> !Exiting(t, m, x)) && ReapDoes(t, r, k)
  }

  /** p is a zombie child of m, and a main thread. */
  predicate Exiting(t: Table, m: int, p: int)
    requires Shape(t) && Slot(p)
  {
    t.procs[p].parent == m && t.procs[p].mthread == p && t.procs[p].state == ZOMBIE
  }

  ghost predicate ReapDoes(t: Table, r: Table, k: int)
    requires Shape(t) && Shape(r) && Slot(k)
  {
    && (forall p {:trigger r.procs[p]} :: Slot(p) ==>
          if p == k || Lists(t, k, p) then Wiped(r.procs[p]) else r.procs[p] == t.procs[p])
    && Thinned(t, r) && r.pool == t.pool + t.procs[k].percentage
  }

  /** One slot in another state and nothing else. */
  predicate StateDoes(t: Table, r: Table, p: int, st: ProcState)
    requires Shape(t) && Slot(p)
  {
    r == t.(procs := t.procs[p := t.procs[p].(state := st)])
  }

  /** Place number d of a walk over the array that starts behind place index. */
  function Behind(index: int, d: int): (k: int) {
    if index + 1 + d < 64 then index + 1 + d else index + 1 + d - 64
  }

  /** top: the index of the queue moves to the first eligible place behind it, or once
      around. */
  ghost predicate TopDoes(t: Table, r: Table, level: nat)
    requires Shape(t) && level < 3
  {
    exists d :: 0 <= d < 64 && r == t.(index := t.index[level := Behind(t.index[level], d)])
      && (d < 63 ==> Eligible(t, level, Behind(t.index[level], d)))
      && forall x :: 0 <= x < d ==> !Eligible(t, level, Behind(t.index[level], x))
  }

  /** A step of the table from t to r. */
  ghost predicate Does(t: Table, s: Step, r: Table)
    requires Shape(t) && Shape(r)
  {
    if SystemCall(s) then
      if !Running(t, s.cur) then r == t
      else Slot(t.procs[s.cur].mthread) && CallDoes(t, s, t.procs[s.cur].mthread, r)
    else
      match s
      case Dispatch(p, st) =>
        if Slot(p) && {t.procs[p].state, st} <= {SLEEPING, RUNNABLE, RUNNING} then StateDoes(t, r, p, st) else r == t
      case Boost => AllOnTop(t, r)
      case Drop(p) =>
        if Slot(p) && t.procs[p].inqueue && t.procs[p].priority in {0, 1} then LevelDown(t, r, p) else r == t
      case Top(level) => if level < 3 then TopDoes(t, r, level) else r == t
  }

  ghost predicate CallDoes(t: Table, s: Step, m: int, r: Table)
    requires Shape(t) && Shape(r) && SystemCall(s) && Running(t, s.cur) && Slot(m)
  {
    match s
    case Fork(cur, copied) => ForkDoes(t, r, m, copied)
    case ThreadCreate(cur, copied) => CreateDoes(t, r, m, copied)
    case SetShare(cur, n) =>
      var held := t.procs[m].percentage;
      if t.pool - (n - held) >= 20 && (held != 0 || n != 0) then Shared(t, r, m, n) else r == t
    case Join(cur, i) => JoinDoes(t, r, m, i)
    case ThreadExit(cur) =>
      if cur != m then StateDoes(t, r, cur, ZOMBIE) else if cur == 0 then r == t else ExitDoes(t, r, m, cur)
    case Exit(cur) => if cur == 0 then r == t else ExitDoes(t, r, m, cur)
    case Wait(cur) => WaitDoes(t, r, m)
  }

  // ---- They do so ----

  lemma {:induction false} ForkIs(t: Table, m: int, copied: bool)
    requires Inv(t) && Slot(m)
    ensures ForkDoes(t, Forked(t, m, copied), m, copied)
  {
    var k := FirstUnused(t, 0);
    if k < NPROC {
      assert Lowest(t, k) && ForkAt(t, Forked(t, m, copied), m, copied, k);
    }
  }

  lemma {:induction false} CreateIs(t: Table, m: int, copied: bool)
    requires Inv(t) && Main(t, m)
    ensures CreateDoes(t, ThreadCreated(t, m, copied), m, copied)
  {
    var k := FirstUnused(t, 0);
    if k < NPROC {
      assert Lowest(t, k);
      var e := FirstNull(t.procs[m].cthread, 0);
      if e < NPROC && copied {
        assert Belongs(t, m);
        CreateAtIs(t, m, k, e);
      } else {
        CreateFailsIs(t, m, k, copied);
      }
    }
  }

  lemma {:induction false} CreateFailsIs(t: Table, m: int, k: nat, copied: bool)
    requires Inv(t) && Main(t, m) && k == FirstUnused(t, 0) < NPROC
    requires FirstNull(t.procs[m].cthread, 0) == NPROC || !copied
    ensures CreateFails(t, ThreadCreated(t, m, copied), k)
  {
  }

  lemma {:induction false} CreateAtIs(t: Table, m: int, k: nat, e: nat)
    requires Inv(t) && Main(t, m) && Lowest(t, k) && k == FirstUnused(t, 0)
    requires e == FirstNull(t.procs[m].cthread, 0) && 1 <= e < NPROC
    ensures CreateAt(t, ThreadCreated(t, m, true), m, k, e)
  {
    EnlistedAt(t, m, k, e);
  }

  lemma {:induction false} EnlistedAt(t: Table, m: int, k: nat, e: nat)
    requires Shape(t) && Slot(m) && Slot(k) && k != m && 1 <= e < NPROC && t.procs[m].cthread[e] == NULL
    requires forall x :: 0 <= x < e ==> t.procs[m].cthread[x] != NULL
    ensures var r := Enlisted(t, m, e, k);
      CreateAt(t, if t.procs[m].percentage == 0 then InitPushed(r, k) else r, m, k, e)
  {
  }

  lemma {:induction false} JoinIs(t: Table, m: int, i: nat)
    requires Inv(t) && Slot(m) && 1 <= i < NPROC
    ensures JoinDoes(t, Joined(t, m, i), m, i)
  {
    var c := t.procs[m].cthread[i];
    if c != NULL && t.procs[c].state == ZOMBIE {
      assert Worker(t, m, i, c);
      JoinedThins(t, m, i, c);
      JoinedSame(t, m, i, c);
      ReapWorkerFrame(t, m, i, c);
    }
  }

  lemma {:induction false} JoinedSame(t: Table, m: int, i: nat, c: int)
    requires Inv(t) && Slot(m) && Worker(t, m, i, c) && t.procs[c].state == ZOMBIE
    ensures var r, r' := ReapWorker(t, m, i), Joined(t, m, i);
      && SameQueues(r, r') && r'.minpass == r.minpass
      && r'.procs == r.procs[c := r.procs[c].(mthread := NULL)] && r'.pool == t.pool
  {
  }

  lemma {:induction false} JoinedThins(t: Table, m: int, i: nat, c: int)
    requires Inv(t) && Slot(m) && Worker(t, m, i, c) && t.procs[c].state == ZOMBIE
    ensures Thinned(t, Joined(t, m, i))
  {
    ReapedWorkerThins(t, m, i);
    var r, r' := ReapWorker(t, m, i), Joined(t, m, i);
    JoinedSame(t, m, i, c);
    ThinnedSame(r, r');
    ThinnedTrans(t, r, r');
  }

  // exit

  /** The table in which exit calls killzombie. */
  ghost predicate Doing(t: Table, t1: Table, m: int)
    requires Shape(t) && Shape(t1) && Slot(m)
  {
    && (forall p :: Slot(p) ==> t1.procs[p] == t.procs[p].(
          state := if p in t.procs[m].cthread then ZOMBIE else t.procs[p].state,
          parent := if t.procs[p].parent == m then t.procs[m].parent else t.procs[p].parent))
    && t1.queues == t.queues && t1.index == t.index && t1.pool == t.pool && t1.minpass == t.minpass
  }

  lemma {:induction false} ExitIs(t: Table, m: int, cur: int)
    requires Inv(t) && Main(t, m)
    ensures ExitDoes(t, Exited(t, m, cur), m, cur)
  {
    ExitTable(t, m);
    var t1 := Reparented(Zombified(t, t.procs[m].cthread), m);
    var r := KillZombies(t1, m, cur, 1);
    KillZombiesFrame(t1, m, cur, 1);
    KillZombiesThins(t1, m, cur, 1);
    ExitThins(t, t1, r, m);
    ExitSlots(t, t1, r, m, cur);
  }

  lemma {:induction false} ExitTable(t: Table, m: int)
    requires Inv(t) && Main(t, m)
    ensures var t1 := Reparented(Zombified(t, t.procs[m].cthread), m);
      Inv(t1) && Doing(t, t1, m)
  {
    AllZombie(t, m);
    ReparentedKeeps(Zombified(t, t.procs[m].cthread), m);
  }

  lemma {:induction false} ExitSlots(t: Table, t1: Table, r: Table, m: int, cur: int)
    requires Inv(t) && Main(t, m) && Shape(t1) && Inv(r) && Doing(t, t1, m) && Killed(t1, r, m, cur, 1)
    requires Thinned(t, r) && r.pool == t.pool
    ensures ExitDoes(t, r, m, cur)
  {
    ExitEntries(t, t1, r, m, cur);
    forall p | Slot(p)
      ensures ExitedSlot(t, r, m, cur, p)
    {
      ExitSlot(t, t1, r, m, cur, p);
    }
  }

  lemma {:induction false} ExitThins(t: Table, t1: Table, r: Table, m: int)
    requires QueueInv(t) && Shape(t1) && Shape(r) && Slot(m) && Doing(t, t1, m) && Thinned(t1, r)
    ensures Thinned(t, r)
  {
    ThinnedSame(t, t1);
    ThinnedTrans(t, t1, r);
  }

  lemma {:induction false} ExitEntries(t: Table, t1: Table, r: Table, m: int, cur: int)
    requires Inv(t) && Main(t, m) && Shape(t1) && Shape(r) && Doing(t, t1, m) && Killed(t1, r, m, cur, 1)
    ensures forall i {:trigger r.procs[m].cthread[i]} :: 0 <= i < NPROC ==>
      r.procs[m].cthread[i] == if i == 0 || t.procs[m].cthread[i] == cur then t.procs[m].cthread[i] else NULL
  {
    forall i | 0 <= i < NPROC
      ensures r.procs[m].cthread[i] == if i == 0 || t.procs[m].cthread[i] == cur then t.procs[m].cthread[i] else NULL
    {
      var c := t.procs[m].cthread[i];
      assert c != NULL ==> t1.procs[c].state == ZOMBIE;
      assert Doomed(t1, m, cur, i) <==> c != NULL && c != cur;
    }
  }

  /** Who is listed besides m is a worker, and the other way round. */
  lemma {:induction false} ListsIff(t: Table, m: int, p: int)
    requires Inv(t) && Main(t, m) && Slot(p) && p != m
    ensures Lists(t, m, p) <==> p in t.procs[m].cthread
    ensures Lists(t, m, p) <==> t.procs[p].state != UNUSED && t.procs[p].mthread == m
  {
    assert Belongs(t, m);
    if p in t.procs[m].cthread {
      var i :| 0 <= i < NPROC && t.procs[m].cthread[i] == p;
      assert Worker(t, m, i, p);
    }
    if t.procs[p].state != UNUSED && t.procs[p].mthread == m {
      assert Belongs(t, p);
    }
  }

  lemma {:induction false} ExitSlot(t: Table, t1: Table, r: Table, m: int, cur: int, p: int)
    requires Inv(t) && Main(t, m) && Shape(t1) && Inv(r) && Doing(t, t1, m) && Killed(t1, r, m, cur, 1) && Slot(p)
    requires forall i {:trigger r.procs[m].cthread[i]} :: 0 <= i < NPROC ==>
      r.procs[m].cthread[i] == if i == 0 || t.procs[m].cthread[i] == cur then t.procs[m].cthread[i] else NULL
    ensures ExitedSlot(t, r, m, cur, p)
  {
    assert Belongs(t, m);
    if p != m {
      ListsIff(t, m, p);
      assert KeptOrCleared(t1, r, m, cur, p);
      if p != cur {
        NotListedThen(t, r, m, cur, p);
      }
    }
  }

  lemma {:induction false} NotListedThen(t: Table, r: Table, m: int, cur: int, p: int)
    requires Shape(t) && ThreadInv(r) && Slot(m) && Slot(p) && p != m && p != cur
    requires forall i {:trigger r.procs[m].cthread[i]} :: 0 <= i < NPROC ==>
      r.procs[m].cthread[i] == if i == 0 || t.procs[m].cthread[i] == cur then t.procs[m].cthread[i] else NULL
    ensures r.procs[p].state == UNUSED || r.procs[p].mthread != m
  {
    if r.procs[p].state != UNUSED {
      assert Belongs(r, p);
    }
  }

  // wait

  lemma {:induction false} WaitIs(t: Table, m: int)
    requires Inv(t) && Slot(m)
    ensures WaitDoes(t, Waited(t, m), m)
  {
    var k := FirstKid(t, m, 0);
    if k == NPROC {
      assert forall p :: Slot(p) ==> !Exiting(t, m, p);
    } else {
      ReapIs(t, k);
    }
  }

  lemma {:induction false} ReapIs(t: Table, k: int)
    requires Inv(t) && Main(t, k)
    ensures ReapDoes(t, Reaped(t, k), k)
  {
    WorkersDoomed(t, k);
    var t0 := Zombified(t, t.procs[k].cthread[1..]);
    WorkersGone(t, k);
    var t1 := KillZombies(t0, k, k, 1);
    KillZombiesFrame(t0, k, k, 1);
    KillZombiesThins(t0, k, k, 1);
    ThinnedSame(t, t0);
    ThinnedTrans(t, t0, t1);
    ReleasedThins(t1, k);
    ThinnedTrans(t, t1, Reaped(t, k));
    forall p | Slot(p)
      ensures if p == k || Lists(t, k, p) then Wiped(Reaped(t, k).procs[p]) else Reaped(t, k).procs[p] == t.procs[p]
    {
      if p != k {
        ReapSlot(t, t0, t1, k, p);
      }
    }
  }

  lemma {:induction false} ReapSlot(t: Table, t0: Table, t1: Table, k: int, p: int)
    requires Inv(t) && Main(t, k) && Inv(t1) && Slot(p) && p != k
    requires t0 == Zombified(t, t.procs[k].cthread[1..]) && Killed(t0, t1, k, k, 1)
    requires forall i, w :: !Worker(t1, k, i, w)
    ensures if Lists(t, k, p) then Wiped(t1.procs[p]) else t1.procs[p] == t.procs[p]
  {
    ListsIff(t, k, p);
    assert KeptOrCleared(t0, t1, k, k, p);
    if Lists(t, k, p) {
      assert Belongs(t, k);
      WorkerGone(t1, k, p);
    } else {
      TailOnly(t, k, p);
    }
  }

  lemma {:induction false} WorkerGone(t: Table, k: int, p: int)
    requires ThreadInv(t) && Slot(k) && Slot(p) && p != k && forall i, w :: !Worker(t, k, i, w)
    ensures t.procs[p].state == UNUSED || t.procs[p].mthread != k
  {
    if t.procs[p].state != UNUSED {
      assert Belongs(t, p);
    }
  }

  lemma {:induction false} TailOnly(t: Table, k: int, p: int)
    requires Shape(t) && Slot(k) && p !in t.procs[k].cthread
    ensures p !in t.procs[k].cthread[1..]
  {
  }

  // The scheduler's own steps

  lemma {:induction false} TopIs(t: Table, level: nat)
    requires Shape(t) && level < 3
    ensures TopDoes(t, Topped(t, level), level)
  {
    var n := Stops(t, level, 0);
    var d := if n == NPROC then NPROC - 1 else n;
    forall x: nat | x < NPROC
      ensures Stop(t.index[level], x) == Behind(t.index[level], x)
    {
    }
    assert TopIndex(t, level) == Behind(t.index[level], d);
  }

  lemma {:induction false} CallIs(t: Table, s: Step, m: int)
    requires Inv(t) && SystemCall(s) && Running(t, s.cur) && Main(t, m)
    ensures CallDoes(t, s, m, Called(t, s, m))
  {
    match s
    case Fork(cur, copied) => ForkIs(t, m, copied);
    case ThreadCreate(cur, copied) => CreateIs(t, m, copied);
    case SetShare(cur, n) => ShareSetShared(t, m, n);
    case Join(cur, i) =>
      if 1 <= i < NPROC {
        JoinIs(t, m, i);
      }
    case ThreadExit(cur) => ExitIs(t, m, cur);
    case Exit(cur) => ExitIs(t, m, cur);
    case Wait(cur) => WaitIs(t, m);
  }

  lemma {:induction false} ScheduleIs(t: Table, s: Step)
    requires Inv(t) && !SystemCall(s)
    ensures Does(t, s, Scheduled(t, s))
  {
    match s
    case Dispatch(p, st) =>
    case Boost => BoostedOnTop(t);
    case Drop(p) =>
      if Slot(p) && t.procs[p].inqueue && t.procs[p].priority in {0, 1} {
        DroppedLevel(t, p);
      }
    case Top(level) =>
      if level < 3 {
        TopIs(t, level);
      }
  }

  /** Every step of every run does to slots, thread tables, queues, indexes, passes and the
      pool what is said above, and nothing else. */
  lemma {:induction false} StepDoes(t: Table, s: Step)
    requires Inv(t)
    ensures Does(t, s, Next(t, s))
  {
    if !SystemCall(s) {
      ScheduleIs(t, s);
    } else if Running(t, s.cur) {
      RunningMain(t, s.cur);
      CallIs(t, s, t.procs[s.cur].mthread);
    }
  }
}
