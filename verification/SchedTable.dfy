/** The process table of the scheduler as a value: three priority queues, the pool of CPU
    share left to the multi-level feedback queue, and the threads of every process. */
module SchedTable {
  import opened ProcStates
  import opened MlfqQueue

  const FLOOR: int := 20

  datatype Proc = Proc(
    state: ProcState,
    parent: int,
    ticks: int,
    curticks: int,
    priority: int,
    timequantum: int,
    timeallotment: int,
    percentage: int,
    pass: int,
    inqueue: bool,
    mthread: int,
    cthread: seq<int>)

  datatype Table = Table(
    procs: seq<Proc>,
    queues: seq<seq<int>>,
    index: seq<int>,
    pool: int,
    minpass: int)

  predicate Slot(p: int) {
    0 <= p < NPROC
  }

  // ---- Invariants ----

  /** A thread table: NULL or a slot in every place. */
  predicate Threads(c: seq<int>) {
    |c| == NPROC && forall i :: 0 <= i < NPROC ==> c[i] == NULL || Slot(c[i])
  }

  predicate Shape(t: Table) {
    && |t.procs| == NPROC
    && |t.queues| == 3
    && |t.index| == 3
    && (forall i :: 0 <= i < 3 ==> -1 <= t.index[i] < NPROC)
    && (forall p :: 0 <= p < NPROC ==> Threads(t.procs[p].cthread))
  }

  ghost function All(t: Table): (m: multiset<int>)
    requires |t.queues| == 3
  {
    multiset(t.queues[0]) + multiset(t.queues[1]) + multiset(t.queues[2])
  }

  /** Every queued slot is queued once, in one queue, and the inqueue flags say which. */
  ghost predicate QueueInv(t: Table) {
    && Shape(t)
    && (forall p {:trigger All(t)[p]} :: All(t)[p] == if Slot(p) && t.procs[p].inqueue then 1 else 0)
    && (forall p :: 0 <= p < NPROC && t.procs[p].state == UNUSED ==> !t.procs[p].inqueue)
  }

  function Shares(procs: seq<Proc>): (n: int) {
    if procs == [] then 0 else Shares(procs[..|procs| - 1]) + procs[|procs| - 1].percentage
  }

  /** The pool and all shares add up to 100, and only a live main thread has a share. */
  ghost predicate ShareInv(t: Table) {
    && Shape(t)
    && t.pool + Shares(t.procs) == 100
    && (forall p :: 0 <= p < NPROC && t.procs[p].percentage != 0 ==>
          t.procs[p].state != UNUSED && t.procs[p].mthread == p)
  }

  /** Slot i of main thread m names a worker. */
  predicate Worker(t: Table, m: int, i: int, w: int)
    requires Shape(t) && Slot(m)
  {
    1 <= i < NPROC && w != NULL && t.procs[m].cthread[i] == w
  }

  /** Thread tables: a worker entry names a live slot of this process other than the main
      thread, no slot twice; every live slot belongs to a live main thread that lists it. */
  ghost predicate ThreadInv(t: Table) {
    && Shape(t)
    && (forall m, i, w :: Slot(m) && Worker(t, m, i, w) ==>
          Slot(w) && w != m && t.procs[w].mthread == m && t.procs[w].state != UNUSED)
    && (forall m, i, j, w :: Slot(m) && Worker(t, m, i, w) && Worker(t, m, j, w) ==> i == j)
    && (forall p {:trigger Belongs(t, p)} :: Slot(p) && t.procs[p].state != UNUSED ==> Belongs(t, p))
  }

  ghost predicate Belongs(t: Table, p: int)
    requires Shape(t) && Slot(p)
  {
    var m := t.procs[p].mthread;
    && Slot(m)
    && t.procs[m].mthread == m
    && t.procs[m].state != UNUSED
    && t.procs[m].cthread[0] == m
    && (p == m || exists i :: Worker(t, m, i, p))
  }

  ghost predicate Inv(t: Table) {
    QueueInv(t) && ShareInv(t) && ThreadInv(t)
  }

  // ---- The queue operations ----

  function Put(t: Table, p: int, q: Proc): (r: Table)
    requires Shape(t) && Slot(p) && Threads(q.cthread)
    ensures Shape(r)
  {
    t.(procs := t.procs[p := q])
  }

  /** initpush on the highest queue. */
  function InitPushed(t: Table, p: int): (r: Table)
    requires Shape(t) && Slot(p)
    ensures Shape(r)
  {
    Put(t, p, t.procs[p].(inqueue := true)).(
      queues := t.queues[0 := [p] + t.queues[0]], index := t.index[0 := -1])
  }

  function Pushed(t: Table, i: nat, p: int): (r: Table)
    requires Shape(t) && Slot(p) && i < 3
    ensures Shape(r)
  {
    Put(t, p, t.procs[p].(inqueue := true)).(queues := t.queues[i := t.queues[i] + [p]])
  }

  function Where(s: seq<int>, p: int): (k: nat)
    ensures k <= |s|
    ensures k < |s| ==> s[k] == p
    ensures forall x :: 0 <= x < k ==> s[x] != p
  {
    if s == [] || s[0] == p then 0 else 1 + Where(s[1..], p)
  }

  function Home(t: Table, p: int): (i: nat)
    requires Shape(t)
    ensures i < 3
  {
    if p in t.queues[0] then 0 else if p in t.queues[1] then 1 else 2
  }

  predicate Queued(t: Table, p: int)
    requires Shape(t)
  {
    p in t.queues[0] || p in t.queues[1] || p in t.queues[2]
  }

  function Without(s: seq<int>, p: int): (r: seq<int>)
    requires p in s
  {
    var k := Where(s, p);
    s[..k] + s[k + 1..]
  }

  function Popped(t: Table, p: int): (r: Table)
    requires Shape(t) && Slot(p) && Queued(t, p) && Where(t.queues[Home(t, p)], p) < NPROC
    ensures Shape(r)
  {
    var i := Home(t, p);
    Put(t, p, t.procs[p].(inqueue := false)).(
      queues := t.queues[i := Without(t.queues[i], p)],
      index := t.index[i := Where(t.queues[i], p)])
  }

  /** The fields of a process after droppriority. */
  function Demoted(q: Proc): (r: Proc)
    requires q.priority == 0 || q.priority == 1
  {
    if q.priority == 0
    then q.(ticks := 0, curticks := 0, priority := 1, timequantum := 2, timeallotment := 10)
    else q.(ticks := 0, priority := 2, timequantum := 4, timeallotment := 100)
  }

  function Promoted(q: Proc): (r: Proc) {
    q.(ticks := 0, curticks := 0, priority := 0, timequantum := 1, timeallotment := 5, inqueue := true)
  }

  function Promote(procs: seq<Proc>, moved: seq<int>): (r: seq<Proc>) {
    seq(|procs|, p requires 0 <= p < |procs| => if p in moved then Promoted(procs[p]) else procs[p])
  }

  function Boosted(t: Table): (r: Table)
    requires Shape(t)
    ensures Shape(r)
  {
    var r1 := Rotated(t.queues[1], After(t.index[1]));
    var r2 := Rotated(t.queues[2], After(t.index[2]));
    t.(procs := Promote(Promote(t.procs, r1), r2),
       queues := [t.queues[0] + r1 + r2, [], []],
       index := [t.index[0], 0, 0])
  }

  // ---- Queue lemmas ----

  lemma {:induction false} QueuedIffFlag(t: Table, p: int)
    requires QueueInv(t)
    ensures Queued(t, p) <==> Slot(p) && t.procs[p].inqueue
  {
    assert All(t)[p] == multiset(t.queues[0])[p] + multiset(t.queues[1])[p] + multiset(t.queues[2])[p];
  }

  /** A multiset without repetitions over the slots holds at most NPROC elements. */
  lemma {:induction false} Pigeonhole(m: multiset<int>, n: nat)
    requires forall p :: m[p] <= if 0 <= p < n then 1 else 0
    ensures |m| <= n
    ensures (exists p :: 0 <= p < n && m[p] == 0) ==> |m| < n
  {
    if n == 0 {
      var none: multiset<int> := multiset{};
      assert forall p :: m[p] == none[p];
      assert m == none;
    } else {
      var m' := m - multiset{n - 1};
      forall p
        ensures m'[p] <= if 0 <= p < n - 1 then 1 else 0
      {
      }
      Pigeonhole(m', n - 1);
      if m[n - 1] == 1 {
        assert m == m' + multiset{n - 1};
        if p :| 0 <= p < n && m[p] == 0 {
          assert m'[p] == 0 && p < n - 1;
        }
      } else {
        assert m == m';
      }
    }
  }

  /** All queues together fit in one array, and an unqueued slot leaves room for itself:
      the "no empty place" panics of initpush and push are unreachable. */
  lemma {:induction false} RoomForAll(t: Table)
    requires QueueInv(t)
    ensures |t.queues[0]| + |t.queues[1]| + |t.queues[2]| <= NPROC
    ensures (exists p :: Slot(p) && !t.procs[p].inqueue) ==>
      |t.queues[0]| + |t.queues[1]| + |t.queues[2]| < NPROC
  {
    Pigeonhole(All(t), NPROC);
    if p :| Slot(p) && !t.procs[p].inqueue {
      assert All(t)[p] == 0;
    }
  }

  lemma {:induction false} WithoutBag(s: seq<int>, p: int)
    requires p in s
    ensures multiset(Without(s, p)) == multiset(s) - multiset{p}
    ensures |Without(s, p)| == |s| - 1
  {
    var k := Where(s, p);
    assert s == s[..k] + [p] + s[k + 1..];
  }

  lemma {:induction false} RotatedBag(s: seq<int>, k: nat)
    ensures multiset(Rotated(s, k)) == multiset(s)
  {
    if k <= |s| {
      assert s == s[..k] + s[k..];
    }
  }

  /** The slot p and the queues changed so that p is now queued exactly when q says. */
  lemma {:induction false} QueueInvPut(t: Table, p: int, t': Table)
    requires QueueInv(t) && Shape(t') && Slot(p)
    requires forall x :: 0 <= x < NPROC && x != p ==> t'.procs[x] == t.procs[x]
    requires t'.procs[p].state == UNUSED ==> !t'.procs[p].inqueue
    requires All(t') == All(t)[p := if t'.procs[p].inqueue then 1 else 0]
    ensures QueueInv(t')
  {
  }

  lemma {:induction false} InitPushedKeeps(t: Table, p: int)
    requires QueueInv(t) && Slot(p) && !t.procs[p].inqueue && t.procs[p].state != UNUSED
    ensures QueueInv(InitPushed(t, p))
  {
    assert All(t)[p] == 0;
    assert All(InitPushed(t, p)) == All(t) + multiset{p};
    assert All(InitPushed(t, p)) == All(t)[p := 1];
    QueueInvPut(t, p, InitPushed(t, p));
  }

  lemma {:induction false} PushedKeeps(t: Table, i: nat, p: int)
    requires QueueInv(t) && Slot(p) && i < 3 && !t.procs[p].inqueue && t.procs[p].state != UNUSED
    ensures QueueInv(Pushed(t, i, p))
  {
    assert All(t)[p] == 0;
    assert All(Pushed(t, i, p)) == All(t) + multiset{p};
    assert All(Pushed(t, i, p)) == All(t)[p := 1];
    QueueInvPut(t, p, Pushed(t, i, p));
  }

  lemma {:induction false} PopDefined(t: Table, p: int)
    requires QueueInv(t) && Slot(p) && t.procs[p].inqueue
    ensures Queued(t, p) && p in t.queues[Home(t, p)] && Where(t.queues[Home(t, p)], p) < NPROC
  {
    QueuedIffFlag(t, p);
    RoomForAll(t);
  }

  lemma {:induction false} PoppedBag(t: Table, p: int)
    requires QueueInv(t) && Slot(p) && Queued(t, p) && Where(t.queues[Home(t, p)], p) < NPROC
    ensures All(Popped(t, p)) == All(t)[p := 0]
  {
    QueuedIffFlag(t, p);
    var i := Home(t, p);
    WithoutBag(t.queues[i], p);
    assert All(Popped(t, p)) == All(t) - multiset{p};
    OnceLess(All(t), p);
  }

  lemma {:induction false} OnceLess(m: multiset<int>, p: int)
    requires m[p] == 1
    ensures m - multiset{p} == m[p := 0]
  {
  }

  lemma {:induction false} PoppedKeeps(t: Table, p: int)
    requires QueueInv(t) && Slot(p) && Queued(t, p) && Where(t.queues[Home(t, p)], p) < NPROC
    ensures QueueInv(Popped(t, p))
  {
    PoppedBag(t, p);
    QueueInvPut(t, p, Popped(t, p));
  }

  lemma {:induction false} BoostedKeeps(t: Table)
    requires QueueInv(t)
    ensures QueueInv(Boosted(t))
    ensures All(Boosted(t)) == All(t)
  {
    BoostedBag(t);
    BoostedFlags(t);
  }

  lemma {:induction false} BoostedBag(t: Table)
    requires Shape(t)
    ensures All(Boosted(t)) == All(t)
  {
    RotatedBag(t.queues[1], After(t.index[1]));
    RotatedBag(t.queues[2], After(t.index[2]));
  }

  lemma {:induction false} BoostedFlags(t: Table)
    requires QueueInv(t)
    ensures forall p :: 0 <= p < NPROC ==>
      Boosted(t).procs[p].inqueue == t.procs[p].inqueue && Boosted(t).procs[p].state == t.procs[p].state
  {
    forall p | 0 <= p < NPROC
      ensures Boosted(t).procs[p].inqueue == t.procs[p].inqueue && Boosted(t).procs[p].state == t.procs[p].state
    {
      QueuedIffFlag(t, p);
      RotatedMembers(t.queues[1], After(t.index[1]), p);
      RotatedMembers(t.queues[2], After(t.index[2]), p);
    }
  }

  lemma {:induction false} RotatedMembers(s: seq<int>, k: nat, p: int)
    ensures p in Rotated(s, k) <==> p in s
  {
    RotatedBag(s, k);
    assert p in multiset(Rotated(s, k)) <==> p in multiset(s);
  }
}
