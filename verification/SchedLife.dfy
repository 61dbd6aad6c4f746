/** Creation, exit and reaping of processes and threads, and whole runs of the table. */
module SchedLife {
  import opened ProcStates
  import opened MlfqQueue
  import opened SchedTable
  import opened SchedShares

  // ---- killzombie ----

  predicate Doomed(t: Table, m: int, cur: int, i: nat)
    requires Shape(t) && Slot(m) && i < NPROC
  {
    var c := t.procs[m].cthread[i];
    c != NULL && t.procs[c].state == ZOMBIE && c != cur
  }

  /** killzombie from thread entry i on, called by slot cur. */
  ghost function KillZombies(t: Table, m: int, cur: int, i: nat): (r: Table)
    requires Inv(t) && Slot(m) && 1 <= i <= NPROC
    ensures Inv(r) && r.pool == t.pool
    decreases NPROC - i, t
  {
    if i == NPROC then t
    else if Doomed(t, m, cur, i) then
      ReapWorkerKeeps(t, m, i, t.procs[m].cthread[i]);
      KillZombies(ReapWorker(t, m, i), m, cur, i + 1)
    else KillZombies(t, m, cur, i + 1)
  }

  /** Slot p of t was left alone, or was a zombie worker of m other than cur and was cleared. */
  predicate KeptOrCleared(t: Table, r: Table, m: int, cur: int, p: int)
    requires Shape(t) && Shape(r) && Slot(p)
  {
    || r.procs[p] == t.procs[p]
    || (r.procs[p] == Cleared(t.procs[p]) && t.procs[p].state == ZOMBIE && p != cur && t.procs[p].mthread == m)
  }

  /** Exactly the doomed entries of m from i on are emptied and their slots cleared. */
  ghost predicate Killed(t: Table, r: Table, m: int, cur: int, i: nat)
    requires Shape(t) && Shape(r) && Slot(m)
  {
    && r.procs[m] == t.procs[m].(cthread := r.procs[m].cthread)
    && (forall k :: 0 <= k < NPROC ==>
          r.procs[m].cthread[k] == if i <= k && Doomed(t, m, cur, k) then NULL else t.procs[m].cthread[k])
    && (forall p :: 0 <= p < NPROC && p != m ==> KeptOrCleared(t, r, m, cur, p))
  }

  lemma {:induction false} DoomStays(t: Table, t1: Table, m: int, cur: int, i: nat, c: int, k: nat)
    requires ThreadInv(t) && Shape(t1) && Slot(m) && Worker(t, m, i, c) && OneKilled(t, t1, m, i, c)
    requires i < k < NPROC
    ensures Doomed(t1, m, cur, k) <==> Doomed(t, m, cur, k)
    ensures t1.procs[m].cthread[k] == t.procs[m].cthread[k]
  {
    var w := t.procs[m].cthread[k];
    if w != NULL {
      assert Worker(t, m, k, w);
    }
  }

  lemma {:induction false} KilledMore(t: Table, t1: Table, r: Table, m: int, cur: int, i: nat, c: int)
    requires ThreadInv(t) && Shape(t1) && Shape(r) && Slot(m) && Worker(t, m, i, c) && Doomed(t, m, cur, i)
    requires OneKilled(t, t1, m, i, c) && Killed(t1, r, m, cur, i + 1)
    ensures Killed(t, r, m, cur, i)
  {
    forall k | 0 <= k < NPROC
      ensures r.procs[m].cthread[k] == if i <= k && Doomed(t, m, cur, k) then NULL else t.procs[m].cthread[k]
    {
      if i < k {
        DoomStays(t, t1, m, cur, i, c, k);
      }
    }
    forall p | 0 <= p < NPROC && p != m
      ensures KeptOrCleared(t, r, m, cur, p)
    {
      assert KeptOrCleared(t1, r, m, cur, p);
    }
  }

  lemma {:induction false} KilledNone(t: Table, m: int, cur: int)
    requires Shape(t) && Slot(m)
    ensures Killed(t, t, m, cur, NPROC)
  {
  }

  lemma {:induction false} KilledSkip(t: Table, r: Table, m: int, cur: int, i: nat)
    requires Shape(t) && Shape(r) && Slot(m) && i < NPROC && !Doomed(t, m, cur, i)
    requires Killed(t, r, m, cur, i + 1)
    ensures Killed(t, r, m, cur, i)
  {
  }

  lemma {:induction false} KilledDoomed(t: Table, m: int, cur: int, i: nat)
    requires Inv(t) && Slot(m) && 1 <= i < NPROC && Doomed(t, m, cur, i)
    ensures Killed(t, KillZombies(t, m, cur, i), m, cur, i)
    decreases NPROC - i, 0
  {
    var c := t.procs[m].cthread[i];
    var t1 := ReapWorker(t, m, i);
    ReapWorkerKeeps(t, m, i, c);
    KillZombiesFrame(t1, m, cur, i + 1);
    ReapWorkerFrame(t, m, i, c);
    KilledMore(t, t1, KillZombies(t, m, cur, i), m, cur, i, c);
  }

  lemma {:induction false} KilledSpared(t: Table, m: int, cur: int, i: nat)
    requires Inv(t) && Slot(m) && 1 <= i < NPROC && !Doomed(t, m, cur, i)
    ensures Killed(t, KillZombies(t, m, cur, i), m, cur, i)
    decreases NPROC - i, 0
  {
    KillZombiesFrame(t, m, cur, i + 1);
    KilledSkip(t, KillZombies(t, m, cur, i + 1), m, cur, i);
  }

  /** killzombie unlists and clears the doomed workers and changes nothing else. */
  lemma {:induction false} KillZombiesFrame(t: Table, m: int, cur: int, i: nat)
    requires Inv(t) && Slot(m) && 1 <= i <= NPROC
    ensures Killed(t, KillZombies(t, m, cur, i), m, cur, i)
    decreases NPROC - i, 1
  {
    if i == NPROC {
      KilledNone(t, m, cur);
    } else if Doomed(t, m, cur, i) {
      KilledDoomed(t, m, cur, i);
    } else {
      KilledSpared(t, m, cur, i);
    }
  }

  // ---- exit and wait ----

  function Zombified(t: Table, ws: seq<int>): (r: Table)
    requires Shape(t)
    ensures Shape(r)
  {
    t.(procs := seq(NPROC, p requires 0 <= p < NPROC =>
      if p in ws then t.procs[p].(state := ZOMBIE) else t.procs[p]))
  }

  lemma {:induction false} ZombifiedKeeps(t: Table, ws: seq<int>)
    requires Inv(t) && forall p :: p in ws && Slot(p) ==> t.procs[p].state != UNUSED
    ensures Inv(Zombified(t, ws))
  {
    var r := Zombified(t, ws);
    SameFlags(t, r);
    SameWorkers(t, r);
    ShareInvSame(t, r);
  }

  lemma {:induction false} ListedLive(t: Table, m: int, p: int)
    requires ThreadInv(t) && Main(t, m) && Slot(p) && p in t.procs[m].cthread
    ensures t.procs[p].state != UNUSED
  {
    var i :| 0 <= i < NPROC && t.procs[m].cthread[i] == p;
    ThreadsLive(t, m, i);
  }

  /** wait, once it has found the zombie main thread p: all its threads go, then p. */
  ghost function Reaped(t: Table, p: int): (r: Table)
    requires Inv(t) && Main(t, p)
    ensures Inv(r) && r.pool == t.pool + t.procs[p].percentage
  {
    WorkersGone(t, p);
    var t1 := KillZombies(Zombified(t, t.procs[p].cthread[1..]), p, p, 1);
    ReleasedMainKeeps(t1, p);
    Released(t1, p)
  }

  lemma {:induction false} WorkersDoomed(t: Table, p: int)
    requires Inv(t) && Main(t, p)
    ensures var t0 := Zombified(t, t.procs[p].cthread[1..]);
      && Inv(t0)
      && t0.procs[p] == t.procs[p]
      && forall k :: 1 <= k < NPROC ==> t0.procs[p].cthread[k] == NULL || Doomed(t0, p, p, k)
  {
    var ws := t.procs[p].cthread[1..];
    forall x | x in ws && Slot(x)
      ensures t.procs[x].state != UNUSED && x != p
    {
      ListedLive(t, p, x);
      var i :| 0 <= i < |ws| && ws[i] == x;
      assert Worker(t, p, i + 1, x);
    }
    ZombifiedKeeps(t, ws);
    forall k | 1 <= k < NPROC
      ensures t.procs[p].cthread[k] == NULL || Doomed(Zombified(t, ws), p, p, k)
    {
      assert t.procs[p].cthread[k] == ws[k - 1];
    }
  }

  lemma {:induction false} WorkersGone(t: Table, p: int)
    requires Inv(t) && Main(t, p)
    ensures var t0 := Zombified(t, t.procs[p].cthread[1..]);
      && Inv(t0)
      && var t1 := KillZombies(t0, p, p, 1);
      && Main(t1, p) && t1.procs[p].percentage == t.procs[p].percentage
      && forall i, w :: !Worker(t1, p, i, w)
  {
    WorkersDoomed(t, p);
    KillZombiesFrame(Zombified(t, t.procs[p].cthread[1..]), p, p, 1);
  }

  lemma {:induction false} ReleasedMainKeeps(t: Table, p: int)
    requires Inv(t) && Main(t, p) && forall i, w :: !Worker(t, p, i, w)
    ensures Inv(Released(t, p))
  {
    var r := Released(t, p);
    DropMain(t, p, r);
    ShareReleased(t, p, r);
  }

  lemma {:induction false} ShareReleased(t: Table, p: int, r: Table)
    requires ShareInv(t) && Shape(r) && Slot(p)
    requires r.procs[p] == Cleared(t.procs[p]) && r.pool == t.pool + t.procs[p].percentage
    requires forall x :: 0 <= x < NPROC && x != p ==> r.procs[x] == t.procs[x]
    ensures ShareInv(r)
  {
    SharesUpdate(t.procs, p, Cleared(t.procs[p]));
    assert r.procs == t.procs[p := Cleared(t.procs[p])];
  }

  /** The scan of wait for an exited child of main thread m, from slot p on. */
  function FirstKid(t: Table, m: int, p: nat): (k: nat)
    requires Shape(t) && p <= NPROC
    ensures p <= k <= NPROC
    ensures k < NPROC ==> t.procs[k].parent == m && t.procs[k].mthread == k && t.procs[k].state == ZOMBIE
    ensures forall x :: p <= x < k ==>
      !(t.procs[x].parent == m && t.procs[x].mthread == x && t.procs[x].state == ZOMBIE)
    decreases NPROC - p, t
  {
    if p == NPROC || (t.procs[p].parent == m && t.procs[p].mthread == p && t.procs[p].state == ZOMBIE) then p
    else FirstKid(t, m, p + 1)
  }

  ghost function Waited(t: Table, m: int): (r: Table)
    requires Inv(t)
    ensures Inv(r)
  {
    var k := FirstKid(t, m, 0);
    if k == NPROC then t else Reaped(t, k)
  }

  /** Children of m pass to the parent of m. */
  function Reparented(t: Table, m: int): (r: Table)
    requires Shape(t) && Slot(m)
    ensures Shape(r)
  {
    t.(procs := seq(NPROC, p requires 0 <= p < NPROC =>
      if t.procs[p].parent == m then t.procs[p].(parent := t.procs[m].parent) else t.procs[p]))
  }

  lemma {:induction false} ReparentedKeeps(t: Table, m: int)
    requires Inv(t) && Slot(m)
    ensures Inv(Reparented(t, m))
  {
    var r := Reparented(t, m);
    SameFlags(t, r);
    SameWorkers(t, r);
    ShareInvSame(t, r);
  }

  /** exit by thread cur of main thread m: every thread becomes a zombie, and all workers
      but cur are reaped at once. */
  ghost function Exited(t: Table, m: int, cur: int): (r: Table)
    requires Inv(t) && Main(t, m)
    ensures Inv(r) && r.pool == t.pool
  {
    AllZombie(t, m);
    var t0 := Zombified(t, t.procs[m].cthread);
    ReparentedKeeps(t0, m);
    KillZombies(Reparented(t0, m), m, cur, 1)
  }

  lemma {:induction false} AllZombie(t: Table, m: int)
    requires Inv(t) && Main(t, m)
    ensures Inv(Zombified(t, t.procs[m].cthread))
  {
    forall x | x in t.procs[m].cthread && Slot(x)
      ensures t.procs[x].state != UNUSED
    {
      ListedLive(t, m, x);
    }
    ZombifiedKeeps(t, t.procs[m].cthread);
  }

  // ---- allocproc, fork, thread_create, thread_join ----

  function FirstUnused(t: Table, p: nat): (k: nat)
    requires Shape(t) && p <= NPROC
    ensures p <= k <= NPROC
    ensures k < NPROC ==> t.procs[k].state == UNUSED
    ensures forall x :: p <= x < k ==> t.procs[x].state != UNUSED
    decreases NPROC - p, t
  {
    if p == NPROC || t.procs[p].state == UNUSED then p else FirstUnused(t, p + 1)
  }

  /** The fields allocproc gives to slot p. */
  function Fresh(p: int, parent: int, minpass: int): (q: Proc)
    requires Slot(p)
    ensures Threads(q.cthread)
  {
    Proc(EMBRYO, parent, 0, 0, 0, 1, 5, 0, minpass, false, p, Alone(p))
  }

  lemma {:induction false} FreshKeeps(t: Table, p: int, parent: int, st: ProcState)
    requires Inv(t) && Slot(p) && t.procs[p].state == UNUSED
    ensures Inv(Put(t, p, Fresh(p, parent, t.minpass).(state := st)))
  {
    var r := Put(t, p, Fresh(p, parent, t.minpass).(state := st));
    FlagsBut(t, p, r);
    AddMain(t, p, r);
    ShareInvSame(t, r);
  }

  lemma {:induction false} FlagsBut(t: Table, p: int, r: Table)
    requires QueueInv(t) && Slot(p) && t.procs[p].state == UNUSED && Shape(r) && r.queues == t.queues
    requires !r.procs[p].inqueue && forall x :: 0 <= x < NPROC && x != p ==> r.procs[x] == t.procs[x]
    ensures QueueInv(r)
  {
    assert All(r) == All(t);
  }

  lemma {:induction false} InitPushedInv(t: Table, p: int)
    requires Inv(t) && Slot(p) && !t.procs[p].inqueue && t.procs[p].state != UNUSED
    ensures Inv(InitPushed(t, p))
  {
    InitPushedKeeps(t, p);
    SameThreadsKeeps(t, InitPushed(t, p));
  }

  /** fork by a thread of m; copied tells whether the address space could be copied. */
  ghost function Forked(t: Table, m: int, copied: bool): (r: Table)
    requires Inv(t) && Slot(m)
    ensures Inv(r) && r.pool == t.pool
  {
    var k := FirstUnused(t, 0);
    if k == NPROC then t
    else if !copied then
      FreshKeeps(t, k, t.procs[k].parent, UNUSED);
      Put(t, k, Fresh(k, t.procs[k].parent, t.minpass).(state := UNUSED))
    else
      FreshKeeps(t, k, m, RUNNABLE);
      InitPushedInv(Put(t, k, Fresh(k, m, t.minpass).(state := RUNNABLE)), k);
      InitPushed(Put(t, k, Fresh(k, m, t.minpass).(state := RUNNABLE)), k)
  }

  function FirstNull(c: seq<int>, i: nat): (k: nat)
    requires i <= |c|
    ensures i <= k <= |c|
    ensures k < |c| ==> c[k] == NULL
    ensures forall x :: i <= x < k ==> c[x] != NULL
    decreases |c| - i, c
  {
    if i == |c| || c[i] == NULL then i else FirstNull(c, i + 1)
  }

  /** Slot p becomes the worker of m at entry k. */
  function Enlisted(t: Table, m: int, k: nat, p: int): (r: Table)
    requires Shape(t) && Slot(m) && Slot(p) && k < NPROC
    ensures Shape(r)
  {
    var t1 := Put(t, m, t.procs[m].(cthread := t.procs[m].cthread[k := p]));
    Put(t1, p, Fresh(p, t.procs[m].parent, t.minpass).(
      state := RUNNABLE, mthread := m, cthread := Alone(p)[0 := NULL]))
  }

  lemma {:induction false} EnlistedKeeps(t: Table, m: int, k: nat, p: int)
    requires Inv(t) && Main(t, m) && Slot(p) && t.procs[p].state == UNUSED
    requires 1 <= k < NPROC && t.procs[m].cthread[k] == NULL
    ensures Inv(Enlisted(t, m, k, p))
  {
    var r := Enlisted(t, m, k, p);
    EnlistedQueues(t, m, k, p);
    AddWorker(t, m, k, p, r);
    ShareInvSame(t, r);
  }

  lemma {:induction false} EnlistedQueues(t: Table, m: int, k: nat, p: int)
    requires QueueInv(t) && Slot(m) && Slot(p) && t.procs[p].state == UNUSED && p != m && k < NPROC
    ensures QueueInv(Enlisted(t, m, k, p))
  {
    var t1 := Put(t, m, t.procs[m].(cthread := t.procs[m].cthread[k := p]));
    SameFlags(t, t1);
    FlagsBut(t1, p, Enlisted(t, m, k, p));
  }

  /** thread_create by a thread of m; copied tells whether the new stack could be filled. */
  ghost function ThreadCreated(t: Table, m: int, copied: bool): (r: Table)
    requires Inv(t) && Main(t, m)
    ensures Inv(r) && r.pool == t.pool
  {
    var p := FirstUnused(t, 0);
    var k := FirstNull(t.procs[m].cthread, 0);
    if p == NPROC then t
    else if k == NPROC || !copied then
      FreshKeeps(t, p, t.procs[p].parent, UNUSED);
      Put(t, p, Fresh(p, t.procs[p].parent, t.minpass).(state := UNUSED))
    else
      assert k > 0 by { assert Belongs(t, m); }
      EnlistedKeeps(t, m, k, p);
      if t.procs[m].percentage == 0 then
        InitPushedInv(Enlisted(t, m, k, p), p);
        InitPushed(Enlisted(t, m, k, p), p)
      else Enlisted(t, m, k, p)
  }

  /** thread_join on entry i of m. Unlike killzombie it does not credit the pool. */
  ghost function Joined(t: Table, m: int, i: nat): (r: Table)
    requires Inv(t) && Slot(m) && 1 <= i < NPROC
    ensures Inv(r) && r.pool == t.pool
  {
    var c := t.procs[m].cthread[i];
    if c == NULL || t.procs[c].state != ZOMBIE then t
    else
      JoinedKeeps(t, m, i, c);
      var r := ReapWorker(t, m, i);
      Put(r, c, r.procs[c].(mthread := NULL)).(pool := t.pool)
  }

  lemma {:induction false} JoinedKeeps(t: Table, m: int, i: nat, c: int)
    requires Inv(t) && Slot(m) && Worker(t, m, i, c)
    ensures var r := ReapWorker(t, m, i); Inv(Put(r, c, r.procs[c].(mthread := NULL)).(pool := t.pool))
  {
    var r := ReapWorker(t, m, i);
    ReapWorkerKeeps(t, m, i, c);
    ReapWorkerFrame(t, m, i, c);
    Forgotten(r, c);
  }

  /** The main thread recorded in an unused slot does not matter. */
  lemma {:induction false} Forgotten(t: Table, c: int)
    requires Inv(t) && Slot(c) && t.procs[c].state == UNUSED
    requires t.procs[c].percentage == 0
    ensures Inv(Put(t, c, t.procs[c].(mthread := NULL)))
  {
    var r := Put(t, c, t.procs[c].(mthread := NULL));
    SameFlags(t, r);
    ShareInvSame(t, r);
    UnusedIsUnlisted(t, c);
    forall n, j, x | Slot(n) && Worker(r, n, j, x)
      ensures Worker(t, n, j, x) && n != c
    {
      assert Worker(t, n, j, x);
    }
    forall p | Slot(p) && r.procs[p].state != UNUSED
      ensures Belongs(r, p)
    {
      var n := t.procs[p].mthread;
      assert Belongs(t, p);
      if p != n {
        var j :| Worker(t, n, j, p);
        assert Worker(r, n, j, p);
      }
    }
  }
}
