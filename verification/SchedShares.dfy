/** CPU shares and the life of processes and threads on the process table. */
module SchedShares {
  import opened ProcStates
  import opened MlfqQueue
  import opened SchedTable

  // ---- Changes that only concern the queues ----

  /** Only queue membership, priority and accounting fields differ. */
  predicate SameThreads(t: Table, t': Table)
    requires Shape(t) && Shape(t')
  {
    && t'.pool == t.pool && t'.minpass == t.minpass
    && forall p :: 0 <= p < NPROC ==>
      && t'.procs[p].state == t.procs[p].state
      && t'.procs[p].parent == t.procs[p].parent
      && t'.procs[p].percentage == t.procs[p].percentage
      && t'.procs[p].mthread == t.procs[p].mthread
      && t'.procs[p].cthread == t.procs[p].cthread
  }

  lemma {:induction false} SharesEqual(a: seq<Proc>, b: seq<Proc>)
    requires |a| == |b| && forall p :: 0 <= p < |a| ==> a[p].percentage == b[p].percentage
    ensures Shares(a) == Shares(b)
  {
    if a != [] {
      SharesEqual(a[..|a| - 1], b[..|b| - 1]);
    }
  }

  lemma {:induction false} SharesUpdate(a: seq<Proc>, p: nat, q: Proc)
    requires p < |a|
    ensures Shares(a[p := q]) == Shares(a) - a[p].percentage + q.percentage
  {
    var n := |a| - 1;
    if p == n {
      assert a[p := q][..n] == a[..n];
    } else {
      SharesUpdate(a[..n], p, q);
      assert a[p := q][..n] == a[..n][p := q];
    }
  }

  lemma {:induction false} SameThreadsKeeps(t: Table, t': Table)
    requires Shape(t) && Shape(t') && SameThreads(t, t')
    ensures ShareInv(t) ==> ShareInv(t')
    ensures ThreadInv(t) ==> ThreadInv(t')
  {
    SharesEqual(t.procs, t'.procs);
    if ThreadInv(t) {
      SameWorkers(t, t');
    }
  }

  lemma {:induction false} SameWorkers(t: Table, t': Table)
    requires ThreadInv(t) && Shape(t')
    requires forall p :: 0 <= p < NPROC ==>
      && (t'.procs[p].state == UNUSED <==> t.procs[p].state == UNUSED)
      && t'.procs[p].mthread == t.procs[p].mthread
      && t'.procs[p].cthread == t.procs[p].cthread
    ensures ThreadInv(t')
  {
    forall m, i, w | Slot(m) && Worker(t', m, i, w)
      ensures Slot(w) && w != m && t'.procs[w].mthread == m && t'.procs[w].state != UNUSED
    {
      assert Worker(t, m, i, w);
    }
    forall m, i, j, w | Slot(m) && Worker(t', m, i, w) && Worker(t', m, j, w)
      ensures i == j
    {
      assert Worker(t, m, i, w) && Worker(t, m, j, w);
    }
    forall p | Slot(p) && t'.procs[p].state != UNUSED
      ensures Belongs(t', p)
    {
      var m := t.procs[p].mthread;
      assert Belongs(t, p);
      if p != m {
        var i :| Worker(t, m, i, p);
        assert Worker(t', m, i, p);
      }
    }
  }

  // ---- set_cpu_share ----

  /** pop, for a slot whose flag says it is queued. */
  ghost function Taken(t: Table, p: int): (r: Table)
    requires QueueInv(t) && Slot(p)
    ensures QueueInv(r) && SameThreads(t, r) && !r.procs[p].inqueue
    ensures !t.procs[p].inqueue ==> r == t
  {
    if t.procs[p].inqueue then
      PopDefined(t, p);
      PoppedKeeps(t, p);
      Popped(t, p)
    else t
  }

  /** The loop that takes the threads of m from slot i on off the queues. */
  ghost function PopThreads(t: Table, m: int, i: nat): (r: Table)
    requires QueueInv(t) && Slot(m) && i <= NPROC
    ensures QueueInv(r) && SameThreads(t, r)
    decreases NPROC - i, t
  {
    if i == NPROC then t
    else
      var c := t.procs[m].cthread[i];
      PopThreads(if c != NULL && t.procs[c].inqueue && t.procs[c].state != ZOMBIE then Taken(t, c) else t, m, i + 1)
  }

  lemma {:induction false} ThreadsLive(t: Table, m: int, i: nat)
    requires ThreadInv(t) && Slot(m) && t.procs[m].state != UNUSED && t.procs[m].mthread == m && i < NPROC
    requires t.procs[m].cthread[i] != NULL
    ensures t.procs[t.procs[m].cthread[i]].state != UNUSED
  {
    assert Belongs(t, m);
    if i > 0 {
      assert Worker(t, m, i, t.procs[m].cthread[i]);
    }
  }

  /** The loop that puts them back in front of the highest queue. */
  ghost function PushThreads(t: Table, m: int, i: nat): (r: Table)
    requires QueueInv(t) && ThreadInv(t) && Slot(m) && i <= NPROC
    requires t.procs[m].state != UNUSED && t.procs[m].mthread == m
    ensures QueueInv(r) && SameThreads(t, r)
    decreases NPROC - i, t
  {
    if i == NPROC then t
    else
      var c := t.procs[m].cthread[i];
      if c != NULL && !t.procs[c].inqueue && t.procs[c].state != ZOMBIE then
        ThreadsLive(t, m, i);
        InitPushedKeeps(t, c);
        SameThreadsKeeps(t, InitPushed(t, c));
        PushThreads(InitPushed(t, c), m, i + 1)
      else PushThreads(t, m, i + 1)
  }

  /** The answer of set_cpu_share: refused if the pool would fall under its floor, or if a
      process without a share asks for none. */
  predicate Granted(t: Table, m: int, n: int)
    requires Shape(t) && Slot(m)
  {
    var held := t.procs[m].percentage;
    t.pool - (n - held) >= FLOOR && (held != 0 || n != 0)
  }

  function Charged(t: Table, m: int, n: int, pass: int): (r: Table)
    requires Shape(t) && Slot(m)
    ensures Shape(r)
  {
    Put(t, m, t.procs[m].(percentage := n, pass := pass)).(pool := t.pool - (n - t.procs[m].percentage))
  }

  lemma {:induction false} ChargedKeeps(t: Table, m: int, n: int, pass: int)
    requires Inv(t) && Slot(m) && t.procs[m].state != UNUSED && t.procs[m].mthread == m
    ensures Inv(Charged(t, m, n, pass))
  {
    var t' := Charged(t, m, n, pass);
    SharesUpdate(t.procs, m, t'.procs[m]);
    QueueInvPut(t, m, t');
    SameWorkers(t, t');
  }

  /** A live main thread. */
  predicate Main(t: Table, m: int)
    requires Shape(t)
  {
    Slot(m) && t.procs[m].state != UNUSED && t.procs[m].mthread == m
  }

  /** set_cpu_share for a process that has no share: its threads leave the queues. */
  ghost function ShareTaken(t: Table, m: int, n: int): (r: Table)
    requires Inv(t) && Main(t, m)
    ensures Inv(r) && r.procs[m].percentage == n && r.pool == t.pool - (n - t.procs[m].percentage)
    ensures forall p :: 0 <= p < NPROC && p != m ==> r.procs[p].percentage == t.procs[p].percentage
  {
    PopThreadsKeeps(t, m);
    var t1 := PopThreads(t, m, 0);
    ChargedKeeps(t1, m, n, t1.minpass);
    ChargedFrame(t, t1, m, n, t1.minpass);
    Charged(t1, m, n, t1.minpass)
  }

  lemma {:induction false} ChargedFrame(t: Table, t1: Table, m: int, n: int, pass: int)
    requires Shape(t) && Shape(t1) && Slot(m) && SameThreads(t, t1)
    ensures var r := Charged(t1, m, n, pass);
      && r.procs[m].percentage == n && r.pool == t.pool - (n - t.procs[m].percentage)
      && forall p :: 0 <= p < NPROC && p != m ==> r.procs[p].percentage == t.procs[p].percentage
  {
  }

  lemma {:induction false} PopThreadsKeeps(t: Table, m: int)
    requires Inv(t) && Main(t, m)
    ensures Inv(PopThreads(t, m, 0)) && Main(PopThreads(t, m, 0), m)
  {
    SameThreadsKeeps(t, PopThreads(t, m, 0));
  }

  /** set_cpu_share for a process that has one: without it, its threads return. */
  ghost function ShareChanged(t: Table, m: int, n: int): (r: Table)
    requires Inv(t) && Main(t, m)
    ensures Inv(r) && r.procs[m].percentage == n && r.pool == t.pool - (n - t.procs[m].percentage)
    ensures forall p :: 0 <= p < NPROC && p != m ==> r.procs[p].percentage == t.procs[p].percentage
  {
    ChargedKeeps(t, m, n, t.procs[m].pass);
    var t1 := Charged(t, m, n, t.procs[m].pass);
    if n == 0 then
      SameThreadsKeeps(t1, PushThreads(t1, m, 0));
      PushThreads(t1, m, 0)
    else t1
  }

  /** set_cpu_share on behalf of main thread m. */
  ghost function ShareSet(t: Table, m: int, n: int): (r: Table)
    requires Inv(t) && Main(t, m)
    ensures Inv(r)
    ensures !Granted(t, m, n) ==> r == t
    ensures Granted(t, m, n) ==> r.procs[m].percentage == n && FLOOR <= r.pool == t.pool - (n - t.procs[m].percentage)
    ensures forall p :: 0 <= p < NPROC && p != m ==> r.procs[p].percentage == t.procs[p].percentage
  {
    if !Granted(t, m, n) then t
    else if t.procs[m].percentage != 0 then ShareChanged(t, m, n)
    else ShareTaken(t, m, n)
  }

  /** Slot p keeps its state, parent, main thread and thread table. */
  predicate SameLife(t: Table, r: Table, p: int)
    requires Shape(t) && Shape(r) && Slot(p)
  {
    && r.procs[p].state == t.procs[p].state
    && r.procs[p].parent == t.procs[p].parent
    && r.procs[p].mthread == t.procs[p].mthread
    && r.procs[p].cthread == t.procs[p].cthread
  }

  lemma {:induction false} SameThreadsLife(t: Table, t1: Table, m: int, n: int, pass: int, p: int)
    requires Shape(t) && Shape(t1) && Slot(m) && Slot(p) && SameThreads(t, t1)
    ensures SameLife(t, t1, p) && SameLife(t, Charged(t1, m, n, pass), p)
  {
  }

  lemma {:induction false} ShareTakenLife(t: Table, m: int, n: int, p: int)
    requires Inv(t) && Main(t, m) && Slot(p)
    ensures SameLife(t, ShareTaken(t, m, n), p)
  {
    var t1 := PopThreads(t, m, 0);
    SameThreadsLife(t, t1, m, n, t1.minpass, p);
  }

  lemma {:induction false} ShareChangedLife(t: Table, m: int, n: int, p: int)
    requires Inv(t) && Main(t, m) && Slot(p)
    ensures SameLife(t, ShareChanged(t, m, n), p)
  {
    ChargedKeeps(t, m, n, t.procs[m].pass);
    var t1 := Charged(t, m, n, t.procs[m].pass);
    assert SameLife(t, t1, p);
    if n == 0 {
      SameThreadsLife(t1, PushThreads(t1, m, 0), m, 0, 0, p);
    }
  }

  /** set_cpu_share leaves states, parents and thread tables alone. */
  lemma {:induction false} ShareSetLife(t: Table, m: int, n: int, p: int)
    requires Inv(t) && Main(t, m) && Slot(p)
    ensures SameLife(t, ShareSet(t, m, n), p)
  {
    if Granted(t, m, n) {
      if t.procs[m].percentage == 0 {
        ShareTakenLife(t, m, n, p);
      } else {
        ShareChangedLife(t, m, n, p);
      }
    }
  }

  // ---- Thread tables, one entry at a time ----

  /** Every slot but a and b keeps its place in the thread structure. */
  predicate SameBut(t: Table, t': Table, a: int, b: int)
    requires Shape(t) && Shape(t')
  {
    forall p :: 0 <= p < NPROC && p != a && p != b ==>
      && (t'.procs[p].state == UNUSED <==> t.procs[p].state == UNUSED)
      && t'.procs[p].mthread == t.procs[p].mthread
      && t'.procs[p].cthread == t.procs[p].cthread
  }

  /** A worker has no workers and is nobody's main thread. */
  lemma {:induction false} WorkerIsLeaf(t: Table, w: int)
    requires ThreadInv(t) && Slot(w) && t.procs[w].mthread != w
    ensures forall i, x :: !Worker(t, w, i, x)
    ensures forall p :: Slot(p) && t.procs[p].state != UNUSED ==> t.procs[p].mthread != w
  {
    forall i, x
      ensures !Worker(t, w, i, x)
    {
      assert Slot(x) && t.procs[x].state != UNUSED ==> Belongs(t, x);
    }
    forall p | Slot(p) && t.procs[p].state != UNUSED
      ensures t.procs[p].mthread != w
    {
      assert Belongs(t, p);
    }
  }

  lemma {:induction false} DropWorker(t: Table, m: int, i: nat, w: int, t': Table)
    requires ThreadInv(t) && Shape(t') && Slot(m) && Worker(t, m, i, w) && SameBut(t, t', m, w)
    requires t'.procs[w].state == UNUSED && t'.procs[w].cthread == t.procs[w].cthread
    requires t'.procs[m].state == t.procs[m].state && t'.procs[m].mthread == t.procs[m].mthread
    requires t'.procs[m].cthread == t.procs[m].cthread[i := NULL]
    ensures ThreadInv(t')
  {
    WorkerIsLeaf(t, w);
    forall n, j, x | Slot(n) && Worker(t', n, j, x)
      ensures Worker(t, n, j, x) && x != w
    {
      assert Worker(t, n, j, x);
    }
    forall p | Slot(p) && t'.procs[p].state != UNUSED
      ensures Belongs(t', p)
    {
      var n := t.procs[p].mthread;
      assert Belongs(t, p);
      if p != n {
        var j :| Worker(t, n, j, p);
        assert Worker(t', n, j, p);
      }
    }
  }

  lemma {:induction false} DropMain(t: Table, m: int, t': Table)
    requires ThreadInv(t) && Shape(t') && Main(t, m) && SameBut(t, t', m, m)
    requires forall i, w :: !Worker(t, m, i, w)
    requires t'.procs[m].state == UNUSED && t'.procs[m].cthread == t.procs[m].cthread
    ensures ThreadInv(t')
  {
    forall n, j, x | Slot(n) && Worker(t', n, j, x)
      ensures Worker(t, n, j, x) && x != m
    {
      assert Worker(t, n, j, x);
    }
    forall p | Slot(p) && t'.procs[p].state != UNUSED
      ensures Belongs(t', p)
    {
      var n := t.procs[p].mthread;
      assert Belongs(t, p);
      if p != n {
        var j :| Worker(t, n, j, p);
        assert Worker(t', n, j, p);
      }
    }
  }

  /** The thread table of a process with its main thread alone. */
  function Alone(p: int): (c: seq<int>)
    requires Slot(p)
    ensures Threads(c)
  {
    seq(NPROC, i requires 0 <= i < NPROC => if i == 0 then p else NULL)
  }

  lemma {:induction false} UnusedIsUnlisted(t: Table, p: int)
    requires ThreadInv(t) && Slot(p) && t.procs[p].state == UNUSED
    ensures forall m, i :: Slot(m) ==> !Worker(t, m, i, p)
    ensures forall x :: Slot(x) && t.procs[x].state != UNUSED ==> t.procs[x].mthread != p
  {
    forall x | Slot(x) && t.procs[x].state != UNUSED
      ensures t.procs[x].mthread != p
    {
      assert Belongs(t, x);
    }
  }

  lemma {:induction false} AddMain(t: Table, p: int, t': Table)
    requires ThreadInv(t) && Shape(t') && Slot(p) && t.procs[p].state == UNUSED && SameBut(t, t', p, p)
    requires t'.procs[p].mthread == p && t'.procs[p].cthread == Alone(p)
    ensures ThreadInv(t')
  {
    UnusedIsUnlisted(t, p);
    forall n, j, x | Slot(n) && Worker(t', n, j, x)
      ensures n != p && Worker(t, n, j, x)
    {
    }
    forall x | Slot(x) && t'.procs[x].state != UNUSED
      ensures Belongs(t', x)
    {
      if x != p {
        var n := t.procs[x].mthread;
        assert Belongs(t, x);
        if x != n {
          var j :| Worker(t, n, j, x);
          assert Worker(t', n, j, x);
        }
      }
    }
  }

  lemma {:induction false} AddWorker(t: Table, m: int, k: nat, p: int, t': Table)
    requires ThreadInv(t) && Shape(t') && Main(t, m) && 1 <= k < NPROC && t.procs[m].cthread[k] == NULL
    requires Slot(p) && t.procs[p].state == UNUSED && SameBut(t, t', m, p)
    requires t'.procs[p].state != UNUSED && t'.procs[p].mthread == m && forall i :: 1 <= i < NPROC ==>
      t'.procs[p].cthread[i] == NULL
    requires t'.procs[m].state == t.procs[m].state && t'.procs[m].mthread == m
    requires t'.procs[m].cthread == t.procs[m].cthread[k := p]
    ensures ThreadInv(t')
  {
    UnusedIsUnlisted(t, p);
    forall n, j, x | Slot(n) && Worker(t', n, j, x)
      ensures n != p && ((n == m && j == k && x == p) || (Worker(t, n, j, x) && x != p))
    {
      assert (n == m && j == k && x == p) || Worker(t, n, j, x);
    }
    assert Belongs(t, m);
    forall x | Slot(x) && t'.procs[x].state != UNUSED
      ensures Belongs(t', x)
    {
      if x == p {
        assert Worker(t', m, k, p);
      } else {
        var n := t.procs[x].mthread;
        assert Belongs(t, x);
        if x != n {
          var j :| Worker(t, n, j, x);
          assert Worker(t', n, j, x);
        }
      }
    }
  }

  // ---- Reaping ----

  /** The fields of a slot given back. */
  function Cleared(q: Proc): (r: Proc) {
    q.(state := UNUSED, parent := NULL, inqueue := false, ticks := 0, curticks := 0, priority := 0,
       timequantum := 1, timeallotment := 5, percentage := 0, pass := 0)
  }

  /** Give slot c back: off its queue, its share credited to the pool. */
  ghost function Released(t: Table, c: int): (r: Table)
    requires QueueInv(t) && Slot(c)
    ensures QueueInv(r)
    ensures r.procs[c] == Cleared(t.procs[c]) && r.pool == t.pool + t.procs[c].percentage
    ensures forall p :: 0 <= p < NPROC && p != c ==> r.procs[p] == t.procs[p]
  {
    var t1 := Taken(t, c);
    assert t1.procs[c].inqueue == false;
    TakenOthers(t, c);
    var r := Put(t1, c, Cleared(t1.procs[c])).(pool := t1.pool + t1.procs[c].percentage);
    QueueInvPut(t1, c, r);
    r
  }

  lemma {:induction false} TakenOthers(t: Table, c: int)
    requires QueueInv(t) && Slot(c)
    ensures forall p :: 0 <= p < NPROC && p != c ==> Taken(t, c).procs[p] == t.procs[p]
    ensures Taken(t, c).procs[c] == t.procs[c].(inqueue := false)
  {
    if t.procs[c].inqueue {
      PopDefined(t, c);
    }
  }

  function Unlisted(t: Table, m: int, i: nat): (r: Table)
    requires Shape(t) && Slot(m) && i < NPROC
    ensures Shape(r)
  {
    Put(t, m, t.procs[m].(cthread := t.procs[m].cthread[i := NULL]))
  }

  lemma {:induction false} SameFlags(t: Table, t': Table)
    requires QueueInv(t) && Shape(t') && t'.queues == t.queues
    requires forall p :: 0 <= p < NPROC ==>
      && t'.procs[p].inqueue == t.procs[p].inqueue
      && (t'.procs[p].state == UNUSED ==> t.procs[p].state == UNUSED)
    ensures QueueInv(t')
  {
    assert All(t') == All(t);
  }

  /** One worker reaped by killzombie. */
  ghost function ReapWorker(t: Table, m: int, i: nat): (r: Table)
    requires QueueInv(t) && Slot(m) && i < NPROC && t.procs[m].cthread[i] != NULL
    ensures QueueInv(r)
  {
    SameFlags(t, Unlisted(t, m, i));
    Released(Unlisted(t, m, i), t.procs[m].cthread[i])
  }

  lemma {:induction false} ReapWorkerKeeps(t: Table, m: int, i: nat, c: int)
    requires Inv(t) && Slot(m) && Worker(t, m, i, c)
    ensures Inv(ReapWorker(t, m, i)) && ReapWorker(t, m, i).pool == t.pool
  {
    var r := ReapWorker(t, m, i);
    ReapWorkerFrame(t, m, i, c);
    DropWorker(t, m, i, c, r);
    WorkerHoldsNoShare(t, m, i, c);
    ShareInvSame(t, r);
  }

  lemma {:induction false} WorkerHoldsNoShare(t: Table, m: int, i: nat, c: int)
    requires ShareInv(t) && ThreadInv(t) && Slot(m) && Worker(t, m, i, c)
    ensures t.procs[c].percentage == 0
  {
    assert t.procs[c].mthread != c;
  }

  lemma {:induction false} ShareInvSame(t: Table, t': Table)
    requires ShareInv(t) && Shape(t') && t'.pool == t.pool
    requires forall p :: 0 <= p < NPROC ==>
      && t'.procs[p].percentage == t.procs[p].percentage
      && (t.procs[p].percentage != 0 ==> t'.procs[p].mthread == t.procs[p].mthread && t'.procs[p].state != UNUSED)
    ensures ShareInv(t')
  {
    SharesEqual(t.procs, t'.procs);
  }

  /** Slot c, entry i of m, cleared and nothing else. */
  ghost predicate OneKilled(t: Table, t1: Table, m: int, i: nat, c: int)
    requires Shape(t) && Shape(t1) && Slot(m) && i < NPROC
  {
    && Slot(c) && c != m
    && t1.procs[m] == t.procs[m].(cthread := t.procs[m].cthread[i := NULL])
    && t1.procs[c] == Cleared(t.procs[c])
    && forall p :: 0 <= p < NPROC && p != m && p != c ==> t1.procs[p] == t.procs[p]
  }

  lemma {:induction false} ReapWorkerFrame(t: Table, m: int, i: nat, c: int)
    requires Inv(t) && Slot(m) && Worker(t, m, i, c)
    ensures OneKilled(t, ReapWorker(t, m, i), m, i, c)
    ensures ReapWorker(t, m, i).pool == t.pool + t.procs[c].percentage
  {
    SameFlags(t, Unlisted(t, m, i));
  }
}
