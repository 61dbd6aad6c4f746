/** The process table as the kernel keeps it: queue arrays shifted in place, slots updated
    field by field. Every method is tied to the operation on values that it performs. */
module Sched {
  import opened ProcStates
  import opened MlfqQueue
  import opened SchedTable
  import opened SchedShares
  import opened ShareLaw
  import opened SchedLife
  import opened SchedRuns
  import opened SchedLevels

  lemma {:induction false} WhereIs(s: seq<int>, p: int, j: nat)
    requires j < |s| && s[j] == p && forall k :: 0 <= k < j ==> s[k] != p
    ensures Where(s, p) == j
  {
  }

  lemma {:induction false} PromoteStep(procs: seq<Proc>, w: seq<int>, x: int)
    requires 0 <= x < |procs|
    ensures Promote(procs, w + [x]) == Promote(procs, w)[x := Promoted(Promote(procs, w)[x])]
  {
  }

  /** boostpriority's inner loop: empty the array from, starting after index, onto the
      end of the array to, promoting every process it meets. */
  method Drain(from: array<int>, to: array<int>, index: int, procs: seq<Proc>, ghost s: seq<int>, ghost t: seq<int>)
    returns (rr: int, promoted: seq<Proc>)
    requires Holds(from[..], s) && Holds(to[..], t) && from != to && -1 <= index < NPROC
    requires |s| + |t| <= NPROC && |procs| == NPROC
    requires forall k :: 0 <= k < |s| ==> Slot(s[k])
    modifies from, to
    ensures Holds(from[..], []) && Holds(to[..], t + Rotated(s, After(index)))
    ensures promoted == Promote(procs, Rotated(s, After(index)))
    ensures -1 <= rr < NPROC
  {
    ghost var k := After(index);
    rr, promoted := index, procs;
    RestEnds(from[..], s, k);
    assert t + Walk(s, k, 0) == t;
    assert procs == Promote(procs, Walk(s, k, 0));
    var j := 0;
    while j < NPROC
      invariant 0 <= j <= NPROC && -1 <= rr < NPROC
      invariant After(rr) == Place(k, j)
      invariant from[..] == Rest(s, k, j)
      invariant Holds(to[..], t + Walk(s, k, j))
      invariant promoted == Promote(procs, Walk(s, k, j))
    {
      rr := Advance(rr);
      promoted := DrainStop(from, to, rr, promoted, s, t, k, j, procs);
      j := j + 1;
    }
    FullWalk(s, k);
  }

  /** One turn of that loop, at place rr, the stop j of the walk from k. */
  method DrainStop(from: array<int>, to: array<int>, rr: nat, now: seq<Proc>,
      ghost s: seq<int>, ghost t: seq<int>, ghost k: nat, ghost j: nat, ghost procs: seq<Proc>)
    returns (next: seq<Proc>)
    requires |s| + |t| <= NPROC == |procs| && k < NPROC && j < NPROC && rr == Place(k, j) && from != to
    requires forall x :: 0 <= x < |s| ==> Slot(s[x])
    requires from[..] == Rest(s, k, j) && Holds(to[..], t + Walk(s, k, j))
    requires now == Promote(procs, Walk(s, k, j))
    modifies from, to
    ensures from[..] == Rest(s, k, j + 1) && Holds(to[..], t + Walk(s, k, j + 1))
    ensures next == Promote(procs, Walk(s, k, j + 1))
  {
    assert |from[..]| == NPROC;
    assert from[rr] == from[..][rr];
    WalkStep(s, t, k, j, rr);
    RestStep(s, k, j, rr);
    next := now;
    if from[rr] != NULL {
      PromoteStep(procs, Walk(s, k, j), from[rr]);
      next := now[from[rr] := Promoted(now[from[rr]])];
    }
    MoveOne(from, to, rr, t + Walk(s, k, j));
  }

  class ProcTable {
    const q0: array<int>
    const q1: array<int>
    const q2: array<int>
    var procs: seq<Proc>
    var index: seq<int>
    var pool: int
    var minpass: int
    ghost var queues: seq<seq<int>>

    ghost function View(): (t: Table)
      reads this
    {
      Table(procs, queues, index, pool, minpass)
    }

    ghost predicate Rows()
      reads this`queues, q0, q1, q2
    {
      && q0 != q1 && q0 != q2 && q1 != q2
      && |queues| == 3
      && Holds(q0[..], queues[0])
      && Holds(q1[..], queues[1])
      && Holds(q2[..], queues[2])
    }

    ghost predicate Valid()
      reads this, q0, q1, q2
    {
      Rows() && QueueInv(View())
    }

    function Row(i: nat): (q: array<int>)
      requires i < 3
    {
      if i == 0 then q0 else if i == 1 then q1 else q2
    }

    method Initpush(p: int) returns (ok: bool)
      requires Valid() && Slot(p) && !procs[p].inqueue && procs[p].state != UNUSED
      modifies this, q0
      ensures Valid() && ok && View() == InitPushed(old(View()), p)
      ensures queues == old(queues)[0 := [p] + old(queues)[0]] && index == old(index)[0 := -1]
    {
      RoomForAll(View());
      InitPushedKeeps(View(), p);
      ok := InFront(p);
    }

    /** The shift and the stores of initpush. */
    method InFront(p: int) returns (ok: bool)
      requires Rows() && Shape(View()) && Slot(p) && |queues[0]| < NPROC
      modifies this, q0
      ensures Rows() && ok && View() == InitPushed(old(View()), p)
      ensures queues == old(queues)[0 := [p] + old(queues)[0]] && index == old(index)[0 := -1]
    {
      ok := PutFirst(q0, p, queues[0]);
      queues := queues[0 := [p] + queues[0]];
      index := index[0 := -1];
      procs := procs[p := procs[p].(inqueue := true)];
    }

    method Push(level: nat, p: int) returns (ok: bool)
      requires Valid() && level < 3 && Slot(p) && !procs[p].inqueue && procs[p].state != UNUSED
      modifies this, q0, q1, q2
      ensures Valid() && ok && View() == Pushed(old(View()), level, p)
      ensures queues == old(queues)[level := old(queues)[level] + [p]] && index == old(index)
    {
      RoomForAll(View());
      PushedKeeps(View(), level, p);
      ok := Behind(level, p);
    }

    /** The store of push behind the last process. */
    method Behind(level: nat, p: int) returns (ok: bool)
      requires Rows() && Shape(View()) && level < 3 && Slot(p) && |queues[level]| < NPROC
      modifies this, q0, q1, q2
      ensures Rows() && ok && View() == Pushed(old(View()), level, p)
      ensures queues == old(queues)[level := old(queues)[level] + [p]] && index == old(index)
    {
      ok := PutLast(Row(level), p, queues[level]);
      queues := queues[level := queues[level] + [p]];
      procs := procs[p := procs[p].(inqueue := true)];
    }

    /** The shifting loop of pop at place j of queue i. */
    method Shift(i: nat, j: nat)
      requires Rows() && i < 3 && j < |queues[i]|
      modifies this`queues, q0, q1, q2
      ensures Rows() && queues == old(queues)[i := old(queues)[i][..j] + old(queues)[i][j + 1..]]
    {
      RemoveAt(Row(i), j, queues[i]);
      queues := queues[i := queues[i][..j] + queues[i][j + 1..]];
    }

    /** The removal inside pop, once p was found at place j of queue i. */
    method PopAt(i: nat, j: nat, p: int)
      requires Rows() && Shape(View()) && i < 3 && p in queues[i] && Slot(p)
      requires Queued(View(), p) && i == Home(View(), p) && j == Where(queues[i], p) < NPROC
      modifies this, q0, q1, q2
      ensures Rows() && View() == Popped(old(View()), p)
    {
      Shift(i, j);
      index := index[i := j];
      procs := procs[p := procs[p].(inqueue := false)];
    }

    /** pop panics exactly when p is in no queue. */
    method Pop(p: int) returns (ok: bool)
      requires Valid() && Slot(p)
      modifies this, q0, q1, q2
      ensures Valid() && (ok <==> old(procs[p].inqueue))
      ensures View() == Taken(old(View()), p)
    {
      QueuedIffFlag(View(), p);
      var i := 0;
      while i < 3
        invariant 0 <= i <= 3 && Valid() && View() == old(View())
        invariant forall x :: 0 <= x < i ==> p !in queues[x]
      {
        var j := Search(Row(i), p, queues[i]);
        if j < NPROC {
          WhereIs(queues[i], p, j);
          PoppedKeeps(View(), p);
          PopAt(i, j, p);
          return true;
        }
        i := i + 1;
      }
      return false;
    }

    /** The tests of top on place rr. */
    method Look(level: nat, rr: nat, ghost t: Table) returns (q: int)
      requires Rows() && Shape(t) && t.queues == queues && t.procs == procs && level < 3 && rr < NPROC
      requires forall k :: 0 <= k < |queues[level]| ==> Slot(queues[level][k])
      ensures q == NULL <==> !Eligible(t, level, rr)
      ensures q != NULL ==> q == queues[level][rr]
    {
      q := Row(level)[rr];
      if q != NULL && (procs[q].state != RUNNABLE || procs[q].percentage != 0) {
        q := NULL;
      }
    }

    /** top: the first eligible process on the walk that starts after the level's index. */
    method Top(level: nat) returns (p: int)
      requires Valid() && level < 3
      modifies this`index
      ensures Valid() && View() == Topped(old(View()), level)
      ensures p == NULL <==> Stops(old(View()), level, 0) == NPROC
      ensures p != NULL ==> index[level] < |queues[level]| && p == queues[level][index[level]]
    {
      ghost var t := View();
      QueuedSlots(t);
      SameFlags(t, Topped(t, level));
      p := Scan(level, t);
    }

    method Scan(level: nat, ghost t: Table) returns (p: int)
      requires Rows() && Shape(t) && t == View() && level < 3
      requires forall k :: 0 <= k < |queues[level]| ==> Slot(queues[level][k])
      modifies this`index
      ensures View() == Topped(t, level)
      ensures p == NULL <==> Stops(t, level, 0) == NPROC
      ensures p != NULL ==> 0 <= index[level] < |queues[level]| && p == queues[level][index[level]]
    {
      p := NULL;
      var i := 0;
      while i < NPROC && p == NULL
        invariant 0 <= i <= NPROC && |index| == 3 && index == t.index[level := index[level]]
        invariant index[level] == if i == 0 then t.index[level] else Stop(t.index[level], i - 1)
        invariant p == NULL ==> Stops(t, level, 0) == Stops(t, level, i)
        invariant p != NULL ==> 0 < i && Stops(t, level, 0) == i - 1
        invariant p != NULL ==> 0 <= index[level] < |queues[level]| && p == queues[level][index[level]]
      {
        var rr := Advance(index[level]);
        NextPlace(t.index[level], i, index[level]);
        index := index[level := rr];
        p := Look(level, rr, t);
        i := i + 1;
      }
    }

    method Demote(p: int)
      requires Valid() && Slot(p) && procs[p].priority in {0, 1}
      modifies this`procs
      ensures Valid() && View() == Put(old(View()), p, Demoted(old(procs)[p]))
    {
      DemotedKeeps(View(), p);
      procs := procs[p := Demoted(procs[p])];
    }

    method Droppriority(p: int) returns (ok: bool)
      requires Valid() && Slot(p) && procs[p].priority in {0, 1}
      modifies this, q0, q1, q2
      ensures Valid() && (ok <==> old(procs[p].inqueue))
      ensures ok ==> View() == Dropped(old(View()), p) && LevelDown(old(View()), View(), p)
      ensures !ok ==> View() == old(View())
    {
      if procs[p].inqueue {
        DroppedLevel(View(), p);
      }
      TakenOthers(View(), p);
      ok := Pop(p);
      if ok {
        var done := Push(procs[p].priority + 1, p);
        Demote(p);
      }
    }

    /** boostpriority on one of the lower queues. */
    method BoostRow(i: nat)
      requires Rows() && 1 <= i < 3 && |procs| == NPROC && |index| == 3 && -1 <= index[i] < NPROC
      requires |queues[0]| + |queues[i]| <= NPROC
      requires forall k :: 0 <= k < |queues[i]| ==> Slot(queues[i][k])
      modifies this`queues, this`procs, this`index, q0, q1, q2
      ensures Rows() && |index| == 3 && index == old(index)[i := index[i]]
      ensures var r := Rotated(old(queues)[i], After(old(index)[i]));
        && |r| == |old(queues)[i]|
        && procs == Promote(old(procs), r)
        && queues == old(queues)[0 := old(queues)[0] + r][i := []]
    {
      ghost var r := Rotated(queues[i], After(index[i]));
      var rr, moved := Drain(Row(i), q0, index[i], procs, queues[i], queues[0]);
      procs := moved;
      index := index[i := rr];
      queues := queues[0 := queues[0] + r][i := []];
    }

    method BoostRows()
      requires Rows() && Shape(View()) && |queues[0]| + |queues[1]| + |queues[2]| <= NPROC
      requires forall i, k :: 0 <= i < 3 && 0 <= k < |queues[i]| ==> Slot(queues[i][k])
      modifies this, q0, q1, q2
      ensures Rows() && View() == Boosted(old(View()))
    {
      ghost var t := View();
      BoostRow(1);
      BoostRow(2);
      index := index[1 := 0][2 := 0];
      TwiceBoosted(t, View());
    }

    method Boostpriority()
      requires Valid()
      modifies this, q0, q1, q2
      ensures Valid() && View() == Boosted(old(View())) && AllOnTop(old(View()), View())
    {
      BoostedOnTop(View());
      RoomForAll(View());
      QueuedSlots(View());
      BoostedKeeps(View());
      BoostRows();
    }

    // ---- set_cpu_share ----

    /** One turn of the loop that takes the threads of m off the queues. */
    method PopThread(m: int, i: nat)
      requires Valid() && Slot(m) && i < NPROC
      modifies this, q0, q1, q2
      ensures Valid() && PopThreads(View(), m, i + 1) == PopThreads(old(View()), m, i)
    {
      var c := procs[m].cthread[i];
      if c != NULL && procs[c].inqueue && procs[c].state != ZOMBIE {
        var ok := Pop(c);
      }
    }

    /** Take every queued live thread of m off the queues. */
    method PopAll(m: int)
      requires Valid() && Slot(m)
      modifies this, q0, q1, q2
      ensures Valid() && View() == PopThreads(old(View()), m, 0)
    {
      ghost var goal := PopThreads(View(), m, 0);
      var i := 0;
      while i < NPROC
        invariant 0 <= i <= NPROC && Valid()
        invariant PopThreads(View(), m, i) == goal
      {
        PopThread(m, i);
        i := i + 1;
      }
    }

    /** One turn of the loop that puts them back. */
    method PushThread(m: int, i: nat)
      requires Valid() && ThreadInv(View()) && Main(View(), m) && i < NPROC
      modifies this, q0, q1, q2
      ensures Valid() && ThreadInv(View()) && Main(View(), m)
      ensures PushThreads(View(), m, i + 1) == PushThreads(old(View()), m, i)
    {
      ghost var t := View();
      var c := procs[m].cthread[i];
      if c != NULL && !procs[c].inqueue && procs[c].state != ZOMBIE {
        ThreadsLive(t, m, i);
        SameThreadsKeeps(t, InitPushed(t, c));
        var ok := Initpush(c);
      }
    }

    /** Put every unqueued live thread of m in front of the highest queue. */
    method PushAll(m: int)
      requires Valid() && ThreadInv(View()) && Main(View(), m)
      modifies this, q0, q1, q2
      ensures Valid() && View() == PushThreads(old(View()), m, 0)
    {
      ghost var goal := PushThreads(View(), m, 0);
      var i := 0;
      while i < NPROC
        invariant 0 <= i <= NPROC && Valid() && ThreadInv(View()) && Main(View(), m)
        invariant PushThreads(View(), m, i) == goal
      {
        PushThread(m, i);
        i := i + 1;
      }
    }

    method Charge(m: int, n: int, pass: int)
      requires Rows() && Inv(View()) && Main(View(), m)
      modifies this`procs, this`pool
      ensures Rows() && Inv(View()) && View() == Charged(old(View()), m, n, pass)
    {
      ghost var r := Charged(View(), m, n, pass);
      ChargedKeeps(View(), m, n, pass);
      pool := pool - (n - procs[m].percentage);
      procs := procs[m := procs[m].(percentage := n, pass := pass)];
      assert View() == r;
    }

    /** set_cpu_share called by slot cur. */
    method SetCpuShare(cur: int, n: int) returns (r: int)
      requires Valid() && Inv(View()) && Running(View(), cur) && Belongs(View(), cur)
      modifies this, q0, q1, q2
      ensures Valid() && Inv(View()) && View() == Next(old(View()), SetShare(cur, n))
      ensures var m := old(procs[cur].mthread); var held := old(procs[m].percentage);
        if old(pool) - (n - held) >= 20 && (held != 0 || n != 0)
        then r == n && Shared(old(View()), View(), m, n)
        else r == -1 && View() == old(View())
    {
      ghost var t := View();
      RunningMain(t, cur);
      var m := procs[cur].mthread;
      NextShare(t, SetShare(cur, n), m);
      ShareSetShared(t, m, n);
      if procs[m].percentage != 0 {
        if pool - (n - procs[m].percentage) < FLOOR {
          return -1;
        }
        Charge(m, n, procs[m].pass);
        if procs[m].percentage == 0 {
          PushAll(m);
        }
      } else {
        if pool - n < FLOOR || n == 0 {
          return -1;
        }
        PopThreadsKeeps(t, m);
        PopAll(m);
        Charge(m, n, minpass);
      }
      return n;
    }

    // ---- Reaping ----

    method TakeOff(c: int)
      requires Valid() && Slot(c)
      modifies this, q0, q1, q2
      ensures Valid() && View() == Taken(old(View()), c)
    {
      if procs[c].inqueue {
        var ok := Pop(c);
      }
    }

    /** Clear the fields of an unqueued slot and credit its share to the pool. */
    method Wipe(c: int)
      requires Valid() && Slot(c) && !procs[c].inqueue
      modifies this`procs, this`pool
      ensures Valid()
      ensures View() == Put(old(View()), c, Cleared(old(procs)[c])).(pool := old(pool) + old(procs)[c].percentage)
    {
      WipeKeeps(View(), c);
      pool := pool + procs[c].percentage;
      procs := procs[c := Cleared(procs[c])];
    }

    /** Give slot c back. */
    method Release(c: int)
      requires Valid() && Slot(c)
      modifies this, q0, q1, q2
      ensures Valid() && View() == Released(old(View()), c)
    {
      TakeOff(c);
      Wipe(c);
    }

    method Unlist(m: int, i: nat)
      requires Valid() && Slot(m) && i < NPROC
      modifies this`procs
      ensures Valid() && View() == Unlisted(old(View()), m, i)
    {
      SameFlags(View(), Unlisted(View(), m, i));
      procs := procs[m := procs[m].(cthread := procs[m].cthread[i := NULL])];
    }

    /** One turn of killzombie's loop. */
    method KillEntry(m: int, cur: int, i: nat)
      requires Rows() && Inv(View()) && Slot(m) && 1 <= i < NPROC
      modifies this, q0, q1, q2
      ensures Rows() && View() == KillOne(old(View()), m, cur, i)
    {
      var c := procs[m].cthread[i];
      if c != NULL && procs[c].state == ZOMBIE && c != cur {
        Unlist(m, i);
        Release(c);
      }
    }

    /** killzombie called on behalf of slot cur, whose main thread is m. */
    method Killzombie(m: int, cur: int)
      requires Rows() && Inv(View()) && Slot(m)
      modifies this, q0, q1, q2
      ensures Rows() && Inv(View()) && View() == KillZombies(old(View()), m, cur, 1)
    {
      ghost var v := View();
      ghost var all := KillZombies(v, m, cur, 1);
      var i := 1;
      while i < NPROC
        invariant 1 <= i <= NPROC && Rows() && v == View() && Inv(v) && KillZombies(v, m, cur, i) == all
      {
        KillOneMore(v, m, cur, i);
        KillEntry(m, cur, i);
        v := KillOne(v, m, cur, i);
        i := i + 1;
      }
    }

    /** The loop of wait that turns the remaining workers of p into zombies. */
    method Zombify(p: int)
      requires Rows() && Shape(View()) && Slot(p)
      requires forall i :: 1 <= i < NPROC ==> procs[p].cthread[i] != p
      modifies this`procs
      ensures Rows() && View() == Zombified(old(View()), old(procs)[p].cthread[1..])
    {
      ghost var t := View();
      var i := 1;
      while i < NPROC
        invariant 1 <= i <= NPROC && |procs| == NPROC && procs[p].cthread == t.procs[p].cthread
        invariant procs == Zombified(t, t.procs[p].cthread[1..i]).procs
      {
        var c := procs[p].cthread[i];
        ZombifiedOne(t, t.procs[p].cthread, i);
        if c != NULL && procs[c].state != ZOMBIE {
          procs := procs[c := procs[c].(state := ZOMBIE)];
        }
        i := i + 1;
      }
      assert t.procs[p].cthread[1..i] == t.procs[p].cthread[1..];
    }

    /** The scan of wait for a zombie child of m. */
    method FindKid(m: int) returns (k: nat)
      requires Shape(View())
      ensures k == FirstKid(View(), m, 0)
    {
      k := 0;
      while k < NPROC && !(procs[k].parent == m && procs[k].mthread == k && procs[k].state == ZOMBIE)
        invariant 0 <= k <= NPROC && FirstKid(View(), m, 0) == FirstKid(View(), m, k)
      {
        k := k + 1;
      }
    }

    /** One pass of wait called by slot cur: reap the first zombie child, if there is one. */
    method Wait(cur: int) returns (k: nat)
      requires Rows() && Inv(View()) && Running(View(), cur)
      modifies this, q0, q1, q2
      ensures Rows() && Inv(View()) && View() == Waited(old(View()), old(procs)[cur].mthread)
      ensures k == Kid(old(View()), cur)
    {
      k := FindKid(procs[cur].mthread);
      if k < NPROC {
        ReapKid(k);
      }
    }

    method ReapKid(p: int)
      requires Rows() && Inv(View()) && Main(View(), p)
      modifies this, q0, q1, q2
      ensures Rows() && Inv(View()) && View() == Reaped(old(View()), p)
    {
      ghost var t := View();
      WorkersGone(t, p);
      WorkersApart(t, p);
      Zombify(p);
      Killzombie(p, p);
      ReleasedMainKeeps(View(), p);
      Release(p);
    }
  }

  lemma {:induction false} WorkersApart(t: Table, p: int)
    requires ThreadInv(t) && Main(t, p)
    ensures forall i :: 1 <= i < NPROC ==> t.procs[p].cthread[i] != p
  {
    assert forall i :: 1 <= i < NPROC && t.procs[p].cthread[i] == p ==> Worker(t, p, i, p);
  }

  lemma {:induction false} ZombifiedOne(t: Table, c: seq<int>, i: nat)
    requires Shape(t) && Threads(c) && 1 <= i < NPROC
    ensures var before, after := Zombified(t, c[1..i]).procs, Zombified(t, c[1..i + 1]).procs;
      after == if c[i] == NULL then before else before[c[i] := before[c[i]].(state := ZOMBIE)]
  {
    assert c[1..i + 1] == c[1..i] + [c[i]];
  }

  ghost function KillOne(t: Table, m: int, cur: int, i: nat): (r: Table)
    requires Inv(t) && Slot(m) && 1 <= i < NPROC
    ensures Inv(r)
  {
    if Doomed(t, m, cur, i) then
      ReapWorkerKeeps(t, m, i, t.procs[m].cthread[i]);
      ReapWorker(t, m, i)
    else t
  }

  lemma {:induction false} KillOneMore(t: Table, m: int, cur: int, i: nat)
    requires Inv(t) && Slot(m) && 1 <= i < NPROC
    ensures KillZombies(KillOne(t, m, cur, i), m, cur, i + 1) == KillZombies(t, m, cur, i)
  {
  }

  lemma {:induction false} WipeKeeps(t: Table, c: int)
    requires QueueInv(t) && Slot(c) && !t.procs[c].inqueue
    ensures QueueInv(Put(t, c, Cleared(t.procs[c])).(pool := t.pool + t.procs[c].percentage))
  {
    var r := Put(t, c, Cleared(t.procs[c])).(pool := t.pool + t.procs[c].percentage);
    assert All(r) == All(t);
    assert All(t)[c] == 0;
    QueueInvPut(t, c, r);
  }

  lemma {:induction false} TwiceBoosted(t: Table, r: Table)
    requires Shape(t) && |r.index| == 3 && r.pool == t.pool && r.minpass == t.minpass
    requires r.index[0] == t.index[0] && r.index[1] == r.index[2] == 0
    requires var r1 := Rotated(t.queues[1], After(t.index[1]));
      var r2 := Rotated(t.queues[2], After(t.index[2]));
      && r.procs == Promote(Promote(t.procs, r1), r2)
      && r.queues == t.queues[0 := t.queues[0] + r1][1 := []][0 := t.queues[0] + r1 + r2][2 := []]
    ensures r == Boosted(t)
  {
    assert r.queues == Boosted(t).queues;
    assert r.index == Boosted(t).index;
  }

  lemma {:induction false} QueuedSlots(t: Table)
    requires QueueInv(t)
    ensures forall i, k :: 0 <= i < 3 && 0 <= k < |t.queues[i]| ==> Slot(t.queues[i][k])
  {
    forall i, k | 0 <= i < 3 && 0 <= k < |t.queues[i]|
      ensures Slot(t.queues[i][k])
    {
      QueuedIffFlag(t, t.queues[i][k]);
    }
  }
}
