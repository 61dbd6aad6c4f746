/** What falling a level and the priority boost do to levels, time limits and queues, said of
    the table before and after. */
module SchedLevels {
  import opened ProcStates
  import opened MlfqQueue
  import opened SchedTable
  import opened SchedShares
  import opened SchedRuns

  /** The limits of the next level below. */
  predicate Lowered(q: Proc, r: Proc) {
    || (q.priority == 0 && r == q.(ticks := 0, curticks := 0, priority := 1, timequantum := 2, timeallotment := 10))
    || (q.priority == 1 && r == q.(ticks := 0, priority := 2, timequantum := 4, timeallotment := 100))
  }

  /** The queues before and after p, found at place k of queue h, moved behind queue level. */
  predicate MovedLast(qs: seq<seq<int>>, rs: seq<seq<int>>, p: int, h: int, k: int, level: int) {
    && |qs| == |rs| == 3 && 0 <= h < 3 && 0 <= level < 3 && 0 <= k < |qs[h]| && qs[h][k] == p
    && (forall q :: 0 <= q < 3 ==>
          rs[q] == (if q == h then qs[q][..k] + qs[q][k + 1..] else qs[q]) + if q == level then [p] else [])
  }

  /** ... and the index of the queue it left stays where it stood. */
  predicate Moved(t: Table, r: Table, p: int, h: int, k: int)
    requires Shape(t) && Shape(r) && Slot(p)
  {
    MovedLast(t.queues, r.queues, p, h, k, t.procs[p].priority + 1) && r.index == t.index[h := k]
  }

  /** Process p one level down, behind all others there. */
  ghost predicate LevelDown(t: Table, r: Table, p: int)
    requires Shape(t) && Slot(p) && Shape(r)
  {
    && Lowered(t.procs[p], r.procs[p])
    && (forall x :: Slot(x) && x != p ==> r.procs[x] == t.procs[x])
    && (exists h, k :: Moved(t, r, p, h, k))
    && r.pool == t.pool && r.minpass == t.minpass
  }

  lemma {:induction false} DroppedLevel(t: Table, p: int)
    requires QueueInv(t) && Slot(p) && t.procs[p].inqueue && t.procs[p].priority in {0, 1}
    ensures LevelDown(t, Dropped(t, p), p)
  {
    var r := Dropped(t, p);
    DroppedProcs(t, p);
    DroppedMoved(t, p);
    PopDefined(t, p);
    assert Moved(t, r, p, Home(t, p), Where(t.queues[Home(t, p)], p));
  }

  lemma {:induction false} DroppedProcs(t: Table, p: int)
    requires QueueInv(t) && Slot(p) && t.procs[p].inqueue && t.procs[p].priority in {0, 1}
    ensures Lowered(t.procs[p], Dropped(t, p).procs[p])
    ensures forall x :: Slot(x) && x != p ==> Dropped(t, p).procs[x] == t.procs[x]
  {
    TakenOthers(t, p);
    DropDefined(t, p);
  }

  lemma {:induction false} DroppedMoved(t: Table, p: int)
    requires QueueInv(t) && Slot(p) && t.procs[p].inqueue && t.procs[p].priority in {0, 1}
    ensures Moved(t, Dropped(t, p), p, Home(t, p), Where(t.queues[Home(t, p)], p))
  {
    PopDefined(t, p);
    var h := Home(t, p);
    var k, level := Where(t.queues[h], p), t.procs[p].priority + 1;
    DroppedQueues(t, p, h, k, level);
    QueuesMoved(t.queues, p, h, k, level);
  }

  lemma {:induction false} DroppedQueues(t: Table, p: int, h: nat, k: nat, level: nat)
    requires QueueInv(t) && Slot(p) && t.procs[p].inqueue && t.procs[p].priority in {0, 1}
    requires h == Home(t, p) && k == Where(t.queues[h], p) < |t.queues[h]| && level == t.procs[p].priority + 1
    ensures var r := Dropped(t, p);
      var ms := t.queues[h := t.queues[h][..k] + t.queues[h][k + 1..]];
      r.queues == ms[level := ms[level] + [p]] && r.index == t.index[h := k]
  {
    DropDefined(t, p);
    TakenQueues(t, p, h, k);
  }

  lemma {:induction false} TakenQueues(t: Table, p: int, h: nat, k: nat)
    requires QueueInv(t) && Slot(p) && t.procs[p].inqueue
    requires h == Home(t, p) && k == Where(t.queues[h], p) < |t.queues[h]|
    ensures Taken(t, p).queues == t.queues[h := t.queues[h][..k] + t.queues[h][k + 1..]]
    ensures Taken(t, p).index == t.index[h := k]
  {
    PopDefined(t, p);
  }

  lemma {:induction false} QueuesMoved(qs: seq<seq<int>>, p: int, h: int, k: int, level: int)
    requires |qs| == 3 && 0 <= h < 3 && 0 <= level < 3 && 0 <= k < |qs[h]| && qs[h][k] == p
    ensures var ms := qs[h := qs[h][..k] + qs[h][k + 1..]];
      MovedLast(qs, ms[level := ms[level] + [p]], p, h, k, level)
  {
    var ms := qs[h := qs[h][..k] + qs[h][k + 1..]];
    forall q | 0 <= q < 3
      ensures ms[level := ms[level] + [p]][q] ==
        (if q == h then qs[q][..k] + qs[q][k + 1..] else qs[q]) + if q == level then [p] else []
    {
      assert ms[q] + [] == ms[q];
    }
  }

  /** The queue s as it is met by a walk that starts behind place index and wraps around. */
  predicate Turned(s: seq<int>, a: seq<int>, index: int) {
    |a| == |s| && forall x {:trigger a[x]} :: 0 <= x < |s| ==>
      var y := if -1 <= index < |s| - 1 then index + 1 + x else x;
      a[x] == if 0 <= y < |s| then s[y] else if 0 <= y - |s| < |s| then s[y - |s|] else NULL
  }

  /** Everyone in the lower queues at the highest level: behind its queue, first those of the
      middle queue, then those of the lowest, with full time limits. */
  ghost predicate AllOnTop(t: Table, r: Table)
    requires Shape(t) && Shape(r)
  {
    && (forall p :: Slot(p) ==>
          r.procs[p] == if p in t.queues[1] || p in t.queues[2]
            then t.procs[p].(ticks := 0, curticks := 0, priority := 0, timequantum := 1, timeallotment := 5)
            else t.procs[p])
    && (exists a, b :: Turned(t.queues[1], a, t.index[1]) && Turned(t.queues[2], b, t.index[2])
          && r.queues == [t.queues[0] + a + b, [], []])
    && r.index == [t.index[0], 0, 0] && r.pool == t.pool && r.minpass == t.minpass
  }

  lemma {:induction false} RotatedTurned(s: seq<int>, index: int)
    requires |s| <= NPROC && -1 <= index < NPROC
    ensures Turned(s, Rotated(s, After(index)), index)
  {
  }

  lemma {:induction false} BoostedOnTop(t: Table)
    requires QueueInv(t)
    ensures AllOnTop(t, Boosted(t))
  {
    RoomForAll(t);
    RotatedTurned(t.queues[1], t.index[1]);
    RotatedTurned(t.queues[2], t.index[2]);
    forall p | Slot(p)
      ensures Boosted(t).procs[p] == if p in t.queues[1] || p in t.queues[2]
        then t.procs[p].(ticks := 0, curticks := 0, priority := 0, timequantum := 1, timeallotment := 5)
        else t.procs[p]
    {
      QueuedIffFlag(t, p);
      RotatedMembers(t.queues[1], After(t.index[1]), p);
      RotatedMembers(t.queues[2], After(t.index[2]), p);
    }
  }
}
