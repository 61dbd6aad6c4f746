/** What a granted set_cpu_share does to queues, flags and passes, said of the table before
    and after it. */
module ShareLaw {
  import opened ProcStates
  import opened MlfqQueue
  import opened SchedTable
  import opened SchedShares

  /** Slot p is a thread of m that is not a zombie, listed from entry i of its table on. */
  predicate Live(t: Table, m: int, i: nat, p: int)
    requires Shape(t) && Slot(m)
  {
    p != NULL && Slot(p) && t.procs[p].state != ZOMBIE && exists k :: i <= k < NPROC && t.procs[m].cthread[k] == p
  }

  /** The slots of s that are no live threads of m, in their order. */
  function Others(t: Table, m: int, i: nat, s: seq<int>): (r: seq<int>)
    requires Shape(t) && Slot(m)
  {
    if s == [] then []
    else (if Live(t, m, i, s[0]) then [] else [s[0]]) + Others(t, m, i, s[1..])
  }

  /** The live threads of m that are in no queue, the last of its table first. */
  function Waiting(t: Table, m: int, i: nat): (r: seq<int>)
    requires Shape(t) && Slot(m) && i <= NPROC
    decreases NPROC - i, t
  {
    if i == NPROC then []
    else
      var c := t.procs[m].cthread[i];
      Waiting(t, m, i + 1) + if c != NULL && t.procs[c].state != ZOMBIE && !t.procs[c].inqueue then [c] else []
  }

  /** A process without a share gets n: its live threads leave the queues, the others close
      up in their order, and the process starts at the smallest pass. */
  ghost predicate Withdrawn(t: Table, r: Table, m: int, n: int)
    requires Shape(t) && Shape(r) && Slot(m)
  {
    && (forall q :: 0 <= q < 3 ==> r.queues[q] == Others(t, m, 0, t.queues[q]))
    && (forall p :: Slot(p) ==> r.procs[p] == Marked(t, m, p, t.procs[p].inqueue && !Live(t, m, 0, p), n, t.minpass))
    && (forall q :: 0 <= q < 3 && (forall k :: 0 <= k < |t.queues[q]| ==> !Live(t, m, 0, t.queues[q][k])) ==>
          r.index[q] == t.index[q])
    && r.pool == t.pool - n && r.minpass == t.minpass
  }

  /** Slot p with flag f, and m with share n and this pass. */
  function Marked(t: Table, m: int, p: int, f: bool, n: int, pass: int): (q: Proc)
    requires Shape(t) && Slot(p)
  {
    if p == m then t.procs[p].(inqueue := f, percentage := n, pass := pass) else t.procs[p].(inqueue := f)
  }

  /** A process gives up its share: its waiting threads stand in front of the highest queue. */
  ghost predicate Returned(t: Table, r: Table, m: int)
    requires Shape(t) && Shape(r) && Slot(m)
  {
    && r.queues == t.queues[0 := Waiting(t, m, 0) + t.queues[0]]
    && (forall p :: Slot(p) ==>
          r.procs[p] == Marked(t, m, p, t.procs[p].inqueue || Live(t, m, 0, p), 0, t.procs[m].pass))
    && r.index == (if Waiting(t, m, 0) == [] then t.index else t.index[0 := -1])
    && r.pool == t.pool + t.procs[m].percentage && r.minpass == t.minpass
  }

  /** What a granted request of n does, by what the process had before. */
  ghost predicate Shared(t: Table, r: Table, m: int, n: int)
    requires Shape(t) && Shape(r) && Slot(m)
  {
    if t.procs[m].percentage == 0 then Withdrawn(t, r, m, n)
    else if n == 0 then Returned(t, r, m)
    else r == t.(procs := t.procs[m := t.procs[m].(percentage := n)], pool := t.pool + t.procs[m].percentage - n)
  }

  // ---- Leaving the queues ----

  /** The same of the loop alone, from entry i on. */
  ghost predicate LoopTook(t: Table, r: Table, m: int, i: nat)
    requires Shape(t) && Shape(r) && Slot(m)
  {
    && (forall q :: 0 <= q < 3 ==> r.queues[q] == Others(t, m, i, t.queues[q]))
    && (forall p :: Slot(p) ==> r.procs[p] == t.procs[p].(inqueue := t.procs[p].inqueue && !Live(t, m, i, p)))
    && (forall q :: 0 <= q < 3 && (forall k :: 0 <= k < |t.queues[q]| ==> !Live(t, m, i, t.queues[q][k])) ==>
          r.index[q] == t.index[q])
    && r.pool == t.pool && r.minpass == t.minpass
  }

  lemma {:induction false} OthersAll(t: Table, m: int, i: nat, s: seq<int>)
    requires Shape(t) && Slot(m) && forall k :: 0 <= k < |s| ==> !Live(t, m, i, s[k])
    ensures Others(t, m, i, s) == s
  {
    if s != [] {
      OthersAll(t, m, i, s[1..]);
    }
  }

  lemma {:induction false} OthersConcat(t: Table, m: int, i: nat, a: seq<int>, b: seq<int>)
    requires Shape(t) && Slot(m)
    ensures Others(t, m, i, a + b) == Others(t, m, i, a) + Others(t, m, i, b)
  {
    if a == [] {
      assert a + b == b;
    } else {
      OthersConcat(t, m, i, a[1..], b);
      assert (a + b)[1..] == a[1..] + b && (a + b)[0] == a[0];
    }
  }

  /** Others depends on the table through Live alone. */
  lemma {:induction false} OthersSame(t: Table, i: nat, t': Table, i': nat, m: int, s: seq<int>)
    requires Shape(t) && Shape(t') && Slot(m)
    requires forall k :: 0 <= k < |s| ==> (Live(t, m, i, s[k]) <==> Live(t', m, i', s[k]))
    ensures Others(t, m, i, s) == Others(t', m, i', s)
  {
    if s != [] {
      assert Live(t, m, i, s[0]) <==> Live(t', m, i', s[0]);
      forall k | 0 <= k < |s[1..]| ensures Live(t, m, i, s[1..][k]) <==> Live(t', m, i', s[1..][k]) {
        assert s[1..][k] == s[k + 1];
      }
      OthersSame(t, i, t', i', m, s[1..]);
    }
  }

  // The step: entry i and what it takes off the queues.

  lemma {:induction false} LiveFrom(t: Table, m: int, i: nat, p: int)
    requires Shape(t) && Slot(m) && i < NPROC
    ensures Live(t, m, i, p) <==>
      Live(t, m, i + 1, p) || (p == t.procs[m].cthread[i] && p != NULL && t.procs[p].state != ZOMBIE)
  {
  }

  lemma {:induction false} LiveSame(t: Table, t': Table, m: int, i: nat, p: int)
    requires Shape(t) && Shape(t') && Slot(m) && SameThreads(t, t')
    ensures Live(t, m, i, p) <==> Live(t', m, i, p)
  {
  }

  /** A queue holds slots whose flag is set, each once. */
  lemma {:induction false} QueueSlots(t: Table, q: nat)
    requires QueueInv(t) && q < 3
    ensures forall k :: 0 <= k < |t.queues[q]| ==> Slot(t.queues[q][k]) && t.procs[t.queues[q][k]].inqueue
  {
    forall k | 0 <= k < |t.queues[q]|
      ensures Slot(t.queues[q][k]) && t.procs[t.queues[q][k]].inqueue
    {
      QueuedIffFlag(t, t.queues[q][k]);
    }
  }

  lemma {:induction false} TwiceCounts(a: seq<int>, p: int, b: seq<int>, m: multiset<int>)
    requires multiset(a + [p] + b) <= m && m[p] <= 1
    ensures p !in a && p !in b
  {
    assert multiset(a + [p] + b) == multiset(a) + multiset{p} + multiset(b);
    assert multiset(a + [p] + b)[p] <= 1;
  }

  /** A queued slot stands in one queue and at one place of it. */
  lemma {:induction false} OnePlace(t: Table, c: int, h: nat, k: nat)
    requires QueueInv(t) && h < 3 && k < |t.queues[h]| && t.queues[h][k] == c
    ensures c !in t.queues[h][..k] && c !in t.queues[h][k + 1..]
    ensures forall q :: 0 <= q < 3 && q != h ==> c !in t.queues[q]
  {
    var s := t.queues[h];
    assert s == s[..k] + [c] + s[k + 1..];
    assert All(t)[c] <= 1;
    TwiceCounts(s[..k], c, s[k + 1..], All(t));
    assert multiset(s)[c] >= 1;
    forall q | 0 <= q < 3 && q != h
      ensures c !in t.queues[q]
    {
      assert All(t)[c] >= multiset(s)[c] + multiset(t.queues[q])[c];
    }
  }

  /** No thread at entry i, or one that stays where it is. */
  lemma {:induction false} SkipTook(t: Table, r: Table, m: int, i: nat)
    requires QueueInv(t) && Shape(r) && Slot(m) && i < NPROC && LoopTook(t, r, m, i + 1)
    requires var c := t.procs[m].cthread[i]; c == NULL || !t.procs[c].inqueue || t.procs[c].state == ZOMBIE
    ensures LoopTook(t, r, m, i)
  {
    forall p | Slot(p) && t.procs[p].inqueue
      ensures Live(t, m, i, p) <==> Live(t, m, i + 1, p)
    {
      LiveFrom(t, m, i, p);
    }
    forall q | 0 <= q < 3
      ensures r.queues[q] == Others(t, m, i, t.queues[q])
      ensures forall k :: 0 <= k < |t.queues[q]| ==>
        (Live(t, m, i, t.queues[q][k]) <==> Live(t, m, i + 1, t.queues[q][k]))
    {
      QueueSlots(t, q);
      OthersSame(t, i, t, i + 1, m, t.queues[q]);
    }
  }

  /** Queue q without the thread c of entry i, and the rest of the loop. */
  lemma {:induction false} TookQueue(t: Table, m: int, i: nat, c: int, q: nat)
    requires QueueInv(t) && Slot(m) && i < NPROC && q < 3
    requires c == t.procs[m].cthread[i] && c != NULL && t.procs[c].inqueue && t.procs[c].state != ZOMBIE
    ensures Others(Taken(t, c), m, i + 1, Taken(t, c).queues[q]) == Others(t, m, i, t.queues[q])
    ensures c !in t.queues[q] ==>
      && Taken(t, c).queues[q] == t.queues[q] && Taken(t, c).index[q] == t.index[q]
      && forall k :: 0 <= k < |t.queues[q]| ==>
        (Live(Taken(t, c), m, i + 1, t.queues[q][k]) <==> Live(t, m, i, t.queues[q][k]))
  {
    PopDefined(t, c);
    var t1, h := Taken(t, c), Home(t, c);
    var k := Where(t.queues[h], c);
    OnePlace(t, c, h, k);
    forall p | p != c
      ensures Live(t1, m, i + 1, p) <==> Live(t, m, i, p)
    {
      LiveFrom(t, m, i, p);
      LiveSame(t, t1, m, i + 1, p);
    }
    if q == h {
      TookHome(t, t1, m, i, c, t.queues[h], k);
    } else {
      OthersSame(t1, i + 1, t, i, m, t.queues[q]);
    }
  }

  lemma {:induction false} TookHome(t: Table, t1: Table, m: int, i: nat, c: int, s: seq<int>, k: nat)
    requires Shape(t) && Shape(t1) && Slot(m) && k < |s| && s[k] == c && Live(t, m, i, c)
    requires c !in s[..k] && c !in s[k + 1..]
    requires forall p :: p != c ==> (Live(t1, m, i + 1, p) <==> Live(t, m, i, p))
    ensures Others(t1, m, i + 1, s[..k] + s[k + 1..]) == Others(t, m, i, s)
  {
    var a, b := s[..k], s[k + 1..];
    assert s == a + [c] + b;
    OthersConcat(t1, m, i + 1, a, b);
    OthersConcat(t, m, i, a + [c], b);
    OthersConcat(t, m, i, a, [c]);
    OthersSame(t1, i + 1, t, i, m, a);
    OthersSame(t1, i + 1, t, i, m, b);
  }

  lemma {:induction false} StepTook(t: Table, r: Table, m: int, i: nat, c: int)
    requires QueueInv(t) && Shape(r) && Slot(m) && i < NPROC
    requires c == t.procs[m].cthread[i] && c != NULL && t.procs[c].inqueue && t.procs[c].state != ZOMBIE
    requires LoopTook(Taken(t, c), r, m, i + 1)
    ensures LoopTook(t, r, m, i)
  {
    var t1 := Taken(t, c);
    TakenOthers(t, c);
    LiveFrom(t, m, i, c);
    forall p | Slot(p)
      ensures r.procs[p] == t.procs[p].(inqueue := t.procs[p].inqueue && !Live(t, m, i, p))
    {
      LiveFrom(t, m, i, p);
      LiveSame(t, t1, m, i + 1, p);
    }
    forall q | 0 <= q < 3
      ensures r.queues[q] == Others(t, m, i, t.queues[q])
      ensures (forall k :: 0 <= k < |t.queues[q]| ==> !Live(t, m, i, t.queues[q][k])) ==> r.index[q] == t.index[q]
    {
      TookQueue(t, m, i, c, q);
    }
  }

  lemma {:induction false} PopThreadsTook(t: Table, m: int, i: nat)
    requires QueueInv(t) && Slot(m) && i <= NPROC
    ensures LoopTook(t, PopThreads(t, m, i), m, i)
    decreases NPROC - i
  {
    if i == NPROC {
      NoneTook(t, m);
    } else {
      var c := t.procs[m].cthread[i];
      if c != NULL && t.procs[c].inqueue && t.procs[c].state != ZOMBIE {
        PopThreadsTook(Taken(t, c), m, i + 1);
        OneTook(t, PopThreads(Taken(t, c), m, i + 1), m, i, c);
      } else {
        PopThreadsTook(t, m, i + 1);
        NotTook(t, PopThreads(t, m, i + 1), m, i);
      }
    }
  }

  lemma {:induction false} NoneTook(t: Table, m: int)
    requires Shape(t) && Slot(m)
    ensures LoopTook(t, t, m, NPROC)
  {
    forall q | 0 <= q < 3 ensures t.queues[q] == Others(t, m, NPROC, t.queues[q]) {
      OthersAll(t, m, NPROC, t.queues[q]);
    }
  }

  lemma {:induction false} OneTook(t: Table, r: Table, m: int, i: nat, c: int)
    requires QueueInv(t) && Shape(r) && Slot(m) && i < NPROC
    requires c == t.procs[m].cthread[i] && c != NULL && t.procs[c].inqueue && t.procs[c].state != ZOMBIE
    ensures LoopTook(Taken(t, c), r, m, i + 1) ==> LoopTook(t, r, m, i)
  {
    if LoopTook(Taken(t, c), r, m, i + 1) {
      StepTook(t, r, m, i, c);
    }
  }

  lemma {:induction false} NotTook(t: Table, r: Table, m: int, i: nat)
    requires QueueInv(t) && Shape(r) && Slot(m) && i < NPROC
    requires var c := t.procs[m].cthread[i]; c == NULL || !t.procs[c].inqueue || t.procs[c].state == ZOMBIE
    ensures LoopTook(t, r, m, i + 1) ==> LoopTook(t, r, m, i)
  {
    if LoopTook(t, r, m, i + 1) {
      SkipTook(t, r, m, i);
    }
  }

  // ---- Returning to the highest queue ----

  /** What the loop from entry i on does. */
  ghost predicate LoopGave(t: Table, r: Table, m: int, i: nat)
    requires Shape(t) && Shape(r) && Slot(m) && i <= NPROC
  {
    && r.queues == t.queues[0 := Waiting(t, m, i) + t.queues[0]]
    && (forall p :: Slot(p) ==> r.procs[p] == t.procs[p].(inqueue := t.procs[p].inqueue || Live(t, m, i, p)))
    && r.index == (if Waiting(t, m, i) == [] then t.index else t.index[0 := -1])
    && r.pool == t.pool && r.minpass == t.minpass
  }

  /** Exactly the live threads of m that are in no queue wait. */
  lemma {:induction false} WaitingIff(t: Table, m: int, i: nat, p: int)
    requires Shape(t) && Slot(m) && i <= NPROC
    ensures p in Waiting(t, m, i) <==> Live(t, m, i, p) && !t.procs[p].inqueue
    decreases NPROC - i
  {
    if i < NPROC {
      WaitingIff(t, m, i + 1, p);
      LiveFrom(t, m, i, p);
    }
  }

  /** Waiting depends on the threads from entry i on alone. */
  lemma {:induction false} WaitingSame(t: Table, t': Table, m: int, i: nat)
    requires Shape(t) && Shape(t') && Slot(m) && i <= NPROC && SameThreads(t, t')
    requires forall k :: i <= k < NPROC && t.procs[m].cthread[k] != NULL ==>
      t'.procs[t.procs[m].cthread[k]].inqueue == t.procs[t.procs[m].cthread[k]].inqueue
    ensures Waiting(t', m, i) == Waiting(t, m, i)
    decreases NPROC - i
  {
    if i < NPROC {
      WaitingSame(t, t', m, i + 1);
    }
  }

  /** A thread table names no thread twice. */
  lemma {:induction false} EntriesDiffer(t: Table, m: int, i: nat, k: nat)
    requires ThreadInv(t) && Main(t, m) && i < k < NPROC && t.procs[m].cthread[i] != NULL
    ensures t.procs[m].cthread[k] != t.procs[m].cthread[i]
  {
    var c := t.procs[m].cthread[i];
    assert Belongs(t, m);
    if i > 0 {
      assert Worker(t, m, i, c);
    }
    if t.procs[m].cthread[k] == c {
      assert Worker(t, m, k, c);
    }
  }

  lemma {:induction false} StepGave(t: Table, r: Table, m: int, i: nat, c: int)
    requires QueueInv(t) && ThreadInv(t) && Shape(r) && Main(t, m) && i < NPROC
    requires c == t.procs[m].cthread[i] && c != NULL && !t.procs[c].inqueue && t.procs[c].state != ZOMBIE
    requires LoopGave(InitPushed(t, c), r, m, i + 1)
    ensures LoopGave(t, r, m, i)
  {
    var t1 := InitPushed(t, c);
    forall k | i + 1 <= k < NPROC && t.procs[m].cthread[k] != NULL
      ensures t1.procs[t.procs[m].cthread[k]].inqueue == t.procs[t.procs[m].cthread[k]].inqueue
    {
      EntriesDiffer(t, m, i, k);
    }
    WaitingSame(t, t1, m, i + 1);
    assert Waiting(t, m, i) + t.queues[0] == Waiting(t, m, i + 1) + ([c] + t.queues[0]);
    forall p | Slot(p)
      ensures r.procs[p] == t.procs[p].(inqueue := t.procs[p].inqueue || Live(t, m, i, p))
    {
      LiveFrom(t, m, i, p);
      LiveSame(t, t1, m, i + 1, p);
    }
  }

  lemma {:induction false} SkipGave(t: Table, r: Table, m: int, i: nat)
    requires Shape(t) && Shape(r) && Slot(m) && i < NPROC && LoopGave(t, r, m, i + 1)
    requires var c := t.procs[m].cthread[i]; c == NULL || t.procs[c].inqueue || t.procs[c].state == ZOMBIE
    ensures LoopGave(t, r, m, i)
  {
    assert Waiting(t, m, i) == Waiting(t, m, i + 1);
    forall p | Slot(p) && !t.procs[p].inqueue
      ensures Live(t, m, i, p) <==> Live(t, m, i + 1, p)
    {
      LiveFrom(t, m, i, p);
    }
  }

  lemma {:induction false} NoneGave(t: Table, m: int)
    requires Shape(t) && Slot(m)
    ensures LoopGave(t, t, m, NPROC)
  {
    assert Waiting(t, m, NPROC) + t.queues[0] == t.queues[0];
  }

  lemma {:induction false} PushThreadsGave(t: Table, m: int, i: nat)
    requires QueueInv(t) && ThreadInv(t) && Main(t, m) && i <= NPROC
    ensures LoopGave(t, PushThreads(t, m, i), m, i)
    decreases NPROC - i, 1
  {
    if i == NPROC {
      NoneGave(t, m);
    } else {
      PushStep(t, m, i);
    }
  }

  lemma {:induction false} PushStep(t: Table, m: int, i: nat)
    requires QueueInv(t) && ThreadInv(t) && Main(t, m) && i < NPROC
    ensures LoopGave(t, PushThreads(t, m, i), m, i)
    decreases NPROC - i, 0
  {
    var c := t.procs[m].cthread[i];
    if c != NULL && !t.procs[c].inqueue && t.procs[c].state != ZOMBIE {
      ThreadsLive(t, m, i);
      InitPushedKeeps(t, c);
      SameThreadsKeeps(t, InitPushed(t, c));
      PushThreadsGave(InitPushed(t, c), m, i + 1);
      StepGave(t, PushThreads(InitPushed(t, c), m, i + 1), m, i, c);
    } else {
      PushThreadsGave(t, m, i + 1);
      SkipGave(t, PushThreads(t, m, i + 1), m, i);
    }
  }

  // ---- set_cpu_share ----

  /** Charging m changes neither its threads nor who waits. */
  lemma {:induction false} ChargedGave(t: Table, r: Table, m: int, pass: int)
    requires Shape(t) && Slot(m) && Shape(r) && pass == t.procs[m].pass
    requires LoopGave(Charged(t, m, 0, pass), r, m, 0)
    ensures Returned(t, r, m)
  {
    var t1 := Charged(t, m, 0, pass);
    ChargedWaiting(t, t1, m, 0);
    forall p | Slot(p)
      ensures r.procs[p] == Marked(t, m, p, t.procs[p].inqueue || Live(t, m, 0, p), 0, t.procs[m].pass)
    {
      assert Live(t, m, 0, p) <==> Live(t1, m, 0, p);
    }
  }

  lemma {:induction false} ChargedWaiting(t: Table, t': Table, m: int, i: nat)
    requires Shape(t) && Shape(t') && Slot(m) && i <= NPROC
    requires forall p :: Slot(p) ==>
      && t'.procs[p].cthread == t.procs[p].cthread && t'.procs[p].state == t.procs[p].state
      && t'.procs[p].inqueue == t.procs[p].inqueue
    ensures Waiting(t', m, i) == Waiting(t, m, i)
    decreases NPROC - i
  {
    if i < NPROC {
      ChargedWaiting(t, t', m, i + 1);
    }
  }

  lemma {:induction false} TakenShared(t: Table, m: int, n: int)
    requires Inv(t) && Main(t, m) && t.procs[m].percentage == 0
    ensures Shared(t, ShareTaken(t, m, n), m, n)
  {
    PopThreadsTook(t, m, 0);
    PopThreadsKeeps(t, m);
    TookWithdrawn(t, PopThreads(t, m, 0), m, n);
  }

  lemma {:induction false} TookWithdrawn(t: Table, t1: Table, m: int, n: int)
    requires Shape(t) && Shape(t1) && Slot(m) && t.procs[m].percentage == 0 && LoopTook(t, t1, m, 0)
    ensures Withdrawn(t, Charged(t1, m, n, t1.minpass), m, n)
  {
  }

  lemma {:induction false} GivenShared(t: Table, m: int)
    requires Inv(t) && Main(t, m) && t.procs[m].percentage != 0
    ensures Shared(t, ShareChanged(t, m, 0), m, 0)
  {
    var pass := t.procs[m].pass;
    ChargedKeeps(t, m, 0, pass);
    PushThreadsGave(Charged(t, m, 0, pass), m, 0);
    ChargedGave(t, ShareChanged(t, m, 0), m, pass);
  }

  /** A granted request does to queues, flags and passes what the process's old share and the
      new one say; a refused one does nothing. */
  lemma {:induction false} ShareSetShared(t: Table, m: int, n: int)
    requires Inv(t) && Main(t, m)
    ensures if Granted(t, m, n) then Shared(t, ShareSet(t, m, n), m, n) else ShareSet(t, m, n) == t
  {
    if Granted(t, m, n) {
      if t.procs[m].percentage == 0 {
        TakenShared(t, m, n);
      } else if n == 0 {
        GivenShared(t, m);
      }
    }
  }

  /** What a process that asks for a share for the first time sees of its threads. */
  lemma {:induction false} WithdrawnThreads(t: Table, r: Table, m: int, n: int, p: int)
    requires QueueInv(t) && QueueInv(r) && Slot(m) && Slot(p) && Withdrawn(t, r, m, n)
    ensures Live(t, m, 0, p) ==> !r.procs[p].inqueue && p !in r.queues[0] && p !in r.queues[1] && p !in r.queues[2]
    ensures !Live(t, m, 0, p) ==> r.procs[p].inqueue == t.procs[p].inqueue
    ensures r.procs[m].pass == t.minpass && r.procs[m].percentage == n
  {
    QueuedIffFlag(r, p);
  }

  /** ... and one that gives its share back. */
  lemma {:induction false} ReturnedThreads(t: Table, r: Table, m: int, p: int)
    requires QueueInv(t) && QueueInv(r) && Slot(m) && Slot(p) && Returned(t, r, m)
    ensures Live(t, m, 0, p) ==> r.procs[p].inqueue && (!t.procs[p].inqueue ==> p in r.queues[0])
    ensures !Live(t, m, 0, p) ==> r.procs[p].inqueue == t.procs[p].inqueue
    ensures r.queues[1] == t.queues[1] && r.queues[2] == t.queues[2]
    ensures r.queues[0][|r.queues[0]| - |t.queues[0]|..] == t.queues[0]
    ensures forall k :: 0 <= k < |r.queues[0]| - |t.queues[0]| ==>
      Live(t, m, 0, r.queues[0][k]) && !t.procs[r.queues[0][k]].inqueue
  {
    WaitingIff(t, m, 0, p);
    var w := Waiting(t, m, 0);
    forall k | 0 <= k < |w|
      ensures Live(t, m, 0, r.queues[0][k]) && !t.procs[r.queues[0][k]].inqueue
    {
      WaitingIff(t, m, 0, w[k]);
    }
  }
}
