/** The reservation that begin_op makes, and exactly when log_write panics. */
module LogBudget {
  import opened Blocks
  import opened LogDisk
  import opened LogMachine

  // ---- Reservations ----

  /** Log blocks still promised to the open operations. */
  ghost function Reserved(ops: map<nat, Use>): (r: int)
    decreases |ops|
  {
    if ops == map[] then 0
    else
      var op :| op in ops;
      MAXOPBLOCKS - |ops[op].blocks| + Reserved(ops - {op})
  }

  /** Every open operation has logged at most MAXOPBLOCKS distinct blocks. */
  predicate WithinBudget(ops: map<nat, Use>) {
    forall op :: op in ops ==> |ops[op].blocks| <= MAXOPBLOCKS
  }

  lemma {:induction false} ReservedRemove(ops: map<nat, Use>, op: nat)
    requires op in ops
    ensures Reserved(ops) == MAXOPBLOCKS - |ops[op].blocks| + Reserved(ops - {op})
    decreases |ops|
  {
    var x :| x in ops && Reserved(ops) == MAXOPBLOCKS - |ops[x].blocks| + Reserved(ops - {x});
    if x != op {
      ReservedRemove(ops - {x}, op);
      ReservedRemove(ops - {op}, x);
      assert ops - {x} - {op} == ops - {op} - {x};
    }
  }

  lemma {:induction false} ReservedUpdate(ops: map<nat, Use>, op: nat, u: Use)
    ensures Reserved(ops[op := u]) == MAXOPBLOCKS - |u.blocks| + Reserved(ops - {op})
  {
    ReservedRemove(ops[op := u], op);
    assert ops[op := u] - {op} == ops - {op};
  }

  lemma {:induction false} ReservedBounds(ops: map<nat, Use>)
    requires WithinBudget(ops)
    ensures 0 <= Reserved(ops) <= MAXOPBLOCKS * |ops|
    decreases |ops|
  {
    if ops != map[] {
      var x :| x in ops && Reserved(ops) == MAXOPBLOCKS - |ops[x].blocks| + Reserved(ops - {x});
      ReservedBounds(ops - {x});
      assert |ops - {x}| == |ops| - 1 by { assert (ops - {x}).Keys == ops.Keys - {x}; }
    }
  }

  /** The blocks of the open operations are in the transaction. */
  predicate UsesOk(s: State) {
    forall op :: op in s.ops ==>
      |s.ops[op].blocks| <= s.ops[op].calls && forall b :: b in s.ops[op].blocks ==> b in s.lh
  }

  lemma {:induction false} AbsorbKeeps(lh: seq<Word32>, b: Word32)
    ensures forall c :: c in lh ==> c in Absorb(lh, b)
    ensures |Absorb(lh, b)| == |lh| + if b in lh then 0 else 1
  {
  }

  lemma {:induction false} StepUses(L: Layout, s: State, a: Step, t: State)
    requires UsesOk(s) && StepTo(L, s, a, t) && Inv(L, s)
    ensures UsesOk(t)
  {
    if a.LogWrite? {
      AbsorbKeeps(s.lh, a.b);
    }
  }

  lemma {:induction false} RunUses(L: Layout, ss: seq<State>, acts: seq<Step>, i: nat)
    requires Run(L, ss, acts) && i < |ss|
    ensures UsesOk(ss[i])
  {
    if i > 0 {
      RunUses(L, ss, acts, i - 1);
      RunKeepsInv(L, ss, acts, i - 1);
      assert StepTo(L, ss[i - 1], acts[i - 1], ss[i - 1 + 1]);
      StepUses(L, ss[i - 1], acts[i - 1], ss[i]);
    }
  }

  /** A new block uses up reserved room, a repeated one needs none. */
  lemma {:induction false} LogWriteReserves(s: State, op: nat, b: Word32)
    requires UsesOk(s) && op in s.ops
    ensures |Absorb(s.lh, b)| + Reserved(s.ops[op := Used(s.ops[op], b)]) <= |s.lh| + Reserved(s.ops)
  {
    var u := s.ops[op];
    ReservedRemove(s.ops, op);
    ReservedUpdate(s.ops, op, Used(u, b));
    AbsorbKeeps(s.lh, b);
    if b in u.blocks {
      assert u.blocks + {b} == u.blocks;
    }
  }

  lemma {:induction false} BeginOpReserves(n: nat, ops: map<nat, Use>, op: nat)
    requires WithinBudget(ops) && op !in ops && n + (|ops| + 1) * MAXOPBLOCKS <= LOGSIZE
    ensures n + Reserved(ops[op := Use(0, {})]) <= LOGSIZE
  {
    ReservedUpdate(ops, op, Use(0, {}));
    assert ops - {op} == ops;
    ReservedBounds(ops);
  }

  lemma {:induction false} StepReserves(L: Layout, s: State, a: Step, t: State)
    requires StepTo(L, s, a, t) && Inv(L, s) && UsesOk(s) && WithinBudget(s.ops)
    requires |s.lh| + Reserved(s.ops) <= LOGSIZE
    ensures |t.lh| + Reserved(t.ops) <= LOGSIZE
  {
    match a
    case BeginOp(op) => BeginOpReserves(|s.lh|, s.ops, op);
    case LogWrite(op, b, _) => LogWriteReserves(s, op, b);
    case EndOp(op) => ReservedRemove(s.ops, op);
    case _ =>
  }

  /** Every state of the run respects the budget of distinct blocks. */
  predicate Budgeted(ss: seq<State>) {
    forall i :: 0 <= i < |ss| ==> WithinBudget(ss[i].ops)
  }

  /** The transaction and what is still reserved always fit in LOGSIZE. */
  lemma {:induction false} RunReserves(L: Layout, ss: seq<State>, acts: seq<Step>, i: nat)
    requires Run(L, ss, acts) && Budgeted(ss) && i < |ss|
    ensures |ss[i].lh| + Reserved(ss[i].ops) <= LOGSIZE
  {
    if i > 0 {
      RunReserves(L, ss, acts, i - 1);
      RunStepReserves(L, ss, acts, i - 1);
    }
  }

  lemma {:induction false} RunStepReserves(L: Layout, ss: seq<State>, acts: seq<Step>, i: nat)
    requires Run(L, ss, acts) && Budgeted(ss) && i < |acts|
    requires |ss[i].lh| + Reserved(ss[i].ops) <= LOGSIZE
    ensures |ss[i + 1].lh| + Reserved(ss[i + 1].ops) <= LOGSIZE
  {
    RunUses(L, ss, acts, i);
    RunKeepsInv(L, ss, acts, i);
    assert StepTo(L, ss[i], acts[i], ss[i + 1]);
    StepReserves(L, ss[i], acts[i], ss[i + 1]);
  }

  // ---- When log_write panics ----

  /** A call of log_write that keeps its operation within MAXOPBLOCKS distinct blocks. */
  predicate Attempt(L: Layout, s: State, a: Step) {
    a.LogWrite? && Enabled(L, s, a) && |s.ops[a.op].blocks + {a.b}| <= MAXOPBLOCKS
  }

  /** A full transaction means that every open operation has used up its budget. */
  lemma {:induction false} FullMeansSpent(ops: map<nat, Use>, op: nat)
    requires WithinBudget(ops) && Reserved(ops) <= 0 && op in ops
    ensures |ops[op].blocks| == MAXOPBLOCKS
  {
    ReservedRemove(ops, op);
    ReservedBounds(ops - {op});
  }

  lemma {:induction false} NoRoomMeansRepeat(s: set<Word32>, b: Word32, n: nat)
    requires |s| == n && |s + {b}| <= n
    ensures b in s
  {
    assert b !in s ==> |s + {b}| == |s| + 1;
  }

  /** In every run whose operations log at most MAXOPBLOCKS distinct blocks each, with
      log.size > LOGSIZE: log_write panics exactly when the transaction holds LOGSIZE
      blocks, and then only on a block its own operation has logged before, while every
      open operation has used up its budget. */
  lemma {:induction false} PanicsExactly(L: Layout, ss: seq<State>, acts: seq<Step>, i: nat, a: Step)
    requires Run(L, ss, acts) && Budgeted(ss) && i < |ss| && L.size > LOGSIZE && Attempt(L, ss[i], a)
    ensures Panics(L, ss[i], a) <==> |ss[i].lh| == LOGSIZE
    ensures Panics(L, ss[i], a) ==>
      a.b in ss[i].ops[a.op].blocks && forall op :: op in ss[i].ops ==> |ss[i].ops[op].blocks| == MAXOPBLOCKS
  {
    var s := ss[i];
    RunReserves(L, ss, acts, i);
    RunKeepsInv(L, ss, acts, i);
    if Panics(L, s, a) {
      forall op | op in s.ops ensures |s.ops[op].blocks| == MAXOPBLOCKS {
        FullMeansSpent(s.ops, op);
      }
      NoRoomMeansRepeat(s.ops[a.op].blocks, a.b, MAXOPBLOCKS);
    }
  }

  /** So an operation that has logged fewer than MAXOPBLOCKS distinct blocks is safe. */
  lemma {:induction false} LogWriteNeverPanics(L: Layout, ss: seq<State>, acts: seq<Step>, i: nat, a: Step)
    requires Run(L, ss, acts) && Budgeted(ss) && i < |ss| && L.size > LOGSIZE
    requires a.LogWrite? && Enabled(L, ss[i], a) && |ss[i].ops[a.op].blocks| < MAXOPBLOCKS
    ensures !Panics(L, ss[i], a)
  {
    PanicsExactly(L, ss, acts, i, a);
  }

  // ---- Runs that end in a panic ----

  /** Enough home blocks for three full operations. */
  predicate Supply(L: Layout, d: Disk, hb: seq<Word32>) {
    |hb| == LOGSIZE && Distinct(hb) && forall i :: 0 <= i < |hb| ==> hb[i] < |d| && Home(L, hb[i])
  }

  /** The blocks lo to lo + n of hb, as a set. */
  function Part(hb: seq<Word32>, lo: nat, n: nat): (s: set<Word32>)
    requires lo + n <= |hb|
  {
    if n == 0 then {} else Part(hb, lo, n - 1) + {hb[lo + n - 1]}
  }

  lemma {:induction false} PartSize(hb: seq<Word32>, lo: nat, n: nat)
    requires lo + n <= |hb| && Distinct(hb)
    ensures |Part(hb, lo, n)| == n
    ensures forall k :: 0 <= k < |hb| ==> (hb[k] in Part(hb, lo, n) <==> lo <= k < lo + n)
  {
    if n > 0 {
      PartSize(hb, lo, n - 1);
    }
  }

  /** How many of the first j blocks fall to the operation that starts at k. */
  function Share(j: nat, k: nat): (n: nat)
    ensures n <= MAXOPBLOCKS
  {
    if j < k then 0 else if j - k > MAXOPBLOCKS then MAXOPBLOCKS else j - k
  }

  function ShareUse(hb: seq<Word32>, j: nat, k: nat): (u: Use)
    requires k + MAXOPBLOCKS <= |hb|
  {
    Use(Share(j, k), Part(hb, k, Share(j, k)))
  }

  function FillCache(hb: seq<Word32>, z: Block, j: nat): map<Word32, Block>
    requires j <= |hb|
  {
    if j == 0 then map[] else FillCache(hb, z, j - 1)[hb[j - 1] := z]
  }

  /** Three operations are open and together have logged image z for the first j of the blocks hb. */
  function Filled(d: Disk, hb: seq<Word32>, z: Block, j: nat): State
    requires j <= |hb| == LOGSIZE
  {
    State(d, Running, hb[..j], FillCache(hb, z, j),
          map[0 := ShareUse(hb, j, 0), 1 := ShareUse(hb, j, MAXOPBLOCKS), 2 := ShareUse(hb, j, 2 * MAXOPBLOCKS)])
  }

  lemma {:induction false} FilledOps(d: Disk, hb: seq<Word32>, z: Block, j: nat)
    requires j < |hb| == LOGSIZE
    ensures var op := j / MAXOPBLOCKS;
      var s := Filled(d, hb, z, j);
      op in s.ops && s.ops[op := Used(s.ops[op], hb[j])] == Filled(d, hb, z, j + 1).ops
  {
    var op := j / MAXOPBLOCKS;
    assert op == 0 || op == 1 || op == 2;
    assert Share(j + 1, op * MAXOPBLOCKS) == Share(j, op * MAXOPBLOCKS) + 1;
  }

  lemma {:induction false} FillOne(L: Layout, d: Disk, hb: seq<Word32>, z: Block, j: nat)
    requires Supply(L, d, hb) && j < LOGSIZE
    ensures var a := LogWrite(j / MAXOPBLOCKS, hb[j], z);
            && Enabled(L, Filled(d, hb, z, j), a)
            && (TooBig(L, hb[..j]) || Next(L, Filled(d, hb, z, j), a) == Filled(d, hb, z, j + 1))
  {
    FilledOps(d, hb, z, j);
    assert hb[..j + 1] == hb[..j] + [hb[j]];
  }

  lemma {:induction false} FilledBudget(d: Disk, hb: seq<Word32>, z: Block, j: nat)
    requires j <= |hb| == LOGSIZE && Distinct(hb)
    ensures WithinBudget(Filled(d, hb, z, j).ops) && CallBudget(Filled(d, hb, z, j).ops)
  {
    PartSize(hb, 0, Share(j, 0));
    PartSize(hb, MAXOPBLOCKS, Share(j, MAXOPBLOCKS));
    PartSize(hb, 2 * MAXOPBLOCKS, Share(j, 2 * MAXOPBLOCKS));
  }

  /** k operations are open and have logged nothing. */
  function Opened(d: Disk, k: nat): State
    requires k <= 3
  {
    var u := Use(0, {});
    State(d, Running, [], map[],
          if k == 0 then map[] else if k == 1 then map[0 := u]
          else if k == 2 then map[0 := u, 1 := u] else map[0 := u, 1 := u, 2 := u])
  }

  lemma {:induction false} OpenOne(L: Layout, d: Disk, k: nat)
    requires k < 3
    ensures Enabled(L, Opened(d, k), BeginOp(k))
    ensures Next(L, Opened(d, k), BeginOp(k)) == Opened(d, k + 1)
  {
    assert Opened(d, k).ops[k := Use(0, {})] == Opened(d, k + 1).ops;
  }

  function RampStates(d: Disk, hb: seq<Word32>, z: Block, m: nat): (ss: seq<State>)
    requires m <= |hb| == LOGSIZE
    ensures |ss| == m + 4
    ensures forall j :: 0 <= j < 3 ==> ss[j] == Opened(d, j)
    ensures forall j :: 0 <= j <= m ==> ss[3 + j] == Filled(d, hb, z, j)
  {
    if m == 0 then [Opened(d, 0), Opened(d, 1), Opened(d, 2), Filled(d, hb, z, 0)]
    else RampStates(d, hb, z, m - 1) + [Filled(d, hb, z, m)]
  }

  function RampSteps(hb: seq<Word32>, z: Block, m: nat): (acts: seq<Step>)
    requires m <= |hb|
    ensures |acts| == m + 3
    ensures forall j :: 0 <= j < 3 ==> acts[j] == BeginOp(j)
    ensures forall j :: 0 <= j < m ==> acts[3 + j] == LogWrite(j / MAXOPBLOCKS, hb[j], z)
  {
    if m == 0 then [BeginOp(0), BeginOp(1), BeginOp(2)]
    else RampSteps(hb, z, m - 1) + [LogWrite((m - 1) / MAXOPBLOCKS, hb[m - 1], z)]
  }

  lemma {:induction false} RampStep(L: Layout, d: Disk, hb: seq<Word32>, z: Block, m: nat, i: nat)
    requires Supply(L, d, hb) && m <= LOGSIZE && m <= L.size - 1 && i < m + 3
    ensures StepTo(L, RampStates(d, hb, z, m)[i], RampSteps(hb, z, m)[i], RampStates(d, hb, z, m)[i + 1])
  {
    var ss, acts := RampStates(d, hb, z, m), RampSteps(hb, z, m);
    if i >= 3 {
      var j := i - 3;
      FillOne(L, d, hb, z, j);
      assert ss[3 + j] == Filled(d, hb, z, j) && ss[3 + (j + 1)] == Filled(d, hb, z, j + 1);
      assert acts[3 + j] == LogWrite(j / MAXOPBLOCKS, hb[j], z);
    } else {
      OpenOne(L, d, i);
      assert Opened(d, 3) == Filled(d, hb, z, 0);
      assert ss[3 + 0] == Filled(d, hb, z, 0);
    }
  }

  lemma {:induction false} RampBudget(d: Disk, hb: seq<Word32>, z: Block, m: nat)
    requires m <= |hb| == LOGSIZE && Distinct(hb)
    ensures Budgeted(RampStates(d, hb, z, m)) && CallBudgeted(RampStates(d, hb, z, m))
  {
    var ss := RampStates(d, hb, z, m);
    forall i | 0 <= i < |ss| ensures WithinBudget(ss[i].ops) && CallBudget(ss[i].ops) {
      if i >= 3 {
        assert ss[3 + (i - 3)] == Filled(d, hb, z, i - 3);
        FilledBudget(d, hb, z, i - 3);
      } else {
        assert ss[i] == Opened(d, i);
      }
    }
  }

  /** Three operations log the first m of the blocks: a run within both budgets. */
  lemma {:induction false} RampIsRun(L: Layout, d: Disk, hb: seq<Word32>, z: Block, m: nat)
    requires Supply(L, d, hb) && Formatted(L, d) && Header(L, d) == []
    requires m <= LOGSIZE && m <= L.size - 1
    ensures var ss := RampStates(d, hb, z, m);
      Run(L, ss, RampSteps(hb, z, m)) && Budgeted(ss) && CallBudgeted(ss) && ss[m + 3] == Filled(d, hb, z, m)
  {
    var ss, acts := RampStates(d, hb, z, m), RampSteps(hb, z, m);
    assert ss[0] == Opened(d, 0);
    forall i | 0 <= i < |acts| ensures StepTo(L, ss[i], acts[i], ss[i + 1]) {
      RampStep(L, d, hb, z, m, i);
    }
    RampBudget(d, hb, z, m);
    assert ss[3 + m] == Filled(d, hb, z, m);
  }

  /** Some run within the budget of distinct blocks ends in a panic, on a block that the
      transaction holds already or not. */
  ghost predicate PanicReachable(L: Layout, d: Disk, repeated: bool) {
    exists ss: seq<State>, acts: seq<Step>, a: Step ::
      && Run(L, ss, acts) && Budgeted(ss) && ss[0].disk == d
      && Attempt(L, ss[|acts|], a) && Panics(L, ss[|acts|], a)
      && (a.b in ss[|acts|].lh <==> repeated)
  }

  lemma {:induction false} PanicWitness(L: Layout, d: Disk, ss: seq<State>, acts: seq<Step>, a: Step, repeated: bool)
    requires Run(L, ss, acts) && Budgeted(ss) && ss[0].disk == d
    requires Attempt(L, ss[|acts|], a) && Panics(L, ss[|acts|], a) && (a.b in ss[|acts|].lh <==> repeated)
    ensures PanicReachable(L, d, repeated)
  {
  }

  /** The next block to be logged is a fresh one within its operation's budget. */
  lemma {:induction false} NextIsAttempt(L: Layout, d: Disk, hb: seq<Word32>, z: Block, m: nat)
    requires Supply(L, d, hb) && m < LOGSIZE
    ensures var s, a := Filled(d, hb, z, m), LogWrite(m / MAXOPBLOCKS, hb[m], z);
      Attempt(L, s, a) && a.b !in s.lh && s.ops[a.op].calls < MAXOPBLOCKS
  {
    FillOne(L, d, hb, z, m);
    FilledBudget(d, hb, z, m + 1);
    FilledOps(d, hb, z, m);
    var s, op, next := Filled(d, hb, z, m), m / MAXOPBLOCKS, Filled(d, hb, z, m + 1).ops;
    assert op in next && next[op] == Used(s.ops[op], hb[m]);
    assert forall k :: 0 <= k < m ==> s.lh[k] == hb[k] != hb[m];
  }

  /** Exactly when the panic can strike a block that is new to the transaction: when the
      log area has no more than LOGSIZE blocks, header included, as mkfs lays it out. */
  lemma {:induction false} NewBlockPanicIff(L: Layout, d: Disk, hb: seq<Word32>)
    requires Supply(L, d, hb) && Formatted(L, d) && Header(L, d) == []
    ensures PanicReachable(L, d, false) <==> L.size <= LOGSIZE
  {
    if L.size <= LOGSIZE {
      var m, z := L.size - 1, d[L.start];
      RampIsRun(L, d, hb, z, m);
      NextIsAttempt(L, d, hb, z, m);
      PanicWitness(L, d, RampStates(d, hb, z, m), RampSteps(hb, z, m), LogWrite(m / MAXOPBLOCKS, hb[m], z), false);
    } else {
      forall ss: seq<State>, acts: seq<Step>, a: Step
        | Run(L, ss, acts) && Budgeted(ss) && Attempt(L, ss[|acts|], a) && Panics(L, ss[|acts|], a)
        ensures a.b in ss[|acts|].lh
      {
        PanicsExactly(L, ss, acts, |acts|, a);
        RunUses(L, ss, acts, |acts|);
      }
    }
  }

  /** The last block logged can be logged again within the budget. */
  lemma {:induction false} AgainIsAttempt(L: Layout, d: Disk, hb: seq<Word32>, z: Block, m: nat)
    requires Supply(L, d, hb) && 0 < m <= LOGSIZE
    ensures var s, a := Filled(d, hb, z, m), LogWrite((m - 1) / MAXOPBLOCKS, hb[m - 1], z);
      Attempt(L, s, a) && a.b in s.lh
  {
    FilledOps(d, hb, z, m - 1);
    FilledBudget(d, hb, z, m);
    var s, op := Filled(d, hb, z, m), (m - 1) / MAXOPBLOCKS;
    assert hb[m - 1] in s.ops[op].blocks;
    assert s.ops[op].blocks + {hb[m - 1]} == s.ops[op].blocks;
    assert hb[..m][m - 1] == hb[m - 1];
  }

  /** The size test comes before the search for the block, so a full transaction also
      refuses a block it holds: such a panic is reachable in every log that can hold a
      block at all, whatever its size. */
  lemma {:induction false} RepeatedBlockPanicIff(L: Layout, d: Disk, hb: seq<Word32>)
    requires Supply(L, d, hb) && Formatted(L, d) && Header(L, d) == []
    ensures PanicReachable(L, d, true) <==> L.size >= 2
  {
    if L.size >= 2 {
      var m, z := if L.size - 1 < LOGSIZE then L.size - 1 else LOGSIZE, d[L.start];
      RampIsRun(L, d, hb, z, m);
      AgainIsAttempt(L, d, hb, z, m);
      var again := LogWrite((m - 1) / MAXOPBLOCKS, hb[m - 1], z);
      PanicWitness(L, d, RampStates(d, hb, z, m), RampSteps(hb, z, m), again, true);
    } else {
      forall ss: seq<State>, acts: seq<Step> | Run(L, ss, acts) ensures ss[|acts|].lh == [] {
        RunKeepsInv(L, ss, acts, |acts|);
      }
    }
  }

  // ---- Runs that end in a full commit ----

  /** A budgeted run from d ends with a commit of LOGSIZE blocks about to start. */
  ghost predicate FullCommit(L: Layout, d: Disk, ss: seq<State>, acts: seq<Step>) {
    && Run(L, ss, acts) && Budgeted(ss) && ss[0].disk == d
    && ss[|acts|].phase.Committing? && ss[|acts|].phase.done == 0 && |ss[|acts|].lh| == LOGSIZE
  }

  lemma {:induction false} EndOpExtends(L: Layout, ss: seq<State>, acts: seq<Step>, op: nat)
      returns (ss': seq<State>, acts': seq<Step>)
    requires Run(L, ss, acts) && Budgeted(ss) && ss[|acts|].phase.Running? && op in ss[|acts|].ops
    ensures Run(L, ss', acts') && Budgeted(ss') && ss'[0] == ss[0]
    ensures var s, t := ss[|acts|], ss'[|acts'|];
      && t.ops == s.ops - {op} && t.lh == s.lh && (t.phase.Running? <==> t.ops != map[])
      && (!t.phase.Running? ==> t.phase.Committing? && t.phase.done == 0)
  {
    var s := ss[|acts|];
    var t := Next(L, s, EndOp(op));
    ss', acts' := ss + [t], acts + [EndOp(op)];
    forall i | 0 <= i < |acts'| ensures StepTo(L, ss'[i], acts'[i], ss'[i + 1]) {
      assert i < |acts| ==> StepTo(L, ss[i], acts[i], ss[i + 1]);
    }
    assert WithinBudget(s.ops) && WithinBudget(t.ops);
  }

  /** The open operations end one after the other. */
  lemma {:induction false} AllEnd(L: Layout, ss: seq<State>, acts: seq<Step>, n: nat)
      returns (ss': seq<State>, acts': seq<Step>)
    requires Run(L, ss, acts) && Budgeted(ss) && ss[|acts|].phase.Running? && n > 0
    requires forall op: nat :: op in ss[|acts|].ops <==> op < n
    ensures Run(L, ss', acts') && Budgeted(ss') && ss'[0] == ss[0]
    ensures var s, t := ss[|acts|], ss'[|acts'|]; t.lh == s.lh && t.phase.Committing? && t.phase.done == 0
    decreases n
  {
    ss', acts' := EndOpExtends(L, ss, acts, n - 1);
    if n == 1 {
      assert ss'[|acts'|].ops == map[];
    } else {
      assert 0 in ss'[|acts'|].ops;
      ss', acts' := AllEnd(L, ss', acts', n - 1);
    }
  }

  lemma {:induction false} FullCommitReached(L: Layout, d: Disk, hb: seq<Word32>)
      returns (ss: seq<State>, acts: seq<Step>)
    requires Supply(L, d, hb) && Formatted(L, d) && Header(L, d) == [] && L.size > LOGSIZE
    ensures FullCommit(L, d, ss, acts)
  {
    ss, acts := FullRamp(L, d, hb);
    ss, acts := AllEnd(L, ss, acts, 3);
  }

  lemma {:induction false} FullRamp(L: Layout, d: Disk, hb: seq<Word32>) returns (ss: seq<State>, acts: seq<Step>)
    requires Supply(L, d, hb) && Formatted(L, d) && Header(L, d) == [] && L.size > LOGSIZE
    ensures Run(L, ss, acts) && Budgeted(ss) && ss[0].disk == d
    ensures var s := ss[|acts|];
      s.phase.Running? && |s.lh| == LOGSIZE && forall op: nat :: op in s.ops <==> op < 3
  {
    var z := d[L.start];
    RampIsRun(L, d, hb, z, LOGSIZE);
    ss, acts := RampStates(d, hb, z, LOGSIZE), RampSteps(hb, z, LOGSIZE);
    FilledState(d, hb, z);
  }

  lemma {:induction false} FilledState(d: Disk, hb: seq<Word32>, z: Block)
    requires |hb| == LOGSIZE
    ensures var s := Filled(d, hb, z, LOGSIZE);
      s.phase.Running? && |s.lh| == LOGSIZE && forall op: nat :: op in s.ops <==> op < 3
  {
  }

  /** Commits of LOGSIZE blocks happen exactly in logs with log.size > LOGSIZE. */
  lemma {:induction false} FullCommitIff(L: Layout, d: Disk, hb: seq<Word32>)
    requires Supply(L, d, hb) && Formatted(L, d) && Header(L, d) == []
    ensures (exists ss, acts :: FullCommit(L, d, ss, acts)) <==> L.size > LOGSIZE
  {
    if L.size > LOGSIZE {
      var ss, acts := FullCommitReached(L, d, hb);
    } else {
      forall ss, acts | FullCommit(L, d, ss, acts) ensures false {
        RunKeepsInv(L, ss, acts, |acts|);
      }
    }
  }

  // ---- Counting calls instead of blocks ----

  predicate CallBudget(ops: map<nat, Use>) {
    forall op :: op in ops ==> ops[op].calls <= MAXOPBLOCKS
  }

  predicate CallBudgeted(ss: seq<State>) {
    forall i :: 0 <= i < |ss| ==> CallBudget(ss[i].ops)
  }

  ghost predicate CallPanicReachable(L: Layout, d: Disk) {
    exists ss: seq<State>, acts: seq<Step>, a: Step ::
      && Run(L, ss, acts) && CallBudgeted(ss) && ss[0].disk == d
      && a.LogWrite? && Panics(L, ss[|acts|], a) && ss[|acts|].ops[a.op].calls < MAXOPBLOCKS
  }

  lemma {:induction false} CallsBoundBlocks(L: Layout, ss: seq<State>, acts: seq<Step>)
    requires Run(L, ss, acts) && CallBudgeted(ss)
    ensures Budgeted(ss)
  {
    forall i | 0 <= i < |ss| ensures WithinBudget(ss[i].ops) {
      RunUses(L, ss, acts, i);
    }
  }

  lemma {:induction false} CallPanicBelow(L: Layout, d: Disk, hb: seq<Word32>)
    requires Supply(L, d, hb) && Formatted(L, d) && Header(L, d) == [] && L.size <= LOGSIZE
    ensures CallPanicReachable(L, d)
  {
    var m, z := L.size - 1, d[L.start];
    RampIsRun(L, d, hb, z, m);
    NextIsAttempt(L, d, hb, z, m);
    CallWitness(L, d, RampStates(d, hb, z, m), RampSteps(hb, z, m), LogWrite(m / MAXOPBLOCKS, hb[m], z));
  }

  lemma {:induction false} CallWitness(L: Layout, d: Disk, ss: seq<State>, acts: seq<Step>, a: Step)
    requires Run(L, ss, acts) && CallBudgeted(ss) && ss[0].disk == d
    requires a.LogWrite? && Panics(L, ss[|acts|], a) && ss[|acts|].ops[a.op].calls < MAXOPBLOCKS
    ensures CallPanicReachable(L, d)
  {
  }

  lemma {:induction false} CallNeverPanics(L: Layout, ss: seq<State>, acts: seq<Step>, a: Step)
    requires Run(L, ss, acts) && CallBudgeted(ss) && L.size > LOGSIZE
    requires a.LogWrite? && Enabled(L, ss[|acts|], a) && ss[|acts|].ops[a.op].calls < MAXOPBLOCKS
    ensures !Panics(L, ss[|acts|], a)
  {
    CallsBoundBlocks(L, ss, acts);
    RunUses(L, ss, acts, |acts|);
    LogWriteNeverPanics(L, ss, acts, |acts|, a);
  }

  /** Operations that make at most MAXOPBLOCKS calls each, repeated blocks counted again,
      can run into the panic exactly when log.size <= LOGSIZE. */
  lemma {:induction false} CallPanicIff(L: Layout, d: Disk, hb: seq<Word32>)
    requires Supply(L, d, hb) && Formatted(L, d) && Header(L, d) == []
    ensures CallPanicReachable(L, d) <==> L.size <= LOGSIZE
  {
    if L.size <= LOGSIZE {
      CallPanicBelow(L, d, hb);
    } else if CallPanicReachable(L, d) {
      var ss: seq<State>, acts: seq<Step>, a: Step :|
        && Run(L, ss, acts) && CallBudgeted(ss) && ss[0].disk == d
        && a.LogWrite? && Panics(L, ss[|acts|], a) && ss[|acts|].ops[a.op].calls < MAXOPBLOCKS;
      CallNeverPanics(L, ss, acts, a);
    }
  }
}
