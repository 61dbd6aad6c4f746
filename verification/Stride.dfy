/** Stride scheduling between the MLFQ and the processes that own a CPU share: the
    selection loop of scheduler() and the bound it gives on how far clients drift apart. */
module Stride {
  import opened ProcStates

  const MAXTICKET: nat := 10000000

  /** The int division MAXTICKET / percentage. */
  function StrideOf(percentage: int): (s: int)
    requires 0 < percentage <= MAXTICKET
    ensures s > 0 && s * percentage <= MAXTICKET < (s + 1) * percentage
  {
    MAXTICKET / percentage
  }

  datatype Proc = Proc(state: ProcState, percentage: int, pass: int)

  /** Owns a share and is neither unused, half made, nor dead. */
  predicate Client(p: Proc) {
    p.percentage != 0 && p.state != UNUSED && p.state != EMBRYO && p.state != ZOMBIE
  }

  /** The selection loop: the smallest pass, and the client that has it if it is
      smaller than the MLFQ's. Among equals the lowest slot wins, and ties go to MLFQ. */
  method Select(procs: seq<Proc>, mlfqPass: int) returns (minpass: int, chosen: int)
    ensures minpass <= mlfqPass && forall i :: 0 <= i < |procs| && Client(procs[i]) ==> minpass <= procs[i].pass
    ensures chosen == -1 ==> minpass == mlfqPass
    ensures chosen != -1 ==>
      && 0 <= chosen < |procs| && Client(procs[chosen]) && procs[chosen].pass == minpass < mlfqPass
      && forall i :: 0 <= i < chosen && Client(procs[i]) ==> minpass < procs[i].pass
  {
    minpass, chosen := mlfqPass, -1;
    var i := 0;
    while i < |procs|
      invariant 0 <= i <= |procs|
      invariant minpass <= mlfqPass && forall j :: 0 <= j < i && Client(procs[j]) ==> minpass <= procs[j].pass
      invariant chosen == -1 ==> minpass == mlfqPass
      invariant chosen != -1 ==>
        && 0 <= chosen < i && Client(procs[chosen]) && procs[chosen].pass == minpass < mlfqPass
        && forall j :: 0 <= j < chosen && Client(procs[j]) ==> minpass < procs[j].pass
    {
      if Client(procs[i]) && minpass > procs[i].pass {
        chosen := i;
        minpass := procs[i].pass;
      }
      i := i + 1;
    }
  }

  // ---- Rounds ----

  /** Scheduler state with the MLFQ's share. turns[i] counts the turns of slot i, slices
      the ticks charged to the MLFQ. */
  datatype State = State(procs: seq<Proc>, mlfqPct: int, mlfqPass: int, turns: seq<nat>, slices: nat)

  /** Some process owns a share, and all shares are positive. */
  predicate Ok(s: State) {
    && |s.turns| == |s.procs| && 0 < s.mlfqPct < 100
    && forall i :: 0 <= i < |s.procs| && Client(s.procs[i]) ==> 0 < s.procs[i].percentage <= 100
  }

  function Charge(s: State, i: nat): (c: int)
    requires Ok(s) && i < |s.procs| && Client(s.procs[i])
    ensures c > 0
  {
    StrideOf(s.procs[i].percentage)
  }

  function MlfqCharge(s: State): (c: int)
    requires Ok(s)
    ensures c > 0
  {
    StrideOf(s.mlfqPct)
  }

  /** m is the smallest pass of all clients and the MLFQ. */
  ghost predicate IsMin(s: State, m: int) {
    && m <= s.mlfqPass && (forall i :: 0 <= i < |s.procs| && Client(s.procs[i]) ==> m <= s.procs[i].pass)
    && (m == s.mlfqPass || exists i :: 0 <= i < |s.procs| && Client(s.procs[i]) && m == s.procs[i].pass)
  }

  /** Between turns processes sleep and wake, which leaves their shares alone; in a
      round the MLFQ runs 1 to 4 ticks and pays for each, or a client runs one turn. */
  datatype Round = Shuffle(states: seq<ProcState>) | Mlfq(ticks: nat) | Owner(i: nat)

  /** A client stays one, and no other process becomes one. */
  predicate KeepsClients(procs: seq<Proc>, states: seq<ProcState>) {
    |states| == |procs| && forall i :: 0 <= i < |procs| ==>
      (Client(procs[i]) <==> Client(procs[i].(state := states[i])))
  }

  ghost predicate Allowed(s: State, r: Round) {
    match r
    case Shuffle(states) => KeepsClients(s.procs, states)
    case Mlfq(ticks) => IsMin(s, s.mlfqPass) && 1 <= ticks <= 4
    case Owner(i) => i < |s.procs| && Client(s.procs[i]) && IsMin(s, s.procs[i].pass) && s.procs[i].pass < s.mlfqPass
  }

  function Restate(procs: seq<Proc>, states: seq<ProcState>): (r: seq<Proc>)
    requires |states| == |procs|
  {
    seq(|procs|, i requires 0 <= i < |procs| => procs[i].(state := states[i]))
  }

  ghost function Next(s: State, r: Round): State
    requires Ok(s) && Allowed(s, r)
  {
    match r
    case Shuffle(states) => s.(procs := Restate(s.procs, states))
    case Mlfq(ticks) => s.(mlfqPass := s.mlfqPass + MlfqCharge(s) * ticks, slices := s.slices + ticks)
    case Owner(i) =>
      s.(procs := s.procs[i := s.procs[i].(pass := s.procs[i].pass + Charge(s, i))],
         turns := s.turns[i := s.turns[i] + 1])
  }

  /** The selection loop picks a round that is allowed. */
  method Choose(s: State, ticks: nat) returns (minpass: int, r: Round)
    requires Ok(s) && 1 <= ticks <= 4
    ensures IsMin(s, minpass) && Allowed(s, r) && (r == Mlfq(ticks) || r.Owner?)
  {
    var chosen;
    minpass, chosen := Select(s.procs, s.mlfqPass);
    r := if chosen == -1 then Mlfq(ticks) else Owner(chosen);
  }

  /** Every client is at most one of its own charges ahead of the minimum, and the MLFQ
      at most four. */
  ghost predicate Close(s: State, m: int)
    requires Ok(s)
  {
    && IsMin(s, m)
    && (forall i {:trigger s.procs[i]} :: 0 <= i < |s.procs| && Client(s.procs[i]) ==>
      s.procs[i].pass <= m + Charge(s, i))
    && s.mlfqPass <= m + 4 * MlfqCharge(s)
  }

  /** Rounds change neither shares nor who is a client. */
  lemma {:induction false} NextOk(s: State, r: Round)
    requires Ok(s) && Allowed(s, r)
    ensures var t := Next(s, r);
            && Ok(t) && |t.procs| == |s.procs| && t.mlfqPct == s.mlfqPct
            && forall i {:trigger t.procs[i]} {:trigger s.procs[i]} :: 0 <= i < |s.procs| ==>
              t.procs[i].percentage == s.procs[i].percentage && (Client(t.procs[i]) <==> Client(s.procs[i]))
  {
  }

  lemma {:induction false} MinExists(s: State) returns (m: int)
    ensures IsMin(s, m)
  {
    m := s.mlfqPass;
    var i := 0;
    while i < |s.procs|
      invariant 0 <= i <= |s.procs|
      invariant m <= s.mlfqPass && forall j :: 0 <= j < i && Client(s.procs[j]) ==> m <= s.procs[j].pass
      invariant m == s.mlfqPass || exists j :: 0 <= j < |s.procs| && Client(s.procs[j]) && m == s.procs[j].pass
    {
      if Client(s.procs[i]) && s.procs[i].pass < m {
        m := s.procs[i].pass;
      }
      i := i + 1;
    }
  }

  /** Passes only grow, so the minimum never falls. */
  lemma {:induction false} MinGrows(s: State, m: int, r: Round, m': int)
    requires Ok(s) && Allowed(s, r) && IsMin(s, m) && IsMin(Next(s, r), m')
    ensures m <= m'
  {
    NextOk(s, r);
    var t := Next(s, r);
    if r.Mlfq? {
      assert MlfqCharge(s) * r.ticks >= 0;
    }
    if m' != t.mlfqPass {
      var i :| 0 <= i < |t.procs| && Client(t.procs[i]) && m' == t.procs[i].pass;
      assert m <= s.procs[i].pass <= t.procs[i].pass;
    }
  }

  lemma {:induction false} RoundKeepsClose(s: State, m: int, r: Round, m': int)
    requires Ok(s) && Allowed(s, r) && Close(s, m) && IsMin(Next(s, r), m')
    ensures Ok(Next(s, r)) && Close(Next(s, r), m')
  {
    NextOk(s, r);
    MinGrows(s, m, r, m');
    var t := Next(s, r);
    forall i | 0 <= i < |t.procs| && Client(t.procs[i]) ensures t.procs[i].pass <= m' + Charge(t, i) {
      assert s.procs[i].pass <= m + Charge(s, i);
    }
    if r.Mlfq? {
      AtMostFour(MlfqCharge(s), r.ticks);
    }
  }

  lemma {:induction false} AtMostFour(c: nat, ticks: nat)
    requires ticks <= 4
    ensures c * ticks <= 4 * c
  {
  }

  ghost predicate StepTo(s: State, r: Round, t: State) {
    Ok(s) && Allowed(s, r) && t == Next(s, r)
  }

  ghost predicate Run(ss: seq<State>, rs: seq<Round>) {
    && |ss| == |rs| + 1 && Ok(ss[0])
    && forall k :: 0 <= k < |rs| ==> StepTo(ss[k], rs[k], ss[k + 1])
  }

  /** Shares and clients are those of the first state. */
  lemma {:induction false} RunOk(ss: seq<State>, rs: seq<Round>, k: nat)
    requires Run(ss, rs) && k < |ss|
    ensures Ok(ss[k]) && |ss[k].procs| == |ss[0].procs| && ss[k].mlfqPct == ss[0].mlfqPct
    ensures forall i {:trigger ss[k].procs[i]} :: 0 <= i < |ss[0].procs| ==>
      ss[k].procs[i].percentage == ss[0].procs[i].percentage && (Client(ss[k].procs[i]) <==> Client(ss[0].procs[i]))
  {
    if k > 0 {
      RunOk(ss, rs, k - 1);
      assert StepTo(ss[k - 1], rs[k - 1], ss[k - 1 + 1]);
      NextOk(ss[k - 1], rs[k - 1]);
      forall i | 0 <= i < |ss[0].procs|
        ensures ss[k].procs[i].percentage == ss[0].procs[i].percentage
          && (Client(ss[k].procs[i]) <==> Client(ss[0].procs[i]))
      {
        assert ss[k - 1].procs[i].percentage == ss[0].procs[i].percentage;
      }
    }
  }

  /** Passes start equal and no turns have been taken. */
  predicate Even(s: State) {
    && (forall i :: 0 <= i < |s.procs| && Client(s.procs[i]) ==> s.procs[i].pass == s.mlfqPass)
    && (forall i :: 0 <= i < |s.turns| ==> s.turns[i] == 0) && s.slices == 0
  }

  /** Lag bound over whole runs. */
  lemma {:induction false} RunStaysClose(ss: seq<State>, rs: seq<Round>, m0: int, k: nat) returns (m: int)
    requires Run(ss, rs) && Close(ss[0], m0) && k < |ss|
    ensures Ok(ss[k]) && Close(ss[k], m)
  {
    if k == 0 {
      m := m0;
    } else {
      var before := RunStaysClose(ss, rs, m0, k - 1);
      assert StepTo(ss[k - 1], rs[k - 1], ss[k - 1 + 1]);
      m := MinExists(ss[k]);
      RoundKeepsClose(ss[k - 1], before, rs[k - 1], m);
    }
  }

  /** A pass is its starting value plus what its owner was charged. */
  lemma {:induction false} PassCountsTurns(ss: seq<State>, rs: seq<Round>, k: nat, i: nat)
    requires Run(ss, rs) && k < |ss| && i < |ss[0].procs| && Client(ss[0].procs[i]) && Even(ss[0])
    ensures Ok(ss[k]) && |ss[k].procs| == |ss[0].procs|
    ensures ss[k].procs[i].pass == ss[0].mlfqPass + ss[k].turns[i] * Charge(ss[0], i)
    ensures ss[k].mlfqPass == ss[0].mlfqPass + ss[k].slices * MlfqCharge(ss[0])
  {
    RunOk(ss, rs, k);
    if k > 0 {
      PassCountsTurns(ss, rs, k - 1, i);
      RunOk(ss, rs, k - 1);
      assert StepTo(ss[k - 1], rs[k - 1], ss[k - 1 + 1]);
      assert ss[k - 1].procs[i].percentage == ss[0].procs[i].percentage;
      RoundCharges(ss[k - 1], rs[k - 1], i, ss[0].mlfqPass);
    }
  }

  /** One round adds to a pass what it adds to the turns, weighted by the stride. */
  lemma {:induction false} RoundCharges(s: State, r: Round, i: nat, start: int)
    requires Ok(s) && Allowed(s, r) && i < |s.procs| && Client(s.procs[i])
    requires s.procs[i].pass == start + s.turns[i] * Charge(s, i)
    requires s.mlfqPass == start + s.slices * MlfqCharge(s)
    ensures var t := Next(s, r);
      && |t.procs| == |t.turns| == |s.procs|
      && t.procs[i].pass == start + t.turns[i] * Charge(s, i)
      && t.mlfqPass == start + t.slices * MlfqCharge(s)
  {
    var c, m := Charge(s, i), MlfqCharge(s);
    match r
    case Shuffle(_) =>
    case Mlfq(ticks) => Distribute(s.slices, ticks, m);
    case Owner(j) => Distribute(s.turns[i], 1, c);
  }

  lemma {:induction false} Distribute(a: int, b: int, c: int)
    ensures (a + b) * c == a * c + c * b
  {
  }

  /** Proportional fairness: after any number of rounds from an even start, the turns that
      two clients got, weighted by MAXTICKET over their shares, differ by at most that of the
      one that is ahead. */
  lemma {:induction false} TurnsAreProportional(ss: seq<State>, rs: seq<Round>, k: nat, i: nat, j: nat)
    requires Run(ss, rs) && k < |ss| && Even(ss[0])
    requires i < |ss[0].procs| && Client(ss[0].procs[i]) && j < |ss[0].procs| && Client(ss[0].procs[j])
    ensures |ss[k].turns| == |ss[0].procs|
    ensures var pi, pj := ss[0].procs[i].percentage, ss[0].procs[j].percentage;
      && 0 < pi <= 100 && 0 < pj <= 100
      && -(MAXTICKET / pj) <= ss[k].turns[i] * (MAXTICKET / pi) - ss[k].turns[j] * (MAXTICKET / pj) <= MAXTICKET / pi
  {
    var m := RunStaysClose(ss, rs, ss[0].mlfqPass, k);
    RunOk(ss, rs, k);
    PassCountsTurns(ss, rs, k, i);
    PassCountsTurns(ss, rs, k, j);
    assert Client(ss[k].procs[i]) && Client(ss[k].procs[j]);
  }

  /** The same between the MLFQ and a client, with the MLFQ's slice of up to four ticks. */
  lemma {:induction false} MlfqIsProportional(ss: seq<State>, rs: seq<Round>, k: nat, i: nat)
    requires Run(ss, rs) && k < |ss| && Even(ss[0]) && i < |ss[0].procs| && Client(ss[0].procs[i])
    ensures |ss[k].turns| == |ss[0].procs|
    ensures var pm, pi := ss[0].mlfqPct, ss[0].procs[i].percentage;
      && 0 < pm < 100 && 0 < pi <= 100
      && -(MAXTICKET / pi) <= ss[k].slices * (MAXTICKET / pm) - ss[k].turns[i] * (MAXTICKET / pi)
                           <= 4 * (MAXTICKET / pm)
  {
    var m := RunStaysClose(ss, rs, ss[0].mlfqPass, k);
    RunOk(ss, rs, k);
    PassCountsTurns(ss, rs, k, i);
    assert Client(ss[k].procs[i]);
  }

  // ---- Fairness without strides ----

  /** a turns at share p against b turns at share q. */
  lemma {:induction false} SharesWeigh(a: nat, p: int, b: nat, q: int, n: nat)
    requires 0 < p <= MAXTICKET && 0 < q <= MAXTICKET
    requires a * (MAXTICKET / p) - b * (MAXTICKET / q) <= n * (MAXTICKET / p)
    ensures MAXTICKET * (a * q - b * p) <= MAXTICKET * (n * q) + a * p * q
  {
    var s, t := StrideOf(p), StrideOf(q);
    WeighLeft(a, s, p, q);
    WeighRight(b, t, p, q);
    WeighRight(n, s, q, p);
    Scaled(a * s, b * t + n * s, p * q);
  }

  lemma {:induction false} Scaled(x: int, y: int, c: int)
    requires x <= y && c >= 0
    ensures x * c <= y * c
  {
  }

  lemma {:induction false} WeighLeft(a: nat, s: int, p: int, q: int)
    requires p > 0 && q > 0 && MAXTICKET < (s + 1) * p
    ensures MAXTICKET * (a * q) <= a * s * (p * q) + a * p * q
  {
    Scaled(MAXTICKET, s * p + p, a * q);
    assert (s * p + p) * (a * q) == a * s * (p * q) + a * p * q;
  }

  lemma {:induction false} WeighRight(b: nat, t: int, p: int, q: int)
    requires p > 0 && q > 0 && t * q <= MAXTICKET
    ensures b * t * (p * q) <= MAXTICKET * (b * p)
  {
    Scaled(t * q, MAXTICKET, b * p);
    assert t * q * (b * p) == b * t * (p * q);
  }

  /** In shares: the turns of i and j are in the proportion of their shares, up to one turn
      and the rounding of the strides, which is one part in MAXTICKET / (pi * pj) a turn. */
  lemma {:induction false} TurnsFollowShares(ss: seq<State>, rs: seq<Round>, k: nat, i: nat, j: nat)
    requires Run(ss, rs) && k < |ss| && Even(ss[0])
    requires i < |ss[0].procs| && Client(ss[0].procs[i]) && j < |ss[0].procs| && Client(ss[0].procs[j])
    ensures |ss[k].turns| == |ss[0].procs|
    ensures var pi, pj, ti, tj := ss[0].procs[i].percentage, ss[0].procs[j].percentage, ss[k].turns[i], ss[k].turns[j];
      MAXTICKET * (ti * pj - tj * pi) <= MAXTICKET * pj + ti * pi * pj
  {
    TurnsAreProportional(ss, rs, k, i, j);
    SharesWeigh(ss[k].turns[i], ss[0].procs[i].percentage, ss[k].turns[j], ss[0].procs[j].percentage, 1);
  }

  /** The same for the MLFQ, ahead of a client by at most four ticks, or behind it. */
  lemma {:induction false} MlfqFollowsShares(ss: seq<State>, rs: seq<Round>, k: nat, i: nat)
    requires Run(ss, rs) && k < |ss| && Even(ss[0]) && i < |ss[0].procs| && Client(ss[0].procs[i])
    ensures |ss[k].turns| == |ss[0].procs|
    ensures var pm, pi, n, t := ss[0].mlfqPct, ss[0].procs[i].percentage, ss[k].slices, ss[k].turns[i];
      && MAXTICKET * (n * pi - t * pm) <= MAXTICKET * (4 * pi) + n * pm * pi
      && MAXTICKET * (t * pm - n * pi) <= MAXTICKET * pm + t * pi * pm
  {
    MlfqIsProportional(ss, rs, k, i);
    SharesWeigh(ss[k].slices, ss[0].mlfqPct, ss[k].turns[i], ss[0].procs[i].percentage, 4);
    SharesWeigh(ss[k].turns[i], ss[0].procs[i].percentage, ss[k].slices, ss[0].mlfqPct, 1);
  }

  /** Who has the larger share is at most one turn behind. */
  lemma {:induction false} LargerShareNotBehind(ss: seq<State>, rs: seq<Round>, k: nat, i: nat, j: nat)
    requires Run(ss, rs) && k < |ss| && Even(ss[0])
    requires i < |ss[0].procs| && Client(ss[0].procs[i]) && j < |ss[0].procs| && Client(ss[0].procs[j])
    requires ss[0].procs[i].percentage >= ss[0].procs[j].percentage
    ensures |ss[k].turns| == |ss[0].procs| && ss[k].turns[j] <= ss[k].turns[i] + 1
  {
    TurnsAreProportional(ss, rs, k, i, j);
    var pi, pj, ti, tj := ss[0].procs[i].percentage, ss[0].procs[j].percentage, ss[k].turns[i], ss[k].turns[j];
    SmallerStride(pi, pj);
    NotBehind(ti, tj, MAXTICKET / pi, MAXTICKET / pj);
  }

  lemma {:induction false} SmallerStride(p: int, q: int)
    requires 0 < q <= p <= MAXTICKET
    ensures 0 < MAXTICKET / p <= MAXTICKET / q
  {
    var s, t := StrideOf(p), StrideOf(q);
    if t < s {
      Scaled(q, p, t + 1);
      Scaled(t + 1, s, p);
    }
  }

  lemma {:induction false} NotBehind(a: nat, b: nat, s: int, t: int)
    requires 0 < s <= t && -t <= a * s - b * t
    ensures b <= a + 1
  {
    Scaled(s, t, a);
    if b > a + 1 {
      Scaled(a + 2, b, t);
    }
  }
}
