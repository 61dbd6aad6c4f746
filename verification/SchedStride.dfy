/** The shares that runs of the process table produce, as the stride selection reads them. */
module SchedStride {
  import opened MlfqQueue
  import opened SchedTable
  import opened SchedRuns
  import Stride

  /** What the selection loop of scheduler() reads of the table; the pool is the MLFQ's share. */
  function Seen(t: Table, mlfqPass: int): (s: Stride.State)
    requires Shape(t)
  {
    var procs := seq(NPROC, p requires 0 <= p < NPROC =>
      Stride.Proc(t.procs[p].state, t.procs[p].percentage, t.procs[p].pass));
    Stride.State(procs, t.pool, mlfqPass, seq(NPROC, _ => 0), 0)
  }

  lemma {:induction false} ShareAtMost(procs: seq<Proc>, p: nat)
    requires p < |procs| && forall i :: 0 <= i < |procs| ==> procs[i].percentage >= 0
    ensures procs[p].percentage <= Shares(procs)
  {
    var n := |procs| - 1;
    if p < n {
      ShareAtMost(procs[..n], p);
    } else {
      SharesNonNegative(procs[..n]);
    }
  }

  lemma {:induction false} ShareBounds(t: Table)
    requires Inv(t) && NonNegative(t) && FLOOR <= t.pool <= 100
    ensures forall p :: 0 <= p < NPROC ==> 0 <= t.procs[p].percentage <= 100 - t.pool <= 80
    ensures t.pool < 100 <==> Owned(t)
  {
    forall p | 0 <= p < NPROC ensures 0 <= t.procs[p].percentage <= 100 - t.pool <= 80 {
      ShareAtMost(t.procs, p);
    }
    if !Owned(t) {
      NoShares(t.procs);
    }
  }

  /** Some process owns a share. */
  predicate Owned(t: Table)
    requires Shape(t)
  {
    exists p :: 0 <= p < NPROC && t.procs[p].percentage != 0
  }

  lemma {:induction false} SeenOk(t: Table, mlfqPass: int)
    requires Shape(t) && FLOOR <= t.pool <= 100 && forall p :: 0 <= p < NPROC ==> 0 <= t.procs[p].percentage <= 100
    ensures Stride.Ok(Seen(t, mlfqPass)) <==> t.pool < 100
  {
  }

  /** In every run of non-negative requests the stride selection works on positive shares of
      at most 80, so that it never divides by zero, exactly if some process owns a share. */
  lemma {:induction false} SharesFitStride(steps: seq<Step>, mlfqPass: int)
    requires AtLeast(0, steps)
    ensures Inv(Boot())
    ensures var t := RunFrom(Boot(), steps);
      && (Stride.Ok(Seen(t, mlfqPass)) <==> Owned(t))
      && forall p :: 0 <= p < NPROC ==> 0 <= t.procs[p].percentage <= 80
  {
    FloorHolds(steps);
    var t := RunFrom(Boot(), steps);
    ShareBounds(t);
    SeenOk(t, mlfqPass);
  }
}
