/** The buffers that a commit reads and writes: write_log, write_head and install_trans as
    operations on the buffer cache, and when bread finds no buffer for them. */
module CommitBuffers {
  import opened Blocks
  import opened Bio
  import opened BioRun

  /** Between two system calls: no buffer is held, and the blocks p are pinned. */
  ghost predicate Resting(f: Flat, p: set<Addr>) {
    f.held == multiset{} && f.edited == {} && f.pinned == p
  }

  /** bread(a), bread(b), copy into w, which is one of them, bwrite(w), and both released. */
  ghost predicate CopyTurn(ops: seq<Op>, k: nat, a: Addr, b: Addr, w: Addr, data: Block)
    requires k + 6 <= |ops|
  {
    && ops[k] == Read(a) && ops[k + 1] == Read(b) && ops[k + 2] == Change(w, data) && ops[k + 3] == Write(w)
    && ((ops[k + 4] == Release(a) && ops[k + 5] == Release(b))
      || (ops[k + 4] == Release(b) && ops[k + 5] == Release(a)))
  }

  /** bread(h), a change, bwrite(h), brelse(h). */
  ghost predicate HeadTurn(ops: seq<Op>, k: nat, h: Addr)
    requires k + 4 <= |ops|
  {
    && ops[k] == Read(h) && ops[k + 1].Change? && ops[k + 1].a == h
    && ops[k + 2] == Write(h) && ops[k + 3] == Release(h)
  }

  /** In the n operations from k on a bread can be without a buffer only if m blocks fill the cache. */
  ghost predicate Fits(fs: seq<Flat>, ops: seq<Op>, k: nat, n: nat, m: nat)
    requires k + n <= |ops| < |fs|
  {
    forall i: nat {:trigger Stuck(fs, ops, i)} :: k <= i < k + n && Stuck(fs, ops, i) ==> m >= NBUF
  }

  /** Operation i is a bread that finds no buffer. */
  predicate Stuck(fs: seq<Flat>, ops: seq<Op>, i: nat)
    requires i < |ops| < |fs|
  {
    NoBuffers(fs[i], ops[i])
  }

  lemma {:induction false} StepOf(fs: seq<Flat>, ops: seq<Op>, k: nat)
    requires Runs(fs, ops) && k < |ops|
    ensures Allowed(fs[k], ops[k]) && fs[k + 1] == Step(fs[k], ops[k])
  {
    assert Steps(fs, ops, k);
  }

  /** The first half of a turn: both buffers are held, and only the first bread may fail. */
  lemma {:induction false} BothRead(fs: seq<Flat>, ops: seq<Op>, k: nat, a: Addr, b: Addr, w: Addr, data: Block,
      p: set<Addr>)
    requires Runs(fs, ops) && k + 6 <= |ops| && CopyTurn(ops, k, a, b, w, data) && Resting(fs[k], p) && a !in p
      && b in p
    ensures fs[k + 2] == fs[k].(held := multiset{a, b})
    ensures Stuck(fs, ops, k) <==> |p| >= NBUF
    ensures !Stuck(fs, ops, k + 1)
  {
    StepOf(fs, ops, k);
    StepOf(fs, ops, k + 1);
    assert InUse(fs[k]) == p;
    assert b in InUse(fs[k + 1]);
  }

  /** The change and bwrite ... */
  lemma {:induction false} CopyStored(fs: seq<Flat>, ops: seq<Op>, k: nat, w: Addr, data: Block)
    requires Runs(fs, ops) && k + 2 <= |ops| && ops[k] == Change(w, data) && ops[k + 1] == Write(w)
    requires fs[k].edited == {}
    ensures fs[k + 2] == Flat(fs[k].now[w := data], fs[k].stable[w := data], fs[k].held, fs[k].pinned - {w}, {})
  {
    StepOf(fs, ops, k);
    StepOf(fs, ops, k + 1);
  }

  /** ... and the two releases. */
  lemma {:induction false} CopyReleased(fs: seq<Flat>, ops: seq<Op>, k: nat, x: Addr, y: Addr)
    requires Runs(fs, ops) && k + 2 <= |ops| && ops[k] == Release(x) && ops[k + 1] == Release(y)
    requires fs[k].held == multiset{x, y}
    ensures fs[k + 2] == fs[k].(held := multiset{})
  {
    StepOf(fs, ops, k);
    StepOf(fs, ops, k + 1);
  }

  lemma {:induction false} CopyRest(fs: seq<Flat>, ops: seq<Op>, k: nat, a: Addr, b: Addr, w: Addr, data: Block)
    requires Runs(fs, ops) && k + 6 <= |ops| && CopyTurn(ops, k, a, b, w, data)
    requires fs[k + 2].held == multiset{a, b} && fs[k + 2].edited == {}
    ensures fs[k + 6] ==
      Flat(fs[k + 2].now[w := data], fs[k + 2].stable[w := data], multiset{}, fs[k + 2].pinned - {w}, {})
  {
    var x, y := ops[k + 4].a, ops[k + 5].a;
    assert multiset{x, y} == multiset{a, b};
    CopyStored(fs, ops, k + 2, w, data);
    CopyReleased(fs, ops, k + 4, x, y);
  }

  /** One turn of write_log or install_trans on a log block a and a pinned block b. */
  lemma {:induction false} CopyPins(fs: seq<Flat>, ops: seq<Op>, k: nat, a: Addr, b: Addr, w: Addr, data: Block,
      p: set<Addr>)
    requires Runs(fs, ops) && k + 6 <= |ops| && CopyTurn(ops, k, a, b, w, data) && Resting(fs[k], p) && a !in p
      && b in p
    requires w == a || w == b
    ensures Resting(fs[k + 6], p - {w})
    ensures fs[k + 6].now == fs[k].now[w := data] && fs[k + 6].stable == fs[k].stable[w := data]
  {
    BothRead(fs, ops, k, a, b, w, data, p);
    StepOf(fs, ops, k);
    StepOf(fs, ops, k + 1);
    CopyRest(fs, ops, k, a, b, w, data);
  }

  lemma {:induction false} CopyFits(fs: seq<Flat>, ops: seq<Op>, k: nat, a: Addr, b: Addr, w: Addr, data: Block,
      p: set<Addr>)
    requires Runs(fs, ops) && k + 6 <= |ops| && CopyTurn(ops, k, a, b, w, data) && Resting(fs[k], p) && a !in p
      && b in p
    ensures Fits(fs, ops, k, 6, |p|)
  {
    BothRead(fs, ops, k, a, b, w, data, p);
    NoReadFits(fs, ops, k + 2, 4);
    FitsMore(fs, ops, k, 2, 4, |p|, 0);
  }

  lemma {:induction false} NoReadFits(fs: seq<Flat>, ops: seq<Op>, k: nat, n: nat)
    requires k + n <= |ops| < |fs| && forall i :: k <= i < k + n ==> !ops[i].Read?
    ensures Fits(fs, ops, k, n, 0)
  {
  }

  lemma {:induction false} FitsMore(fs: seq<Flat>, ops: seq<Op>, k: nat, n: nat, n': nat, m: nat, m': nat)
    requires k + n + n' <= |ops| < |fs| && Fits(fs, ops, k, n, m) && Fits(fs, ops, k + n, n', m') && m' <= m
    ensures Fits(fs, ops, k, n + n', m)
  {
  }

  lemma {:induction false} HeadDone(f: Flat, h: Addr, data: Block)
    requires f.held == multiset{} && f.edited == {} && h in f.now && h != (0, 0) && h !in f.pinned
    ensures var f1 := Step(f, Read(h));
      Allowed(f1, Change(h, data)) && Allowed(Step(f1, Change(h, data)), Write(h))
      && Allowed(Step(Step(f1, Change(h, data)), Write(h)), Release(h))
      && Step(Step(Step(f1, Change(h, data)), Write(h)), Release(h)) ==
         Flat(f.now[h := data], f.stable[h := data], multiset{}, f.pinned, {})
  {
  }

  lemma {:induction false} HeadPins(fs: seq<Flat>, ops: seq<Op>, k: nat, h: Addr, p: set<Addr>)
    requires Runs(fs, ops) && k + 4 <= |ops| && HeadTurn(ops, k, h) && Resting(fs[k], p) && h !in p
    ensures Resting(fs[k + 4], p) && Fits(fs, ops, k, 4, |p|)
    ensures fs[k + 4].now == fs[k].now[h := ops[k + 1].data] && fs[k + 4].stable == fs[k].stable[h := ops[k + 1].data]
  {
    StepOf(fs, ops, k);
    HeadDone(fs[k], h, ops[k + 1].data);
    StepOf(fs, ops, k + 1);
    StepOf(fs, ops, k + 2);
    StepOf(fs, ops, k + 3);
    assert InUse(fs[k]) == p;
    NoReadFits(fs, ops, k + 1, 3);
    assert Fits(fs, ops, k, 1, |p|);
    FitsMore(fs, ops, k, 1, 3, |p|, 0);
  }

  // ---- The four passes ----

  ghost function From(home: seq<Addr>, t: nat): (p: set<Addr>)
    requires t <= |home|
  {
    set i | t <= i < |home| :: home[i]
  }

  predicate Apart(log: seq<Addr>, home: seq<Addr>, h: Addr) {
    && |log| == |home|
    && (forall i, j :: 0 <= i < j < |home| ==> home[i] != home[j] && log[i] != log[j])
    && (forall i, j :: 0 <= i < |log| && 0 <= j < |home| ==> log[i] != home[j])
    && (forall j :: 0 <= j < |home| ==> h != home[j] && h != log[j])
  }

  lemma {:induction false} FromSize(home: seq<Addr>, t: nat)
    requires t <= |home| && forall i, j :: 0 <= i < j < |home| ==> home[i] != home[j]
    ensures |From(home, t)| == |home| - t
    decreases |home| - t
  {
    if t < |home| {
      FromSize(home, t + 1);
      assert From(home, t) == From(home, t + 1) + {home[t]};
    }
  }

  /** write_log: block i of the transaction goes to block i of the log area. */
  ghost predicate LogOps(ops: seq<Op>, fs: seq<Flat>, k: nat, log: seq<Addr>, home: seq<Addr>)
    requires |log| == |home| && k + 6 * |log| <= |ops| < |fs|
  {
    forall t: nat {:trigger LogOpsAt(ops, fs, k, log, home, t)} :: t < |log| ==> LogOpsAt(ops, fs, k, log, home, t)
  }

  ghost predicate LogOpsAt(ops: seq<Op>, fs: seq<Flat>, k: nat, log: seq<Addr>, home: seq<Addr>, t: nat)
    requires t < |log| == |home| && k + 6 * |log| <= |ops| < |fs|
  {
    var q := k + 6 * t;
    home[t] in fs[q].now && CopyTurn(ops, q, log[t], home[t], log[t], fs[q].now[home[t]])
  }

  /** What t turns of write_log have brought about: the log area on the device holds the
      first t blocks as readers see them, and readers see every other block as before. */
  ghost predicate Written(f: Flat, g: Flat, log: seq<Addr>, home: seq<Addr>, t: nat)
    requires |log| == |home| && t <= |log|
  {
    && (forall x {:trigger Unlogged(x, log, t)} :: x in f.now && Unlogged(x, log, t) ==>
      x in g.now && g.now[x] == f.now[x])
    && (forall j: nat {:trigger InLog(f, g, log, home, j)} :: j < t ==> InLog(f, g, log, home, j))
  }

  predicate Unlogged(x: Addr, log: seq<Addr>, t: nat)
    requires t <= |log|
  {
    forall j :: 0 <= j < t ==> x != log[j]
  }

  predicate InLog(f: Flat, g: Flat, log: seq<Addr>, home: seq<Addr>, j: nat)
    requires j < |log| == |home|
  {
    && home[j] in f.now && log[j] in g.stable && g.stable[log[j]] == f.now[home[j]]
    && log[j] in g.now && g.now[log[j]] == f.now[home[j]]
  }

  lemma {:induction false} WrittenMore(f: Flat, g: Flat, g': Flat, log: seq<Addr>, home: seq<Addr>, h: Addr, t: nat)
    requires Apart(log, home, h) && t < |log| && Written(f, g, log, home, t) && home[t] in g.now && home[t] in f.now
    requires g'.now == g.now[log[t] := g.now[home[t]]] && g'.stable == g.stable[log[t] := g.now[home[t]]]
    ensures Written(f, g', log, home, t + 1)
  {
    assert Unlogged(home[t], log, t);
    forall x | x in f.now && Unlogged(x, log, t + 1) ensures x in g'.now && g'.now[x] == f.now[x] {
      assert Unlogged(x, log, t) && x != log[t];
    }
    forall j: nat | j < t + 1 ensures InLog(f, g', log, home, j) {
      assert j < t ==> InLog(f, g, log, home, j) && log[j] != log[t];
    }
  }

  lemma {:induction false} SameBlocks(fs: seq<Flat>, ops: seq<Op>, k: nat, i: nat)
    requires Runs(fs, ops) && k <= i <= |ops|
    ensures fs[i].now.Keys == fs[k].now.Keys
    decreases i
  {
    if i > k {
      SameBlocks(fs, ops, k, i - 1);
      StepOf(fs, ops, i - 1);
    }
  }

  /** write_log unpins nothing. */
  lemma {:induction false} LogPass(fs: seq<Flat>, ops: seq<Op>, k: nat, log: seq<Addr>, home: seq<Addr>, h: Addr,
      t: nat)
    requires Runs(fs, ops) && Apart(log, home, h) && k + 6 * |log| <= |ops| && t <= |log|
    requires LogOps(ops, fs, k, log, home) && Resting(fs[k], From(home, 0))
    ensures Resting(fs[k + 6 * t], From(home, 0)) && Fits(fs, ops, k, 6 * t, |log|)
  {
    if t > 0 {
      var q := k + 6 * (t - 1);
      LogPass(fs, ops, k, log, home, h, t - 1);
      assert LogOpsAt(ops, fs, k, log, home, t - 1);
      LogTurnPins(fs, ops, k, q, log, home, h, t - 1);
      FitsMore(fs, ops, k, 6 * (t - 1), 6, |log|, |log|);
    }
  }

  lemma {:induction false} LogTurnWrites(fs: seq<Flat>, ops: seq<Op>, k: nat, q: nat, log: seq<Addr>, home: seq<Addr>,
      h: Addr, t: nat)
    requires Runs(fs, ops) && Apart(log, home, h) && t < |log| && k + 6 * |log| <= |ops|
      && LogOpsAt(ops, fs, k, log, home, t)
    requires q == k + 6 * t && Resting(fs[q], From(home, 0)) && Written(fs[k], fs[q], log, home, t)
    ensures Written(fs[k], fs[q + 6], log, home, t + 1)
  {
    LogTurnPins(fs, ops, k, q, log, home, h, t);
    SameBlocks(fs, ops, k, q);
    WrittenMore(fs[k], fs[q], fs[q + 6], log, home, h, t);
  }

  /** After t of its turns the first t blocks are in the log area. */
  lemma {:induction false} LogPassWrites(fs: seq<Flat>, ops: seq<Op>, k: nat, log: seq<Addr>, home: seq<Addr>, h: Addr,
      t: nat)
    requires Runs(fs, ops) && Apart(log, home, h) && k + 6 * |log| <= |ops| && t <= |log|
    requires LogOps(ops, fs, k, log, home) && Resting(fs[k], From(home, 0))
    ensures Written(fs[k], fs[k + 6 * t], log, home, t)
  {
    if t > 0 {
      LogPassWrites(fs, ops, k, log, home, h, t - 1);
      LogPass(fs, ops, k, log, home, h, t - 1);
      assert LogOpsAt(ops, fs, k, log, home, t - 1);
      LogTurnWrites(fs, ops, k, k + 6 * (t - 1), log, home, h, t - 1);
    }
  }

  lemma {:induction false} LogTurnPins(fs: seq<Flat>, ops: seq<Op>, k: nat, q: nat, log: seq<Addr>, home: seq<Addr>,
      h: Addr, t: nat)
    requires Runs(fs, ops) && Apart(log, home, h) && t < |log| && k + 6 * |log| <= |ops|
      && LogOpsAt(ops, fs, k, log, home, t)
    requires q == k + 6 * t && Resting(fs[q], From(home, 0))
    ensures Resting(fs[q + 6], From(home, 0)) && Fits(fs, ops, q, 6, |log|) && home[t] in fs[q].now
    ensures fs[q + 6].now == fs[q].now[log[t] := fs[q].now[home[t]]]
    ensures fs[q + 6].stable == fs[q].stable[log[t] := fs[q].now[home[t]]]
  {
    FromSize(home, 0);
    assert log[t] !in From(home, 0) && home[t] in From(home, 0);
    CopyPins(fs, ops, q, log[t], home[t], log[t], fs[q].now[home[t]], From(home, 0));
    CopyFits(fs, ops, q, log[t], home[t], log[t], fs[q].now[home[t]], From(home, 0));
    assert From(home, 0) - {log[t]} == From(home, 0);
  }

  /** install_trans: the same blocks back to their homes, each of which it unpins. */
  ghost predicate InstallOps(ops: seq<Op>, fs: seq<Flat>, k: nat, log: seq<Addr>, home: seq<Addr>)
    requires |log| == |home| && k + 6 * |log| <= |ops| < |fs|
  {
    forall t: nat {:trigger InstallOpsAt(ops, fs, k, log, home, t)} :: t < |log| ==>
      InstallOpsAt(ops, fs, k, log, home, t)
  }

  ghost predicate InstallOpsAt(ops: seq<Op>, fs: seq<Flat>, k: nat, log: seq<Addr>, home: seq<Addr>, t: nat)
    requires t < |log| == |home| && k + 6 * |log| <= |ops| < |fs|
  {
    var q := k + 6 * t;
    log[t] in fs[q].now && CopyTurn(ops, q, log[t], home[t], home[t], fs[q].now[log[t]])
  }

  lemma {:induction false} InstallPass(fs: seq<Flat>, ops: seq<Op>, k: nat, log: seq<Addr>, home: seq<Addr>, h: Addr,
      t: nat)
    requires Runs(fs, ops) && Apart(log, home, h) && k + 6 * |log| <= |ops| && t <= |log|
    requires InstallOps(ops, fs, k, log, home) && Resting(fs[k], From(home, 0))
    ensures Resting(fs[k + 6 * t], From(home, t)) && Fits(fs, ops, k, 6 * t, |log|)
  {
    if t > 0 {
      var q := k + 6 * (t - 1);
      InstallPass(fs, ops, k, log, home, h, t - 1);
      assert InstallOpsAt(ops, fs, k, log, home, t - 1);
      InstallTurn(fs, ops, k, q, log, home, h, t - 1);
      FitsMore(fs, ops, k, 6 * (t - 1), 6, |log|, |log|);
    }
  }

  lemma {:induction false} InstallTurn(fs: seq<Flat>, ops: seq<Op>, k: nat, q: nat, log: seq<Addr>, home: seq<Addr>,
      h: Addr, t: nat)
    requires Runs(fs, ops) && Apart(log, home, h) && t < |log| && k + 6 * |log| <= |ops|
      && InstallOpsAt(ops, fs, k, log, home, t)
    requires q == k + 6 * t && Resting(fs[q], From(home, t))
    ensures Resting(fs[q + 6], From(home, t + 1)) && Fits(fs, ops, q, 6, |log|) && log[t] in fs[q].now
    ensures fs[q + 6].now == fs[q].now[home[t] := fs[q].now[log[t]]]
    ensures fs[q + 6].stable == fs[q].stable[home[t] := fs[q].now[log[t]]]
  {
    FromSize(home, t);
    assert log[t] !in From(home, t) && home[t] in From(home, t);
    CopyPins(fs, ops, q, log[t], home[t], home[t], fs[q].now[log[t]], From(home, t));
    CopyFits(fs, ops, q, log[t], home[t], home[t], fs[q].now[log[t]], From(home, t));
    assert From(home, t) - {home[t]} == From(home, t + 1);
  }

  lemma {:induction false} InstallTurnWrites(fs: seq<Flat>, ops: seq<Op>, k: nat, q: nat, log: seq<Addr>,
      home: seq<Addr>, h: Addr, t: nat)
    requires Runs(fs, ops) && Apart(log, home, h) && t < |log| && k + 6 * |log| <= |ops|
      && InstallOpsAt(ops, fs, k, log, home, t)
    requires q == k + 6 * t && Resting(fs[q], From(home, t)) && Written(fs[k], fs[q], home, log, t)
    ensures Written(fs[k], fs[q + 6], home, log, t + 1)
  {
    InstallTurn(fs, ops, k, q, log, home, h, t);
    SameBlocks(fs, ops, k, q);
    WrittenMore(fs[k], fs[q], fs[q + 6], home, log, h, t);
  }

  /** After t of install_trans's turns the first t home blocks are what the log area held. */
  lemma {:induction false} InstallPassWrites(fs: seq<Flat>, ops: seq<Op>, k: nat, log: seq<Addr>, home: seq<Addr>,
      h: Addr, t: nat)
    requires Runs(fs, ops) && Apart(log, home, h) && k + 6 * |log| <= |ops| && t <= |log|
    requires InstallOps(ops, fs, k, log, home) && Resting(fs[k], From(home, 0))
    ensures Written(fs[k], fs[k + 6 * t], home, log, t)
  {
    if t > 0 {
      InstallPassWrites(fs, ops, k, log, home, h, t - 1);
      InstallPass(fs, ops, k, log, home, h, t - 1);
      assert InstallOpsAt(ops, fs, k, log, home, t - 1);
      InstallTurnWrites(fs, ops, k, k + 6 * (t - 1), log, home, h, t - 1);
    }
  }

  // ---- The whole commit ----

  /** commit() as operations on the cache, from operation k on. */
  ghost predicate CommitOps(ops: seq<Op>, fs: seq<Flat>, k: nat, log: seq<Addr>, home: seq<Addr>, h: Addr)
    requires |log| == |home| && k + 12 * |log| + 8 <= |ops| < |fs|
  {
    var n := |log|;
    && LogOps(ops, fs, k, log, home) && HeadTurn(ops, k + 6 * n, h)
    && InstallOps(ops, fs, k + 6 * n + 4, log, home) && HeadTurn(ops, k + 12 * n + 4, h)
  }

  /** The first two passes of a commit ... */
  lemma {:induction false} LogHalf(fs: seq<Flat>, ops: seq<Op>, k: nat, log: seq<Addr>, home: seq<Addr>, h: Addr)
    requires Runs(fs, ops) && Apart(log, home, h) && k + 6 * |log| + 4 <= |ops|
    requires LogOps(ops, fs, k, log, home) && HeadTurn(ops, k + 6 * |log|, h) && Resting(fs[k], From(home, 0))
    ensures Resting(fs[k + 6 * |log| + 4], From(home, 0)) && Fits(fs, ops, k, 6 * |log| + 4, |log|)
  {
    FromSize(home, 0);
    LogPass(fs, ops, k, log, home, h, |log|);
    HeadPins(fs, ops, k + 6 * |log|, h, From(home, 0));
    FitsMore(fs, ops, k, 6 * |log|, 4, |log|, |log|);
  }

  /** ... and the last two. */
  lemma {:induction false} InstallHalf(fs: seq<Flat>, ops: seq<Op>, k: nat, log: seq<Addr>, home: seq<Addr>, h: Addr)
    requires Runs(fs, ops) && Apart(log, home, h) && k + 6 * |log| + 4 <= |ops|
    requires InstallOps(ops, fs, k, log, home) && HeadTurn(ops, k + 6 * |log|, h) && Resting(fs[k], From(home, 0))
    ensures Resting(fs[k + 6 * |log| + 4], {}) && Fits(fs, ops, k, 6 * |log| + 4, |log|)
  {
    InstallPass(fs, ops, k, log, home, h, |log|);
    assert From(home, |log|) == {};
    HeadPins(fs, ops, k + 6 * |log|, h, {});
    FitsMore(fs, ops, k, 6 * |log|, 4, |log|, 0);
  }

  /** Whatever it writes, a commit leaves nothing pinned, and only a transaction that fills
      the cache can leave one of its reads without a buffer. */
  lemma {:induction false} CommitPasses(fs: seq<Flat>, ops: seq<Op>, k: nat, log: seq<Addr>, home: seq<Addr>, h: Addr)
    requires Runs(fs, ops) && Apart(log, home, h) && k + 12 * |log| + 8 <= |ops|
    requires CommitOps(ops, fs, k, log, home, h) && Resting(fs[k], From(home, 0))
    ensures Resting(fs[k + 12 * |log| + 8], {}) && Fits(fs, ops, k, 12 * |log| + 8, |log|)
  {
    var m := k + 6 * |log| + 4;
    LogHalf(fs, ops, k, log, home, h);
    InstallHalf(fs, ops, m, log, home, h);
    FitsMore(fs, ops, k, 6 * |log| + 4, 6 * |log| + 4, |log|, |log|);
  }

  /** The device holds block x as readers of f see it. */
  predicate OnDevice(f: Flat, g: Flat, x: Addr) {
    x in f.now && x in g.stable && g.stable[x] == f.now[x]
  }

  /** Readers of g see block x as those of f do. */
  predicate SeenAlike(f: Flat, g: Flat, x: Addr)
    requires x in f.now
  {
    x in g.now && g.now[x] == f.now[x]
  }

  /** After a commit every block of its transaction is on the device as readers saw it
      before, and readers see every block outside of the log as before. */
  lemma {:induction false} CommitInstalls(fs: seq<Flat>, ops: seq<Op>, k: nat, log: seq<Addr>, home: seq<Addr>, h: Addr)
    requires Runs(fs, ops) && Apart(log, home, h) && k + 12 * |log| + 8 <= |ops|
    requires CommitOps(ops, fs, k, log, home, h) && Resting(fs[k], From(home, 0))
    ensures forall j :: 0 <= j < |home| ==> OnDevice(fs[k], fs[k + 12 * |log| + 8], home[j])
    ensures forall x :: x in fs[k].now && x != h && x !in log ==> SeenAlike(fs[k], fs[k + 12 * |log| + 8], x)
  {
    var n := |log|;
    var m := k + 6 * n + 4;
    LogPassWrites(fs, ops, k, log, home, h, n);
    LogPass(fs, ops, k, log, home, h, n);
    FromSize(home, 0);
    HeadPins(fs, ops, k + 6 * n, h, From(home, 0));
    InstallPassWrites(fs, ops, m, log, home, h, n);
    InstallPass(fs, ops, m, log, home, h, n);
    assert From(home, n) == {};
    HeadPins(fs, ops, m + 6 * n, h, {});
    CommitContents(fs[k], fs[k + 6 * n], fs[m], fs[m + 6 * n], fs[m + 6 * n + 4], log, home, h,
      ops[k + 6 * n + 1].data, ops[m + 6 * n + 1].data);
  }

  lemma {:induction false} CommitContents(f: Flat, f1: Flat, f2: Flat, f3: Flat, f4: Flat, log: seq<Addr>,
      home: seq<Addr>, h: Addr, d2: Block, d4: Block)
    requires Apart(log, home, h) && Written(f, f1, log, home, |log|) && Written(f2, f3, home, log, |log|)
    requires f2.now == f1.now[h := d2] && f4.now == f3.now[h := d4] && f4.stable == f3.stable[h := d4]
    ensures forall j :: 0 <= j < |home| ==> OnDevice(f, f4, home[j])
    ensures forall x :: x in f.now && x != h && x !in log ==> SeenAlike(f, f4, x)
  {
    forall j | 0 <= j < |home|
      ensures OnDevice(f, f4, home[j]) && SeenAlike(f, f4, home[j])
    {
      assert InLog(f, f1, log, home, j) && InLog(f2, f3, home, log, j);
    }
    forall x | x in f.now && x != h && x !in log
      ensures SeenAlike(f, f4, x)
    {
      assert Unlogged(x, log, |log|);
      if x in home {
        var j :| 0 <= j < |home| && home[j] == x;
      } else {
        assert Unlogged(x, home, |log|);
      }
    }
  }

  /** A commit finds no buffer for one of its reads exactly if its transaction fills the
      cache, and then already for its first. */
  lemma {:induction false} CommitPanicsIff(fs: seq<Flat>, ops: seq<Op>, k: nat, log: seq<Addr>, home: seq<Addr>,
      h: Addr)
    requires Runs(fs, ops) && Apart(log, home, h) && log != [] && k + 12 * |log| + 8 <= |ops|
    requires CommitOps(ops, fs, k, log, home, h) && Resting(fs[k], From(home, 0))
    ensures (exists i: nat :: k <= i < k + 12 * |log| + 8 && Stuck(fs, ops, i)) <==> |home| >= NBUF
    ensures Stuck(fs, ops, k) <==> |home| >= NBUF
  {
    FromSize(home, 0);
    assert LogOpsAt(ops, fs, k, log, home, 0);
    BothRead(fs, ops, k, log[0], home[0], log[0], fs[k].now[home[0]], From(home, 0));
    CommitPasses(fs, ops, k, log, home, h);
  }
}
