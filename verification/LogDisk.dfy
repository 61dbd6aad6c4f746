/** The on-disk redo log: a header block followed by block images, the disk
    writes that commit() and recover_from_log() issue, and what the disk means
    after any prefix of them. */
module LogDisk {
  import opened Blocks

  const MAXOPBLOCKS: nat := 10
  const LOGSIZE: nat := 30

  /** A single-block disk write, the unit that a crash cannot split. */
  datatype Write = Write(addr: nat, data: Block)

  /** Where the log lies: header at start, images in the size - 1 blocks after it. */
  datatype Layout = Layout(start: nat, size: nat)

  /** A block that file system code may log: any block outside the log itself. */
  predicate Home(L: Layout, b: nat) {
    b < L.start || L.start + L.size <= b
  }

  predicate Distinct(bs: seq<Word32>) {
    forall i, j :: 0 <= i < j < |bs| ==> bs[i] != bs[j]
  }

  /** The block list of one transaction, as log_write builds it. */
  predicate Transaction(L: Layout, nblocks: nat, bs: seq<Word32>) {
    && |bs| <= LOGSIZE && |bs| < L.size
    && Distinct(bs)
    && forall i :: 0 <= i < |bs| ==> bs[i] < nblocks && Home(L, bs[i])
  }

  // ---- The header block: a count in word 0, block numbers after it ----

  function HeaderOf(h: Block): (bs: seq<Word32>)
    requires Word(h, 0) <= LOGSIZE
  {
    seq(Word(h, 0), i requires 0 <= i < Word(h, 0) => Word(h, i + 1))
  }

  /** h with its first k entries overwritten from bs. */
  function PutEntries(h: Block, bs: seq<Word32>, k: nat): (r: Block)
    requires k <= |bs| <= LOGSIZE
  {
    if k == 0 then h else SetWord(PutEntries(h, bs, k - 1), k, bs[k - 1])
  }

  /** What write_head leaves in the header block: later words keep their old value. */
  function PutHeader(h: Block, bs: seq<Word32>): (r: Block)
    requires |bs| <= LOGSIZE
  {
    PutEntries(SetWord(h, 0, |bs|), bs, |bs|)
  }

  lemma {:induction false} WordOfPutEntries(h: Block, bs: seq<Word32>, k: nat, j: nat)
    requires k <= |bs| <= LOGSIZE && j < NINDIRECT
    ensures Word(PutEntries(h, bs, k), j) == if 1 <= j <= k then bs[j - 1] else Word(h, j)
  {
    if k > 0 {
      WordOfPutEntries(h, bs, k - 1, j);
      WordOfSetWord(PutEntries(h, bs, k - 1), k, bs[k - 1], j);
    }
  }

  /** The header block lists exactly bs. */
  predicate Lists(h: Block, bs: seq<Word32>) {
    Word(h, 0) <= LOGSIZE && HeaderOf(h) == bs
  }

  /** read_head inverts write_head, whatever the block held before. */
  lemma {:induction false} HeaderRoundTrip(h: Block, bs: seq<Word32>)
    requires |bs| <= LOGSIZE
    ensures Lists(PutHeader(h, bs), bs)
  {
    var h0 := SetWord(h, 0, |bs|);
    WordOfSetWord(h, 0, |bs|, 0);
    WordOfPutEntries(h0, bs, |bs|, 0);
    forall i | 0 <= i < |bs| ensures Word(PutHeader(h, bs), i + 1) == bs[i] {
      WordOfPutEntries(h0, bs, |bs|, i + 1);
    }
  }

  // ---- Disks with a log ----

  predicate Formatted(L: Layout, d: Disk) {
    && L.start + L.size <= |d|
    && 0 < L.size
    && Word(d[L.start], 0) <= LOGSIZE
    && Transaction(L, |d|, HeaderOf(d[L.start]))
  }

  function Header(L: Layout, d: Disk): (bs: seq<Word32>)
    requires Formatted(L, d)
    ensures Transaction(L, |d|, bs)
  {
    HeaderOf(d[L.start])
  }

  /** The content of home block b once the log has been replayed. */
  ghost function Logical(L: Layout, d: Disk, b: nat): Block
    requires Formatted(L, d) && b < |d| && Home(L, b)
  {
    var bs := Header(L, d);
    if i :| 0 <= i < |bs| && bs[i] == b then d[L.start + 1 + i] else d[b]
  }

  lemma {:induction false} LogicalLogged(L: Layout, d: Disk, i: nat)
    requires Formatted(L, d) && i < |Header(L, d)|
    ensures Logical(L, d, Header(L, d)[i]) == d[L.start + 1 + i]
  {
    var bs := Header(L, d);
    var b := bs[i];
    assert 0 <= i < |bs| && bs[i] == b;
  }

  lemma {:induction false} LogicalUnlogged(L: Layout, d: Disk, b: nat)
    requires Formatted(L, d) && b < |d| && Home(L, b) && b !in Header(L, d)
    ensures Logical(L, d, b) == d[b]
  {
  }

  // ---- Sequences of writes ----

  predicate InRange(d: Disk, ws: seq<Write>) {
    forall i :: 0 <= i < |ws| ==> ws[i].addr < |d|
  }

  /** The disk after the first k of the writes ws. */
  function After(d: Disk, ws: seq<Write>, k: nat): (r: Disk)
    requires InRange(d, ws) && k <= |ws|
    ensures |r| == |d|
  {
    if k == 0 then d else After(d, ws, k - 1)[ws[k - 1].addr := ws[k - 1].data]
  }

  lemma {:induction false} AfterPrefix(d: Disk, ws: seq<Write>, vs: seq<Write>, k: nat)
    requires InRange(d, ws) && InRange(d, ws + vs) && k <= |ws|
    ensures After(d, ws + vs, k) == After(d, ws, k)
  {
    if k > 0 {
      AfterPrefix(d, ws, vs, k - 1);
    }
  }

  lemma {:induction false} AfterAppend(d: Disk, ws: seq<Write>, vs: seq<Write>, k: nat)
    requires InRange(d, ws) && InRange(d, vs) && InRange(d, ws + vs) && k <= |vs|
    ensures After(d, ws + vs, |ws| + k) == After(After(d, ws, |ws|), vs, k)
  {
    if k > 0 {
      AfterAppend(d, ws, vs, k - 1);
      assert (ws + vs)[|ws| + k - 1] == vs[k - 1];
    } else {
      AfterPrefix(d, ws, vs, |ws|);
    }
  }

  /** Copies of the images to the log area, as write_log issues them. */
  function LogWrites(L: Layout, im: seq<Block>): (ws: seq<Write>)
  {
    seq(|im|, i requires 0 <= i < |im| => Write(L.start + 1 + i, im[i]))
  }

  /** Copies of the images to their home blocks, as install_trans issues them. */
  function InstallWrites(bs: seq<Word32>, im: seq<Block>): (ws: seq<Write>)
    requires |im| == |bs|
  {
    seq(|bs|, i requires 0 <= i < |bs| => Write(bs[i], im[i]))
  }

  /** The images that the log area holds for the blocks of the header. */
  function Images(L: Layout, d: Disk): (im: seq<Block>)
    requires Formatted(L, d)
    ensures |im| == |Header(L, d)|
  {
    d[L.start + 1..][..|Header(L, d)|]
  }

  /** All disk writes of recover_from_log: the install pass, then an empty header. */
  function RecoverWrites(L: Layout, d: Disk): (ws: seq<Write>)
    requires Formatted(L, d)
    ensures InRange(d, ws)
    ensures |ws| == |Header(L, d)| + 1
  {
    InstallWrites(Header(L, d), Images(L, d)) + [Write(L.start, PutHeader(d[L.start], []))]
  }

  /** All disk writes of commit: images, header, install, empty header. */
  function CommitWrites(L: Layout, d: Disk, bs: seq<Word32>, im: seq<Block>): (ws: seq<Write>)
    requires L.start + L.size <= |d| && Transaction(L, |d|, bs) && |im| == |bs|
    ensures InRange(d, ws)
    ensures |ws| == if bs == [] then 0 else 2 * |bs| + 2
  {
    if bs == [] then []
    else
      var h := PutHeader(d[L.start], bs);
      LogWrites(L, im) + [Write(L.start, h)] + InstallWrites(bs, im) + [Write(L.start, PutHeader(h, []))]
  }

  // ---- What a prefix of the writes leaves on disk ----

  /** The disk d with its first k blocks of the transaction replaced by their images. */
  function Overlay(d: Disk, bs: seq<Word32>, im: seq<Block>, k: nat): (e: Disk)
    requires |im| == |bs| && k <= |bs|
    requires forall i :: 0 <= i < |bs| ==> bs[i] < |d|
    ensures |e| == |d|
  {
    if k == 0 then d else Overlay(d, bs, im, k - 1)[bs[k - 1] := im[k - 1]]
  }

  /** All of the transaction ... */
  lemma {:induction false} OverlayLogged(d: Disk, bs: seq<Word32>, im: seq<Block>, k: nat, i: nat)
    requires |im| == |bs| && i < k <= |bs| && Distinct(bs)
    requires forall j :: 0 <= j < |bs| ==> bs[j] < |d|
    ensures Overlay(d, bs, im, k)[bs[i]] == im[i]
  {
    if i < k - 1 {
      OverlayLogged(d, bs, im, k - 1, i);
      assert bs[i] != bs[k - 1];
    }
  }

  /** ... and nothing else. */
  lemma {:induction false} OverlayOther(d: Disk, bs: seq<Word32>, im: seq<Block>, k: nat, b: nat)
    requires |im| == |bs| && k <= |bs| && b < |d|
    requires forall j :: 0 <= j < |bs| ==> bs[j] < |d| && bs[j] != b
    ensures Overlay(d, bs, im, k)[b] == d[b]
  {
    if k > 0 {
      OverlayOther(d, bs, im, k - 1, b);
    }
  }

  /** The first k block numbers of a transaction, as a set. */
  function Listed(bs: seq<Word32>, k: nat): (r: set<Word32>)
    requires k <= |bs|
  {
    if k == 0 then {} else Listed(bs, k - 1) + {bs[k - 1]}
  }

  /** Two disks agree on every block outside the log. */
  predicate SameHome(L: Layout, e: Disk, f: Disk) {
    |e| == |f| && forall b {:trigger e[b]} {:trigger f[b]} :: 0 <= b < |e| && Home(L, b) ==> e[b] == f[b]
  }

  /** The first k images are in the log area. */
  predicate Imaged(L: Layout, e: Disk, im: seq<Block>, k: nat)
    requires L.start + |im| < |e| && k <= |im|
  {
    forall i {:trigger im[i]} :: 0 <= i < k ==> e[L.start + 1 + i] == im[i]
  }

  predicate LogsFrom(L: Layout, im: seq<Block>, ws: seq<Write>) {
    |im| <= |ws| && forall j {:trigger ws[j]} :: 0 <= j < |im| ==> ws[j] == Write(L.start + 1 + j, im[j])
  }

  predicate InstallsFrom(bs: seq<Word32>, im: seq<Block>, ws: seq<Write>, m: nat)
    requires |im| == |bs|
  {
    m + |bs| <= |ws| && forall j {:trigger ws[j]} :: m <= j < m + |bs| ==> ws[j] == Write(bs[j - m], im[j - m])
  }

  /** write_log only fills the log area. */
  lemma {:induction false} LogPass(L: Layout, d: Disk, im: seq<Block>, ws: seq<Write>, k: nat)
    requires L.start + L.size <= |d| && |im| < L.size && InRange(d, ws)
    requires LogsFrom(L, im, ws) && k <= |im|
    ensures var e := After(d, ws, k);
            Imaged(L, e, im, k) && e[L.start] == d[L.start] && SameHome(L, e, d)
  {
    if k > 0 {
      LogPass(L, d, im, ws, k - 1);
    }
  }

  /** install_trans, started after m writes, leaves the log area and header alone. */
  lemma {:induction false} InstallPass(L: Layout, d: Disk, bs: seq<Word32>, im: seq<Block>, ws: seq<Write>, m: nat,
      k: nat)
    requires L.start + L.size <= |d| && Transaction(L, |d|, bs) && |im| == |bs| && InRange(d, ws)
    requires InstallsFrom(bs, im, ws, m) && k <= |bs|
    requires Imaged(L, After(d, ws, m), im, |bs|) && SameHome(L, After(d, ws, m), d)
    ensures var e := After(d, ws, m + k);
            && Imaged(L, e, im, |bs|)
            && e[L.start] == After(d, ws, m)[L.start]
            && SameHome(L, e, Overlay(d, bs, im, k))
  {
    if k > 0 {
      InstallPass(L, d, bs, im, ws, m, k - 1);
      assert ws[m + (k - 1)] == Write(bs[k - 1], im[k - 1]);
      InstallOne(L, d, bs, im, After(d, ws, m + (k - 1)), k - 1);
    }
  }

  /** One home block more. */
  lemma {:induction false} InstallOne(L: Layout, d: Disk, bs: seq<Word32>, im: seq<Block>, e: Disk, k: nat)
    requires L.start + L.size <= |d| == |e| && Transaction(L, |d|, bs) && |im| == |bs| && k < |bs|
    requires Imaged(L, e, im, |bs|) && SameHome(L, e, Overlay(d, bs, im, k))
    ensures var e' := e[bs[k] := im[k]];
            && Imaged(L, e', im, |bs|)
            && e'[L.start] == e[L.start]
            && SameHome(L, e', Overlay(d, bs, im, k + 1))
  {
    assert Home(L, bs[k]);
  }

  /** Writing the header block leaves every home block and image as it is. */
  lemma {:induction false} HeaderKeepsHome(L: Layout, e: Disk, f: Disk, im: seq<Block>, h: Block)
    requires L.start + L.size <= |e| && 0 < L.size && SameHome(L, e, f) && |im| < L.size
    ensures SameHome(L, e[L.start := h], f)
    ensures Imaged(L, e, im, |im|) ==> Imaged(L, e[L.start := h], im, |im|)
  {
  }

  // ---- Meaning of the disk in each phase ----

  /** After replay the home blocks are those of f. */
  ghost predicate Means(L: Layout, e: Disk, f: Disk) {
    && Formatted(L, e) && |e| == |f|
    && forall b {:trigger Logical(L, e, b)} {:trigger f[b]} :: 0 <= b < |e| && Home(L, b) ==> Logical(L, e, b) == f[b]
  }

  /** With bs in the header and its images in the log, installing is redundant. */
  lemma {:induction false} LoggedMeansOverlay(L: Layout, d: Disk, bs: seq<Word32>, im: seq<Block>, e: Disk, k: nat)
    requires L.start + L.size <= |d| && 0 < L.size && Transaction(L, |d|, bs) && |im| == |bs| && |e| == |d| && k <= |bs|
    requires Lists(e[L.start], bs)
    requires Imaged(L, e, im, |bs|) && SameHome(L, e, Overlay(d, bs, im, k))
    ensures Means(L, e, Overlay(d, bs, im, |bs|)) && Header(L, e) == bs
  {
    forall b | 0 <= b < |d| && Home(L, b) ensures Logical(L, e, b) == Overlay(d, bs, im, |bs|)[b] {
      if b in bs {
        var i :| 0 <= i < |bs| && bs[i] == b;
        LogicalLogged(L, e, i);
        OverlayLogged(d, bs, im, |bs|, i);
      } else {
        OverlayOther(d, bs, im, k, b);
        OverlayOther(d, bs, im, |bs|, b);
        LogicalUnlogged(L, e, b);
      }
    }
  }

  /** With an empty header the disk is its own meaning. */
  lemma {:induction false} ClearMeansItself(L: Layout, e: Disk, f: Disk)
    requires L.start + L.size <= |e| && 0 < L.size && Lists(e[L.start], []) && SameHome(L, e, f)
    ensures Means(L, e, f) && Header(L, e) == []
  {
    forall b | 0 <= b < |e| && Home(L, b) ensures Logical(L, e, b) == f[b] {
      LogicalUnlogged(L, e, b);
    }
  }

  /** ws is a commit of images im for blocks bs: images, header, install, empty header. */
  predicate Script(L: Layout, bs: seq<Word32>, im: seq<Block>, ws: seq<Write>) {
    && |im| == |bs| && |ws| == 2 * |bs| + 2
    && LogsFrom(L, im, ws)
    && ws[|bs|].addr == L.start
    && InstallsFrom(bs, im, ws, |bs| + 1)
    && ws[2 * |bs| + 1].addr == L.start
  }

  lemma {:induction false} CommitIsScript(L: Layout, d: Disk, bs: seq<Word32>, im: seq<Block>)
    requires L.start + L.size <= |d| && Transaction(L, |d|, bs) && |im| == |bs| > 0
    ensures var ws := CommitWrites(L, d, bs, im);
            Script(L, bs, im, ws) && Lists(ws[|bs|].data, bs) && Lists(ws[2 * |bs| + 1].data, [])
  {
    HeaderRoundTrip(d[L.start], bs);
    HeaderRoundTrip(PutHeader(d[L.start], bs), []);
  }

  /** Right after the header write. */
  lemma {:induction false} ScriptHeader(L: Layout, d: Disk, bs: seq<Word32>, im: seq<Block>, ws: seq<Write>)
    requires L.start + L.size <= |d| && Transaction(L, |d|, bs)
    requires Script(L, bs, im, ws) && InRange(d, ws)
    ensures var e := After(d, ws, |bs| + 1);
            Imaged(L, e, im, |bs|) && e[L.start] == ws[|bs|].data && SameHome(L, e, d)
  {
    LogPass(L, d, im, ws, |bs|);
    HeaderKeepsHome(L, After(d, ws, |bs|), d, im, ws[|bs|].data);
  }

  /** From the header write on, until the header is emptied. */
  lemma {:induction false} ScriptLogged(L: Layout, d: Disk, bs: seq<Word32>, im: seq<Block>, ws: seq<Write>, k: nat)
    requires L.start + L.size <= |d| && Transaction(L, |d|, bs) && k <= |bs|
    requires Script(L, bs, im, ws) && InRange(d, ws)
    ensures var e := After(d, ws, |bs| + 1 + k);
            && Imaged(L, e, im, |bs|)
            && e[L.start] == ws[|bs|].data
            && SameHome(L, e, Overlay(d, bs, im, k))
  {
    ScriptHeader(L, d, bs, im, ws);
    InstallPass(L, d, bs, im, ws, |bs| + 1, k);
  }

  /** After the last write. */
  lemma {:induction false} ScriptDone(L: Layout, d: Disk, bs: seq<Word32>, im: seq<Block>, ws: seq<Write>)
    requires L.start + L.size <= |d| && Transaction(L, |d|, bs)
    requires Script(L, bs, im, ws) && InRange(d, ws)
    ensures var e := After(d, ws, |ws|);
            e[L.start] == ws[2 * |bs| + 1].data && SameHome(L, e, Overlay(d, bs, im, |bs|))
  {
    var n := |bs|;
    ScriptLogged(L, d, bs, im, ws, n);
    HeaderKeepsHome(L, After(d, ws, 2 * n + 1), Overlay(d, bs, im, n), im, ws[2 * n + 1].data);
  }

  lemma {:induction false} AfterOne(d: Disk, ws: seq<Write>, w: Write)
    requires InRange(d, ws) && w.addr < |d|
    ensures InRange(d, ws + [w]) && After(d, ws + [w], |ws| + 1) == After(d, ws, |ws|)[w.addr := w.data]
  {
    AfterPrefix(d, ws, [w], |ws|);
  }

  /** Two passes, each followed by one more write, run one after the other. */
  lemma {:induction false} AfterPasses(d: Disk, u: seq<Write>, x: Write, v: seq<Write>, y: Write)
    requires InRange(d, u) && InRange(d, v) && x.addr < |d| && y.addr < |d|
    ensures var ws := u + [x] + v + [y];
            && InRange(d, ws)
            && After(d, ws, |ws|) == After(After(d, u, |u|)[x.addr := x.data], v, |v|)[y.addr := y.data]
  {
    AfterOne(d, u, x);
    AfterAppend(d, u + [x], v, |v|);
    AfterOne(d, u + [x] + v, y);
  }

  /** Neither copy pass touches the header block, and the images survive to the second. */
  lemma {:induction false} CommitPasses(L: Layout, d: Disk, bs: seq<Word32>, im: seq<Block>, h: Block)
    requires L.start + L.size <= |d| && 0 < L.size && Transaction(L, |d|, bs) && |im| == |bs|
    ensures InRange(d, LogWrites(L, im)) && InRange(d, InstallWrites(bs, im))
    ensures var d1 := After(d, LogWrites(L, im), |bs|);
            var d2 := d1[L.start := h];
            && d1[L.start] == d[L.start] && Imaged(L, d2, im, |bs|)
            && After(d2, InstallWrites(bs, im), |bs|)[L.start] == h
  {
    LogPass(L, d, im, LogWrites(L, im), |bs|);
    var d1 := After(d, LogWrites(L, im), |bs|);
    HeaderKeepsHome(L, d1, d, im, h);
    InstallPass(L, d1[L.start := h], bs, im, InstallWrites(bs, im), 0, |bs|);
  }

  /** Up to the header write the disk means what it meant; from then on it means
      the transaction laid over it. */
  lemma {:induction false} CommitPrefix(L: Layout, d: Disk, bs: seq<Word32>, im: seq<Block>, k: nat)
    requires Formatted(L, d) && Header(L, d) == [] && Transaction(L, |d|, bs) && |im| == |bs|
    requires k <= |CommitWrites(L, d, bs, im)|
    ensures var ws := CommitWrites(L, d, bs, im);
            var e := After(d, ws, k);
            && Means(L, e, if k <= |bs| then d else Overlay(d, bs, im, |bs|))
            && (k == |ws| ==> Header(L, e) == [])
  {
    if bs == [] {
      ClearMeansItself(L, d, d);
    } else {
      CommitIsScript(L, d, bs, im);
      ScriptMeans(L, d, bs, im, CommitWrites(L, d, bs, im), k);
    }
  }

  lemma {:induction false} ScriptMeans(L: Layout, d: Disk, bs: seq<Word32>, im: seq<Block>, ws: seq<Write>, k: nat)
    requires Formatted(L, d) && Header(L, d) == [] && Transaction(L, |d|, bs) && bs != []
    requires Script(L, bs, im, ws) && InRange(d, ws) && k <= |ws| == 2 * |bs| + 2
    requires Lists(ws[|bs|].data, bs) && Lists(ws[2 * |bs| + 1].data, [])
    ensures Means(L, After(d, ws, k), if k <= |bs| then d else Overlay(d, bs, im, |bs|))
    ensures k == |ws| ==> Header(L, After(d, ws, k)) == []
  {
    if k <= |bs| {
      LogPass(L, d, im, ws, k);
      ClearMeansItself(L, After(d, ws, k), d);
    } else if k <= 2 * |bs| + 1 {
      LoggedPrefix(L, d, bs, im, ws, k - |bs| - 1);
    } else {
      DonePrefix(L, d, bs, im, ws);
    }
  }

  lemma {:induction false} LoggedPrefix(L: Layout, d: Disk, bs: seq<Word32>, im: seq<Block>, ws: seq<Write>, k: nat)
    requires Formatted(L, d) && Transaction(L, |d|, bs) && k <= |bs|
    requires Script(L, bs, im, ws) && InRange(d, ws) && Lists(ws[|bs|].data, bs)
    ensures Means(L, After(d, ws, |bs| + 1 + k), Overlay(d, bs, im, |bs|))
  {
    ScriptLogged(L, d, bs, im, ws, k);
    LoggedMeansOverlay(L, d, bs, im, After(d, ws, |bs| + 1 + k), k);
  }

  lemma {:induction false} DonePrefix(L: Layout, d: Disk, bs: seq<Word32>, im: seq<Block>, ws: seq<Write>)
    requires Formatted(L, d) && Transaction(L, |d|, bs)
    requires Script(L, bs, im, ws) && InRange(d, ws) && Lists(ws[2 * |bs| + 1].data, [])
    ensures Means(L, After(d, ws, |ws|), Overlay(d, bs, im, |bs|)) && Header(L, After(d, ws, |ws|)) == []
  {
    ScriptDone(L, d, bs, im, ws);
    ClearMeansItself(L, After(d, ws, |ws|), Overlay(d, bs, im, |bs|));
  }

  lemma {:induction false} ReplayPrefix(L: Layout, d: Disk, bs: seq<Word32>, im: seq<Block>, ws: seq<Write>, k: nat)
    requires L.start + L.size <= |d| && 0 < L.size && Transaction(L, |d|, bs) && |im| == |bs|
    requires Imaged(L, d, im, |bs|) && InRange(d, ws)
    requires k <= |ws| == |bs| + 1 && InstallsFrom(bs, im, ws, 0) && ws[|bs|].addr == L.start
    ensures var e := After(d, ws, k);
            if k <= |bs| then Imaged(L, e, im, |bs|) && e[L.start] == d[L.start]
              && SameHome(L, e, Overlay(d, bs, im, k))
            else e[L.start] == ws[|bs|].data && SameHome(L, e, Overlay(d, bs, im, |bs|))
  {
    var n := |bs|;
    InstallPass(L, d, bs, im, ws, 0, if k <= n then k else n);
    if k > n {
      HeaderKeepsHome(L, After(d, ws, n), Overlay(d, bs, im, n), im, ws[n].data);
    }
  }

  /** Replaying any prefix of recovery never changes what the disk means. */
  lemma {:induction false} RecoverPrefix(L: Layout, d: Disk, k: nat, f: Disk)
    requires Means(L, d, f) && k <= |RecoverWrites(L, d)|
    ensures var ws := RecoverWrites(L, d);
            Means(L, After(d, ws, k), f) && (k == |ws| ==> Header(L, After(d, ws, k)) == [])
  {
    var ws := RecoverWrites(L, d);
    var bs, im := Header(L, d), Images(L, d);
    var e := After(d, ws, k);
    LoggedMeansOverlay(L, d, bs, im, d, 0);
    ReplayPrefix(L, d, bs, im, ws, k);
    if k <= |bs| {
      LoggedMeansOverlay(L, d, bs, im, e, k);
    } else {
      HeaderRoundTrip(d[L.start], []);
      ClearMeansItself(L, e, Overlay(d, bs, im, |bs|));
    }
    SameMeaning(L, d, e, Overlay(d, bs, im, |bs|), f);
  }

  lemma {:induction false} SameMeaning(L: Layout, d: Disk, e: Disk, g: Disk, f: Disk)
    requires Means(L, d, g) && Means(L, e, g) && Means(L, d, f)
    ensures Means(L, e, f)
  {
    forall b | 0 <= b < |e| && Home(L, b) ensures Logical(L, e, b) == f[b] {
      assert Logical(L, d, b) == f[b] == g[b];
    }
  }

  // ---- Crashes ----

  /** Every formatted disk means some disk. */
  ghost function Meaning(L: Layout, d: Disk): (f: Disk)
    requires Formatted(L, d)
    ensures Means(L, d, f)
  {
    seq(|d|, b requires 0 <= b < |d| => if Home(L, b) then Logical(L, d, b) else Zeroed())
  }

  /** Boot after a crash: recovery is cut short after crashes[0], crashes[1], ...
      writes (clipped to the writes there are), and the last boot completes. */
  function Reboot(L: Layout, d: Disk, crashes: seq<nat>): (e: Disk)
    requires Formatted(L, d)
    ensures |e| == |d|
    decreases |crashes|
  {
    var ws := RecoverWrites(L, d);
    if crashes == [] then After(d, ws, |ws|)
    else
      var k := if crashes[0] <= |ws| then crashes[0] else |ws|;
      RecoverPrefix(L, d, k, Meaning(L, d));
      Reboot(L, After(d, ws, k), crashes[1..])
  }

  lemma {:induction false} RebootKeepsMeaning(L: Layout, d: Disk, crashes: seq<nat>, f: Disk)
    requires Means(L, d, f)
    ensures var e := Reboot(L, d, crashes);
            Formatted(L, e) && Header(L, e) == [] && SameHome(L, e, f)
    decreases |crashes|
  {
    var ws := RecoverWrites(L, d);
    var k := if crashes == [] || |ws| < crashes[0] then |ws| else crashes[0];
    RecoverPrefix(L, d, k, f);
    var e := After(d, ws, k);
    if crashes == [] {
      forall b | 0 <= b < |e| && Home(L, b) ensures e[b] == f[b] {
        LogicalUnlogged(L, e, b);
      }
    } else {
      RebootKeepsMeaning(L, e, crashes[1..], f);
    }
  }

  /** Crash atomicity of commit(): cut the commit after any k disk writes, then cut
      recovery short any number of times. The home blocks end up all old or all new,
      and all new exactly when the header write, number |bs| + 1, reached the disk. */
  lemma {:induction false} CommitIsAtomic(L: Layout, d: Disk, bs: seq<Word32>, im: seq<Block>, k: nat,
      crashes: seq<nat>)
    requires Formatted(L, d) && Header(L, d) == [] && Transaction(L, |d|, bs) && |im| == |bs|
    requires k <= |CommitWrites(L, d, bs, im)|
    ensures Formatted(L, After(d, CommitWrites(L, d, bs, im), k))
    ensures var e := Reboot(L, After(d, CommitWrites(L, d, bs, im), k), crashes);
            && Formatted(L, e) && Header(L, e) == []
            && (forall b :: 0 <= b < |d| && Home(L, b) && b !in bs ==> e[b] == d[b])
            && (forall i :: 0 <= i < |bs| ==> e[bs[i]] == if k > |bs| then im[i] else d[bs[i]])
  {
    CommitPrefix(L, d, bs, im, k);
    var f := if k <= |bs| then d else Overlay(d, bs, im, |bs|);
    RebootKeepsMeaning(L, After(d, CommitWrites(L, d, bs, im), k), crashes, f);
    forall b | 0 <= b < |d| && Home(L, b) && b !in bs ensures f[b] == d[b] {
      OverlayOther(d, bs, im, |bs|, b);
    }
    forall i | 0 <= i < |bs| ensures f[bs[i]] == if k > |bs| then im[i] else d[bs[i]] {
      OverlayLogged(d, bs, im, |bs|, i);
    }
  }
}
