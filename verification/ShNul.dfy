/** parsecmd as a whole: parse the line in the buffer, then end every word of the tree with a
    NUL stored in place. */
module ShNul {
  import opened ShTokens
  import opened ShGrammar
  import opened Sh

  /** The C string at position q of a buffer. */
  function CStr(b: string, q: nat): (s: string)
    decreases |b| - q
  {
    if q >= |b| || b[q] == '\0' then "" else [b[q]] + CStr(b, q + 1)
  }

  // ---- Positions that nulterminate writes ----

  ghost predicate EndOf(argv: seq<Span>, x: int) {
    exists i :: 0 <= i < |argv| && argv[i].eq == x
  }

  ghost predicate Ends(c: Cmd<Span>, x: int) {
    match c
    case Exec(argv) => EndOf(argv, x)
    case Redir(d, t) => Ends(d, x) || t.file.eq == x
    case Pipe(l, r) => Ends(l, x) || Ends(r, x)
    case List(l, r) => Ends(l, x) || Ends(r, x)
    case Back(d) => Ends(d, x)
  }

  predicate EndsInside(c: Cmd<Span>, n: nat) {
    match c
    case Exec(argv) => forall i :: 0 <= i < |argv| ==> argv[i].eq < n
    case Redir(d, t) => EndsInside(d, n) && t.file.eq < n
    case Pipe(l, r) => EndsInside(l, n) && EndsInside(r, n)
    case List(l, r) => EndsInside(l, n) && EndsInside(r, n)
    case Back(d) => EndsInside(d, n)
  }

  /** after is before with NULs at exactly the word ends of c. */
  ghost predicate Ended(c: Cmd<Span>, before: seq<char>, after: seq<char>) {
    && |after| == |before|
    && forall x :: 0 <= x < |before| ==> after[x] == if Ends(c, x) then '\0' else before[x]
  }

  method NulArgs(buf: array<char>, argv: seq<Span>)
    requires forall i :: 0 <= i < |argv| ==> argv[i].eq < buf.Length
    modifies buf
    ensures forall x :: 0 <= x < buf.Length ==> buf[x] == if EndOf(argv, x) then '\0' else old(buf[x])
  {
    var i := 0;
    while i < |argv|
      invariant 0 <= i <= |argv|
      invariant forall x :: 0 <= x < buf.Length ==> buf[x] == if EndOf(argv[..i], x) then '\0' else old(buf[x])
    {
      EndOfNext(argv, i);
      buf[argv[i].eq] := '\0';
      i := i + 1;
    }
    assert argv[..i] == argv;
  }

  lemma {:induction false} EndOfNext(argv: seq<Span>, i: nat)
    requires i < |argv|
    ensures forall x :: EndOf(argv[..i + 1], x) <==> EndOf(argv[..i], x) || argv[i].eq == x
  {
    forall x
      ensures EndOf(argv[..i + 1], x) <==> EndOf(argv[..i], x) || argv[i].eq == x
    {
      if EndOf(argv[..i], x) {
        var k :| 0 <= k < i && argv[..i][k].eq == x;
        assert argv[..i + 1][k].eq == x;
      }
      if EndOf(argv[..i + 1], x) {
        var k :| 0 <= k < i + 1 && argv[..i + 1][k].eq == x;
        assert k < i ==> argv[..i][k].eq == x;
      }
      assert argv[..i + 1][i] == argv[i];
    }
  }

  /** nulterminate. */
  method Nulterminate(buf: array<char>, c: Cmd<Span>)
    requires EndsInside(c, buf.Length)
    modifies buf
    ensures Ended(c, old(buf[..]), buf[..])
    decreases c
  {
    match c
    case Exec(argv) => NulArgs(buf, argv);
    case Redir(d, t) =>
      Nulterminate(buf, d);
      buf[t.file.eq] := '\0';
    case Pipe(l, r) =>
      Nulterminate(buf, l);
      ghost var mid := buf[..];
      Nulterminate(buf, r);
    case List(l, r) =>
      Nulterminate(buf, l);
      ghost var mid := buf[..];
      Nulterminate(buf, r);
    case Back(d) => Nulterminate(buf, d);
  }

  // ---- What the words then read ----

  /** The tree with the C strings found at the start of its spans. */
  function Read(b: string, c: Cmd<Span>): (r: Cmd<string>) {
    match c
    case Exec(argv) => Exec(seq(|argv|, i requires 0 <= i < |argv| => CStr(b, argv[i].q)))
    case Redir(d, t) => Redir(Read(b, d), Target(CStr(b, t.file.q), t.mode, t.fd))
    case Pipe(l, r) => Pipe(Read(b, l), Read(b, r))
    case List(l, r) => List(Read(b, l), Read(b, r))
    case Back(d) => Back(Read(b, d))
  }

  /** b still shows every word character of the line, and a NUL after every word of c. */
  ghost predicate Shows(text: string, b: string, c: Cmd<Span>) {
    && |text| < |b|
    && (forall x :: 0 <= x < |text| && WordChar(text[x]) ==> b[x] == text[x])
    && (forall x :: 0 <= x <= |text| && Ends(c, x) ==> b[x] == '\0')
  }

  lemma {:induction false} CStrIs(text: string, b: string, q: nat, eq: nat)
    requires q <= eq <= |text| < |b| && b[eq] == '\0'
    requires forall x :: q <= x < eq ==> WordChar(text[x]) && b[x] == text[x]
    ensures CStr(b, q) == text[q..eq]
    decreases eq - q
  {
    if q < eq {
      CStrIs(text, b, q + 1, eq);
    }
  }

  /** Every span of the tree reads exactly its token. */
  lemma {:induction false} ReadIsStrings(text: string, b: string, c: Cmd<Span>)
    requires SpansOk(text, c) && Shows(text, b, c)
    ensures Read(b, c) == Strings(text, c)
    decreases c
  {
    match c
    case Exec(argv) =>
      forall i | 0 <= i < |argv|
        ensures CStr(b, argv[i].q) == Slice(text, argv[i])
      {
        assert EndOf(argv, argv[i].eq);
        CStrIs(text, b, argv[i].q, argv[i].eq);
      }
    case Redir(d, t) =>
      ReadIsStrings(text, b, d);
      CStrIs(text, b, t.file.q, t.file.eq);
    case Pipe(l, r) =>
      ReadIsStrings(text, b, l);
      ReadIsStrings(text, b, r);
    case List(l, r) =>
      ReadIsStrings(text, b, l);
      ReadIsStrings(text, b, r);
    case Back(d) =>
      ReadIsStrings(text, b, d);
  }

  /** A word end is never inside a word. */
  lemma {:induction false} EndIsNoLetter(text: string, c: Cmd<Span>, x: int)
    requires SpansOk(text, c) && Ends(c, x)
    ensures 0 <= x <= |text| && (x < |text| ==> !WordChar(text[x]))
    decreases c
  {
    match c
    case Exec(argv) =>
    case Redir(d, t) =>
      if Ends(d, x) {
        EndIsNoLetter(text, d, x);
      }
    case Pipe(l, r) =>
      if Ends(l, x) {
        EndIsNoLetter(text, l, x);
      } else {
        EndIsNoLetter(text, r, x);
      }
    case List(l, r) =>
      if Ends(l, x) {
        EndIsNoLetter(text, l, x);
      } else {
        EndIsNoLetter(text, r, x);
      }
    case Back(d) => EndIsNoLetter(text, d, x);
  }

  lemma {:induction false} SpansInside(text: string, c: Cmd<Span>, n: nat)
    requires SpansOk(text, c) && |text| < n
    ensures EndsInside(c, n)
    decreases c
  {
    match c
    case Exec(argv) =>
    case Redir(d, t) => SpansInside(text, d, n);
    case Pipe(l, r) =>
      SpansInside(text, l, n);
      SpansInside(text, r, n);
    case List(l, r) =>
      SpansInside(text, l, n);
      SpansInside(text, r, n);
    case Back(d) => SpansInside(text, d, n);
  }

  lemma {:induction false} EndedShows(text: string, c: Cmd<Span>, before: seq<char>, after: seq<char>)
    requires SpansOk(text, c) && |text| < |before| && before[..|text|] == text && Ended(c, before, after)
    ensures Shows(text, after, c)
  {
    forall x | 0 <= x < |text| && WordChar(text[x])
      ensures after[x] == text[x]
    {
      if Ends(c, x) {
        EndIsNoLetter(text, c, x);
      }
      assert before[..|text|][x] == before[x];
    }
  }

  // ---- parsecmd ----

  method Strlen(buf: array<char>) returns (n: nat)
    requires exists k :: 0 <= k < buf.Length && buf[k] == '\0'
    ensures n < buf.Length && buf[n] == '\0' && Line(buf[..n])
  {
    n := 0;
    while buf[n] != '\0'
      invariant n < buf.Length && Line(buf[..n])
      invariant exists k :: n <= k < buf.Length && buf[k] == '\0'
      decreases buf.Length - n
    {
      n := n + 1;
    }
  }

  /** parseline and the test for leftovers. */
  method Parse(text: string) returns (out: Out)
    requires Line(text)
    ensures match ParseCmd(Toks(text))
      case Err(e) => out == Panicked(e)
      case Ok(c, _) => out.Done? && Strings(text, out.cmd) == c && SpansOk(text, out.cmd)
  {
    assert text[0..] == text;
    var s;
    out, s := Parseline(text, 0);
    if out.Done? {
      s := Advance(text, s);
      if s != |text| {
        FromToken(text, s);
        return Panicked(Leftovers);
      }
    }
  }

  /** parsecmd: on success the words of the tree, read from the buffer as C strings, are
      exactly those of the parsed line; on a syntax error the buffer is left alone. */
  method Parsecmd(buf: array<char>) returns (out: Out, ghost text: string)
    requires exists k :: 0 <= k < buf.Length && buf[k] == '\0'
    modifies buf
    ensures Line(text) && |text| < buf.Length && old(buf[..])[..|text|] == text && old(buf[..])[|text|] == '\0'
    ensures match ParseCmd(Toks(text))
      case Err(e) => out == Panicked(e) && buf[..] == old(buf[..])
      case Ok(c, _) => out.Done? && Read(buf[..], out.cmd) == c && Ended(out.cmd, old(buf[..]), buf[..])
  {
    var n := Strlen(buf);
    text := buf[..n];
    out := Parse(buf[..n]);
    if out.Done? {
      ghost var before := buf[..];
      assert before[..n] == text;
      SpansInside(text, out.cmd, buf.Length);
      Nulterminate(buf, out.cmd);
      EndedShows(text, out.cmd, before, buf[..]);
      ReadIsStrings(text, buf[..], out.cmd);
    }
  }

  // ---- The round trip through text ----

  /** parsecmd reads every text of every way of writing a command as the command meant,
      unless a simple command has more than nine words: those it reports. */
  lemma {:induction false} RoundTrip(text: string, s: Source)
    requires Line(text) && Grammatical(s, 0) && Spaced(text, Show(s))
    ensures ParseCmd(Toks(text)) == if Small(Meaning(s)) then Ok(Meaning(s), []) else Err(TooManyArgs)
  {
    ToksIff(text, Show(s));
    PrintThenParse(s);
  }

  /** It accepts no other line. */
  lemma {:induction false} AcceptsIff(text: string, c: Cmd<string>)
    requires Line(text)
    ensures ParseCmd(Toks(text)) == Ok(c, []) <==>
      Small(c) && exists s :: Grammatical(s, 0) && Meaning(s) == c && Spaced(text, Show(s))
  {
    ParsesIff(Toks(text), c);
    if ParseCmd(Toks(text)) == Ok(c, []) {
      var s :| Reads(s, 0, Toks(text), c, []);
      assert Show(s) + [] == Show(s);
      ToksIff(text, Show(s));
    }
    if s :| Grammatical(s, 0) && Meaning(s) == c && Spaced(text, Show(s)) {
      ToksIff(text, Show(s));
      assert Show(s) + [] == Show(s);
      assert Reads(s, 0, Toks(text), c, []);
    }
  }

  predicate WordsOk(c: Cmd<string>) {
    match c
    case Exec(argv) => forall i :: 0 <= i < |argv| ==> WordOk(argv[i])
    case Redir(d, t) => WordsOk(d) && WordOk(t.file)
    case Pipe(l, r) => WordsOk(l) && WordsOk(r)
    case List(l, r) => WordsOk(l) && WordsOk(r)
    case Back(d) => WordsOk(d)
  }

  predicate ToksOk(ts: seq<Tok>) {
    forall i :: 0 <= i < |ts| ==> TokOk(ts[i])
  }

  lemma {:induction false} PiecesOk(ps: seq<Piece>)
    requires Pieces(ps)
    requires forall i :: 0 <= i < |ps| ==> WordOk(match ps[i] case Arg(w) => w case To(_, file) => file)
    ensures ToksOk(ShowPieces(ps))
  {
    if ps != [] {
      PiecesOk(ps[1..]);
    }
  }

  lemma {:induction false} AppendedOk(s: Source, symbol: char, file: string)
    requires Grammatical(s, 3) && ToksOk(Show(s)) && RedirSymbol(symbol) && WordOk(file)
    ensures ToksOk(Show(Appended(s, To(symbol, file))))
  {
    match s
    case Simple(ps) => ShownLast(ps, symbol, file);
    case Block(line, to) =>
      ShownLast(to, symbol, file);
      BlockOk(Show(line), ShowPieces(to));
      BlockOk(Show(line), ShowPieces(to + [To(symbol, file)]));
  }

  lemma {:induction false} BlockOk(line: seq<Tok>, to: seq<Tok>)
    ensures ToksOk([Sym('(')] + (line + ([Sym(')')] + to))) <==> ToksOk(line) && ToksOk(to)
  {
    JoinOk([Sym(')')], to);
    JoinOk(line, [Sym(')')] + to);
    JoinOk([Sym('(')], line + ([Sym(')')] + to));
  }

  lemma {:induction false} JoinOk(a: seq<Tok>, b: seq<Tok>)
    ensures ToksOk(a + b) <==> ToksOk(a) && ToksOk(b)
  {
    if ToksOk(a + b) {
      forall i | 0 <= i < |a|
        ensures TokOk(a[i])
      {
        assert (a + b)[i] == a[i];
      }
      forall i | 0 <= i < |b|
        ensures TokOk(b[i])
      {
        assert (a + b)[|a| + i] == b[i];
      }
    }
  }

  lemma {:induction false} ShownLast(ps: seq<Piece>, symbol: char, file: string)
    ensures ShowPieces(ps + [To(symbol, file)]) == ShowPieces(ps) + [Sym(symbol), Word(file)]
  {
    var p := To(symbol, file);
    if ps == [] {
      assert ps + [p] == [p] && [p][1..] == [];
    } else {
      ShownLast(ps[1..], symbol, file);
      assert (ps + [p])[1..] == ps[1..] + [p] && (ps + [p])[0] == ps[0];
    }
  }

  lemma {:induction false} ClosedOk(s: Source, closed: bool)
    requires ToksOk(Show(s))
    ensures ToksOk(Show(Closed(s, closed)))
  {
    BlockOk(Show(s), []);
  }

  lemma {:induction false} AmidOk(l: seq<Tok>, c: char, r: seq<Tok>)
    requires ToksOk(l) && ToksOk(r) && Symbol(c)
    ensures ToksOk(l + ([Sym(c)] + r))
  {
  }

  lemma {:induction false} WrittenOk(c: Cmd<string>, level: nat)
    requires Canonical(c) && WordsOk(c) && level <= 3
    ensures ToksOk(Show(Written(c, level)))
    decreases c
  {
    match c
    case Exec(argv) => PiecesOk(Written(c, level).pieces);
    case Redir(d, t) =>
      WrittenMeans(d, 3);
      WrittenOk(d, 3);
      AppendedOk(Written(d, 3), if t.fd == 0 then '<' else '>', t.file);
    case Pipe(l, r) =>
      WrittenOk(l, 3);
      WrittenOk(r, 2);
      AmidOk(Show(Written(l, 3)), '|', Show(Written(r, 2)));
      ClosedOk(Piped(Written(l, 3), Written(r, 2)), level > 2);
    case List(l, r) =>
      WrittenOk(l, 1);
      WrittenOk(r, 0);
      AmidOk(Show(Written(l, 1)), ';', Show(Written(r, 0)));
      ClosedOk(Listed(Written(l, 1), Written(r, 0)), level > 0);
    case Back(d) =>
      WrittenOk(d, 1);
      ClosedOk(Background(Written(d, 1)), level > 1);
  }

  /** Every command that redirects standard input and output alone has a line that parsecmd
      reads as this command, unless it has too many words. */
  lemma {:induction false} EveryCommand(c: Cmd<string>)
    requires Canonical(c) && WordsOk(c)
    ensures var text := Render(Show(Written(c, 0)));
      Line(text) && ParseCmd(Toks(text)) == if Small(c) then Ok(c, []) else Err(TooManyArgs)
  {
    WrittenMeans(c, 0);
    WrittenOk(c, 0);
    ToksOfRender(Show(Written(c, 0)));
    PrintThenParse(Written(c, 0));
  }
}
