/** The shell parser as written: a cursor moved over the line, then NULs stored into it. */
module Sh {
  import opened ShTokens
  import opened ShGrammar

  /** A counted string inside the line: it starts at q and ends before eq. */
  datatype Span = Span(q: nat, eq: nat)

  /** A whole word of the line. */
  predicate WordSpan(text: string, sp: Span) {
    && sp.q < sp.eq <= |text|
    && (forall i :: sp.q <= i < sp.eq ==> WordChar(text[i]))
    && (sp.eq < |text| ==> !WordChar(text[sp.eq]))
  }

  function Slice(text: string, sp: Span): (w: string) {
    if sp.q <= sp.eq <= |text| then text[sp.q..sp.eq] else ""
  }

  function Strs(text: string, argv: seq<Span>): (ws: seq<string>) {
    seq(|argv|, i requires 0 <= i < |argv| => Slice(text, argv[i]))
  }

  function TargetStr(text: string, t: Target<Span>): (r: Target<string>) {
    Target(Slice(text, t.file), t.mode, t.fd)
  }

  function TargetStrs(text: string, to: seq<Target<Span>>): (r: seq<Target<string>>) {
    seq(|to|, i requires 0 <= i < |to| => TargetStr(text, to[i]))
  }

  /** The tree with the strings its spans stand for. */
  function Strings(text: string, c: Cmd<Span>): (r: Cmd<string>) {
    match c
    case Exec(argv) => Exec(Strs(text, argv))
    case Redir(d, t) => Redir(Strings(text, d), TargetStr(text, t))
    case Pipe(l, r) => Pipe(Strings(text, l), Strings(text, r))
    case List(l, r) => List(Strings(text, l), Strings(text, r))
    case Back(d) => Back(Strings(text, d))
  }

  predicate WordSpans(text: string, argv: seq<Span>) {
    forall i :: 0 <= i < |argv| ==> WordSpan(text, argv[i])
  }

  predicate FileSpans(text: string, to: seq<Target<Span>>) {
    forall i :: 0 <= i < |to| ==> WordSpan(text, to[i].file)
  }

  predicate SpansOk(text: string, c: Cmd<Span>) {
    match c
    case Exec(argv) => WordSpans(text, argv)
    case Redir(d, t) => SpansOk(text, d) && WordSpan(text, t.file)
    case Pipe(l, r) => SpansOk(text, l) && SpansOk(text, r)
    case List(l, r) => SpansOk(text, l) && SpansOk(text, r)
    case Back(d) => SpansOk(text, d)
  }

  lemma {:induction false} WrapStrings(text: string, c: Cmd<Span>, to: seq<Target<Span>>)
    ensures Strings(text, Wrap(c, to)) == Wrap(Strings(text, c), TargetStrs(text, to))
    ensures SpansOk(text, c) && FileSpans(text, to) ==> SpansOk(text, Wrap(c, to))
    decreases |to|
  {
    if to != [] {
      var front := to[..|to| - 1];
      WrapStrings(text, c, front);
      assert TargetStrs(text, to)[..|to| - 1] == TargetStrs(text, front);
    }
  }

  // ---- gettoken and peek ----

  lemma {:induction false} LineTail(text: string, s: nat)
    requires Line(text) && s <= |text|
    ensures Line(text[s..])
  {
  }

  /** The tokens from position s on. */
  function From(text: string, s: nat): (ts: seq<Tok>)
    requires Line(text) && s <= |text|
  {
    LineTail(text, s);
    Toks(text[s..])
  }

  lemma {:induction false} FromBlank(text: string, s: nat)
    requires Line(text) && s < |text| && Space(text[s])
    ensures From(text, s + 1) == From(text, s)
  {
    var tail := text[s..];
    assert tail[1..] == text[s + 1..];
    assert Blanks(tail) >= 1;
    ToksSkip(tail, 1);
  }

  /** The token at a place that is not blank. */
  lemma {:induction false} FromToken(text: string, s: nat)
    requires Line(text) && s < |text| && !Space(text[s])
    ensures Line(text[s..]) && s + Width(text[s..]) <= |text|
    ensures From(text, s) == [Token(text[s..])] + From(text, s + Width(text[s..]))
  {
    var r := text[s..];
    LineTail(text, s);
    BlanksUnique(r, 0);
    assert r[0..] == r;
    assert r[Width(r)..] == text[s + Width(r)..];
  }

  predicate Symbols(toks: string) {
    forall i :: 0 <= i < |toks| ==> Symbol(toks[i])
  }

  /** Skip blanks: the tokens ahead stay the same. */
  method Advance(text: string, s: nat) returns (r: nat)
    requires Line(text) && s <= |text|
    ensures s <= r <= |text| && From(text, r) == From(text, s)
    ensures r < |text| ==> !Space(text[r])
    ensures r == |text| ==> From(text, r) == []
  {
    r := s;
    while r < |text| && Space(text[r])
      invariant s <= r <= |text| && From(text, r) == From(text, s)
    {
      FromBlank(text, r);
      r := r + 1;
    }
    FromEnd(text);
  }

  lemma {:induction false} FromEnd(text: string)
    requires Line(text)
    ensures From(text, |text|) == []
  {
    assert text[|text|..] == "";
  }

  /** peek: skip blanks and test the next character. */
  method Peek(text: string, s: nat, toks: string) returns (b: bool, r: nat)
    requires Line(text) && s <= |text| && Symbols(toks)
    ensures s <= r <= |text| && From(text, r) == From(text, s)
    ensures b <==> Starts(From(text, s), toks)
  {
    r := Advance(text, s);
    b := r < |text| && text[r] in toks;
    if r < |text| {
      FromToken(text, r);
      FirstOf(text[r..], toks);
    }
  }

  lemma {:induction false} FirstOf(s: string, toks: string)
    requires Line(s) && s != "" && !Space(s[0]) && Symbols(toks)
    ensures s[0] in toks <==> Token(s).Sym? && First(Token(s)) in toks
  {
  }

  /** The scan of gettoken over a token that is not blank. */
  method Scan(text: string, q: nat) returns (kind: char, eq: nat)
    requires Line(text) && q < |text| && !Space(text[q])
    ensures Line(text[q..]) && eq == q + Width(text[q..]) && kind == Kind(Token(text[q..]))
    ensures Token(text[q..]).Word? ==> WordSpan(text, Span(q, eq)) && Token(text[q..]).w == text[q..eq]
  {
    LineTail(text, q);
    var c := text[q];
    if c == '|' || c == '(' || c == ')' || c == ';' || c == '&' || c == '<' {
      return c, q + 1;
    } else if c == '>' {
      if q + 1 < |text| && text[q + 1] == '>' {
        return '+', q + 2;
      }
      return c, q + 1;
    }
    kind, eq := 'a', q;
    while eq < |text| && !Space(text[eq]) && !Symbol(text[eq])
      invariant q <= eq <= |text|
      invariant forall i :: q <= i < eq ==> WordChar(text[i])
    {
      eq := eq + 1;
    }
    LettersUnique(text[q..], eq - q);
    assert text[q..][..eq - q] == text[q..eq];
  }

  /** The same, seen from the tokens ahead. */
  method Take(text: string, q: nat) returns (kind: char, eq: nat)
    requires Line(text) && q < |text| && !Space(text[q])
    ensures q <= eq <= |text| && kind != '\0'
    ensures var ts := From(text, q);
      && ts != [] && kind == Kind(ts[0]) && From(text, eq) == ts[1..]
      && (ts[0].Word? ==> WordSpan(text, Span(q, eq)) && Slice(text, Span(q, eq)) == ts[0].w)
  {
    FromToken(text, q);
    kind, eq := Scan(text, q);
  }

  /** gettoken: kind 0 at the end of the line, otherwise the next token. */
  method Gettoken(text: string, s: nat) returns (kind: char, q: nat, eq: nat, r: nat)
    requires Line(text) && s <= |text|
    ensures s <= r <= |text|
    ensures kind == '\0' <==> From(text, s) == []
    ensures var ts := From(text, s); ts != [] ==>
      && kind == Kind(ts[0]) && From(text, r) == ts[1..]
      && (ts[0].Word? ==> WordSpan(text, Span(q, eq)) && Slice(text, Span(q, eq)) == ts[0].w)
    ensures From(text, s) == [] ==> From(text, r) == []
  {
    q := Advance(text, s);
    if q == |text| {
      return '\0', q, q, q;
    }
    kind, eq := Take(text, q);
    r := Advance(text, eq);
  }

  // ---- The parser ----

  datatype Out = Done(cmd: Cmd<Span>) | Panicked(error: Panic)

  /** Position r and outcome out are what the grammar says. */
  predicate Agrees(text: string, out: Out, r: nat, p: Parsed)
    requires Line(text)
  {
    match p
    case Err(e) => out == Panicked(e)
    case Ok(c, rest) =>
      && out.Done? && Strings(text, out.cmd) == c && SpansOk(text, out.cmd)
      && r <= |text| && From(text, r) == rest
  }

  datatype RedirOut = Targets(to: seq<Target<Span>>) | RedirPanic(error: Panic)

  predicate RedirsAgree(text: string, out: RedirOut, r: nat, p: Redirs)
    requires Line(text)
  {
    match p
    case Bad(e) => out == RedirPanic(e)
    case Reds(to, rest) =>
      && out.Targets? && TargetStrs(text, out.to) == to && FileSpans(text, out.to)
      && r <= |text| && From(text, r) == rest
  }

  lemma {:induction false} TokensOk(s: string)
    requires Line(s)
    ensures forall i :: 0 <= i < |Toks(s)| ==> TokOk(Toks(s)[i])
    decreases |s|
  {
    var r := s[Blanks(s)..];
    if r != "" {
      TokensOk(r[Width(r)..]);
    }
  }

  /** The symbol and the file name of one redirection. */
  method Redirection(text: string, s: nat, ghost ts: seq<Tok>) returns (ok: bool, t: Target<Span>, r: nat)
    requires Line(text) && s <= |text| && ts == From(text, s) && Starts(ts, "<>")
    ensures s <= r <= |text|
    ensures ok <==> |ts| >= 2 && ts[1].Word?
    ensures ok ==> TargetStr(text, t) == TargetOf(Kind(ts[0]), ts[1].w) && WordSpan(text, t.file)
    ensures ok ==> From(text, r) == ts[2..]
  {
    TokensOk(text[s..]);
    var kind, q, eq, r1 := Gettoken(text, s);
    ghost var ts1 := From(text, r1);
    var k;
    k, q, eq, r := Gettoken(text, r1);
    assert ts1 == ts[1..];
    ok := k == 'a';
    t := TargetOf(kind, Span(q, eq));
  }

  /** parseredirs: wrap further redirections around a command that already has some. */
  method Parseredirs(text: string, s: nat, to0: seq<Target<Span>>) returns (out: RedirOut, r: nat)
    requires Line(text) && s <= |text| && FileSpans(text, to0)
    ensures RedirsAgree(text, out, r, ParseRedirs(TargetStrs(text, to0), From(text, s)))
  {
    var to := to0;
    ghost var ts := From(text, s);
    ghost var goal := ParseRedirs(TargetStrs(text, to0), ts);
    var b;
    b, r := Peek(text, s, "<>");
    while b
      invariant r <= |text| && FileSpans(text, to) && ts == From(text, r)
      invariant b <==> Starts(ts, "<>")
      invariant ParseRedirs(TargetStrs(text, to), ts) == goal
      decreases |ts|
    {
      var ok, t;
      ok, t, r := Redirection(text, r, ts);
      if !ok {
        return RedirPanic(MissingFile), r;
      }
      OneMore(text, to, t);
      to := to + [t];
      ts := ts[2..];
      b, r := Peek(text, r, "<>");
    }
    return Targets(to), r;
  }

  lemma {:induction false} OneMore(text: string, to: seq<Target<Span>>, t: Target<Span>)
    ensures TargetStrs(text, to + [t]) == TargetStrs(text, to) + [TargetStr(text, t)]
    ensures FileSpans(text, to) && WordSpan(text, t.file) ==> FileSpans(text, to + [t])
  {
  }

  lemma {:induction false} ArgsAfterRedirs(argv: seq<string>, to: seq<Target<string>>, ts: seq<Tok>)
    ensures match ParseRedirs(to, ts)
      case Bad(e) => ParseArgs(argv, to, ts) == Err(e)
      case Reds(to', rest) => ParseArgs(argv, to, ts) == ParseArgs(argv, to', rest)
  {
  }

  lemma {:induction false} OneWord(text: string, argv: seq<Span>, sp: Span)
    ensures Strs(text, argv + [sp]) == Strs(text, argv) + [Slice(text, sp)]
    ensures WordSpans(text, argv) && WordSpan(text, sp) ==> WordSpans(text, argv + [sp])
  {
  }

  datatype Arg = End | Wrong | Given(sp: Span)

  /** The next word of a simple command, its end, or something that cannot stand there. */
  method Argument(text: string, s: nat, ghost ts: seq<Tok>) returns (a: Arg, r: nat)
    requires Line(text) && s <= |text| && ts == From(text, s)
    ensures r <= |text|
    ensures a.End? <==> ts == [] || Starts(ts, "|)&;")
    ensures a.End? ==> From(text, r) == ts
    ensures a.Wrong? ==> !ts[0].Word?
    ensures a.Given? ==> ts[0].Word? && WordSpan(text, a.sp) && Slice(text, a.sp) == ts[0].w && From(text, r) == ts[1..]
  {
    var b, kind, q, eq;
    b, r := Peek(text, s, "|)&;");
    if b {
      return End, r;
    }
    TokensOk(text[r..]);
    kind, q, eq, r := Gettoken(text, r);
    a := if kind == '\0' then End else if kind != 'a' then Wrong else Given(Span(q, eq));
  }

  /** The words and redirections of a simple command. */
  method Parseargs(text: string, s: nat) returns (out: Out, r: nat)
    requires Line(text) && s <= |text|
    ensures Agrees(text, out, r, ParseArgs([], [], From(text, s)))
  {
    var argv: seq<Span>, to: seq<Target<Span>> := [], [];
    ghost var goal := ParseArgs([], [], From(text, s));
    ghost var ts := From(text, s);
    assert TargetStrs(text, to) == [] && Strs(text, argv) == [];
    ArgsAfterRedirs([], [], ts);
    var reds;
    reds, r := Parseredirs(text, s, to);
    if reds.RedirPanic? {
      return Panicked(reds.error), r;
    }
    to := reds.to;
    ts := From(text, r);
    while true
      invariant r <= |text| && ts == From(text, r) && !Starts(ts, "<>")
      invariant WordSpans(text, argv) && FileSpans(text, to) && |argv| < MAXARGS
      invariant ParseArgs(Strs(text, argv), TargetStrs(text, to), ts) == goal
      decreases |ts|
    {
      var a;
      a, r := Argument(text, r, ts);
      if a.End? {
        break;
      }
      if a.Wrong? {
        return Panicked(Syntax), r;
      }
      OneWord(text, argv, a.sp);
      argv := argv + [a.sp];
      if |argv| >= MAXARGS {
        return Panicked(TooManyArgs), r;
      }
      ArgsAfterRedirs(Strs(text, argv), TargetStrs(text, to), ts[1..]);
      reds, r := Parseredirs(text, r, to);
      if reds.RedirPanic? {
        return Panicked(reds.error), r;
      }
      to := reds.to;
      ts := From(text, r);
    }
    WrapStrings(text, Exec(argv), to);
    return Done(Wrap(Exec(argv), to)), r;
  }

  method Parseexec(text: string, s: nat) returns (out: Out, r: nat)
    requires Line(text) && s <= |text|
    ensures Agrees(text, out, r, ParseExec(From(text, s)))
    decreases |From(text, s)|, 1
  {
    var b;
    b, r := Peek(text, s, "(");
    if b {
      out, r := Parseblock(text, r);
    } else {
      out, r := Parseargs(text, r);
    }
  }

  method Parseblock(text: string, s: nat) returns (out: Out, r: nat)
    requires Line(text) && s <= |text| && Starts(From(text, s), "(")
    ensures Agrees(text, out, r, ParseBlock(From(text, s)))
    decreases |From(text, s)|, 0
  {
    var kind, q, eq;
    kind, q, eq, r := Gettoken(text, s);
    out, r := Parseline(text, r);
    if out.Done? {
      out, r := Closeblock(text, r, out.cmd);
    }
  }

  /** The end of parseblock. */
  method Closeblock(text: string, s: nat, cmd: Cmd<Span>) returns (out: Out, r: nat)
    requires Line(text) && s <= |text| && SpansOk(text, cmd)
    ensures Agrees(text, out, r, CloseBlock(Strings(text, cmd), From(text, s)))
  {
    var b, kind, q, eq, reds;
    b, r := Peek(text, s, ")");
    if !b {
      return Panicked(MissingParen), r;
    }
    kind, q, eq, r := Gettoken(text, r);
    assert TargetStrs(text, []) == [];
    reds, r := Parseredirs(text, r, []);
    if reds.RedirPanic? {
      return Panicked(reds.error), r;
    }
    WrapStrings(text, cmd, reds.to);
    out := Done(Wrap(cmd, reds.to));
  }

  method Parsepipe(text: string, s: nat) returns (out: Out, r: nat)
    requires Line(text) && s <= |text|
    ensures Agrees(text, out, r, ParsePipe(From(text, s)))
    decreases |From(text, s)|, 2
  {
    out, r := Parseexec(text, s);
    if out.Panicked? {
      return;
    }
    var b;
    b, r := Peek(text, r, "|");
    if b {
      var kind, q, eq, next;
      kind, q, eq, r := Gettoken(text, r);
      next, r := Parsepipe(text, r);
      if next.Panicked? {
        return next, r;
      }
      out := Done(Pipe(out.cmd, next.cmd));
    }
  }

  /** The loop of parseline over ampersands. */
  method Parsebacks(text: string, s: nat, cmd: Cmd<Span>) returns (c: Cmd<Span>, r: nat)
    requires Line(text) && s <= |text| && SpansOk(text, cmd)
    ensures Agrees(text, Done(c), r, Backs(Strings(text, cmd), From(text, s)))
  {
    c := cmd;
    ghost var ts := From(text, s);
    ghost var goal := Backs(Strings(text, cmd), ts);
    var b;
    b, r := Peek(text, s, "&");
    while b
      invariant r <= |text| && ts == From(text, r) && SpansOk(text, c)
      invariant b <==> Starts(ts, "&")
      invariant Backs(Strings(text, c), ts) == goal
      decreases |ts|
    {
      var kind, q, eq;
      kind, q, eq, r := Gettoken(text, r);
      c := Back(c);
      ts := ts[1..];
      b, r := Peek(text, r, "&");
    }
  }

  /** parseline up to and including that loop. */
  method Parsehead(text: string, s: nat) returns (out: Out, r: nat)
    requires Line(text) && s <= |text|
    ensures Agrees(text, out, r, LineHead(From(text, s)))
    decreases |From(text, s)|, 3
  {
    out, r := Parsepipe(text, s);
    if out.Done? {
      var c;
      c, r := Parsebacks(text, r, out.cmd);
      out := Done(c);
    }
  }

  method Parseline(text: string, s: nat) returns (out: Out, r: nat)
    requires Line(text) && s <= |text|
    ensures Agrees(text, out, r, ParseLine(From(text, s)))
    decreases |From(text, s)|, 4
  {
    HeadOnly(From(text, s));
    HeadShorter(From(text, s));
    out, r := Parsehead(text, s);
    if out.Panicked? {
      return;
    }
    var b;
    b, r := Peek(text, r, ";");
    if b {
      var kind, q, eq, next;
      kind, q, eq, r := Gettoken(text, r);
      next, r := Parseline(text, r);
      if next.Panicked? {
        return next, r;
      }
      out := Done(List(out.cmd, next.cmd));
    }
  }
}
