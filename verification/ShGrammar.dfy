/** The shell's grammar on tokens, the ways of writing a command, and the round trip between
    the two. */
module ShGrammar {
  import opened ShTokens

  const MAXARGS: nat := 10
  const O_RDONLY: int := 0
  const O_WRONLY_CREATE: int := 0x201

  /** A command tree over words of type W. */
  datatype Cmd<W> =
    | Exec(argv: seq<W>)
    | Redir(cmd: Cmd<W>, to: Target<W>)
    | Pipe(left: Cmd<W>, right: Cmd<W>)
    | List(left: Cmd<W>, right: Cmd<W>)
    | Back(cmd: Cmd<W>)

  datatype Target<W> = Target(file: W, mode: int, fd: int)

  datatype Panic = MissingFile | MissingParen | Syntax | TooManyArgs | Leftovers

  datatype Parsed = Ok(cmd: Cmd<string>, rest: seq<Tok>) | Err(error: Panic)

  datatype Redirs = Reds(to: seq<Target<string>>, rest: seq<Tok>) | Bad(error: Panic)

  predicate Starts(ts: seq<Tok>, chars: string) {
    ts != [] && ts[0].Sym? && First(ts[0]) in chars
  }

  /** The redirection a symbol asks for; > and >> are treated alike. */
  function TargetOf<W>(c: char, file: W): (t: Target<W>) {
    if c == '<' then Target(file, O_RDONLY, 0) else Target(file, O_WRONLY_CREATE, 1)
  }

  function Wrap<W>(c: Cmd<W>, to: seq<Target<W>>): (r: Cmd<W>) {
    if to == [] then c else Redir(Wrap(c, to[..|to| - 1]), to[|to| - 1])
  }

  // ---- Recursive descent on tokens ----

  function ParseRedirs(to: seq<Target<string>>, ts: seq<Tok>): (r: Redirs)
    ensures r.Reds? ==> |r.rest| <= |ts| && !Starts(r.rest, "<>")
    decreases |ts|
  {
    if !Starts(ts, "<>") then Reds(to, ts)
    else if |ts| < 2 || !ts[1].Word? then Bad(MissingFile)
    else ParseRedirs(to + [TargetOf(Kind(ts[0]), ts[1].w)], ts[2..])
  }

  /** parseexec after its first test, with the words and redirections met so far. */
  function ParseArgs(argv: seq<string>, to: seq<Target<string>>, ts: seq<Tok>): (r: Parsed)
    ensures r.Ok? ==> |r.rest| <= |ts|
    decreases |ts|
  {
    match ParseRedirs(to, ts)
    case Bad(e) => Err(e)
    case Reds(to', rest) =>
      if rest == [] || Starts(rest, "|)&;") then Ok(Wrap(Exec(argv), to'), rest)
      else if !rest[0].Word? then Err(Syntax)
      else if |argv| + 1 >= MAXARGS then Err(TooManyArgs)
      else ParseArgs(argv + [rest[0].w], to', rest[1..])
  }

  function ParseBlock(ts: seq<Tok>): (r: Parsed)
    requires Starts(ts, "(")
    ensures r.Ok? ==> |r.rest| <= |ts|
    decreases |ts|, 0
  {
    match ParseLine(ts[1..])
    case Err(e) => Err(e)
    case Ok(c, rest) => CloseBlock(c, rest)
  }

  /** The end of parseblock: the closing parenthesis and the redirections of the block. */
  function CloseBlock(c: Cmd<string>, ts: seq<Tok>): (r: Parsed)
    ensures r.Ok? ==> |r.rest| <= |ts|
  {
    if !Starts(ts, ")") then Err(MissingParen)
    else
      match ParseRedirs([], ts[1..])
      case Bad(e) => Err(e)
      case Reds(to, rest) => Ok(Wrap(c, to), rest)
  }

  function ParseExec(ts: seq<Tok>): (r: Parsed)
    ensures r.Ok? ==> |r.rest| <= |ts|
    decreases |ts|, 1
  {
    if Starts(ts, "(") then ParseBlock(ts) else ParseArgs([], [], ts)
  }

  function ParsePipe(ts: seq<Tok>): (r: Parsed)
    ensures r.Ok? ==> |r.rest| <= |ts|
    decreases |ts|, 2
  {
    match ParseExec(ts)
    case Err(e) => Err(e)
    case Ok(c, rest) =>
      if !Starts(rest, "|") then Ok(c, rest)
      else
        match ParsePipe(rest[1..])
        case Err(e) => Err(e)
        case Ok(d, rest') => Ok(Pipe(c, d), rest')
  }

  /** The loop of parseline over ampersands. */
  function Backs(c: Cmd<string>, ts: seq<Tok>): (r: Parsed)
    ensures r.Ok? && |r.rest| <= |ts| && !Starts(r.rest, "&")
    decreases |ts|
  {
    if Starts(ts, "&") then Backs(Back(c), ts[1..]) else Ok(c, ts)
  }

  function ParseLine(ts: seq<Tok>): (r: Parsed)
    ensures r.Ok? ==> |r.rest| <= |ts|
    decreases |ts|, 3
  {
    match ParsePipe(ts)
    case Err(e) => Err(e)
    case Ok(c, rest) => ParseList(Backs(c, rest).cmd, Backs(c, rest).rest, |ts|)
  }

  /** The end of parseline: a semicolon and another line, or nothing. */
  function ParseList(c: Cmd<string>, rest: seq<Tok>, limit: nat): (r: Parsed)
    requires |rest| <= limit
    ensures r.Ok? ==> |r.rest| <= limit
    decreases limit, 2
  {
    if !Starts(rest, ";") then Ok(c, rest)
    else
      match ParseLine(rest[1..])
      case Err(e) => Err(e)
      case Ok(d, rest') => Ok(List(c, d), rest')
  }

  /** parsecmd: the whole line must be used up. */
  function ParseCmd(ts: seq<Tok>): (r: Parsed) {
    match ParseLine(ts)
    case Err(e) => Err(e)
    case Ok(c, rest) => if rest == [] then Ok(c, []) else Err(Leftovers)
  }

  // ---- Ways of writing a command ----

  /** A piece of a simple command: a word, or a redirection by its symbol and file name. */
  datatype Piece = Arg(w: string) | To(symbol: char, file: string)

  /** How a command is written: words and redirections in any order, or a line in
      parentheses with redirections behind it, joined by |, & and ;. */
  datatype Source =
    | Simple(pieces: seq<Piece>)
    | Block(line: Source, to: seq<Piece>)
    | Piped(left: Source, right: Source)
    | Listed(left: Source, right: Source)
    | Background(source: Source)

  /** The symbols of a redirection, with '+' for >>. */
  predicate RedirSymbol(c: char) {
    c == '<' || c == '>' || c == '+'
  }

  predicate Pieces(ps: seq<Piece>) {
    forall i :: 0 <= i < |ps| ==> ps[i].Arg? || RedirSymbol(ps[i].symbol)
  }

  predicate Redirections(ps: seq<Piece>) {
    forall i :: 0 <= i < |ps| ==> ps[i].To? && RedirSymbol(ps[i].symbol)
  }

  /** What may be written where binding of at least the given level is needed. */
  predicate Grammatical(s: Source, level: nat) {
    match s
    case Simple(ps) => Pieces(ps)
    case Block(line, to) => Grammatical(line, 0) && Redirections(to)
    case Piped(l, r) => level <= 2 && Grammatical(l, 3) && Grammatical(r, 2)
    case Background(d) => level <= 1 && Grammatical(d, 1)
    case Listed(l, r) => level == 0 && Grammatical(l, 1) && Grammatical(r, 0)
  }

  function PieceToks(p: Piece): (ts: seq<Tok>) {
    match p
    case Arg(w) => [Word(w)]
    case To(c, file) => [Sym(c), Word(file)]
  }

  function ShowPieces(ps: seq<Piece>): (ts: seq<Tok>) {
    if ps == [] then [] else PieceToks(ps[0]) + ShowPieces(ps[1..])
  }

  /** The tokens written. */
  function Show(s: Source): (ts: seq<Tok>) {
    match s
    case Simple(ps) => ShowPieces(ps)
    case Block(line, to) => [Sym('(')] + (Show(line) + ([Sym(')')] + ShowPieces(to)))
    case Piped(l, r) => Show(l) + ([Sym('|')] + Show(r))
    case Listed(l, r) => Show(l) + ([Sym(';')] + Show(r))
    case Background(d) => Show(d) + [Sym('&')]
  }

  /** The words among the pieces. */
  function Arguments(ps: seq<Piece>): (argv: seq<string>) {
    if ps == [] then [] else (if ps[0].Arg? then [ps[0].w] else []) + Arguments(ps[1..])
  }

  /** Standard input read from a file, or standard output written to one that is created. */
  predicate InOrOut(t: Target<string>) {
    (t.fd == 0 && t.mode == 0) || (t.fd == 1 && t.mode == 0x201)
  }

  /** The redirection a piece asks for, if any. */
  function RedirectOf(p: Piece): (to: seq<Target<string>>) {
    match p
    case Arg(_) => []
    case To(c, file) => [if c == '<' then Target(file, 0, 0) else Target(file, 0x201, 1)]
  }

  function Redirects(ps: seq<Piece>): (to: seq<Target<string>>) {
    if ps == [] then [] else RedirectOf(ps[0]) + Redirects(ps[1..])
  }

  /** The first redirection goes innermost. */
  function Around(c: Cmd<string>, to: seq<Target<string>>): (r: Cmd<string>)
    decreases |to|
  {
    if to == [] then c else Around(Redir(c, to[0]), to[1..])
  }

  /** The command meant. */
  function Meaning(s: Source): (c: Cmd<string>) {
    match s
    case Simple(ps) => Around(Exec(Arguments(ps)), Redirects(ps))
    case Block(line, to) => Around(Meaning(line), Redirects(to))
    case Piped(l, r) => Pipe(Meaning(l), Meaning(r))
    case Listed(l, r) => List(Meaning(l), Meaning(r))
    case Background(d) => Back(Meaning(d))
  }

  /** At most nine words in every simple command. */
  predicate Small(c: Cmd<string>) {
    match c
    case Exec(argv) => |argv| <= 9
    case Redir(d, _) => Small(d)
    case Pipe(l, r) => Small(l) && Small(r)
    case List(l, r) => Small(l) && Small(r)
    case Back(d) => Small(d)
  }

  /** What reading c, with rest behind it, should give. */
  function Expected(c: Cmd<string>, rest: seq<Tok>): (r: Parsed) {
    if Small(c) then Ok(c, rest) else Err(TooManyArgs)
  }

  /** What may come behind a command of the given level. */
  predicate Follow(rest: seq<Tok>, level: nat) {
    rest == [] || Starts(rest, if level == 0 then ")" else if level < 3 then ")&;" else ")&;|")
  }

  // ---- Reading a simple command ----

  lemma {:induction false} Assoc<T>(a: seq<T>, x: T, b: seq<T>)
    ensures a + [x] + b == a + ([x] + b)
  {
  }

  lemma {:induction false} WrapLast<W>(c: Cmd<W>, to: seq<Target<W>>, t: Target<W>)
    ensures Wrap(c, to + [t]) == Redir(Wrap(c, to), t)
  {
    assert (to + [t])[..|to|] == to;
  }

  /** Wrapping one redirection after the other. */
  lemma {:induction false} AroundWraps(c: Cmd<string>, done: seq<Target<string>>, to: seq<Target<string>>)
    ensures Around(Wrap(c, done), to) == Wrap(c, done + to)
    decreases |to|
  {
    if to == [] {
      assert done + to == done;
    } else {
      WrapLast(c, done, to[0]);
      AroundWraps(c, done + [to[0]], to[1..]);
      assert done + [to[0]] + to[1..] == done + to;
    }
  }

  lemma {:induction false} AroundIsWrap(c: Cmd<string>, to: seq<Target<string>>)
    ensures Around(c, to) == Wrap(c, to)
    ensures Small(Around(c, to)) == Small(c)
    decreases |to|
  {
    AroundWraps(c, [], to);
    assert [] + to == to;
    if to != [] {
      AroundIsWrap(Redir(c, to[0]), to[1..]);
    }
  }

  lemma {:induction false} FirstPiece(ps: seq<Piece>, rest: seq<Tok>)
    requires ps != []
    ensures var ts := ShowPieces(ps) + rest;
      match ps[0]
      case Arg(w) => ts != [] && ts[0] == Word(w) && ts[1..] == ShowPieces(ps[1..]) + rest
      case To(c, file) => |ts| >= 2 && ts[0] == Sym(c) && ts[1] == Word(file) && ts[2..] == ShowPieces(ps[1..]) + rest
  {
    assert ShowPieces(ps) + rest == PieceToks(ps[0]) + (ShowPieces(ps[1..]) + rest);
  }

  lemma {:induction false} ReadRedirs(done: seq<Target<string>>, ps: seq<Piece>, rest: seq<Tok>)
    requires Redirections(ps) && !Starts(rest, "<>")
    ensures ParseRedirs(done, ShowPieces(ps) + rest) == Reds(done + Redirects(ps), rest)
    decreases |ps|
  {
    if ps == [] {
      assert ShowPieces(ps) + rest == rest;
      assert done + Redirects(ps) == done;
    } else {
      FirstPiece(ps, rest);
      var t := TargetOf(ps[0].symbol, ps[0].file);
      ReadRedirs(done + [t], ps[1..], rest);
      Assoc(done, t, Redirects(ps[1..]));
    }
  }

  /** One redirection more, and the words go on. */
  lemma {:induction false} ArgsRedir(argv: seq<string>, to: seq<Target<string>>, ts: seq<Tok>)
    requires Starts(ts, "<>") && |ts| >= 2 && ts[1].Word?
    ensures ParseArgs(argv, to, ts) == ParseArgs(argv, to + [TargetOf(Kind(ts[0]), ts[1].w)], ts[2..])
  {
  }

  lemma {:induction false} ArgsWord(argv: seq<string>, to: seq<Target<string>>, ts: seq<Tok>)
    requires ts != [] && ts[0].Word?
    ensures ParseArgs(argv, to, ts) ==
      if |argv| + 1 >= MAXARGS then Err(TooManyArgs) else ParseArgs(argv + [ts[0].w], to, ts[1..])
  {
  }

  /** What ParseArgs should make of the pieces ps. */
  function ExpectedArgs(argv: seq<string>, to: seq<Target<string>>, ps: seq<Piece>, rest: seq<Tok>): (r: Parsed) {
    if |argv + Arguments(ps)| <= 9 then Ok(Wrap(Exec(argv + Arguments(ps)), to + Redirects(ps)), rest)
    else Err(TooManyArgs)
  }

  lemma {:induction false} ExpectedWord(argv: seq<string>, to: seq<Target<string>>, w: string, ps: seq<Piece>,
      rest: seq<Tok>)
    requires ps != [] && ps[0] == Arg(w)
    ensures ExpectedArgs(argv, to, ps, rest) == ExpectedArgs(argv + [w], to, ps[1..], rest)
    ensures |argv| >= 9 ==> ExpectedArgs(argv, to, ps, rest) == Err(TooManyArgs)
  {
    Assoc(argv, w, Arguments(ps[1..]));
    assert Redirects(ps) == Redirects(ps[1..]);
  }

  lemma {:induction false} ExpectedRedir(argv: seq<string>, to: seq<Target<string>>, c: char, file: string,
      ps: seq<Piece>, rest: seq<Tok>)
    requires ps != [] && ps[0] == To(c, file)
    ensures ExpectedArgs(argv, to, ps, rest) == ExpectedArgs(argv, to + [TargetOf(c, file)], ps[1..], rest)
  {
    Assoc(to, TargetOf(c, file), Redirects(ps[1..]));
    assert Arguments(ps) == Arguments(ps[1..]);
  }

  /** Words and redirections in any order. */
  lemma {:induction false} ReadArgs(argv: seq<string>, to: seq<Target<string>>, ps: seq<Piece>, rest: seq<Tok>)
    requires |argv| <= 9 && Pieces(ps) && Follow(rest, 3)
    ensures ParseArgs(argv, to, ShowPieces(ps) + rest) == ExpectedArgs(argv, to, ps, rest)
    decreases |ps|
  {
    var ts := ShowPieces(ps) + rest;
    if ps == [] {
      assert ts == rest && argv + Arguments(ps) == argv && to + Redirects(ps) == to;
    } else if ps[0].Arg? {
      FirstPiece(ps, rest);
      ArgsWord(argv, to, ts);
      ExpectedWord(argv, to, ps[0].w, ps, rest);
      if |argv| < 9 {
        ReadArgs(argv + [ps[0].w], to, ps[1..], rest);
      }
    } else {
      FirstPiece(ps, rest);
      ArgsRedir(argv, to, ts);
      ExpectedRedir(argv, to, ps[0].symbol, ps[0].file, ps, rest);
      ReadArgs(argv, to + [TargetOf(ps[0].symbol, ps[0].file)], ps[1..], rest);
    }
  }

  lemma {:induction false} NoParen(ps: seq<Piece>, rest: seq<Tok>)
    requires Pieces(ps) && Follow(rest, 3)
    ensures !Starts(ShowPieces(ps) + rest, "(")
  {
    if ps == [] {
      assert ShowPieces(ps) + rest == rest;
    } else {
      FirstPiece(ps, rest);
    }
  }

  // ---- The round trip, level by level ----

  /** Two commands around a symbol, and what comes behind them. */
  lemma {:induction false} Joined(a: seq<Tok>, c: char, b: seq<Tok>, rest: seq<Tok>)
    ensures var tail := [Sym(c)] + (b + rest);
      a + ([Sym(c)] + b) + rest == a + tail && tail[0] == Sym(c) && tail[1..] == b + rest
  {
  }

  lemma {:induction false} ReadExec(s: Source, rest: seq<Tok>)
    requires Grammatical(s, 3) && Follow(rest, 3)
    ensures ParseExec(Show(s) + rest) == Expected(Meaning(s), rest)
    decreases s, 0
  {
    match s
    case Simple(ps) => ReadSimple(ps, rest);
    case Block(line, to) =>
      ReadLine(line, [Sym(')')] + (ShowPieces(to) + rest));
      ReadBlock(line, to, rest);
  }

  lemma {:induction false} ReadSimple(ps: seq<Piece>, rest: seq<Tok>)
    requires Pieces(ps) && Follow(rest, 3)
    ensures ParseExec(Show(Simple(ps)) + rest) == Expected(Meaning(Simple(ps)), rest)
  {
    NoParen(ps, rest);
    ReadArgs([], [], ps, rest);
    assert [] + Arguments(ps) == Arguments(ps) && [] + Redirects(ps) == Redirects(ps);
    AroundIsWrap(Exec(Arguments(ps)), Redirects(ps));
  }

  lemma {:induction false} ReadBlock(line: Source, to: seq<Piece>, rest: seq<Tok>)
    requires Redirections(to) && Follow(rest, 3)
    requires var tail := [Sym(')')] + (ShowPieces(to) + rest);
      ParseLine(Show(line) + tail) == Expected(Meaning(line), tail)
    ensures ParseExec(Show(Block(line, to)) + rest) == Expected(Meaning(Block(line, to)), rest)
  {
    ReadRedirs([], to, rest);
    assert [] + Redirects(to) == Redirects(to);
    AroundIsWrap(Meaning(line), Redirects(to));
    BlockToks(line, to, rest);
    BlockStep(Show(Block(line, to)) + rest, Meaning(line), [Sym(')')] + (ShowPieces(to) + rest), Redirects(to), rest);
  }

  lemma {:induction false} BlockToks(line: Source, to: seq<Piece>, rest: seq<Tok>)
    ensures var ts := Show(Block(line, to)) + rest; var tail := [Sym(')')] + (ShowPieces(to) + rest);
      Starts(ts, "(") && ts[1..] == Show(line) + tail && tail[1..] == ShowPieces(to) + rest
  {
    var tail := [Sym(')')] + (ShowPieces(to) + rest);
    assert Show(Block(line, to)) + rest == [Sym('(')] + (Show(line) + tail);
  }

  lemma {:induction false} BlockStep(ts: seq<Tok>, b: Cmd<string>, tail: seq<Tok>, to: seq<Target<string>>,
      rest: seq<Tok>)
    requires Starts(ts, "(") && ParseLine(ts[1..]) == Expected(b, tail)
    requires Starts(tail, ")") && ParseRedirs([], tail[1..]) == Reds(to, rest)
    ensures ParseExec(ts) == if Small(b) then Ok(Wrap(b, to), rest) else Err(TooManyArgs)
  {
  }

  lemma {:induction false} ReadPipe(s: Source, rest: seq<Tok>)
    requires Grammatical(s, 2) && Follow(rest, 2)
    ensures ParsePipe(Show(s) + rest) == Expected(Meaning(s), rest)
    decreases s, 1
  {
    if s.Piped? {
      Joined(Show(s.left), '|', Show(s.right), rest);
      ReadExec(s.left, [Sym('|')] + (Show(s.right) + rest));
      ReadPipe(s.right, rest);
    } else {
      ReadExec(s, rest);
    }
  }

  /** parseline up to and including its loop over ampersands. */
  function LineHead(ts: seq<Tok>): (r: Parsed) {
    match ParsePipe(ts)
    case Err(e) => Err(e)
    case Ok(c, rest) => Backs(c, rest)
  }

  lemma {:induction false} ReadBack(s: Source, rest: seq<Tok>)
    requires Grammatical(s, 1) && Follow(rest, 1)
    ensures LineHead(Show(s) + rest) == if Small(Meaning(s)) then Backs(Meaning(s), rest) else Err(TooManyArgs)
    decreases s, 2
  {
    if s.Background? {
      var tail := [Sym('&')] + rest;
      assert Show(s) + rest == Show(s.source) + tail;
      ReadBack(s.source, tail);
      assert tail[1..] == rest;
    } else {
      ReadPipe(s, rest);
    }
  }

  lemma {:induction false} ReadLine(s: Source, rest: seq<Tok>)
    requires Grammatical(s, 0) && Follow(rest, 0)
    ensures ParseLine(Show(s) + rest) == Expected(Meaning(s), rest)
    decreases s, 3
  {
    if s.Listed? {
      var tail := [Sym(';')] + (Show(s.right) + rest);
      ReadBack(s.left, tail);
      ReadLine(s.right, rest);
      Joined(Show(s.left), ';', Show(s.right), rest);
      HeadOnly(Show(s.left) + tail);
    } else {
      ReadBack(s, rest);
      HeadOnly(Show(s) + rest);
    }
  }

  lemma {:induction false} HeadOnly(ts: seq<Tok>)
    ensures LineHead(ts).Err? ==> ParseLine(ts) == LineHead(ts)
    ensures LineHead(ts).Ok? && !Starts(LineHead(ts).rest, ";") ==> ParseLine(ts) == LineHead(ts)
    ensures LineHead(ts).Ok? && Starts(LineHead(ts).rest, ";") ==>
      ParseLine(ts) == match ParseLine(LineHead(ts).rest[1..])
        case Err(e) => Err(e)
        case Ok(d, rest) => Ok(List(LineHead(ts).cmd, d), rest)
  {
  }

  /** However a command is written, reading it gives the command meant, exactly when no
      simple command has more than nine words; otherwise there are too many arguments. */
  lemma {:induction false} PrintThenParse(s: Source)
    requires Grammatical(s, 0)
    ensures ParseCmd(Show(s)) == Expected(Meaning(s), [])
  {
    ReadLine(s, []);
    assert Show(s) + [] == Show(s);
  }

  // ---- Nothing else is read ----

  /** s is a way of writing c that uses up ts as far as rest. */
  predicate Reads(s: Source, level: nat, ts: seq<Tok>, c: Cmd<string>, rest: seq<Tok>) {
    Grammatical(s, level) && Meaning(s) == c && Show(s) + rest == ts
  }

  lemma {:induction false} WordFirst(w: string, ps: seq<Piece>, rest: seq<Tok>)
    ensures var all := [Arg(w)] + ps;
      && ShowPieces(all) + rest == [Word(w)] + (ShowPieces(ps) + rest)
      && Arguments(all) == [w] + Arguments(ps) && Redirects(all) == Redirects(ps)
  {
    assert ([Arg(w)] + ps)[1..] == ps;
  }

  lemma {:induction false} RedirFirst(c: char, file: string, ps: seq<Piece>, rest: seq<Tok>)
    ensures var all := [To(c, file)] + ps;
      && ShowPieces(all) + rest == [Sym(c), Word(file)] + (ShowPieces(ps) + rest)
      && Arguments(all) == Arguments(ps) && Redirects(all) == [TargetOf(c, file)] + Redirects(ps)
  {
    assert ([To(c, file)] + ps)[1..] == ps;
  }

  predicate RedirsShown(r: Redirs, done: seq<Target<string>>, ts: seq<Tok>, ps: seq<Piece>) {
    r.Reds? && Redirections(ps) && r.to == done + Redirects(ps) && ShowPieces(ps) + r.rest == ts
  }

  lemma {:induction false} RedirsRead(done: seq<Target<string>>, ts: seq<Tok>) returns (ps: seq<Piece>)
    requires ParseRedirs(done, ts).Reds?
    ensures RedirsShown(ParseRedirs(done, ts), done, ts, ps)
    decreases |ts|
  {
    if !Starts(ts, "<>") {
      ps := [];
      assert done + [] == done && [] + ts == ts;
    } else {
      var c, file := Kind(ts[0]), ts[1].w;
      ps := RedirsRead(done + [TargetOf(c, file)], ts[2..]);
      OneShown(ParseRedirs(done, ts), done, ts, c, file, ps);
      ps := [To(c, file)] + ps;
    }
  }

  lemma {:induction false} OneShown(r: Redirs, done: seq<Target<string>>, ts: seq<Tok>, c: char, file: string,
      ps: seq<Piece>)
    requires |ts| >= 2 && ts[0] == Sym(c) && ts[1] == Word(file) && RedirSymbol(c)
    requires RedirsShown(r, done + [TargetOf(c, file)], ts[2..], ps)
    ensures RedirsShown(r, done, ts, [To(c, file)] + ps)
  {
    RedirFirst(c, file, ps, r.rest);
    Assoc(done, TargetOf(c, file), Redirects(ps));
    assert [Sym(c), Word(file)] + ts[2..] == ts;
  }

  /** The pieces ps are a way of writing what is read as r from ts, behind what came before. */
  predicate ArgsShown(r: Parsed, argv: seq<string>, to: seq<Target<string>>, ts: seq<Tok>, ps: seq<Piece>) {
    && r.Ok? && Pieces(ps) && ShowPieces(ps) + r.rest == ts
    && r.cmd == Wrap(Exec(argv + Arguments(ps)), to + Redirects(ps))
  }

  lemma {:induction false} ArgsRead(argv: seq<string>, to: seq<Target<string>>, ts: seq<Tok>)
    returns (ps: seq<Piece>)
    requires ParseArgs(argv, to, ts).Ok?
    ensures ArgsShown(ParseArgs(argv, to, ts), argv, to, ts, ps)
    decreases |ts|
  {
    if Starts(ts, "<>") {
      ArgsRedir(argv, to, ts);
      ps := ArgsRead(argv, to + [TargetOf(Kind(ts[0]), ts[1].w)], ts[2..]);
      RedirShown(ParseArgs(argv, to, ts), argv, to, ts, Kind(ts[0]), ts[1].w, ps);
      ps := [To(Kind(ts[0]), ts[1].w)] + ps;
    } else if ts == [] || Starts(ts, "|)&;") {
      ps := [];
      assert argv + [] == argv && to + [] == to && [] + ts == ts;
    } else {
      ArgsWord(argv, to, ts);
      ps := ArgsRead(argv + [ts[0].w], to, ts[1..]);
      WordShown(ParseArgs(argv, to, ts), argv, to, ts, ts[0].w, ps);
      ps := [Arg(ts[0].w)] + ps;
    }
  }

  lemma {:induction false} RedirShown(r: Parsed, argv: seq<string>, to: seq<Target<string>>, ts: seq<Tok>,
      c: char, file: string, ps: seq<Piece>)
    requires |ts| >= 2 && ts[0] == Sym(c) && ts[1] == Word(file) && RedirSymbol(c)
    requires ArgsShown(r, argv, to + [TargetOf(c, file)], ts[2..], ps)
    ensures ArgsShown(r, argv, to, ts, [To(c, file)] + ps)
  {
    RedirFirst(c, file, ps, r.rest);
    Assoc(to, TargetOf(c, file), Redirects(ps));
    assert [Sym(c), Word(file)] + ts[2..] == ts;
  }

  lemma {:induction false} WordShown(r: Parsed, argv: seq<string>, to: seq<Target<string>>, ts: seq<Tok>,
      w: string, ps: seq<Piece>)
    requires ts != [] && ts[0] == Word(w) && ArgsShown(r, argv + [w], to, ts[1..], ps)
    ensures ArgsShown(r, argv, to, ts, [Arg(w)] + ps)
  {
    WordFirst(w, ps, r.rest);
    Assoc(argv, w, Arguments(ps));
    assert [Word(w)] + ts[1..] == ts;
  }

  lemma {:induction false} ExecRead(ts: seq<Tok>) returns (s: Source)
    requires ParseExec(ts).Ok?
    ensures Reads(s, 3, ts, ParseExec(ts).cmd, ParseExec(ts).rest)
    decreases |ts|, 0
  {
    if Starts(ts, "(") {
      var line := LineRead(ts[1..]);
      var tail := ParseLine(ts[1..]).rest;
      var to := RedirsRead([], tail[1..]);
      assert [] + Redirects(to) == Redirects(to);
      AroundIsWrap(Meaning(line), Redirects(to));
      s := Block(line, to);
      BlockShown(ts, line, to, tail, ParseExec(ts).rest);
    } else {
      var ps := ArgsRead([], [], ts);
      assert [] + Arguments(ps) == Arguments(ps) && [] + Redirects(ps) == Redirects(ps);
      AroundIsWrap(Exec(Arguments(ps)), Redirects(ps));
      s := Simple(ps);
    }
  }

  lemma {:induction false} BlockShown(ts: seq<Tok>, line: Source, to: seq<Piece>, tail: seq<Tok>, rest: seq<Tok>)
    requires Starts(ts, "(") && Show(line) + tail == ts[1..]
    requires Starts(tail, ")") && ShowPieces(to) + rest == tail[1..]
    ensures Show(Block(line, to)) + rest == ts
  {
    assert ts == [ts[0]] + ts[1..] && tail == [tail[0]] + tail[1..];
    assert Show(Block(line, to)) + rest == [Sym('(')] + (Show(line) + ([Sym(')')] + (ShowPieces(to) + rest)));
  }

  /** Two commands read one after the other around a symbol. */
  lemma {:induction false} JoinRead(l: Source, c: char, r: Source, ts: seq<Tok>, tail: seq<Tok>, rest: seq<Tok>)
    requires Show(l) + tail == ts && tail != [] && tail[0] == Sym(c) && Show(r) + rest == tail[1..]
    ensures Show(l) + ([Sym(c)] + Show(r)) + rest == ts
  {
    Joined(Show(l), c, Show(r), rest);
    assert tail == [Sym(c)] + tail[1..];
  }

  lemma {:induction false} PipeRead(ts: seq<Tok>) returns (s: Source)
    requires ParsePipe(ts).Ok?
    ensures Reads(s, 2, ts, ParsePipe(ts).cmd, ParsePipe(ts).rest)
    decreases |ts|, 1
  {
    s := ExecRead(ts);
    var tail := ParseExec(ts).rest;
    if Starts(tail, "|") {
      var r := PipeRead(tail[1..]);
      JoinRead(s, '|', r, ts, tail, ParsePipe(tail[1..]).rest);
      s := Piped(s, r);
    }
  }

  lemma {:induction false} BacksRead(s: Source, ts: seq<Tok>) returns (r: Source)
    requires Grammatical(s, 1)
    ensures Reads(r, 1, Show(s) + ts, Backs(Meaning(s), ts).cmd, Backs(Meaning(s), ts).rest)
    decreases |ts|
  {
    r := s;
    if Starts(ts, "&") {
      r := BacksRead(Background(s), ts[1..]);
      assert ts == [Sym('&')] + ts[1..];
      assert Show(Background(s)) + ts[1..] == Show(s) + ts;
    }
  }

  lemma {:induction false} HeadRead(ts: seq<Tok>) returns (s: Source)
    requires ParseLine(ts).Ok?
    ensures LineHead(ts).Ok? && Reads(s, 1, ts, LineHead(ts).cmd, LineHead(ts).rest)
    decreases |ts|, 2
  {
    HeadOnly(ts);
    var p := PipeRead(ts);
    s := BacksRead(p, ParsePipe(ts).rest);
  }

  lemma {:induction false} LineRead(ts: seq<Tok>) returns (s: Source)
    requires ParseLine(ts).Ok?
    ensures Reads(s, 0, ts, ParseLine(ts).cmd, ParseLine(ts).rest)
    decreases |ts|, 3
  {
    HeadOnly(ts);
    s := HeadRead(ts);
    var tail := LineHead(ts).rest;
    if Starts(tail, ";") {
      HeadShorter(ts);
      var r := LineRead(tail[1..]);
      JoinRead(s, ';', r, ts, tail, ParseLine(tail[1..]).rest);
      s := Listed(s, r);
    }
  }

  lemma {:induction false} HeadShorter(ts: seq<Tok>)
    ensures LineHead(ts).Ok? ==> |LineHead(ts).rest| <= |ts|
  {
  }

  /** The parser reads the command c from exactly the ways of writing it, and only if no
      simple command has more than nine words. */
  lemma {:induction false} ParsesIff(ts: seq<Tok>, c: Cmd<string>)
    ensures ParseCmd(ts) == Ok(c, []) <==> Small(c) && exists s :: Reads(s, 0, ts, c, [])
  {
    if ParseCmd(ts) == Ok(c, []) {
      var s := LineRead(ts);
      PrintThenParse(s);
      assert Show(s) + [] == Show(s);
    }
    if s :| Reads(s, 0, ts, c, []) {
      PrintThenParse(s);
      assert Show(s) + [] == Show(s);
    }
  }

  // ---- Every command can be written ----

  /** Only standard input and output are ever redirected. */
  predicate Canonical(c: Cmd<string>) {
    match c
    case Exec(_) => true
    case Redir(d, t) => Canonical(d) && InOrOut(t)
    case Pipe(l, r) => Canonical(l) && Canonical(r)
    case List(l, r) => Canonical(l) && Canonical(r)
    case Back(d) => Canonical(d)
  }

  /** One way of writing c, its words first, with parentheses only where they are needed. */
  function Written(c: Cmd<string>, level: nat): (s: Source)
    requires level <= 3
  {
    match c
    case Exec(argv) => Simple(seq(|argv|, i requires 0 <= i < |argv| => Arg(argv[i])))
    case Redir(d, t) => Appended(Written(d, 3), To(if t.fd == 0 then '<' else '>', t.file))
    case Pipe(l, r) => Closed(Piped(Written(l, 3), Written(r, 2)), level > 2)
    case List(l, r) => Closed(Listed(Written(l, 1), Written(r, 0)), level > 0)
    case Back(d) => Closed(Background(Written(d, 1)), level > 1)
  }

  function Closed(s: Source, closed: bool): (r: Source) {
    if closed then Block(s, []) else s
  }

  /** s with one piece more at its end. */
  function Appended(s: Source, p: Piece): (r: Source) {
    match s
    case Simple(ps) => Simple(ps + [p])
    case Block(line, to) => Block(line, to + [p])
    case _ => Block(s, [p])
  }

  lemma {:induction false} AroundLast(c: Cmd<string>, to: seq<Target<string>>, t: Target<string>)
    ensures Around(c, to + [t]) == Redir(Around(c, to), t)
  {
    AroundIsWrap(c, to + [t]);
    AroundIsWrap(c, to);
    WrapLast(c, to, t);
  }

  lemma {:induction false} RedirectsLast(ps: seq<Piece>, p: Piece, t: Target<string>)
    requires RedirectOf(p) == [t]
    ensures Redirects(ps + [p]) == Redirects(ps) + [t]
  {
    if ps == [] {
      assert ps + [p] == [p] && [p][1..] == [];
    } else {
      RedirectsLast(ps[1..], p, t);
      assert (ps + [p])[1..] == ps[1..] + [p] && (ps + [p])[0] == ps[0];
      assert RedirectOf(ps[0]) + (Redirects(ps[1..]) + [t]) == RedirectOf(ps[0]) + Redirects(ps[1..]) + [t];
    }
  }

  lemma {:induction false} ArgumentsLast(ps: seq<Piece>, p: Piece)
    requires p.To?
    ensures Arguments(ps + [p]) == Arguments(ps)
  {
    if ps == [] {
      assert ps + [p] == [p] && [p][1..] == [];
    } else {
      ArgumentsLast(ps[1..], p);
      assert (ps + [p])[1..] == ps[1..] + [p] && (ps + [p])[0] == ps[0];
    }
  }

  lemma {:induction false} AppendedMeans(s: Source, p: Piece, t: Target<string>)
    requires p.To? && RedirSymbol(p.symbol) && RedirectOf(p) == [t] && Grammatical(s, 3)
    ensures Grammatical(Appended(s, p), 3) && Meaning(Appended(s, p)) == Redir(Meaning(s), t)
  {
    match s
    case Simple(ps) =>
      ArgumentsLast(ps, p);
      RedirectsLast(ps, p, t);
      AroundLast(Exec(Arguments(ps)), Redirects(ps), t);
    case Block(line, to) =>
      RedirectsLast(to, p, t);
      AroundLast(Meaning(line), Redirects(to), t);
  }

  lemma {:induction false} WordsOnly(argv: seq<string>)
    ensures var ps := seq(|argv|, i requires 0 <= i < |argv| => Arg(argv[i]));
      Arguments(ps) == argv && Redirects(ps) == []
  {
    if argv != [] {
      WordsOnly(argv[1..]);
      var ps := seq(|argv|, i requires 0 <= i < |argv| => Arg(argv[i]));
      assert ps[1..] == seq(|argv[1..]|, i requires 0 <= i < |argv[1..]| => Arg(argv[1..][i]));
    }
  }

  lemma {:induction false} WrittenMeans(c: Cmd<string>, level: nat)
    requires Canonical(c) && level <= 3
    ensures Grammatical(Written(c, level), level) && Meaning(Written(c, level)) == c
    decreases c
  {
    match c
    case Exec(argv) => WordsOnly(argv);
    case Redir(d, t) =>
      WrittenMeans(d, 3);
      AppendedMeans(Written(d, 3), To(if t.fd == 0 then '<' else '>', t.file), t);
      GrammaticalBelow(Written(c, level), level);
    case Pipe(l, r) =>
      WrittenMeans(l, 3);
      WrittenMeans(r, 2);
    case List(l, r) =>
      WrittenMeans(l, 1);
      WrittenMeans(r, 0);
    case Back(d) => WrittenMeans(d, 1);
  }

  lemma {:induction false} GrammaticalBelow(s: Source, level: nat)
    requires Grammatical(s, 3) && level <= 3
    ensures Grammatical(s, level)
  {
  }

  lemma {:induction false} AroundCanonical(c: Cmd<string>, ps: seq<Piece>)
    requires Canonical(c)
    ensures Canonical(Around(c, Redirects(ps)))
    decreases |ps|
  {
    if ps != [] {
      if ps[0].Arg? {
        assert Redirects(ps) == Redirects(ps[1..]);
        AroundCanonical(c, ps[1..]);
      } else {
        AroundCanonical(Redir(c, Redirects(ps)[0]), ps[1..]);
      }
    }
  }

  lemma {:induction false} MeaningCanonical(s: Source)
    ensures Canonical(Meaning(s))
    decreases s
  {
    match s
    case Simple(ps) => AroundCanonical(Exec(Arguments(ps)), ps);
    case Block(line, to) =>
      MeaningCanonical(line);
      AroundCanonical(Meaning(line), to);
    case Piped(l, r) =>
      MeaningCanonical(l);
      MeaningCanonical(r);
    case Listed(l, r) =>
      MeaningCanonical(l);
      MeaningCanonical(r);
    case Background(d) => MeaningCanonical(d);
  }

  /** The commands the parser can yield are those that redirect standard input and output
      alone and have at most nine words in a simple command. */
  lemma {:induction false} ParsedIff(c: Cmd<string>)
    ensures (exists ts :: ParseCmd(ts) == Ok(c, [])) <==> Canonical(c) && Small(c)
  {
    if ts :| ParseCmd(ts) == Ok(c, []) {
      ParsesIff(ts, c);
      var s :| Reads(s, 0, ts, c, []);
      MeaningCanonical(s);
    }
    if Canonical(c) && Small(c) {
      WrittenMeans(c, 0);
      PrintThenParse(Written(c, 0));
    }
  }
}
