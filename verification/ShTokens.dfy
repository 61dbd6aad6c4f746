/** The tokens of a shell command line. */
module ShTokens {

  predicate Space(c: char) {
    c == ' ' || c == '\t' || c == '\r' || c == '\n' || c == '\U{0B}'
  }

  predicate Symbol(c: char) {
    c == '<' || c == '|' || c == '>' || c == '&' || c == ';' || c == '(' || c == ')'
  }

  predicate WordChar(c: char) {
    !Space(c) && !Symbol(c) && c != '\0'
  }

  /** A line: what strlen measures holds no NUL. */
  predicate Line(s: string) {
    forall i :: 0 <= i < |s| ==> s[i] != '\0'
  }

  /** A word, or a symbol; '+' stands for the two characters >>. */
  datatype Tok = Word(w: string) | Sym(c: char)

  function First(t: Tok): (c: char) {
    match t
    case Word(w) => if w == "" then '\0' else w[0]
    case Sym(c) => if c == '+' then '>' else c
  }

  /** gettoken's return value. */
  function Kind(t: Tok): (c: char) {
    if t.Word? then 'a' else t.c
  }

  /** Number of leading blanks. */
  function Blanks(s: string): (n: nat)
    ensures n <= |s|
    ensures forall i :: 0 <= i < n ==> Space(s[i])
    ensures n < |s| ==> !Space(s[n])
  {
    if s == "" || !Space(s[0]) then 0 else 1 + Blanks(s[1..])
  }

  /** Number of leading word characters. */
  function Letters(s: string): (n: nat)
    ensures n <= |s|
    ensures forall i :: 0 <= i < n ==> WordChar(s[i])
    ensures n < |s| ==> !WordChar(s[n])
  {
    if s == "" || !WordChar(s[0]) then 0 else 1 + Letters(s[1..])
  }

  /** Length of the token that s starts with. */
  function Width(s: string): (n: nat)
    requires s != "" && !Space(s[0]) && Line(s)
    ensures 1 <= n <= |s|
  {
    if s[0] == '>' && |s| > 1 && s[1] == '>' then 2
    else if Symbol(s[0]) then 1
    else Letters(s)
  }

  function Token(s: string): (t: Tok)
    requires s != "" && !Space(s[0]) && Line(s)
  {
    if s[0] == '>' && |s| > 1 && s[1] == '>' then Sym('+')
    else if Symbol(s[0]) then Sym(s[0])
    else Word(s[..Letters(s)])
  }

  /** The tokens of a line, left to right. */
  function Toks(s: string): (ts: seq<Tok>)
    requires Line(s)
    decreases |s|
  {
    var r := s[Blanks(s)..];
    if r == "" then [] else [Token(r)] + Toks(r[Width(r)..])
  }

  lemma {:induction false} BlanksUnique(s: string, n: nat)
    requires n <= |s| && (forall i :: 0 <= i < n ==> Space(s[i])) && (n < |s| ==> !Space(s[n]))
    ensures Blanks(s) == n
  {
  }

  lemma {:induction false} LettersUnique(s: string, n: nat)
    requires n <= |s| && (forall i :: 0 <= i < n ==> WordChar(s[i])) && (n < |s| ==> !WordChar(s[n]))
    ensures Letters(s) == n
  {
  }

  /** Leading blanks do not matter. */
  lemma {:induction false} ToksSkip(s: string, n: nat)
    requires Line(s) && n <= Blanks(s)
    ensures Toks(s[n..]) == Toks(s)
  {
    BlanksUnique(s[n..], Blanks(s) - n);
    assert s[n..][Blanks(s) - n..] == s[Blanks(s)..];
  }

  // ---- The texts of a token list ----

  predicate WordOk(w: string) {
    w != "" && forall i :: 0 <= i < |w| ==> WordChar(w[i])
  }

  predicate TokOk(t: Tok) {
    match t
    case Word(w) => WordOk(w)
    case Sym(c) => Symbol(c) || c == '+'
  }

  function Spell(t: Tok): (s: string) {
    match t
    case Word(w) => w
    case Sym(c) => if c == '+' then ">>" else [c]
  }

  /** Blanks alone. */
  predicate Gap(s: string) {
    forall i :: 0 <= i < |s| ==> s[i] in " \t\r\n\U{0B}"
  }

  /** Where a word ends. */
  predicate Stop(c: char) {
    c in " \t\r\n\U{0B}<|>&;()"
  }

  /** s begins with the text of token t, and t ends there: a word runs as far as it can,
      and > is not half of >>. */
  predicate Leads(s: string, t: Tok) {
    var n := |Spell(t)|;
    && n <= |s| && s[..n] == Spell(t)
    && match t
       case Word(w) => w != "" && (forall i :: 0 <= i < |w| ==> !Stop(w[i])) && (n < |s| ==> Stop(s[n]))
       case Sym(c) => c == '+' || (c in "<|>&;()" && (c == '>' && n < |s| ==> s[n] != '>'))
  }

  /** The text consists of the tokens ts, in order, and blanks around them, which may be left
      out wherever the tokens stay apart without them. */
  ghost predicate Spaced(text: string, ts: seq<Tok>)
    decreases |ts|, 1
  {
    if ts == [] then Gap(text) else exists k :: SpacedAt(text, ts, k)
  }

  /** ... with k blanks in front. */
  ghost predicate SpacedAt(text: string, ts: seq<Tok>, k: int)
    requires ts != []
    decreases |ts|, 0
  {
    && 0 <= k <= |text| && Gap(text[..k]) && Leads(text[k..], ts[0])
    && Spaced(text[k..][|Spell(ts[0])|..], ts[1..])
  }

  lemma {:induction false} LeadsIff(s: string, t: Tok)
    requires Line(s) && s != "" && !Space(s[0])
    ensures Leads(s, t) <==> Token(s) == t
    ensures Leads(s, t) ==> Width(s) == |Spell(t)|
  {
    match t
    case Word(w) =>
      StopIff(s);
      if Leads(s, t) {
        WordLeads(s, w);
      }
    case Sym(c) =>
  }

  lemma {:induction false} StopIff(s: string)
    requires Line(s)
    ensures forall i :: 0 <= i < |s| ==> (Stop(s[i]) <==> !WordChar(s[i]))
  {
  }

  lemma {:induction false} WordLeads(s: string, w: string)
    requires Line(s) && Leads(s, Word(w))
    ensures Letters(s) == |w|
  {
    forall i | 0 <= i < |w|
      ensures WordChar(s[i])
    {
      assert s[..|w|][i] == w[i];
    }
    LettersUnique(s, |w|);
  }

  lemma {:induction false} LeadsNoBlank(s: string, t: Tok)
    requires Leads(s, t)
    ensures s != "" && !Space(s[0]) && |Spell(t)| >= 1
  {
    assert s[0] == Spell(t)[0];
  }

  lemma {:induction false} CutSpaced(text: string)
    requires Line(text)
    ensures Spaced(text, Toks(text))
    decreases |text|
  {
    var k := Blanks(text);
    var r := text[k..];
    if r != "" {
      LeadsIff(r, Token(r));
      CutSpaced(r[Width(r)..]);
      assert SpacedAt(text, Toks(text), k);
    }
  }

  /** The first token of the text and what is behind it. */
  predicate HeadOf(text: string, t: Tok, rest: string) {
    Line(text) && Line(rest) && Toks(text) == [t] + Toks(rest)
  }

  lemma {:induction false} SpacedStep(text: string, ts: seq<Tok>, k: int, rest: string)
    requires Line(text) && ts != [] && SpacedAt(text, ts, k) && rest == text[k..][|Spell(ts[0])|..]
    ensures HeadOf(text, ts[0], rest) && Spaced(rest, ts[1..])
  {
    LeadsNoBlank(text[k..], ts[0]);
    BlanksUnique(text, k);
    LeadsIff(text[k..], ts[0]);
  }

  lemma {:induction false} GapCut(text: string)
    requires Line(text) && Gap(text)
    ensures Toks(text) == []
  {
    BlanksUnique(text, |text|);
  }

  lemma {:induction false} SpacedCut(text: string, ts: seq<Tok>)
    requires Line(text) && Spaced(text, ts)
    ensures Toks(text) == ts
    decreases |ts|
  {
    if ts == [] {
      GapCut(text);
    } else {
      var k :| SpacedAt(text, ts, k);
      var rest := text[k..][|Spell(ts[0])|..];
      SpacedStep(text, ts, k, rest);
      SpacedCut(rest, ts[1..]);
      OnHead(text, ts, rest);
    }
  }

  lemma {:induction false} OnHead(text: string, ts: seq<Tok>, rest: string)
    requires ts != [] && HeadOf(text, ts[0], rest) && Toks(rest) == ts[1..]
    ensures Toks(text) == ts
  {
    assert ts == [ts[0]] + ts[1..];
  }

  /** gettoken cuts a line into the tokens ts exactly if it is a text of them. */
  lemma {:induction false} ToksIff(text: string, ts: seq<Tok>)
    requires Line(text)
    ensures Toks(text) == ts <==> Spaced(text, ts)
  {
    CutSpaced(text);
    if Spaced(text, ts) {
      SpacedCut(text, ts);
    }
  }

  // ---- One text of a token list ----

  /** Every token followed by a blank. */
  function Render(ts: seq<Tok>): (s: string) {
    if ts == [] then "" else Spell(ts[0]) + " " + Render(ts[1..])
  }

  lemma {:induction false} RenderLine(ts: seq<Tok>)
    requires forall i :: 0 <= i < |ts| ==> TokOk(ts[i])
    ensures Line(Render(ts))
  {
    if ts != [] {
      RenderLine(ts[1..]);
    }
  }

  /** Reading the text of a token list gives the tokens back. */
  lemma {:induction false} ToksOfRender(ts: seq<Tok>)
    requires forall i :: 0 <= i < |ts| ==> TokOk(ts[i])
    ensures Line(Render(ts)) && Toks(Render(ts)) == ts
  {
    RenderLine(ts);
    if ts != [] {
      ToksOfRender(ts[1..]);
      ToksCons(ts[0], Render(ts[1..]));
    }
  }

  lemma {:induction false} ToksCons(t: Tok, tail: string)
    requires TokOk(t) && Line(tail)
    ensures var s := Spell(t) + " " + tail; Line(s) && Toks(s) == [t] + Toks(tail)
  {
    FirstToken(t, tail);
    var s := Spell(t) + " " + tail;
    assert s[0..] == s;
    assert s[|Spell(t)|..] == " " + tail;
    assert (" " + tail)[1..] == tail;
    ToksSkip(" " + tail, 1);
  }

  lemma {:induction false} FirstToken(t: Tok, tail: string)
    requires TokOk(t) && Line(tail)
    ensures var s := Spell(t) + " " + tail;
      Line(s) && Blanks(s) == 0 && Width(s) == |Spell(t)| && Token(s) == t
  {
    var s := Spell(t) + " " + tail;
    BlanksUnique(s, 0);
    if t.Word? {
      LettersUnique(s, |t.w|);
      assert s[..|t.w|] == t.w;
    }
  }
}
