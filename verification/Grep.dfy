/** grep.c: the regular expression matcher, against a denotation of patterns. */
module Grep {

  // ---- What patterns mean ----

  /** One position of a pattern: a character or '.', possibly starred. */
  datatype Item = Item(c: char, starred: bool)

  /** Items in sequence, then possibly '$'. */
  datatype Pattern = Pattern(items: seq<Item>, atEnd: bool)

  predicate Accepts(c: char, x: char) {
    c == '.' || c == x
  }

  /** w is a string that the items describe. */
  ghost predicate Describes(items: seq<Item>, w: string) {
    if items == [] then w == ""
    else if items[0].starred then
      exists k :: 0 <= k <= |w|
        && (forall i :: 0 <= i < k ==> Accepts(items[0].c, w[i])) && Describes(items[1..], w[k..])
    else
      w != "" && Accepts(items[0].c, w[0]) && Describes(items[1..], w[1..])
  }

  /** Some prefix of text is described, all of it if the pattern ends in '$'. */
  ghost predicate MatchesAt(p: Pattern, text: string) {
    exists n :: 0 <= n <= |text| && (p.atEnd ==> n == |text|) && Describes(p.items, text[..n])
  }

  /** The items that the text of a pattern stands for: a '*' stars the character
      before it, whatever that is, and a final '$' that is not starred anchors. */
  function Parse(re: string): (p: Pattern) {
    if re == "" then Pattern([], false)
    else if |re| >= 2 && re[1] == '*' then
      var rest := Parse(re[2..]);
      Pattern([Item(re[0], true)] + rest.items, rest.atEnd)
    else if re == "$" then Pattern([], true)
    else
      var rest := Parse(re[1..]);
      Pattern([Item(re[0], false)] + rest.items, rest.atEnd)
  }

  // ---- The text of a pattern ----

  /** The text of one position. */
  function ShowItem(a: Item): (s: string) {
    if a.starred then [a.c, '*'] else [a.c]
  }

  function ShowItems(items: seq<Item>): (s: string) {
    if items == [] then "" else ShowItem(items[0]) + ShowItems(items[1..])
  }

  function Show(p: Pattern): (s: string) {
    ShowItems(p.items) + if p.atEnd then "$" else ""
  }

  /** Patterns that can be written: what stands before the character '*' is starred, as it
      would be starred by it otherwise, and a plain '$' does not come last, as it would
      anchor there. */
  predicate Writable(p: Pattern) {
    && (forall i :: 1 <= i < |p.items| && p.items[i].c == '*' ==> p.items[i - 1].starred)
    && (p.items != [] && !p.atEnd ==> p.items[|p.items| - 1] != Item('$', false))
  }

  /** The pattern of a text has this text, and can be written. */
  lemma {:induction false} ShowParse(re: string)
    ensures Show(Parse(re)) == re && Writable(Parse(re))
  {
    if re == "" || re == "$" {
    } else if |re| >= 2 && re[1] == '*' {
      ShowParse(re[2..]);
      ShowFirst(Item(re[0], true), Parse(re[2..]));
      assert re == [re[0], '*'] + re[2..];
    } else {
      ShowParse(re[1..]);
      ShowFirst(Item(re[0], false), Parse(re[1..]));
      assert re == [re[0]] + re[1..];
      WritableFirst(Item(re[0], false), Parse(re[1..]), re[1..]);
    }
  }

  lemma {:induction false} ShowFirst(a: Item, rest: Pattern)
    ensures Show(Pattern([a] + rest.items, rest.atEnd)) == ShowItem(a) + Show(rest)
    ensures Writable(rest) && a.starred ==> Writable(Pattern([a] + rest.items, rest.atEnd))
  {
    assert ([a] + rest.items)[1..] == rest.items;
  }

  lemma {:induction false} WritableFirst(a: Item, rest: Pattern, re: string)
    requires Writable(rest) && re == Show(rest) && !a.starred
    requires (re == "" ==> a.c != '$') && (re != "" ==> re[0] != '*')
    ensures Writable(Pattern([a] + rest.items, rest.atEnd))
  {
    if rest.items != [] {
      assert re[0] == rest.items[0].c;
    }
  }

  /** Exactly the patterns that can be written are read back from their text. */
  lemma {:induction false} ParseShow(p: Pattern)
    ensures Parse(Show(p)) == p <==> Writable(p)
  {
    if Writable(p) {
      ParseWritable(p);
    } else if Parse(Show(p)) == p {
      ShowParse(Show(p));
    }
  }

  lemma {:induction false} ParseWritable(p: Pattern)
    requires Writable(p)
    ensures Parse(Show(p)) == p
    decreases |p.items|
  {
    if p.items != [] {
      var a, rest := p.items[0], Pattern(p.items[1..], p.atEnd);
      assert p.items == [a] + rest.items;
      ShowFirst(a, rest);
      ParseWritable(rest);
      var re := Show(p);
      assert re[|ShowItem(a)|..] == Show(rest);
      if !a.starred && rest.items != [] {
        assert Show(rest)[0] == rest.items[0].c;
      }
    }
  }

  // ---- The code ----

  /** matchhere, with matchstar's loop as the recursion on the text it amounts to. */
  predicate MatchHere(re: string, text: string)
    decreases |re|, 0, 0
  {
    if re == "" then true
    else if |re| >= 2 && re[1] == '*' then MatchStar(re[0], re[2..], text)
    else if re == "$" then text == ""
    else if text != "" && (re[0] == '.' || re[0] == text[0]) then MatchHere(re[1..], text[1..])
    else false
  }

  /** matchstar: try the rest of the pattern after zero, one, two, ... characters. */
  predicate MatchStar(c: char, re: string, text: string)
    decreases |re|, 1, |text|
  {
    || MatchHere(re, text)
    || (text != "" && (text[0] == c || c == '.') && MatchStar(c, re, text[1..]))
  }

  /** matchhere decides whether the pattern matches at the start of the text. */
  lemma {:induction false} MatchHereIsMatching(re: string, text: string)
    ensures MatchHere(re, text) <==> MatchesAt(Parse(re), text)
    decreases |re|, 0, 0
  {
    var p := Parse(re);
    if re == "" {
      assert Describes(p.items, text[..0]);
    } else if |re| >= 2 && re[1] == '*' {
      MatchStarIsMatching(re[0], re[2..], text);
    } else if re == "$" {
      assert text[..|text|] == text;
    } else {
      PlainStep(re[0], Parse(re[1..]), text);
      if text != "" {
        MatchHereIsMatching(re[1..], text[1..]);
      }
    }
  }

  /** A plain item takes one character. */
  lemma {:induction false} PlainStep(c: char, rest: Pattern, text: string)
    ensures var p := Pattern([Item(c, false)] + rest.items, rest.atEnd);
            MatchesAt(p, text) <==> text != "" && Accepts(c, text[0]) && MatchesAt(rest, text[1..])
  {
    var p := Pattern([Item(c, false)] + rest.items, rest.atEnd);
    assert p.items[1..] == rest.items;
    if MatchesAt(p, text) {
      var n :| 0 <= n <= |text| && (p.atEnd ==> n == |text|) && Describes(p.items, text[..n]);
      assert text[..n][1..] == text[1..][..n - 1];
    }
    if text != "" && Accepts(c, text[0]) && MatchesAt(rest, text[1..]) {
      var n :| 0 <= n <= |text| - 1 && (rest.atEnd ==> n == |text| - 1) && Describes(rest.items, text[1..][..n]);
      assert text[..n + 1][1..] == text[1..][..n];
      assert Describes(p.items, text[..n + 1]);
    }
  }

  lemma {:induction false} MatchStarIsMatching(c: char, re: string, text: string)
    ensures var rest := Parse(re);
            MatchStar(c, re, text) <==> MatchesAt(Pattern([Item(c, true)] + rest.items, rest.atEnd), text)
    decreases |re|, 1, |text|
  {
    var rest := Parse(re);
    MatchHereIsMatching(re, text);
    StarStep(c, rest, text);
    if text != "" {
      MatchStarIsMatching(c, re, text[1..]);
    }
  }

  /** A starred item takes nothing, or one character and then as before. */
  lemma {:induction false} StarStep(c: char, rest: Pattern, text: string)
    ensures var p := Pattern([Item(c, true)] + rest.items, rest.atEnd);
            MatchesAt(p, text) <==>
              MatchesAt(rest, text) || (text != "" && Accepts(c, text[0]) && MatchesAt(p, text[1..]))
  {
    var p := Pattern([Item(c, true)] + rest.items, rest.atEnd);
    if MatchesAt(p, text) {
      StarUnroll(c, rest, text);
    }
    if MatchesAt(rest, text) {
      var n :| 0 <= n <= |text| && (rest.atEnd ==> n == |text|) && Describes(rest.items, text[..n]);
      assert p.items[1..] == rest.items && text[..n][0..] == text[..n];
      assert Describes(p.items, text[..n]);
    }
    if text != "" && Accepts(c, text[0]) && MatchesAt(p, text[1..]) {
      StarExtend(c, rest, text);
    }
  }

  lemma {:induction false} StarUnroll(c: char, rest: Pattern, text: string)
    requires MatchesAt(Pattern([Item(c, true)] + rest.items, rest.atEnd), text)
    ensures var p := Pattern([Item(c, true)] + rest.items, rest.atEnd);
            MatchesAt(rest, text) || (text != "" && Accepts(c, text[0]) && MatchesAt(p, text[1..]))
  {
    var p := Pattern([Item(c, true)] + rest.items, rest.atEnd);
    assert p.items[1..] == rest.items;
    var n :| 0 <= n <= |text| && (p.atEnd ==> n == |text|) && Describes(p.items, text[..n]);
    var w := text[..n];
    var k :| 0 <= k <= |w| && (forall i :: 0 <= i < k ==> Accepts(c, w[i])) && Describes(rest.items, w[k..]);
    if k == 0 {
      assert w[0..] == w;
    } else {
      var v := text[1..][..n - 1];
      assert v[k - 1..] == w[k..];
      forall i | 0 <= i < k - 1 ensures Accepts(c, v[i]) {
        assert v[i] == w[i + 1];
      }
      assert Describes(p.items, v);
    }
  }

  lemma {:induction false} StarExtend(c: char, rest: Pattern, text: string)
    requires text != "" && Accepts(c, text[0])
    requires MatchesAt(Pattern([Item(c, true)] + rest.items, rest.atEnd), text[1..])
    ensures MatchesAt(Pattern([Item(c, true)] + rest.items, rest.atEnd), text)
  {
    var p := Pattern([Item(c, true)] + rest.items, rest.atEnd);
    assert p.items[1..] == rest.items;
    var n :| 0 <= n <= |text| - 1 && (p.atEnd ==> n == |text| - 1) && Describes(p.items, text[1..][..n]);
    var v := text[1..][..n];
    var k :| 0 <= k <= |v| && (forall i :: 0 <= i < k ==> Accepts(c, v[i])) && Describes(rest.items, v[k..]);
    var w := text[..n + 1];
    assert w[k + 1..] == v[k..];
    forall i | 0 <= i < k + 1 ensures Accepts(c, w[i]) {
      assert i > 0 ==> w[i] == v[i - 1];
    }
    assert Describes(p.items, w);
  }

  /** matchstar as the do-while loop it is. */
  method Matchstar(c: char, re: string, text: string) returns (r: bool)
    ensures r == MatchStar(c, re, text)
  {
    var i := 0;
    while true
      invariant 0 <= i <= |text|
      invariant MatchStar(c, re, text) == MatchStar(c, re, text[i..])
      decreases |text| - i
    {
      if MatchHere(re, text[i..]) {
        return true;
      }
      if !(i < |text| && (text[i] == c || c == '.')) {
        return false;
      }
      assert text[i..][1..] == text[i + 1..];
      i := i + 1;
    }
  }

  /** match: 1 exactly if the pattern, stripped of a leading '^', matches at some
      position of the text, or at position 0 if it was anchored there. */
  method Match(re: string, text: string) returns (r: bool)
    ensures re != "" && re[0] == '^' ==> (r <==> MatchesAt(Parse(re[1..]), text))
    ensures re == "" || re[0] != '^' ==> (r <==> exists i :: 0 <= i <= |text| && MatchesAt(Parse(re), text[i..]))
  {
    if re != "" && re[0] == '^' {
      MatchHereIsMatching(re[1..], text);
      return MatchHere(re[1..], text);
    }
    var i := 0;
    while true
      invariant 0 <= i <= |text|
      invariant forall j :: 0 <= j < i ==> !MatchesAt(Parse(re), text[j..])
      decreases |text| - i
    {
      MatchHereIsMatching(re, text[i..]);
      if MatchHere(re, text[i..]) {
        return true;
      }
      if i == |text| {
        return false;
      }
      i := i + 1;
    }
  }
}
