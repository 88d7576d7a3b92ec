/**
 * What the path language looks like, with its characters spelled out: bare and quoted words, white
 * space, lists, characters that belong nowhere, and the printed form.
 */
module PathTexts {
  import opened Types
  import opened PathAst
  import opened PathTokens
  import opened Decimal
  import opened PathGrammar
  import opened PathPrinter

  ghost predicate WordChar(c: char) {
    'a' <= c <= 'z' || 'A' <= c <= 'Z' || '0' <= c <= '9' || c == '_' || c == '-'
  }

  /** Letters, digits, underscores and dashes, but no digit at the start. */
  ghost predicate IsWord(s: string) {
    s != [] && !('0' <= s[0] <= '9') && forall c :: c in s ==> WordChar(c)
  }

  ghost predicate IsBlank(w: string) {
    forall c :: c in w ==> c == ' ' || c == '\t' || c == '\r' || c == '\n'
  }

  /** The text goes on with something that cannot belong to a word. */
  ghost predicate Breaks(rest: string) {
    rest == [] || !WordChar(rest[0])
  }

  /***** Scanning *****/

  lemma {:induction false} BlankIsSkipped(w: string, rest: string)
    requires IsBlank(w)
    ensures SkipSpaces(w + rest) == SkipSpaces(rest)
  {
    if w == [] {
      assert w + rest == rest;
    } else {
      assert w[0] in w && (w + rest)[1..] == w[1..] + rest;
      assert forall c :: c in w[1..] ==> c in w;
      BlankIsSkipped(w[1..], rest);
    }
  }

  lemma ScanBlank(ts: seq<Token>, i: nat, w: string, rest: string)
    requires IsBlank(w) && Scans(ts, i, w + rest)
    ensures Scans(ts, i, rest)
  {
    BlankIsSkipped(w, rest);
    assert NextToken(w + rest, false) == NextToken(rest, false);
  }

  lemma ScanBare(ts: seq<Token>, i: nat, s: string, rest: string)
    requires IsWord(s) && Breaks(rest) && Scans(ts, i, s + rest)
    ensures At(ts, i) == Token(IDENT, s) && Scans(ts, i + 1, rest)
  {
    WordToken(s, rest);
    ScanStep(ts, i, s + rest);
  }

  lemma BlankBreaks(w: string, rest: string)
    requires IsBlank(w) && Breaks(rest)
    ensures Breaks(w + rest)
  {
    if w == [] {
      assert w + rest == rest;
    } else {
      assert w[0] in w;
    }
  }

  lemma WordToken(s: string, rest: string)
    requires IsWord(s) && Breaks(rest)
    ensures NextToken(s + rest, false) == PathTokens.Scan(Token(IDENT, s), rest, false)
  {
    var t := s + rest;
    assert s[0] in s && t[0] == s[0];
    SpanIs(s, rest, IsAlphaNum);
    assert t[..|s|] == s && t[|s|..] == rest;
  }

  lemma ScanPoint(ts: seq<Token>, i: nat, c: char, rest: string)
    requires c in ".[]:*" && Scans(ts, i, [c] + rest)
    ensures Scans(ts, i + 1, rest)
    ensures c == '.' ==> At(ts, i).kind == SEPARATOR
    ensures c == '[' ==> At(ts, i).kind == LBRACKET
    ensures c == ']' ==> At(ts, i).kind == RBRACKET
    ensures c == ':' ==> At(ts, i).kind == COLON
    ensures c == '*' ==> At(ts, i).kind == GLOB
  {
    ScanMark(ts, i, c, rest);
  }

  lemma ScanEndOfText(ts: seq<Token>, i: nat, w: string)
    requires IsBlank(w) && Scans(ts, i, w)
    ensures At(ts, i).kind == EOF
  {
    assert w + [] == w;
    ScanBlank(ts, i, w, []);
    ScanStep(ts, i, []);
  }

  lemma ScansAll(s: string)
    ensures Scans(Lex(s, false), 0, s)
  {
    assert Lex(s, false)[0..] == Lex(s, false);
  }

  /***** Words *****/

  /** Every word is a path of one field, with or without white space around it. */
  lemma WordIsPath(w: string, s: string, w': string)
    requires IsBlank(w) && IsWord(s) && IsBlank(w')
    ensures ParseText(w + (s + w')) == Some([Object(s)])
  {
    var text := w + (s + w');
    var ts := Lex(text, false);
    ScansAll(text);
    ScanBlank(ts, 0, w, s + w');
    BlankIsBreak(w');
    ScanBare(ts, 0, s, w');
    ScanEndOfText(ts, 1, w');
    ParsedIffSpelled(text, [Object(s)]);
  }

  lemma BlankIsBreak(w: string)
    requires IsBlank(w)
    ensures Breaks(w)
  {
    assert w + [] == w;
    BlankBreaks(w, []);
  }

  /** Fields are separated by dots; white space around them does not count. */
  lemma DottedIsPath(a: string, w: string, w': string, b: string)
    requires IsWord(a) && IsBlank(w) && IsBlank(w') && IsWord(b)
    ensures ParseText(a + (w + ("." + (w' + b)))) == Some([Object(a), Object(b)])
  {
    var text := a + (w + ("." + (w' + b)));
    var ts := Lex(text, false);
    ScansAll(text);
    BlankBreaks(w, "." + (w' + b));
    ScanBare(ts, 0, a, w + ("." + (w' + b)));
    ScanBlank(ts, 1, w, "." + (w' + b));
    ScanPoint(ts, 1, '.', w' + b);
    ScanBlank(ts, 2, w', b);
    ScanLast(ts, 2, b);
    SpelledFields(text, ts, a, b);
  }

  lemma ScanLast(ts: seq<Token>, i: nat, s: string)
    requires IsWord(s) && Scans(ts, i, s)
    ensures At(ts, i) == Token(IDENT, s) && At(ts, i + 1).kind == EOF
  {
    assert s + [] == s;
    ScanBare(ts, i, s, []);
    ScanEndOfText(ts, i + 1, []);
  }

  lemma SpelledFields(text: string, ts: seq<Token>, a: string, b: string)
    requires ts == Lex(text, false)
    requires SpellsNode(ts, 0, Object(a)) && At(ts, 1).kind == SEPARATOR && SpellsNode(ts, 2, Object(b))
    requires At(ts, 3).kind == EOF
    ensures ParseText(text) == Some([Object(a), Object(b)])
  {
    var p := [Object(a), Object(b)];
    assert p[1..] == [Object(b)] && [Object(b)][1..] == [];
    assert SpellsRest(ts, 3, []) && SpellsRest(ts, 1, [Object(b)]);
    ParsedIffSpelled(text, p);
  }

  /** A list by a key, or by a glob. */
  function ListOf(k: string, v: Option<string>): Node {
    if v.Some? then List(k, StrKey(v.value), false) else List(k, NoKey, true)
  }

  function ValueText(v: Option<string>): string {
    if v.Some? then v.value else "*"
  }

  lemma ScanValue(ts: seq<Token>, i: nat, v: Option<string>, rest: string)
    requires (v.Some? ==> IsWord(v.value)) && Breaks(rest) && Scans(ts, i, ValueText(v) + rest)
    ensures Scans(ts, i + 1, rest) && SpellsKey(At(ts, i), ListOf("", v).keyValue, v.None?)
  {
    if v.Some? {
      ScanBare(ts, i, v.value, rest);
    } else {
      ScanPoint(ts, i, '*', rest);
    }
  }

  /** What stands between the brackets of a list. */
  lemma ScanInside(ts: seq<Token>, i: nat, k: string, w: string, v: Option<string>, rest: string)
    requires IsWord(k) && IsBlank(w) && (v.Some? ==> IsWord(v.value)) && Breaks(rest)
    requires Scans(ts, i, k + (":" + (w + (ValueText(v) + rest))))
    ensures At(ts, i) == Token(IDENT, k) && At(ts, i + 1).kind == COLON
    ensures Scans(ts, i + 3, rest) && SpellsKey(At(ts, i + 2), ListOf(k, v).keyValue, v.None?)
  {
    var t := w + (ValueText(v) + rest);
    ScanBare(ts, i, k, ":" + t);
    ScanPoint(ts, i + 1, ':', t);
    ScanBlank(ts, i + 2, w, ValueText(v) + rest);
    ScanValue(ts, i + 2, v, rest);
  }

  /** A list is written behind its field: the key field, a colon, and a word or a star. */
  lemma ListIsPath(a: string, k: string, w: string, v: Option<string>)
    requires IsWord(a) && IsWord(k) && IsBlank(w) && (v.Some? ==> IsWord(v.value))
    ensures ParseText(a + ("[" + (k + (":" + (w + (ValueText(v) + "]")))))) == Some([Object(a), ListOf(k, v)])
  {
    var text := a + ("[" + (k + (":" + (w + (ValueText(v) + "]")))));
    var ts := Lex(text, false);
    ScansAll(text);
    ScanFieldAndList(ts, a, k, w, v);
    SpelledFieldAndList(text, ts, a, ListOf(k, v));
  }

  lemma ScanFieldAndList(ts: seq<Token>, a: string, k: string, w: string, v: Option<string>)
    requires IsWord(a) && IsWord(k) && IsBlank(w) && (v.Some? ==> IsWord(v.value))
    requires Scans(ts, 0, a + ("[" + (k + (":" + (w + (ValueText(v) + "]"))))))
    ensures SpellsNode(ts, 0, Object(a)) && SpellsNode(ts, 1, ListOf(k, v)) && At(ts, 6).kind == EOF
  {
    var inside := k + (":" + (w + (ValueText(v) + "]")));
    ScanBare(ts, 0, a, "[" + inside);
    ScanList(ts, 1, k, w, v);
  }

  lemma ScanList(ts: seq<Token>, i: nat, k: string, w: string, v: Option<string>)
    requires IsWord(k) && IsBlank(w) && (v.Some? ==> IsWord(v.value))
    requires Scans(ts, i, "[" + (k + (":" + (w + (ValueText(v) + "]")))))
    ensures SpellsNode(ts, i, ListOf(k, v)) && At(ts, i + 5).kind == EOF
  {
    ScanPoint(ts, i, '[', k + (":" + (w + (ValueText(v) + "]"))));
    ScanInside(ts, i + 1, k, w, v, "]");
    ScanClosing(ts, i + 4);
  }

  lemma ScanClosing(ts: seq<Token>, i: nat)
    requires Scans(ts, i, "]")
    ensures At(ts, i).kind == RBRACKET && At(ts, i + 1).kind == EOF
  {
    assert "]" == [']'] + [];
    ScanPoint(ts, i, ']', []);
    ScanEndOfText(ts, i + 1, []);
  }

  lemma SpelledFieldAndList(text: string, ts: seq<Token>, a: string, list: Node)
    requires list.List? && ListShaped(list) && ts == Lex(text, false)
    requires SpellsNode(ts, 0, Object(a)) && SpellsNode(ts, 1, list) && At(ts, 6).kind == EOF
    ensures ParseText(text) == Some([Object(a), list])
  {
    var p := [Object(a), list];
    assert p[1..] == [list] && [list][1..] == [];
    assert SpellsRest(ts, 6, []) && SpellsRest(ts, 1, [list]);
    assert forall n :: n in p ==> n == p[0] || n == p[1];
    ParsedIffSpelled(text, p);
  }

  /***** Quoted words *****/

  /** The quote and the backslash are escaped by a backslash. */
  function Escaped(q: char, s: string): string {
    if s == [] then []
    else (if s[0] == q || s[0] == '\\' then ['\\', s[0]] else [s[0]]) + Escaped(q, s[1..])
  }

  lemma {:induction false} ScanQuotedBy(q: char, s: string, rest: string)
    requires q != '\\'
    ensures ScanQuoted(Escaped(q, s) + ([q] + rest), q) == Closed(s, rest)
    ensures ScanQuoted(Escaped(q, s), q) == Open(s)
  {
    var end := [q] + rest;
    if s == [] {
      assert [] + end == end && end[1..] == rest;
    } else {
      var tail := Escaped(q, s[1..]);
      ScanQuotedBy(q, s[1..], rest);
      QuotedHead(q, s[0], tail + end);
      QuotedHead(q, s[0], tail);
      var head := if s[0] == q || s[0] == '\\' then ['\\', s[0]] else [s[0]];
      Regroup3(head, tail, end);
      assert [s[0]] + s[1..] == s;
    }
  }

  lemma QuotedHead(q: char, c: char, u: string)
    requires q != '\\'
    ensures var head := if c == q || c == '\\' then ['\\', c] else [c];
            ScanQuoted(head + u, q) == Prepend(c, ScanQuoted(u, q))
  {
    var head := if c == q || c == '\\' then ['\\', c] else [c];
    var t := head + u;
    if c == q || c == '\\' {
      assert t[0] == '\\' && t[1] == c && t[2..] == u;
    } else {
      assert t[0] == c && t[1..] == u;
    }
  }

  /** Every string is a path of one field when quoted, by single or by double quotes. */
  lemma QuotedIsPath(q: char, s: string)
    requires q == '\'' || q == '"'
    ensures ParseText([q] + (Escaped(q, s) + [q])) == Some([Object(s)])
  {
    var text := [q] + (Escaped(q, s) + [q]);
    ScansAll(text);
    ScanQuotedField(Lex(text, false), q, s);
    ParsedIffSpelled(text, [Object(s)]);
  }

  lemma ScanQuotedField(ts: seq<Token>, q: char, s: string)
    requires (q == '\'' || q == '"') && Scans(ts, 0, [q] + (Escaped(q, s) + [q]))
    ensures At(ts, 0) == Token(IDENT, s) && At(ts, 1).kind == EOF
  {
    var text := [q] + (Escaped(q, s) + [q]);
    assert text[1..] == Escaped(q, s) + ([q] + []);
    ScanQuotedBy(q, s, []);
    ScanStep(ts, 0, text);
    ScanEndOfText(ts, 1, []);
  }

  /** A quote that is not closed is an error. */
  lemma UnclosedIsRefused(q: char, s: string)
    requires q == '\'' || q == '"'
    ensures ParseText([q] + Escaped(q, s)) == None
  {
    var text := [q] + Escaped(q, s);
    ScansAll(text);
    assert text[1..] == Escaped(q, s);
    ScanQuotedBy(q, s, []);
    ScanStep(Lex(text, false), 0, text);
  }

  /***** Characters that belong nowhere *****/

  ghost predicate Foreign(c: char) {
    !WordChar(c) && c !in " \t\r\n" && c !in "'\"" && c !in ".[]:*"
  }

  /** Outside quotes every other character is an error, at the start as well as after a word. */
  lemma ForeignIsRefused(s: string, c: char, rest: string)
    requires (s == [] || IsWord(s)) && Foreign(c)
    ensures ParseText(s + ([c] + rest)) == None
  {
    var text := s + ([c] + rest);
    var ts := Lex(text, false);
    ScansAll(text);
    var i := if s == [] then 0 else 1;
    if s == [] {
      assert text == [c] + rest;
    } else {
      ScanBare(ts, 0, s, [c] + rest);
    }
    ForeignToken(c, rest);
    ScanStep(ts, i, [c] + rest);
    ErrorIsRefused(ts, i);
  }

  lemma ErrorIsRefused(ts: seq<Token>, i: nat)
    requires At(ts, i).kind == ERROR && (i == 0 || (i == 1 && At(ts, 0).kind == IDENT))
    ensures ParseFrom(ts, 0) == None
  {
    TailIs(ts, 1);
  }

  lemma ForeignToken(c: char, rest: string)
    requires Foreign(c)
    ensures NextToken([c] + rest, false).token.kind == ERROR
  {
    assert SkipSpaces([c] + rest) == [c] + rest;
  }

  /***** The printed form *****/

  ghost predicate Marked(c: char) {
    c == '\'' || c == '"' || c == '\t' || c == '\n' || c == ' ' || c == '\\' || c == '*' || c == '[' || c == ']' ||
    c == ':' || c == '.'
  }

  /**
   * A field survives printing and parsing iff it is empty, begins with a digit, has a marked character,
   * or is a word.
   */
  lemma FieldSurvivesIff(s: string)
    ensures ParseText(PathText([Object(s)], AsNeeded)) == Some([Object(s)]) <==>
            s == "" || '0' <= s[0] <= '9' || (exists c :: c in s && Marked(c)) || forall c :: c in s ==> WordChar(c)
  {
    var p := [Object(s)];
    RoundTrip(p, AsNeeded);
    assert forall c :: Marked(c) <==> IsAmbiguous(c);
    assert PathOk(p, AsNeeded) <==> NodeOk(p[0], AsNeeded);
  }

  lemma WordIsPrintedBare(s: string)
    requires IsWord(s)
    ensures Quote(s) == s
  {
    assert forall c :: WordChar(c) ==> !IsAmbiguous(c);
  }

  /** Words are printed bare, with a dot before a field and brackets around a list. */
  lemma PrintedForm(a: string, k: string, v: Option<string>, b: string)
    requires IsWord(a) && IsWord(k) && IsWord(b) && (v.Some? ==> IsWord(v.value))
    ensures PathText([Object(a), ListOf(k, v), Object(b)], AsNeeded) ==
            a + (("[" + (k + (":" + (" " + (ValueText(v) + "]"))))) + ("." + b))
  {
    WordIsPrintedBare(a);
    WordIsPrintedBare(k);
    WordIsPrintedBare(b);
    if v.Some? { WordIsPrintedBare(v.value); }
    var p := [Object(a), ListOf(k, v), Object(b)];
    var rest := [ListOf(k, v), Object(b)];
    assert p[1..] == rest && rest[1..] == [Object(b)] && [Object(b)][1..] == [];
    assert RestText([Object(b)], AsNeeded) == "." + (b + "") && b + "" == b;
  }
}
