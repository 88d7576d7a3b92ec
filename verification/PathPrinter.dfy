/** The printer of paths, and when it and the parser undo each other. */
module PathPrinter {
  import opened Types
  import opened PathAst
  import opened PathTokens
  import opened Decimal
  import opened PathGrammar
  import opened PathParser

  /***** Printing *****/

  function ReplaceAll(s: string, c: char, w: string): string {
    if s == [] then [] else (if s[0] == c then w else [s[0]]) + ReplaceAll(s[1..], c, w)
  }

  /** Characters that make the source quote a string. */
  predicate IsAmbiguous(c: char) {
    c in "'\"\t\n \\*[]:."
  }

  predicate NeedsQuotes(s: string) {
    s == [] || (exists c :: c in s && IsAmbiguous(c)) || IsDigit(s[0])
  }

  function Quote(s: string): string {
    if s == [] then "\"\""
    else if NeedsQuotes(s) then "\"" + ReplaceAll(ReplaceAll(s, '\\', "\\\\"), '"', "\\\"") + "\""
    else s
  }

  /** Quotes only where the source puts them, or around every string. */
  datatype Style = AsNeeded | Always

  function Word(s: string, style: Style): string {
    if style.Always? then "\"" + ReplaceAll(ReplaceAll(s, '\\', "\\\\"), '"', "\\\"") + "\"" else Quote(s)
  }

  function Number(n: int): string {
    if n < 0 then "-" + Digits(-n) else Digits(n)
  }

  function KeyText(v: KeyValue, glob: bool, style: Style): string {
    if glob then "*"
    else match v
      case StrKey(s) => Word(s, style)
      case IntKey(n) => Number(n)
      case NoKey => ""
  }

  function NodeText(n: Node, style: Style): string {
    match n
    case Object(reference) => Word(reference, style)
    case List(keyField, keyValue, glob) =>
      "[" + (Word(keyField, style) + (":" + (" " + (KeyText(keyValue, glob, style) + "]"))))
  }

  /** The nodes after the first: an object is preceded by a separator. */
  function RestText(q: Path, style: Style): string {
    if q == [] then ""
    else if q[0].Object? then "." + (NodeText(q[0], style) + RestText(q[1..], style))
    else NodeText(q[0], style) + RestText(q[1..], style)
  }

  function PathText(p: Path, style: Style): string {
    if p == [] then "" else NodeText(p[0], style) + RestText(p[1..], style)
  }

  /** Path.String. */
  method Print(p: Path) returns (text: string)
    ensures text == PathText(p, AsNeeded)
  {
    text := "";
    for i := 0 to |p|
      invariant PathText(p, AsNeeded) == text + LeftToPrint(p, i)
    {
      var separator := if p[i].Object? && i > 0 then "." else "";
      var node := NodeText(p[i], AsNeeded);
      PrintStep(p, i, text, separator, node);
      text := text + separator;
      text := text + node;
    }
  }

  ghost function LeftToPrint(p: Path, i: nat): string
    requires i <= |p|
  {
    if i == 0 then PathText(p, AsNeeded) else RestText(p[i..], AsNeeded)
  }

  lemma PrintStep(p: Path, i: nat, text: string, separator: string, node: string)
    requires i < |p| && separator == (if p[i].Object? && i > 0 then "." else "") && node == NodeText(p[i], AsNeeded)
    ensures text + LeftToPrint(p, i) == text + separator + node + LeftToPrint(p, i + 1)
  {
    NextToPrint(p, i, separator, node);
    Regroup(text, separator, node, LeftToPrint(p, i + 1));
  }

  lemma NextToPrint(p: Path, i: nat, separator: string, node: string)
    requires i < |p| && separator == (if p[i].Object? && i > 0 then "." else "") && node == NodeText(p[i], AsNeeded)
    ensures LeftToPrint(p, i) == separator + (node + LeftToPrint(p, i + 1))
  {
    var text := node + LeftToPrint(p, i + 1);
    if i == 0 {
      assert LeftToPrint(p, 0) == text;
    } else {
      assert p[i..][0] == p[i] && p[i..][1..] == p[i + 1..];
    }
    assert "" + text == text;
  }

  /***** Which strings survive *****/

  predicate AllIdent(s: string) {
    forall c :: c in s ==> IsAlphaNum(c)
  }

  /** The printed string is either quoted or scannable as a bare word. */
  predicate Printable(s: string) {
    NeedsQuotes(s) || AllIdent(s)
  }

  predicate WordOk(s: string, style: Style) {
    style.Always? || Printable(s)
  }

  predicate NodeOk(n: Node, style: Style) {
    match n
    case Object(reference) => WordOk(reference, style)
    case List(keyField, keyValue, _) => WordOk(keyField, style) && (keyValue.StrKey? ==> WordOk(keyValue.str, style))
  }

  predicate PathOk(p: Path, style: Style) {
    forall n :: n in p ==> NodeOk(n, style)
  }

  /***** Scanning what was printed *****/

  /** ts from i on is what the scanner gives for the text s. */
  ghost predicate Scans(ts: seq<Token>, i: nat, s: string) {
    Remaining(ts, i) == Lex(s, false)
  }

  lemma ScanStep(ts: seq<Token>, i: nat, s: string)
    requires Scans(ts, i, s)
    ensures At(ts, i) == NextToken(s, false).token
    ensures !NextToken(s, false).failed ==> Scans(ts, i + 1, NextToken(s, false).rest)
  {
    var r := NextToken(s, false);
    LexStep(s, false, r.token, r.rest, r.failed);
    RemainingStep(ts, i);
  }

  lemma ScanMark(ts: seq<Token>, i: nat, c: char, rest: string)
    requires Scans(ts, i, [c] + rest) && Punctuation(c) != ERROR
    ensures At(ts, i) == Token(Punctuation(c), [c]) && Scans(ts, i + 1, rest)
  {
    MarkIsToken(c, rest);
    ScanStep(ts, i, [c] + rest);
  }

  lemma MarkIsToken(c: char, rest: string)
    requires Punctuation(c) != ERROR
    ensures NextToken([c] + rest, false) == PathTokens.Scan(Token(Punctuation(c), [c]), rest, false)
  {
    assert ([c] + rest)[1..] == rest;
    assert SkipSpaces([c] + rest) == [c] + rest;
  }

  lemma ScanSpace(ts: seq<Token>, i: nat, rest: string)
    requires Scans(ts, i, " " + rest)
    ensures Scans(ts, i, rest)
  {
    assert (" " + rest)[1..] == rest;
    assert SkipSpaces(" " + rest) == SkipSpaces(rest);
  }

  /** A character that ends a bare word and does not start a quoted one. */
  predicate Delimits(s: string) {
    s == [] || s[0] in ".[]:"
  }

  function EscapeChar(c: char): string {
    if c == '\\' || c == '"' then ['\\', c] else [c]
  }

  function Escape(s: string): string {
    if s == [] then [] else EscapeChar(s[0]) + Escape(s[1..])
  }

  lemma ReplaceHead(x: char, t: string, c: char, w: string)
    ensures ReplaceAll([x] + t, c, w) == (if x == c then w else [x]) + ReplaceAll(t, c, w)
  {
    assert ([x] + t)[1..] == t;
  }

  lemma {:induction false} EscapeIsReplace(s: string)
    ensures ReplaceAll(ReplaceAll(s, '\\', "\\\\"), '"', "\\\"") == Escape(s)
  {
    if s != [] {
      EscapeIsReplace(s[1..]);
      var tail := ReplaceAll(s[1..], '\\', "\\\\");
      ReplaceHead(s[0], tail, '"', "\\\"");
      if s[0] == '\\' {
        ReplaceHead('\\', ['\\'] + tail, '"', "\\\"");
        assert "\\\\" + tail == ['\\'] + (['\\'] + tail);
      }
    }
  }

  lemma {:induction false} ScanEscaped(s: string, rest: string)
    ensures ScanQuoted(Escape(s) + (['"'] + rest), '"') == Closed(s, rest)
  {
    if s == [] {
      ScanEnd(rest);
    } else {
      ScanEscaped(s[1..], rest);
      ScanEscapedHead(s, ['"'] + rest);
      assert [s[0]] + s[1..] == s;
    }
  }

  lemma ScanEnd(rest: string)
    ensures ScanQuoted([] + (['"'] + rest), '"') == Closed([], rest)
  {
    var t := ['"'] + rest;
    assert [] + t == t && t[1..] == rest;
  }

  lemma ScanEscapedHead(s: string, end: string)
    requires s != []
    ensures ScanQuoted(Escape(s) + end, '"') == Prepend(s[0], ScanQuoted(Escape(s[1..]) + end, '"'))
  {
    var tail := Escape(s[1..]);
    Regroup3(EscapeChar(s[0]), tail, end);
    ScanEscapedChar(s[0], tail + end);
  }

  lemma Regroup3(a: string, b: string, c: string)
    ensures (a + b) + c == a + (b + c)
  {
  }

  lemma ScanEscapedChar(c: char, u: string)
    ensures ScanQuoted(EscapeChar(c) + u, '"') == Prepend(c, ScanQuoted(u, '"'))
  {
    var t := EscapeChar(c) + u;
    if c == '\\' || c == '"' {
      assert t[0] == '\\' && t[1] == c && t[2..] == u;
    } else {
      assert t[0] == c && t[1..] == u;
    }
  }

  lemma QuotedWord(s: string, rest: string)
    ensures NextToken("\"" + Escape(s) + "\"" + rest, false) == Scan(Token(IDENT, s), rest, false)
  {
    var t := "\"" + Escape(s) + "\"" + rest;
    assert t[0] == '"' && t[1..] == Escape(s) + (['"'] + rest);
    ScanEscaped(s, rest);
  }

  lemma {:induction false} SpanIs(s: string, rest: string, p: char -> bool)
    requires forall c :: c in s ==> p(c)
    requires rest == [] || !p(rest[0])
    ensures Span(s + rest, p) == |s|
  {
    if s == [] {
      assert s + rest == rest;
    } else {
      assert (s + rest)[1..] == s[1..] + rest;
      SpanIs(s[1..], rest, p);
    }
  }

  lemma BareWord(s: string, rest: string)
    requires s != [] && AllIdent(s) && !IsDigit(s[0]) && Delimits(rest)
    ensures NextToken(s + rest, false) == Scan(Token(IDENT, s), rest, false)
  {
    var t := s + rest;
    assert s[0] in s && t[0] == s[0];
    SpanIs(s, rest, IsAlphaNum);
    assert t[..|s|] == s && t[|s|..] == rest;
  }

  /** A raw string that is no bare word is not scanned as itself. */
  lemma RawWord(s: string, rest: string)
    requires !NeedsQuotes(s) && !AllIdent(s) && Delimits(rest)
    ensures NextToken(s + rest, false).token != Token(IDENT, s)
  {
    var t := SkipSpaces(s + rest);
    SkipInto(s, rest);
    if t != [] && !IsDigit(t[0]) && IsAlphaNum(t[0]) {
      var n := Span(t, IsAlphaNum);
      assert forall c :: c in t[..n] ==> IsAlphaNum(c);
    }
  }

  /** Skipping spaces ends in s or in rest; either way not before a quote. */
  lemma {:induction false} SkipInto(s: string, rest: string)
    requires (forall c :: c in s ==> !IsAmbiguous(c)) && Delimits(rest)
    ensures var t := SkipSpaces(s + rest); t != [] ==> !IsQuote(t[0])
  {
    if s == [] {
      assert s + rest == rest;
    } else {
      assert s[0] in s && (s + rest)[1..] == s[1..] + rest && (s + rest)[0] == s[0];
      SkipInto(s[1..], rest);
    }
  }

  /** A printed string is scanned as itself iff it was quoted or is a bare word. */
  lemma ScanWord(ts: seq<Token>, i: nat, s: string, rest: string, style: Style)
    requires Scans(ts, i, Word(s, style) + rest) && Delimits(rest)
    ensures At(ts, i) == Token(IDENT, s) <==> WordOk(s, style)
    ensures WordOk(s, style) ==> Scans(ts, i + 1, rest)
  {
    ScanStep(ts, i, Word(s, style) + rest);
    EscapeIsReplace(s);
    if style.Always? || NeedsQuotes(s) {
      assert Word(s, style) == "\"" + Escape(s) + "\"";
      QuotedWord(s, rest);
    } else if AllIdent(s) {
      BareWord(s, rest);
    } else {
      RawWord(s, rest);
    }
  }

  lemma ScanNumber(ts: seq<Token>, i: nat, n: nat, rest: string)
    requires Scans(ts, i, Digits(n) + rest) && rest != [] && rest[0] == ']'
    ensures At(ts, i) == Token(INT, Digits(n)) && Scans(ts, i + 1, rest)
  {
    var s := Digits(n);
    var t := s + rest;
    assert s[0] in s && t[0] == s[0];
    SpanIs(s, rest, IsDigit);
    assert t[..|s|] == s && t[|s|..] == rest;
    ScanStep(ts, i, t);
  }

  /***** Spelling: which tokens the parser takes for a path *****/

  predicate SpellsKey(t: Token, v: KeyValue, glob: bool) {
    if glob then t.kind == GLOB && v.NoKey?
    else match v
      case StrKey(s) => t == Token(IDENT, s)
      case IntKey(n) => t.kind == INT && ParseInt64Spec(t.literal) == Some(n)
      case NoKey => false
  }

  predicate SpellsNode(ts: seq<Token>, i: nat, n: Node) {
    match n
    case Object(reference) => At(ts, i) == Token(IDENT, reference)
    case List(keyField, keyValue, glob) =>
      && At(ts, i).kind == LBRACKET && At(ts, i + 1) == Token(IDENT, keyField) && At(ts, i + 2).kind == COLON
      && SpellsKey(At(ts, i + 3), keyValue, glob) && At(ts, i + 4).kind == RBRACKET
  }

  predicate SpellsRest(ts: seq<Token>, i: nat, q: Path)
    decreases |q|
  {
    if q == [] then At(ts, i).kind == EOF
    else if q[0].Object? then
      At(ts, i).kind == SEPARATOR && SpellsNode(ts, i + 1, q[0]) && SpellsRest(ts, i + 2, q[1..])
    else SpellsNode(ts, i, q[0]) && SpellsRest(ts, i + 5, q[1..])
  }

  predicate Spells(ts: seq<Token>, p: Path) {
    if p == [] then At(ts, 0).kind == EOF else SpellsNode(ts, 0, p[0]) && SpellsRest(ts, 1, p[1..])
  }

  /** No list at the start, and none behind another. */
  ghost predicate Alternates(q: Path, listAllowed: bool) {
    q == [] || if q[0].Object? then Alternates(q[1..], true) else listAllowed && Alternates(q[1..], false)
  }

  lemma ListIsSpelled(ts: seq<Token>, i: nat, n: Node)
    requires n.List? && At(ts, i).kind == LBRACKET
    ensures ParseListAt(ts, i) == Some(n) <==> SpellsNode(ts, i, n)
  {
  }

  /** The parser returns exactly the paths that its tokens spell. */
  lemma {:induction false} TailIsSpelled(ts: seq<Token>, i: nat, q: Path)
    ensures ParseTail(ts, i) == Some(q) <==> Alternates(q, false) && SpellsRest(ts, i, q)
    decreases |q|, 0
  {
    if q != [] && q[0].Object? && At(ts, i).kind == SEPARATOR {
      ObjectIsSpelled(ts, i + 1, q);
      if At(ts, i + 1).kind == EOF {
        assert !SpellsNode(ts, i + 1, q[0]);
      }
    } else if q == [] && At(ts, i).kind == SEPARATOR && At(ts, i + 1).kind != EOF {
      EmptyIsNotObject(ts, i + 1);
    } else if q != [] && q[0].List? && At(ts, i).kind == SEPARATOR && At(ts, i + 1).kind != EOF {
      StartsWithObject(ts, i + 1);
    }
  }

  lemma EmptyIsNotObject(ts: seq<Token>, i: nat)
    requires At(ts, i).kind != EOF
    ensures ParseFrom(ts, i) != Some([])
  {
  }

  lemma StartsWithObject(ts: seq<Token>, i: nat)
    ensures ParseFrom(ts, i).Some? && ParseFrom(ts, i).value != [] ==> ParseFrom(ts, i).value[0].Object?
  {
  }

  lemma {:induction false} ObjectIsSpelled(ts: seq<Token>, i: nat, p: Path)
    requires p != [] && p[0].Object?
    ensures ParseFrom(ts, i) == Some(p) <==>
            Alternates(p, false) && SpellsNode(ts, i, p[0]) && SpellsRest(ts, i + 1, p[1..])
    decreases |p| - 1, 1
  {
    var q := p[1..];
    assert p == [p[0]] + q;
    if At(ts, i).kind == IDENT {
      if At(ts, i + 1).kind == LBRACKET {
        ListAfterObject(ts, i, p);
      } else {
        TailIsSpelled(ts, i + 1, q);
        NoListAfterObject(ts, i, p);
      }
    }
  }

  lemma {:induction false} NoListAfterObject(ts: seq<Token>, i: nat, p: Path)
    requires p != [] && p[0].Object? && At(ts, i).kind == IDENT && At(ts, i + 1).kind != LBRACKET
    requires ParseTail(ts, i + 1) == Some(p[1..]) <==> Alternates(p[1..], false) && SpellsRest(ts, i + 1, p[1..])
    ensures ParseFrom(ts, i) == Some(p) <==>
            Alternates(p, false) && SpellsNode(ts, i, p[0]) && SpellsRest(ts, i + 1, p[1..])
  {
    var q := p[1..];
    var obj := Object(At(ts, i).literal);
    var tail := ParseTail(ts, i + 1);
    if tail.Some? {
      assert ([obj] + tail.value)[1..] == tail.value;
    }
    assert p == [p[0]] + q;
    assert SpellsRest(ts, i + 1, q) ==> q == [] || q[0].Object?;
  }

  lemma {:induction false} ListAfterObject(ts: seq<Token>, i: nat, p: Path)
    requires p != [] && p[0].Object? && At(ts, i).kind == IDENT && At(ts, i + 1).kind == LBRACKET
    ensures ParseFrom(ts, i) == Some(p) <==>
            Alternates(p, false) && SpellsNode(ts, i, p[0]) && SpellsRest(ts, i + 1, p[1..])
    decreases |p| - 1, 0
  {
    var q := p[1..];
    var list := ParseListAt(ts, i + 1);
    var tail := ParseTail(ts, i + 6);
    if q != [] && q[0].List? {
      ListIsSpelled(ts, i + 1, q[0]);
      TailIsSpelled(ts, i + 6, q[1..]);
      assert p == [p[0], q[0]] + q[1..];
    }
    if list.Some? && tail.Some? {
      var r := [Object(At(ts, i).literal), list.value] + tail.value;
      assert r[1..][1..] == tail.value && r[1..][0] == list.value;
    }
  }

  /***** The paths the parser can return *****/

  lemma {:induction false} AlternatesIs(q: Path, listAllowed: bool)
    ensures Alternates(q, listAllowed) <==>
            && (q != [] && q[0].List? ==> listAllowed)
            && (forall i {:trigger q[i]} :: 0 < i < |q| && q[i].List? ==> q[i - 1].Object?)
  {
    if q != [] {
      var r := q[1..];
      AlternatesIs(r, q[0].Object?);
      assert forall i :: 0 <= i < |r| ==> r[i] == q[i + 1];
      assert |q| > 1 ==> q[1] == r[0];
    }
  }

  ghost predicate ListsShaped(q: Path) {
    forall n :: n in q && n.List? ==> ListShaped(n)
  }

  lemma SpelledNodeIsShaped(ts: seq<Token>, i: nat, n: Node)
    requires n.List? && SpellsNode(ts, i, n)
    ensures ListShaped(n)
  {
    if n.keyValue.IntKey? {
      ReadIsInRange(At(ts, i + 3).literal, 0, 0);
    }
  }

  lemma {:induction false} SpelledIsShaped(ts: seq<Token>, i: nat, q: Path)
    requires SpellsRest(ts, i, q)
    ensures ListsShaped(q)
    decreases |q|
  {
    if q != [] {
      assert forall n :: n in q ==> n == q[0] || n in q[1..];
      if q[0].Object? {
        SpelledIsShaped(ts, i + 2, q[1..]);
      } else {
        SpelledNodeIsShaped(ts, i, q[0]);
        SpelledIsShaped(ts, i + 5, q[1..]);
      }
    }
  }

  lemma SpelledObjectIsShaped(ts: seq<Token>, p: Path)
    requires p != [] && p[0].Object?
    ensures SpellsRest(ts, 1, p[1..]) ==> ListsShaped(p)
  {
    if SpellsRest(ts, 1, p[1..]) {
      SpelledIsShaped(ts, 1, p[1..]);
      assert forall n :: n in p ==> n == p[0] || n in p[1..];
    }
  }

  /** Parsing succeeds with p iff the tokens spell p, and p is parser-shaped. */
  lemma ParsedIffSpelled(s: string, p: Path)
    ensures ParseText(s) == Some(p) <==> ParserShaped(p) && Spells(Lex(s, false), p)
  {
    var ts := Lex(s, false);
    AlternatesIs(p, false);
    if p == [] {
      if At(ts, 0).kind != EOF {
        EmptyIsNotObject(ts, 0);
      }
    } else if p[0].Object? {
      ObjectIsSpelled(ts, 0, p);
      SpelledObjectIsShaped(ts, p);
    } else {
      StartsWithObject(ts, 0);
    }
  }

  /***** Printing and parsing *****/

  lemma ScanKey(ts: seq<Token>, i: nat, n: Node, rest: string, style: Style)
    requires n.List? && ListShaped(n) && Scans(ts, i, KeyText(n.keyValue, n.glob, style) + ("]" + rest))
    ensures SpellsKey(At(ts, i), n.keyValue, n.glob) <==> (n.keyValue.StrKey? ==> WordOk(n.keyValue.str, style))
    ensures (n.keyValue.StrKey? ==> WordOk(n.keyValue.str, style)) ==> Scans(ts, i + 1, "]" + rest)
  {
    if n.glob {
      assert KeyText(n.keyValue, n.glob, style) + ("]" + rest) == ['*'] + ("]" + rest);
      ScanMark(ts, i, '*', "]" + rest);
    } else if n.keyValue.StrKey? {
      ScanWord(ts, i, n.keyValue.str, "]" + rest, style);
    } else {
      ScanNumber(ts, i, n.keyValue.num, "]" + rest);
      ParseInt64IsExact(Digits(n.keyValue.num));
    }
  }

  lemma ScanList(ts: seq<Token>, i: nat, n: Node, rest: string, style: Style)
    requires n.List? && ListShaped(n) && Scans(ts, i, NodeText(n, style) + rest)
    ensures SpellsNode(ts, i, n) <==> NodeOk(n, style)
    ensures NodeOk(n, style) ==> Scans(ts, i + 5, rest)
  {
    var key := KeyText(n.keyValue, n.glob, style);
    var t1 := [':'] + (" " + (key + ("]" + rest)));
    var t0 := Word(n.keyField, style) + t1;
    assert NodeText(n, style) + rest == ['['] + t0 by {
      ListText(Word(n.keyField, style), key, rest);
    }
    ScanMark(ts, i, '[', t0);
    ScanWord(ts, i + 1, n.keyField, t1, style);
    if WordOk(n.keyField, style) {
      ScanListKey(ts, i + 2, n, rest, style);
    }
  }

  /** What follows the key field. */
  lemma ScanListKey(ts: seq<Token>, i: nat, n: Node, rest: string, style: Style)
    requires n.List? && ListShaped(n)
    requires Scans(ts, i, [':'] + (" " + (KeyText(n.keyValue, n.glob, style) + ("]" + rest))))
    ensures At(ts, i).kind == COLON
    ensures SpellsKey(At(ts, i + 1), n.keyValue, n.glob) <==> (n.keyValue.StrKey? ==> WordOk(n.keyValue.str, style))
    ensures (n.keyValue.StrKey? ==> WordOk(n.keyValue.str, style)) ==>
            At(ts, i + 2).kind == RBRACKET && Scans(ts, i + 3, rest)
  {
    var t3 := KeyText(n.keyValue, n.glob, style) + ("]" + rest);
    ScanMark(ts, i, ':', " " + t3);
    ScanSpace(ts, i + 1, t3);
    ScanKey(ts, i + 1, n, rest, style);
    if n.keyValue.StrKey? ==> WordOk(n.keyValue.str, style) {
      assert "]" + rest == [']'] + rest;
      ScanMark(ts, i + 2, ']', rest);
    }
  }

  lemma ListText(word: string, key: string, rest: string)
    ensures "[" + (word + (":" + (" " + (key + "]")))) + rest == ['['] + (word + ([':'] + (" " + (key + ("]" + rest)))))
  {
    assert (key + "]") + rest == key + ("]" + rest);
    assert (" " + (key + "]")) + rest == " " + (key + ("]" + rest));
    assert (":" + (" " + (key + "]"))) + rest == [':'] + (" " + (key + ("]" + rest)));
    assert (word + (":" + (" " + (key + "]")))) + rest == word + ([':'] + (" " + (key + ("]" + rest))));
  }

  lemma RestDelimits(q: Path, style: Style)
    ensures Delimits(RestText(q, style))
  {
  }

  /** The printed rest of a path spells it iff all its strings survive. */
  lemma {:induction false} ScanRest(ts: seq<Token>, i: nat, q: Path, style: Style)
    requires ListsShaped(q) && Scans(ts, i, RestText(q, style))
    ensures SpellsRest(ts, i, q) <==> PathOk(q, style)
    decreases |q|
  {
    if q == [] {
      ScanStep(ts, i, "");
    } else {
      var r := q[1..];
      var rest := RestText(r, style);
      assert forall n :: n in q <==> n == q[0] || n in r;
      RestDelimits(r, style);
      if q[0].Object? {
        var word := NodeText(q[0], style) + rest;
        assert RestText(q, style) == ['.'] + word;
        ScanMark(ts, i, '.', word);
        ScanWord(ts, i + 1, q[0].reference, rest, style);
        if NodeOk(q[0], style) {
          ScanRest(ts, i + 2, r, style);
        }
      } else {
        ScanList(ts, i, q[0], rest, style);
        if NodeOk(q[0], style) {
          ScanRest(ts, i + 5, r, style);
        }
      }
    }
  }

  /** Parsing what was printed gives the path back iff each of its strings survives. */
  lemma RoundTrip(p: Path, style: Style)
    requires ParserShaped(p)
    ensures ParseText(PathText(p, style)) == Some(p) <==> PathOk(p, style)
  {
    var s := PathText(p, style);
    var ts := Lex(s, false);
    ParsedIffSpelled(s, p);
    assert ts[0..] == ts;
    assert Scans(ts, 0, s);
    if p == [] {
      ScanStep(ts, 0, "");
    } else {
      var q := p[1..];
      assert forall n :: n in p <==> n == p[0] || n in q;
      RestDelimits(q, style);
      ScanWord(ts, 0, p[0].reference, RestText(q, style), style);
      if NodeOk(p[0], style) {
        ScanRest(ts, 1, q, style);
      }
    }
  }

  /** A field name with a slash is neither quoted nor a bare word, so printing it loses the path. */
  lemma SlashIsLost()
    ensures ParserShaped([Object("a/b")])
    ensures ParseText(PathText([Object("a/b")], AsNeeded)) != Some([Object("a/b")])
  {
    var p := [Object("a/b")];
    SlashIsNotPrintable();
    assert p[0] in p && !NodeOk(p[0], AsNeeded);
    RoundTrip(p, AsNeeded);
  }

  lemma SlashIsNotPrintable()
    ensures !Printable("a/b")
  {
    assert "a/b"[1] == '/' && !IsAlphaNum('/');
  }

  /** Parse can return exactly the parser-shaped paths, whatever their strings are. */
  lemma ParserShapedIsExact(p: Path)
    ensures ParserShaped(p) <==> exists s :: ParseText(s) == Some(p)
  {
    if ParserShaped(p) {
      RoundTrip(p, Always);
      assert ParseText(PathText(p, Always)) == Some(p);
    }
    if s :| ParseText(s) == Some(p) {
      ParsedIffSpelled(s, p);
    }
  }
}
