/** Decimal numbers as the parser reads and the printer writes them. */
module Decimal {
  import opened Types
  import opened PathTokens

  const MAX_INT64 := 0x7fff_ffff_ffff_ffff
  const TWO_64 := 0x1_0000_0000_0000_0000

  function Digit(c: char): (d: nat)
    requires IsDigit(c)
    ensures d <= 9
  {
    c as int - '0' as int
  }

  /** The value of a digit string. */
  function Value(s: string): nat
    requires forall c :: c in s ==> IsDigit(c)
  {
    if s == [] then 0
    else
      assert s[|s| - 1] in s;
      Value(s[..|s| - 1]) * 10 + Digit(s[|s| - 1])
  }

  /** Arithmetic on int64 wraps around. */
  function Wrap(n: int): (r: int)
    ensures -0x8000_0000_0000_0000 <= r <= MAX_INT64
  {
    var m := n % TWO_64;
    if m <= MAX_INT64 then m else m - TWO_64
  }

  /** parseInt64 on the value level: None is its overflow or bad digit error. */
  function ParseInt64From(s: string, i: nat, acc: int): Option<int>
    requires i <= |s|
    decreases |s| - i
  {
    if i == |s| then Some(acc)
    else if !IsDigit(s[i]) then None
    else
      var next := Wrap(acc * 10 + Digit(s[i]));
      if next < 0 then None else ParseInt64From(s, i + 1, next)
  }

  function ParseInt64Spec(s: string): Option<int> {
    ParseInt64From(s, 0, 0)
  }

  method ParseInt64(s: string) returns (r: Option<int>)
    ensures r == ParseInt64Spec(s)
  {
    var result := 0;
    for i := 0 to |s|
      invariant ParseInt64Spec(s) == ParseInt64From(s, i, result)
    {
      var d := s[i];
      if d < '0' || d > '9' {
        return None;
      }
      result := Wrap(result * 10 + Digit(d));
      if result < 0 {
        return None;
      }
    }
    return Some(result);
  }

  ghost predicate AllDigits(s: string) {
    forall c :: c in s ==> IsDigit(c)
  }

  lemma ValueStep(s: string, i: nat)
    requires AllDigits(s) && i < |s|
    ensures AllDigits(s[..i]) && AllDigits(s[..i + 1]) && IsDigit(s[i])
    ensures Value(s[..i + 1]) == Value(s[..i]) * 10 + Digit(s[i])
  {
    assert s[..i + 1][..i] == s[..i];
    assert s[i] in s;
  }

  lemma {:induction false} ValueGrows(s: string, i: nat)
    requires AllDigits(s) && i <= |s|
    ensures Value(s[..i]) <= Value(s)
    decreases |s| - i
  {
    if i == |s| {
      assert s[..i] == s;
    } else {
      ValueGrows(s, i + 1);
      ValueStep(s, i);
    }
  }

  lemma PrefixGrows(s: string, i: nat, n: nat)
    requires AllDigits(s) && i <= n <= |s|
    ensures AllDigits(s[..n]) && AllDigits(s[..i]) && Value(s[..i]) <= Value(s[..n])
  {
    assert s[..n][..i] == s[..i];
    ValueGrows(s[..n], i);
  }

  lemma {:induction false} ReadIsInRange(s: string, i: nat, acc: int)
    requires i <= |s| && 0 <= acc <= MAX_INT64
    ensures var r := ParseInt64From(s, i, acc); r.Some? ==> 0 <= r.value <= MAX_INT64
    decreases |s| - i
  {
    if i < |s| && IsDigit(s[i]) {
      var next := Wrap(acc * 10 + Digit(s[i]));
      if next >= 0 {
        ReadIsInRange(s, i + 1, next);
      }
    }
  }

  /** The digits read so far, up to and with number j, overflow an int64 modulo 2^64. */
  predicate OverflowsAt(s: string, j: nat)
    requires AllDigits(s) && j < |s|
  {
    Value(s[..j + 1]) % TWO_64 > MAX_INT64
  }

  /** One digit more, counted modulo 2^64. */
  lemma WrapStep(s: string, i: nat)
    requires AllDigits(s) && i < |s|
    ensures Wrap(Value(s[..i]) % TWO_64 * 10 + Digit(s[i])) < 0 <==> OverflowsAt(s, i)
    ensures !OverflowsAt(s, i) ==> Wrap(Value(s[..i]) % TWO_64 * 10 + Digit(s[i])) == Value(s[..i + 1]) % TWO_64
  {
    ValueStep(s, i);
    ModStep(Value(s[..i]), Digit(s[i]));
  }

  lemma ModStep(v: nat, d: nat)
    ensures (v % TWO_64 * 10 + d) % TWO_64 == (v * 10 + d) % TWO_64
  {
  }

  /** The accumulator is the value read so far modulo 2^64, and only a sign stops the reading. */
  lemma {:induction false} ReadModulo(s: string, i: nat)
    requires AllDigits(s) && i <= |s|
    ensures var r := ParseInt64From(s, i, Value(s[..i]) % TWO_64);
            && (r.None? <==> exists j: nat :: i <= j < |s| && OverflowsAt(s, j))
            && (r.Some? ==> r.value == Value(s) % TWO_64)
    decreases |s| - i
  {
    if i == |s| {
      assert s[..i] == s;
    } else {
      assert s[i] in s;
      WrapStep(s, i);
      ReadModulo(s, i + 1);
    }
  }

  /** No prefix of a number that fits overflows. */
  lemma FitsNoOverflow(s: string, n: nat, j: nat)
    requires AllDigits(s) && j < n <= |s| && Value(s[..n]) <= MAX_INT64
    ensures !OverflowsAt(s, j)
  {
    PrefixGrows(s, j + 1, n);
  }

  lemma OverflowsAtEnd(s: string)
    requires AllDigits(s) && s != []
    ensures OverflowsAt(s, |s| - 1) <==> Value(s) % TWO_64 > MAX_INT64
  {
    assert s[..|s| - 1 + 1] == s;
  }

  /**
   * parseInt64 refuses a number iff some prefix of it exceeds the int64 limit modulo 2^64, and
   * otherwise reads it modulo 2^64. So it is exact up to the int64 limit, refuses everything from
   * there to 2^64, and never reads anything larger as what it is.
   */
  lemma ParseInt64IsExact(s: string)
    requires AllDigits(s)
    ensures ParseInt64Spec(s).None? <==> exists j: nat :: j < |s| && OverflowsAt(s, j)
    ensures ParseInt64Spec(s).Some? ==> ParseInt64Spec(s).value == Value(s) % TWO_64
    ensures Value(s) <= MAX_INT64 <==> ParseInt64Spec(s) == Some(Value(s))
    ensures Value(s) < TWO_64 ==> (ParseInt64Spec(s).None? <==> Value(s) > MAX_INT64)
  {
    assert s[..0] == [] && s[..|s|] == s;
    ReadModulo(s, 0);
    if Value(s) <= MAX_INT64 {
      forall j: nat | j < |s| ensures !OverflowsAt(s, j) {
        FitsNoOverflow(s, |s|, j);
      }
    } else {
      OverflowsAtEnd(s);
    }
  }

  /** A number written in decimal. */
  function Digits(n: nat): (s: string)
    ensures s != [] && AllDigits(s) && Value(s) == n
  {
    var d := ('0' as int + n % 10) as char;
    if n < 10 then
      assert [d][..0] == [];
      [d]
    else
      var s := Digits(n / 10) + [d];
      assert s[..|s| - 1] == Digits(n / 10);
      s
  }

  /** The ten digits, in their order and with their places. */
  lemma DigitsInPlace() returns (s: string)
    ensures s == "1234567890" && AllDigits(s) && Value(s) == 1234567890 && ParseInt64Spec(s) == Some(1234567890)
  {
    s := "1234567890";
    var values := [0, 1, 12, 123, 1234, 12345, 123456, 1234567, 12345678, 123456789, 1234567890];
    var v := 0;
    for i := 0 to 10
      invariant v == Value(s[..i]) == values[i]
    {
      ValueStep(s, i);
      v := Value(s[..i + 1]);
    }
    assert s[..10] == s;
    ParseInt64IsExact(s);
  }

  /** A zero appended to a number that fits. */
  lemma ReadAppendedZero(t: string)
    requires AllDigits(t) && Value(t) <= MAX_INT64
    ensures AllDigits(t + ['0']) && Value(t + ['0']) == Value(t) * 10
    ensures Value(t + ['0']) % TWO_64 <= MAX_INT64 ==> ParseInt64Spec(t + ['0']) == Some(Value(t + ['0']) % TWO_64)
  {
    var s := t + ['0'];
    assert s[..|t|] == t && s[..|t| + 1] == s && s[|s| - 1] == '0';
    ValueStep(s, |t|);
    ParseInt64IsExact(s);
    if Value(s) % TWO_64 <= MAX_INT64 {
      NoOverflowBefore(s);
    }
  }

  lemma NoOverflowBefore(s: string)
    requires AllDigits(s) && s != [] && AllDigits(s[..|s| - 1])
    requires Value(s[..|s| - 1]) <= MAX_INT64 && Value(s) % TWO_64 <= MAX_INT64
    ensures forall j: nat :: j < |s| ==> !OverflowsAt(s, j)
  {
    forall j: nat | j < |s| ensures !OverflowsAt(s, j) {
      if j < |s| - 1 {
        FitsNoOverflow(s, |s| - 1, j);
      } else {
        OverflowsAtEnd(s);
      }
    }
  }

  /** Beyond 2^64 a wrapped value can pass: 2 followed by nineteen zeros is read as another number. */
  lemma ParseInt64CanWrap() returns (s: string)
    ensures AllDigits(s) && Value(s) == 20000000000000000000
    ensures ParseInt64Spec(s) == Some(1553255926290448384)
  {
    var n := 2000000000000000000;
    var t := Digits(n);
    s := t + ['0'];
    ReadAppendedZero(t);
  }
}

/** The path grammar over a token sequence. */
module PathGrammar {
  import opened Types
  import opened PathAst
  import opened PathTokens
  import opened Decimal

  /** The i-th token; behind the last one comes the end again and again. */
  function At(ts: seq<Token>, i: nat): Token {
    if i < |ts| then ts[i] else END
  }

  /** The key value of a list at token i. */
  function ParseKeyValue(ts: seq<Token>, i: nat): Option<(KeyValue, bool)> {
    var t := At(ts, i);
    match t.kind
    case GLOB => Some((NoKey, true))
    case IDENT => Some((StrKey(t.literal), false))
    case INT =>
      var n := ParseInt64Spec(t.literal);
      if n.Some? then Some((IntKey(n.value), false)) else None
    case _ => None
  }

  /** The five tokens of a list, from its opening bracket at i. */
  function ParseListAt(ts: seq<Token>, i: nat): (r: Option<Node>)
    ensures r.Some? ==> r.value.List?
  {
    var v := ParseKeyValue(ts, i + 3);
    if At(ts, i + 1).kind == IDENT && At(ts, i + 2).kind == COLON && v.Some? && At(ts, i + 4).kind == RBRACKET then
      Some(List(At(ts, i + 1).literal, v.value.0, v.value.1))
    else None
  }

  /** The path that the tokens from i on spell, if any. */
  function ParseFrom(ts: seq<Token>, i: nat): Option<Path>
    decreases |ts| - i
  {
    if At(ts, i).kind != IDENT then if At(ts, i).kind == EOF then Some([]) else None
    else
      var obj := Object(At(ts, i).literal);
      if At(ts, i + 1).kind == LBRACKET then
        var list := ParseListAt(ts, i + 1);
        if list.None? then None
        else Prefixed([obj, list.value], ParseTail(ts, i + 6))
      else Prefixed([obj], ParseTail(ts, i + 1))
  }

  /** After a node: the end, or a separator and more. */
  function ParseTail(ts: seq<Token>, i: nat): Option<Path>
    decreases |ts| - i
  {
    if At(ts, i).kind == EOF then Some([])
    else if At(ts, i).kind == SEPARATOR && At(ts, i + 1).kind != EOF then ParseFrom(ts, i + 1)
    else None
  }

  lemma TailIs(ts: seq<Token>, i: nat)
    ensures ParseTail(ts, i) ==
            if At(ts, i).kind == EOF then ParseFrom(ts, i)
            else if At(ts, i).kind == SEPARATOR && At(ts, i + 1).kind != EOF then ParseFrom(ts, i + 1)
            else None
  {
  }

  function Prefixed(nodes: seq<Node>, rest: Option<Path>): Option<Path> {
    if rest.Some? then Some(nodes + rest.value) else None
  }

  /** Parsing a text. */
  function ParseText(s: string): Option<Path> {
    ParseFrom(Lex(s, false), 0)
  }
}

/** The parser of the source: a current token, a token of lookahead, and a sticky error. */
module PathParser {
  import opened Types
  import opened PathAst
  import opened PathTokens
  import opened PathScanner
  import opened Decimal
  import opened PathGrammar

  /** The tokens from i on, as a scanner that stands there would give them. */
  ghost function Remaining(ts: seq<Token>, i: nat): seq<Token> {
    if i < |ts| then ts[i..] else [END]
  }

  /** A scanner behind the first two tokens of its text. */
  method ScanTwo(input: string) returns (s: Scanner, t0: Token, t1: Token)
    ensures fresh(s) && s.Valid()
    ensures var ts := Lex(input, false);
            t0 == PathGrammar.At(ts, 0) && t1 == PathGrammar.At(ts, 1) && Remaining(ts, 2) == Lex(s.Rest(), s.failed)
  {
    s := new Scanner(input);
    t0 := s.Next();
    ghost var rest0, failed0 := s.Rest(), s.failed;
    t1 := s.Next();
    LexTwo(input, t0, rest0, failed0, t1, s.Rest(), s.failed);
  }

  class Parser {
    const scanner: Scanner
    var curToken: Token
    var peekToken: Token
    var failed: bool

    /** The parser stands on token i of ts. */
    ghost predicate Stands(ts: seq<Token>, i: nat)
      reads this, scanner
    {
      && scanner.Valid()
      && curToken == PathGrammar.At(ts, i) && peekToken == PathGrammar.At(ts, i + 1)
      && Remaining(ts, i + 2) == Lex(scanner.Rest(), scanner.failed)
    }

    constructor (input: string)
      ensures fresh(scanner) && Stands(Lex(input, false), 0) && !failed
    {
      var s, t0, t1 := ScanTwo(input);
      scanner, curToken, peekToken, failed := s, t0, t1, false;
    }

    method Advance(ghost ts: seq<Token>, ghost i: nat)
      requires Stands(ts, i)
      modifies this`curToken, this`peekToken, scanner
      ensures Stands(ts, i + 1)
    {
      ghost var rest, f := scanner.Rest(), scanner.failed;
      curToken := peekToken;
      peekToken := scanner.Next();
      LexStep(rest, f, peekToken, scanner.Rest(), scanner.failed);
      RemainingStep(ts, i + 2);
    }

    /** Advances iff the next token is of the kind. */
    method Expect(kind: Kind, ghost ts: seq<Token>, ghost i: nat) returns (ok: bool)
      requires Stands(ts, i)
      modifies this`curToken, this`peekToken, scanner
      ensures ok == (PathGrammar.At(ts, i + 1).kind == kind)
      ensures Stands(ts, if ok then i + 1 else i)
    {
      ok := peekToken.kind == kind;
      if ok {
        Advance(ts, i);
      }
    }

    /** None is the error of parseList. */
    method ParseList(ghost ts: seq<Token>, ghost i: nat) returns (node: Option<Node>)
      requires Stands(ts, i)
      modifies this`curToken, this`peekToken, scanner
      ensures node == ParseListAt(ts, i)
      ensures node.Some? ==> Stands(ts, i + 4)
    {
      var ok := Expect(IDENT, ts, i);
      if !ok {
        return None;
      }
      var keyField := curToken.literal;
      ok := Expect(COLON, ts, i + 1);
      if !ok {
        return None;
      }
      var value := ParseValue(ts, i + 2);
      if value.None? {
        return None;
      }
      ok := Expect(RBRACKET, ts, i + 3);
      if !ok {
        return None;
      }
      return Some(List(keyField, value.value.0, value.value.1));
    }

    method ParseValue(ghost ts: seq<Token>, ghost i: nat) returns (value: Option<(KeyValue, bool)>)
      requires Stands(ts, i)
      modifies this`curToken, this`peekToken, scanner
      ensures value == ParseKeyValue(ts, i + 1)
      ensures value.Some? ==> Stands(ts, i + 1)
    {
      var ok := Expect(GLOB, ts, i);
      if ok {
        return Some((NoKey, true));
      }
      ok := Expect(IDENT, ts, i);
      if ok {
        return Some((StrKey(curToken.literal), false));
      }
      ok := Expect(INT, ts, i);
      if ok {
        var n := ParseInt64(curToken.literal);
        return if n.None? then None else Some((IntKey(n.value), false));
      }
      return None;
    }

    /** An object, and the list that may follow it. */
    method ParseNodes(ghost ts: seq<Token>, ghost i: nat) returns (nodes: Option<seq<Node>>, ghost k: nat)
      requires Stands(ts, i) && curToken.kind == IDENT
      modifies this`curToken, this`peekToken, scanner
      ensures ParseFrom(ts, i) == if nodes.None? then None else Prefixed(nodes.value, ParseTail(ts, k + 1))
      ensures nodes.Some? ==> Stands(ts, k) && i <= k
    {
      var obj := Object(curToken.literal);
      k := i;
      var ok := Expect(LBRACKET, ts, i);
      if !ok {
        return Some([obj]), k;
      }
      k := i + 5;
      var node := ParseList(ts, i + 1);
      return if node.None? then None else Some([obj, node.value]), k;
    }

    /** The separator before the next object, or the end of the text. */
    method ParseSeparator(ghost ts: seq<Token>, ghost k: nat) returns (ok: bool, ghost i: nat)
      requires Stands(ts, k)
      modifies this`curToken, this`peekToken, scanner
      ensures ParseTail(ts, k + 1) == if ok then ParseFrom(ts, i) else None
      ensures ok ==> Stands(ts, i) && k < i
    {
      TailIs(ts, k + 1);
      ok := Expect(SEPARATOR, ts, k);
      if !ok {
        ok := Expect(EOF, ts, k);
        return ok, k + 1;
      }
      if peekToken.kind == EOF {
        return false, k + 1;
      }
      Advance(ts, k + 1);
      return true, k + 2;
    }

    /** None is an error; the source then returns an empty path beside it. */
    method Parse(ghost ts: seq<Token>) returns (r: Option<Path>)
      requires Stands(ts, 0) && !failed
      modifies this, scanner
      ensures r == ParseFrom(ts, 0)
    {
      var root: Path := [];
      ghost var i := 0;
      PrefixedTwice([], root, ParseFrom(ts, 0));
      while curToken.kind == IDENT
        invariant Stands(ts, i) && ParseFrom(ts, 0) == Prefixed(root, ParseFrom(ts, i))
        decreases |ts| - i
      {
        var nodes, k := ParseNodes(ts, i);
        if nodes.None? {
          failed := true;
          return None;
        }
        PrefixedTwice(root, nodes.value, ParseTail(ts, k + 1));
        root := root + nodes.value;
        var ok, i' := ParseSeparator(ts, k);
        if !ok {
          failed := true;
          return None;
        }
        i := i';
      }
      if curToken.kind != EOF {
        failed := true;
        return None;
      }
      assert root + [] == root;
      return Some(root);
    }
  }

  /** parser.Parse on a text. */
  method Parse(input: string) returns (r: Option<Path>)
    ensures r == ParseText(input)
  {
    var p := new Parser(input);
    r := p.Parse(Lex(input, false));
  }

  lemma LexStep(s: string, failed: bool, token: Token, rest: string, failed': bool)
    requires NextToken(s, failed) == Scan(token, rest, failed')
    ensures token == Lex(s, failed)[0]
    ensures Remaining(Lex(s, failed), 1) == Lex(rest, failed')
  {
  }

  lemma LexTwo(s: string, t0: Token, rest0: string, failed0: bool, t1: Token, rest1: string, failed1: bool)
    requires NextToken(s, false) == Scan(t0, rest0, failed0) && NextToken(rest0, failed0) == Scan(t1, rest1, failed1)
    ensures var ts := Lex(s, false);
            t0 == PathGrammar.At(ts, 0) && t1 == PathGrammar.At(ts, 1) && Remaining(ts, 2) == Lex(rest1, failed1)
  {
    var ts := Lex(s, false);
    LexStep(s, false, t0, rest0, failed0);
    LexStep(rest0, failed0, t1, rest1, failed1);
    RemainingStep(ts, 1);
  }

  lemma RemainingStep(ts: seq<Token>, i: nat)
    ensures Remaining(ts, i)[0] == PathGrammar.At(ts, i)
    ensures Remaining(Remaining(ts, i), 1) == Remaining(ts, i + 1)
  {
  }

  lemma PrefixedTwice(a: seq<Node>, b: seq<Node>, r: Option<Path>)
    ensures Prefixed(a, Prefixed(b, r)) == Prefixed(a + b, r) && Prefixed([], r) == r
  {
    if r.Some? {
      assert a + (b + r.value) == a + b + r.value && [] + r.value == r.value;
    }
  }
}
