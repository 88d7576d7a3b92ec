/** Tokens of the path language, and what the scanner makes of a text. */
module PathTokens {

  datatype Kind = ERROR | EOF | IDENT | INT | LBRACKET | RBRACKET | SEPARATOR | GLOB | COLON

  datatype Token = Token(kind: Kind, literal: string)

  const END := Token(EOF, "")

  predicate IsSpace(c: char) {
    c == ' ' || c == '\t' || c == '\r' || c == '\n'
  }

  predicate IsDigit(c: char) {
    '0' <= c <= '9'
  }

  predicate IsAlphaNum(c: char) {
    'a' <= c <= 'z' || 'A' <= c <= 'Z' || '0' <= c <= '9' || c == '_' || c == '-'
  }

  predicate IsQuote(c: char) {
    c == '"' || c == '\''
  }

  /***** The text that is left, as a value *****/

  function SkipSpaces(s: string): (r: string)
    ensures |r| <= |s|
    ensures r != [] ==> !IsSpace(r[0])
  {
    if s != [] && IsSpace(s[0]) then SkipSpaces(s[1..]) else s
  }

  /** The longest prefix of characters in the class p. */
  function Span(s: string, p: char -> bool): (n: nat)
    ensures n <= |s|
    ensures forall i :: 0 <= i < n ==> p(s[i])
    ensures n < |s| ==> !p(s[n])
  {
    if s != [] && p(s[0]) then 1 + Span(s[1..], p) else 0
  }

  /** A quoted string, from behind its opening quote: closed, or cut off by the end of the text. */
  datatype Quoted = Closed(literal: string, rest: string) | Open(literal: string)

  function ScanQuoted(s: string, quote: char): (r: Quoted)
    ensures r.Closed? ==> |r.rest| < |s|
  {
    if s == [] then Open([])
    else if s[0] == quote then Closed([], s[1..])
    else if s[0] == '\\' then
      if |s| == 1 then Open([]) else Prepend(s[1], ScanQuoted(s[2..], quote))
    else Prepend(s[0], ScanQuoted(s[1..], quote))
  }

  function Prepend(c: char, q: Quoted): Quoted {
    match q
    case Closed(literal, rest) => Closed([c] + literal, rest)
    case Open(literal) => Open([c] + literal)
  }

  /** One token, the text behind it, and whether an error has been met. */
  datatype Scan = Scan(token: Token, rest: string, failed: bool)

  function NextToken(s: string, failed: bool): (r: Scan)
    ensures r.token.kind != EOF ==> |r.rest| < |s|
    ensures r.token.kind == EOF ==> r.rest == []
  {
    var t := SkipSpaces(s);
    if t == [] then Scan(END, [], failed) else TokenAt(t, failed)
  }

  /** Once an error has been met, a bare word or number is no longer a valid token. */
  function TokenAt(t: string, failed: bool): (r: Scan)
    requires t != []
    ensures r.token.kind != EOF && |r.rest| < |t|
  {
    if IsDigit(t[0]) then
      var n := Span(t, IsDigit);
      Scan(Token(if failed then ERROR else INT, t[..n]), t[n..], failed)
    else if IsAlphaNum(t[0]) then
      var n := Span(t, IsAlphaNum);
      Scan(Token(if failed then ERROR else IDENT, t[..n]), t[n..], failed)
    else if IsQuote(t[0]) then
      match ScanQuoted(t[1..], t[0]) {
        case Closed(literal, rest) => Scan(Token(IDENT, literal), rest, failed)
        case Open(literal) => Scan(Token(ERROR, literal), [], true)
      }
    else
      var kind := Punctuation(t[0]);
      Scan(Token(kind, [t[0]]), t[1..], failed || kind == ERROR)
  }

  function Punctuation(c: char): (k: Kind)
    ensures k != EOF
  {
    match c
    case '.' => SEPARATOR
    case '[' => LBRACKET
    case ']' => RBRACKET
    case '*' => GLOB
    case ':' => COLON
    case _ => ERROR
  }

  /** All tokens of a text, up to and with the end. */
  function Lex(s: string, failed: bool): (ts: seq<Token>)
    ensures |ts| > 0
    decreases |s|
  {
    var r := NextToken(s, failed);
    if r.token.kind == EOF then [END] else [r.token] + Lex(r.rest, r.failed)
  }
}

/** The scanner of the source: a cursor that moves over the text. */
module PathScanner {
  import opened Types
  import opened PathTokens

  class Scanner {
    const input: string
    var pos: nat      // current position
    var readPos: nat  // next position to read
    var ch: Option<char>  // None is the end of the text
    var failed: bool  // whether an error has been set

    ghost predicate Valid()
      reads this
    {
      && pos <= |input|
      && (pos < |input| ==> ch == Some(input[pos]) && readPos == pos + 1)
      && (pos == |input| ==> ch == None && readPos == |input|)
    }

    /** The text not yet scanned. */
    ghost function Rest(): string
      requires pos <= |input|
      reads this
    {
      input[pos..]
    }

    constructor (text: string)
      ensures Valid() && input == text && Rest() == text && !failed
    {
      input := text;
      pos, readPos, ch, failed := 0, 0, None, false;
      new;
      Read();
    }

    method Read()
      requires readPos <= |input| && pos <= |input|
      modifies this`pos, this`readPos, this`ch
      ensures Valid() && pos == old(readPos)
    {
      if readPos >= |input| {
        ch, pos := None, |input|;
      } else {
        pos := readPos;
        readPos := readPos + 1;
        ch := Some(input[pos]);
      }
    }

    method Next() returns (token: Token)
      requires Valid()
      modifies this`pos, this`readPos, this`ch, this`failed
      ensures Valid()
      ensures NextToken(old(Rest()), old(failed)) == Scan(token, Rest(), failed)
    {
      SkipWhitespace();
      ghost var t := Rest();
      assert t == SkipSpaces(old(Rest()));
      if ch == None {
        Read();
        return END;
      }
      token := Current();
    }

    method Current() returns (token: Token)
      requires Valid() && ch.Some?
      modifies this`pos, this`readPos, this`ch, this`failed
      ensures Valid()
      ensures TokenAt(old(Rest()), old(failed)) == Scan(token, Rest(), failed)
    {
      var c := ch.value;
      ghost var t := Rest();
      assert c == t[0];
      if IsDigit(c) {
        var literal := ReadRun(IsDigit);
        return Token(if failed then ERROR else INT, literal);
      }
      if IsAlphaNum(c) {
        var literal := ReadRun(IsAlphaNum);
        return Token(if failed then ERROR else IDENT, literal);
      }
      if IsQuote(c) {
        token := CurrentQuoted();
        return;
      }
      token := Token(Punctuation(c), [c]);
      if token.kind == ERROR {
        failed := true;
      }
      assert Rest()[1..] == input[pos + 1..];
      Read();
    }

    /** The case of a quote. */
    method CurrentQuoted() returns (token: Token)
      requires Valid() && ch.Some? && IsQuote(ch.value)
      modifies this`pos, this`readPos, this`ch, this`failed
      ensures Valid()
      ensures TokenAt(old(Rest()), old(failed)) == Scan(token, Rest(), failed)
    {
      var literal, closed := ReadString();
      if closed {
        token := Token(IDENT, literal);
        assert Rest()[1..] == input[pos + 1..];
      } else {
        failed := true;
        token := Token(ERROR, literal);
      }
      Read();
    }

    method SkipWhitespace()
      requires Valid()
      modifies this`pos, this`readPos, this`ch
      ensures Valid() && Rest() == SkipSpaces(old(Rest()))
    {
      while ch.Some? && IsSpace(ch.value)
        invariant Valid() && SkipSpaces(Rest()) == SkipSpaces(old(Rest()))
        decreases |input| - pos
      {
        assert Rest()[1..] == input[pos + 1..];
        Read();
      }
    }

    /** readIdent and readInt. */
    method ReadRun(p: char -> bool) returns (literal: string)
      requires Valid()
      modifies this`pos, this`readPos, this`ch
      ensures Valid()
      ensures var n := Span(old(Rest()), p); literal == old(Rest())[..n] && Rest() == old(Rest())[n..]
    {
      var start := pos;
      while ch.Some? && p(ch.value)
        invariant Valid() && start <= pos
        invariant Span(old(Rest()), p) == pos - start + Span(Rest(), p)
        decreases |input| - pos
      {
        assert Rest()[1..] == input[pos + 1..];
        Read();
      }
      literal := input[start..pos];
    }

    /** Leaves the cursor on the closing quote, or at the end of the text. */
    method ReadString() returns (out: string, closed: bool)
      requires Valid() && pos < |input|
      modifies this`pos, this`readPos, this`ch
      ensures Valid()
      ensures closed ==> pos < |input| && ScanQuoted(old(Rest())[1..], old(Rest())[0]) == Closed(out, Rest()[1..])
      ensures !closed ==> pos == |input| && ScanQuoted(old(Rest())[1..], old(Rest())[0]) == Open(out)
    {
      var quote := ch.value;
      out := [];
      assert Rest()[1..] == input[readPos..];
      ghost var whole := ScanQuoted(input[readPos..], quote);
      while true
        invariant Valid()
        invariant whole == PrependAll(out, ScanQuoted(input[readPos..], quote))
        decreases |input| - readPos, |input| - pos
      {
        ghost var left := input[readPos..];
        Read();
        if ch == Some(quote) {
          assert left[1..] == input[readPos..] == Rest()[1..];
          return out, true;
        }
        if ch == Some('\\') {
          Read();
          if ch == None {
            continue;
          }
          assert left[1] == input[pos] && left[2..] == input[readPos..];
        } else if ch == None {
          return out, false;
        } else {
          assert left[0] == input[pos] && left[1..] == input[readPos..];
        }
        PrependMore(out, ch.value, ScanQuoted(input[readPos..], quote));
        out := out + [ch.value];
      }
    }
  }

  ghost function PrependAll(s: string, q: Quoted): Quoted {
    match q
    case Closed(literal, rest) => Closed(s + literal, rest)
    case Open(literal) => Open(s + literal)
  }

  lemma PrependMore(s: string, c: char, q: Quoted)
    ensures PrependAll(s, Prepend(c, q)) == PrependAll(s + [c], q)
  {
    assert s + ([c] + q.literal) == s + [c] + q.literal;
  }
}
