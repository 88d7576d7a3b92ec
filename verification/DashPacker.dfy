/** Packing a list of strings into one dash-separated name, and unpacking it. */
module DashPacker {
  import opened Types

  /** A dash is escaped by another one. */
  function Double(s: string): string {
    if s == [] then [] else (if s[0] == '-' then "--" else [s[0]]) + Double(s[1..])
  }

  /** What the packer accepts. */
  predicate Packable(val: string) {
    val != [] && val[0] != '-' && val[|val| - 1] != '-'
  }

  function PackRest(vals: seq<string>): string {
    if vals == [] then [] else "-" + (Double(vals[0]) + PackRest(vals[1..]))
  }

  function PackText(vals: seq<string>): string {
    if vals == [] then [] else Double(vals[0]) + PackRest(vals[1..])
  }

  /** dashPacker; None is an error. */
  method Pack(vals: seq<string>) returns (r: Option<string>)
    ensures r.Some? <==> vals != [] && forall v :: v in vals ==> Packable(v)
    ensures r.Some? ==> r.value == PackText(vals)
  {
    if |vals| == 0 {
      return None;
    }
    var b := "";
    for i := 0 to |vals|
      invariant forall k :: 0 <= k < i ==> Packable(vals[k])
      invariant PackText(vals) == b + LeftToPack(vals, i)
    {
      var val := vals[i];
      assert val in vals;
      if (|val| > 0 && val[0] == '-') || (|val| > 0 && val[|val| - 1] == '-') {
        return None;
      }
      if |val| == 0 {
        return None;
      }
      var separator := if i != 0 then "-" else "";
      PackStep(vals, i, b, separator);
      b := b + separator;
      b := b + Double(val);
    }
    return Some(b);
  }

  ghost function LeftToPack(vals: seq<string>, i: nat): string
    requires i <= |vals|
  {
    if i == 0 then PackText(vals) else PackRest(vals[i..])
  }

  lemma PackStep(vals: seq<string>, i: nat, b: string, separator: string)
    requires i < |vals| && separator == if i != 0 then "-" else ""
    ensures b + LeftToPack(vals, i) == b + separator + Double(vals[i]) + LeftToPack(vals, i + 1)
  {
    NextToPack(vals, i, separator);
    Regroup(b, separator, Double(vals[i]), LeftToPack(vals, i + 1));
  }

  lemma NextToPack(vals: seq<string>, i: nat, separator: string)
    requires i < |vals| && separator == if i != 0 then "-" else ""
    ensures LeftToPack(vals, i) == separator + (Double(vals[i]) + LeftToPack(vals, i + 1))
  {
    var text := Double(vals[i]) + LeftToPack(vals, i + 1);
    if i == 0 {
      assert LeftToPack(vals, 0) == text;
      assert "" + text == text;
    } else {
      assert vals[i..][0] == vals[i] && vals[i..][1..] == vals[i + 1..];
    }
  }

  /** The tokens still to come, given the token so far and whether the last character was a single dash. */
  function Unpack(s: string, token: string, prevDash: bool): seq<string> {
    if s == [] then [token]
    else if s[0] == '-' then
      if prevDash then Unpack(s[1..], token + "-", false) else Unpack(s[1..], token, true)
    else if prevDash then [token] + Unpack(s[1..], [s[0]], false)
    else Unpack(s[1..], token + [s[0]], false)
  }

  /** dashExtractor. */
  method Extract(val: string) returns (tokens: seq<string>)
    ensures tokens == Unpack(val, "", false)
  {
    var b := "";
    tokens := [];
    var prevDash := false;
    for i := 0 to |val|
      invariant Unpack(val, "", false) == tokens + Unpack(val[i..], b, prevDash)
    {
      var chr := val[i];
      assert val[i..][0] == chr && val[i..][1..] == val[i + 1..];
      if prevDash && chr != '-' {
        assert tokens + ([b] + Unpack(val[i + 1..], [chr], false)) == tokens + [b] + Unpack(val[i + 1..], [chr], false);
        tokens := tokens + [b];
        b := "";
        prevDash := false;
      }
      assert "" + [chr] == [chr];
      if chr == '-' {
        if prevDash {
          b := b + [chr];
          prevDash := false;
        } else {
          prevDash := true;
        }
      } else {
        b := b + [chr];
      }
    }
    tokens := tokens + [b];
  }

  lemma {:induction false} UnpackDoubled(v: string, rest: string, token: string)
    ensures Unpack(Double(v) + rest, token, false) == Unpack(rest, token + v, false)
    decreases |v|
  {
    if v == [] {
      assert Double(v) + rest == rest && token + v == token;
    } else {
      UnpackDoubled(v[1..], rest, token + [v[0]]);
      assert token + [v[0]] + v[1..] == token + v;
      UnpackOne(v[0], Double(v[1..]) + rest, token);
      DoubleHead(v);
      assert (Double([v[0]]) + Double(v[1..])) + rest == Double([v[0]]) + (Double(v[1..]) + rest);
    }
  }

  lemma DoubleOne(c: char)
    ensures Double([c]) == if c == '-' then "--" else [c]
  {
    var one := [c];
    assert one[1..] == [] && Double([]) == [];
    if c == '-' {
      assert "--" + [] == "--";
    } else {
      assert one + [] == one;
    }
  }

  lemma DoubleHead(v: string)
    requires v != []
    ensures Double(v) == Double([v[0]]) + Double(v[1..])
  {
    DoubleOne(v[0]);
  }

  lemma UnpackOne(c: char, u: string, token: string)
    ensures Unpack(Double([c]) + u, token, false) == Unpack(u, token + [c], false)
  {
    DoubleOne(c);
    if c == '-' {
      assert ("--" + u)[1..] == "-" + u && ("-" + u)[1..] == u;
    } else {
      assert ([c] + u)[1..] == u;
    }
  }

  lemma UnpackAfterDash(c: char, t: string, token: string)
    requires c != '-'
    ensures Unpack("-" + ([c] + t), token, false) == [token] + Unpack(t, [c], false)
  {
    assert ("-" + ([c] + t))[1..] == [c] + t && ([c] + t)[1..] == t;
  }

  lemma UnpackNext(v: string, rest: string, token: string)
    requires v != [] && v[0] != '-'
    ensures Unpack("-" + (Double(v) + rest), token, false) == [token] + Unpack(rest, v, false)
  {
    var t := Double(v[1..]) + rest;
    assert Double(v) == [v[0]] + Double(v[1..]);
    assert ([v[0]] + Double(v[1..])) + rest == [v[0]] + t;
    UnpackAfterDash(v[0], t, token);
    UnpackDoubled(v[1..], rest, [v[0]]);
    assert [v[0]] + v[1..] == v;
  }

  lemma {:induction false} UnpackRest(vals: seq<string>, token: string)
    requires forall v :: v in vals ==> Packable(v)
    ensures Unpack(PackRest(vals), token, false) == [token] + vals
    decreases |vals|
  {
    if vals != [] {
      assert vals[0] in vals;
      UnpackNext(vals[0], PackRest(vals[1..]), token);
      UnpackRest(vals[1..], vals[0]);
      assert [token] + ([vals[0]] + vals[1..]) == [token] + vals;
    }
  }

  /** Unpacking a packed list gives it back. */
  lemma PackThenExtract(vals: seq<string>)
    requires vals != [] && forall v :: v in vals ==> Packable(v)
    ensures Unpack(PackText(vals), "", false) == vals
  {
    assert vals[0] in vals && "" + vals[0] == vals[0];
    UnpackDoubled(vals[0], PackRest(vals[1..]), "");
    UnpackRest(vals[1..], vals[0]);
    assert [vals[0]] + vals[1..] == vals;
  }

  /** Hence packing is one-to-one on the lists it accepts. */
  lemma PackIsInjective(a: seq<string>, b: seq<string>)
    requires a != [] && forall v :: v in a ==> Packable(v)
    requires b != [] && forall v :: v in b ==> Packable(v)
    ensures PackText(a) == PackText(b) <==> a == b
  {
    PackThenExtract(a);
    PackThenExtract(b);
  }

  /** An upper-case letter has its lower-case one at the same place of the alphabet; others stay. */
  predicate LowerOf(c: char, d: char) {
    if 'A' <= c <= 'Z' then 'a' <= d <= 'z' && d - 'a' == c - 'A' else d == c
  }

  /** strings.ToLower on the letters that a kind is made of. */
  function ToLower(s: string): (r: string)
    ensures |r| == |s|
    ensures forall i :: 0 <= i < |s| ==> LowerOf(s[i], r[i])
  {
    if s == [] then []
    else [if 'A' <= s[0] <= 'Z' then (s[0] as int + 32) as char else s[0]] + ToLower(s[1..])
  }

  /** What KeyForMutatorID packs. */
  function NameParts(pod: string, kind: string, name: string): seq<string> {
    [pod, ToLower(kind), name]
  }

  /** Two status names are equal exactly if the pods, the mutators and, up to case, the kinds are. */
  lemma StatusNamesAreUnique(pod: string, kind: string, name: string, pod': string, kind': string, name': string)
    requires Packable(pod) && Packable(ToLower(kind)) && Packable(name)
    requires Packable(pod') && Packable(ToLower(kind')) && Packable(name')
    ensures PackText(NameParts(pod, kind, name)) == PackText(NameParts(pod', kind', name'))
       <==> pod == pod' && ToLower(kind) == ToLower(kind') && name == name'
  {
    var a, b := NameParts(pod, kind, name), NameParts(pod', kind', name');
    PackIsInjective(a, b);
    if a == b {
      assert a[0] == b[0] && a[1] == b[1] && a[2] == b[2];
    }
  }

  /** Unpacking a status name gives the pod, the kind in lower case and the name of the mutator, in this order. */
  lemma StatusNameParts(pod: string, kind: string, name: string)
    requires Packable(pod) && Packable(ToLower(kind)) && Packable(name)
    ensures Unpack(PackText(NameParts(pod, kind, name)), "", false) == [pod, ToLower(kind), name]
  {
    PackThenExtract(NameParts(pod, kind, name));
  }

  lemma {:induction false} NoDashesToDouble(s: string)
    requires '-' !in s
    ensures Double(s) == s
  {
    if s != [] {
      NoDashesToDouble(s[1..]);
      assert s == [s[0]] + s[1..];
    }
  }

  lemma PackThree(a: string, b: string, c: string)
    ensures PackText([a, b, c]) == Double(a) + ("-" + (Double(b) + ("-" + Double(c))))
  {
    assert [a, b, c][1..] == [b, c] && [b, c][1..] == [c];
    assert PackRest([c]) == "-" + (Double(c) + []) && Double(c) + [] == Double(c);
  }

  /** Without dashes in them, the parts of a status name are joined by single ones. */
  lemma PlainStatusName(pod: string, kind: string, name: string)
    requires '-' !in pod && '-' !in ToLower(kind) && '-' !in name
    ensures PackText(NameParts(pod, kind, name)) == pod + ("-" + (ToLower(kind) + ("-" + name)))
  {
    NoDashesToDouble(pod);
    NoDashesToDouble(ToLower(kind));
    NoDashesToDouble(name);
    PackThree(pod, ToLower(kind), name);
  }
}
