/**
 * What a mutation does, said without the update: which values it goes through, where it fails, when
 * it changes something, and which values stand at its location before and afterwards. The path
 * tests and the value test are spelled out.
 */
module EngineMeaning {
  import opened Types
  import opened PathAst
  import opened Json
  import opened Engine

  /** The path test at d lets the update go on from something that exists, or does not. */
  ghost predicate TestsAllow(m: Mutation, d: nat, exists': bool) {
    d in m.tests ==> m.tests[d] == if exists' then MustExist else MustNotExist
  }

  /** The value test keeps x: it is not among the values of In, or it is among those of NotIn. */
  ghost predicate Keeps(m: Mutation, x: Json) {
    m.valueTest.Some? && var t := m.valueTest.value; (t.isIn != [] && x !in t.isIn) || x in t.notIn
  }

  /** The value test does not let a missing value be set: In asks for one. */
  ghost predicate WantsValue(m: Mutation) {
    m.valueTest.Some? && m.valueTest.value.isIn != []
  }

  /** The key of a list, as a value. */
  ghost function KeyValueOf(key: KeyValue): Json {
    if key.StrKey? then Str(key.str) else if key.IntKey? then Int(key.num) else Null
  }

  /** The element has, in the key field of the list node, the node's key. */
  ghost predicate Carries(node: Node, e: Json)
    requires node.List?
  {
    e.Obj? && node.keyField in e.fields && e.fields[node.keyField] == KeyValueOf(node.keyValue)
  }

  lemma CarriesIff(node: Node, e: Json)
    requires node.List?
    ensures Carries(node, e) <==> HasKey(node, e)
  {
  }

  ghost predicate SomeWithKey(node: Node, elems: seq<Json>)
    requires node.List?
  {
    exists e :: e in elems && Carries(node, e)
  }

  /***** What is refused beforehand *****/

  /** A location is refused iff it is empty or ends in the key field of a list element. */
  lemma RefusedLocations(path: Path)
    requires ParserShaped(path)
    ensures !KeyNotChanged(path) <==>
            path == [] || (|path| >= 2 && exists k, key, glob :: path[|path| - 2..] == [List(k, key, glob), Object(k)])
  {
    if |path| >= 2 && path[|path| - 2].List? {
      var list := path[|path| - 2];
      assert path[|path| - 1].List? ==> list.Object?;
      assert path[|path| - 2..] == [list, path[|path| - 1]];
      assert list == List(list.keyField, list.keyValue, list.glob);
    }
  }

  /** A list element is assigned only an object with the list's key, and not by a glob. */
  lemma RefusedValues(path: Path, value: Json)
    ensures ListValueOk(path, value) <==>
            && path != []
            && forall k, key, glob :: path[|path| - 1] == List(k, key, glob) ==>
                 && !glob && !key.NoKey?
                 && value.Obj? && k in value.fields && value.fields[k] == KeyValueOf(key)
  {
    if path != [] && path[|path| - 1].List? {
      var list := path[|path| - 1];
      assert list == List(list.keyField, list.keyValue, list.glob);
      CarriesIff(list, value);
    }
  }

  /***** The end of the path *****/

  /** At the last field: what is kept by a test stays, and everything else becomes the value. */
  lemma LastFieldIsExact(m: Mutation, v: Json, d: nat)
    requires d + 1 == |m.path| && m.path[d].Object?
    ensures Update(m, v, d).Error? <==> !v.Obj?
    ensures v.Obj? ==> var name := m.path[d].reference;
      Update(m, v, d) ==
      if (if name in v.fields then TestsAllow(m, d, true) && !Keeps(m, v.fields[name])
          else TestsAllow(m, d, false) && !WantsValue(m))
      then Changed(Obj(v.fields[name := m.value])) else Unchanged
  {
  }

  /** Number i is the first element that has the key or is no object. */
  ghost predicate FirstAt(node: Node, elems: seq<Json>, i: nat)
    requires node.List?
  {
    && i < |elems| && (Carries(node, elems[i]) || !elems[i].Obj?)
    && forall k :: 0 <= k < i ==> elems[k].Obj? && !Carries(node, elems[k])
  }

  /** At the last list: the first element with the key is replaced, or the value is appended if there is none. */
  lemma LastListIsExact(m: Mutation, elems: seq<Json>, d: nat)
    requires WellFormed(m) && d + 1 == |m.path| && m.path[d].List?
    ensures forall i: nat :: FirstAt(m.path[d], elems, i) ==>
      Update(m, Arr(elems), d) ==
      if !elems[i].Obj? then Error else if TestsAllow(m, d, true) then Changed(Arr(elems[i := m.value])) else Unchanged
    ensures (forall i: nat :: !FirstAt(m.path[d], elems, i)) ==>
      Update(m, Arr(elems), d) == if TestsAllow(m, d, false) then Changed(Arr(elems + [m.value])) else Unchanged
  {
    var node := m.path[d];
    assert node in m.path;
    forall i: nat | FirstAt(node, elems, i)
      ensures Update(m, Arr(elems), d) ==
        if !elems[i].Obj? then Error
        else if TestsAllow(m, d, true) then Changed(Arr(elems[i := m.value])) else Unchanged
    {
      if elems[i].Obj? {
        FoundAt(node, elems, i, 0);
      } else {
        StoppedAt(node, elems, i, 0);
        assert elems[i] in elems;
      }
    }
    if forall i: nat :: !FirstAt(node, elems, i) {
      NoFirst(node, elems, 0);
    }
  }

  lemma StoppedAt(node: Node, elems: seq<Json>, i: nat, from: nat)
    requires node.List? && from <= i < |elems| && !elems[i].Obj?
    requires forall k :: from <= k < i ==> elems[k].Obj? && !Carries(node, elems[k])
    ensures FindKey(node, elems, from).None?
    decreases i - from
  {
  }

  /** If nothing stops the search, all are objects and none has the key. */
  lemma {:induction false} NoFirst(node: Node, elems: seq<Json>, n: nat)
    requires node.List? && n <= |elems| && forall i: nat :: !FirstAt(node, elems, i)
    requires forall k :: 0 <= k < n ==> elems[k].Obj? && !Carries(node, elems[k])
    ensures FindKey(node, elems, 0).None? && forall e :: e in elems ==> e.Obj? && !Carries(node, e)
    decreases |elems| - n
  {
    if n < |elems| {
      assert !FirstAt(node, elems, n);
      NoFirst(node, elems, n + 1);
    }
  }

  /***** Where the update goes *****/

  /** A new value for what is missing at d: an empty object or list, or an object with the list's key. */
  ghost function New(m: Mutation, d: nat): Json
    requires d + 1 < |m.path|
  {
    match m.path[d]
    case Object(_) => if m.path[d + 1].Object? then Obj(map[]) else Arr([])
    case List(k, key, _) => Obj(map[k := KeyValueOf(key)])
  }

  /** From v at d the update goes on to w: into what is there, if that may be, or into something new. */
  ghost predicate Goes(m: Mutation, d: nat, v: Json, w: Json)
    requires d + 1 < |m.path|
  {
    match m.path[d]
    case Object(name) =>
      v.Obj? && if name in v.fields then TestsAllow(m, d, true) && w == v.fields[name]
                else TestsAllow(m, d, false) && w == New(m, d)
    case List(_, _, glob) =>
      v.Arr? && if glob || SomeWithKey(m.path[d], v.elems)
                then TestsAllow(m, d, true) && w in v.elems && (glob || Carries(m.path[d], w))
                else TestsAllow(m, d, false) && w == New(m, d)
  }

  /** From v at d, the update gets to w at k. */
  ghost predicate Reaches(m: Mutation, d: nat, v: Json, k: nat, w: Json)
    requires d <= k < |m.path|
    decreases k - d
  {
    if d == k then v == w else exists u :: Goes(m, d, v, u) && Reaches(m, d + 1, u, k, w)
  }

  /** The value does not have the type that the path asks for at k. */
  ghost predicate Mismatch(m: Mutation, k: nat, w: Json)
    requires k < |m.path|
  {
    if m.path[k].Object? then !w.Obj?
    else !w.Arr? || (k + 1 == |m.path| && exists i: nat :: FirstAt(m.path[k], w.elems, i) && !w.elems[i].Obj?)
  }

  /** At the end of the path: the tests let w be changed. */
  ghost predicate Writes(m: Mutation, w: Json)
    requires m.path != []
  {
    var d := |m.path| - 1;
    match m.path[d]
    case Object(name) =>
      w.Obj? && if name in w.fields then TestsAllow(m, d, true) && !Keeps(m, w.fields[name])
                else TestsAllow(m, d, false) && !WantsValue(m)
    case List(_, _, _) =>
      w.Arr? && TestsAllow(m, d, exists i: nat :: FirstAt(m.path[d], w.elems, i))
  }

  ghost predicate Fails(m: Mutation, d: nat, v: Json)
    requires d < |m.path|
  {
    exists k, w :: d <= k < |m.path| && Reaches(m, d, v, k, w) && Mismatch(m, k, w)
  }

  ghost predicate Hits(m: Mutation, d: nat, v: Json)
    requires d < |m.path|
  {
    exists w :: Reaches(m, d, v, |m.path| - 1, w) && Writes(m, w)
  }

  /** A value fails by itself, or because something that the update goes on to fails. */
  lemma FailsStep(m: Mutation, d: nat, v: Json)
    requires d + 1 < |m.path|
    ensures Fails(m, d, v) <==> Mismatch(m, d, v) || exists u :: Goes(m, d, v, u) && Fails(m, d + 1, u)
  {
    if Mismatch(m, d, v) {
      assert Reaches(m, d, v, d, v);
    }
    if u :| Goes(m, d, v, u) && Fails(m, d + 1, u) {
      var k, w :| d + 1 <= k < |m.path| && Reaches(m, d + 1, u, k, w) && Mismatch(m, k, w);
      assert Reaches(m, d, v, k, w);
    }
    if Fails(m, d, v) {
      var k, w :| d <= k < |m.path| && Reaches(m, d, v, k, w) && Mismatch(m, k, w);
      if k > d {
        var u :| Goes(m, d, v, u) && Reaches(m, d + 1, u, k, w);
        assert Fails(m, d + 1, u);
      }
    }
  }

  lemma HitsStep(m: Mutation, d: nat, v: Json)
    requires d + 1 < |m.path|
    ensures Hits(m, d, v) <==> exists u :: Goes(m, d, v, u) && Hits(m, d + 1, u)
  {
    var n := |m.path| - 1;
    if u :| Goes(m, d, v, u) && Hits(m, d + 1, u) {
      var w :| Reaches(m, d + 1, u, n, w) && Writes(m, w);
      assert Reaches(m, d, v, n, w);
    }
    if Hits(m, d, v) {
      var w :| Reaches(m, d, v, n, w) && Writes(m, w);
      var u :| Goes(m, d, v, u) && Reaches(m, d + 1, u, n, w);
      assert Hits(m, d + 1, u);
    }
  }

  /** The update fails iff it meets a value of the wrong type, and changes something iff it may change what it meets. */
  ghost predicate Exact(m: Mutation, d: nat, v: Json)
    requires d < |m.path|
  {
    && (Update(m, v, d).Error? <==> Fails(m, d, v))
    && (!Fails(m, d, v) ==> (Update(m, v, d).Changed? <==> Hits(m, d, v)))
  }

  lemma ExactAtEnd(m: Mutation, d: nat, v: Json)
    requires WellFormed(m) && d + 1 == |m.path|
    ensures Exact(m, d, v)
  {
    assert Fails(m, d, v) <==> Mismatch(m, d, v) by {
      assert Reaches(m, d, v, d, v);
    }
    assert Hits(m, d, v) <==> Writes(m, v) by {
      assert Reaches(m, d, v, d, v);
    }
    if m.path[d].List? && v.Arr? {
      LastListIsExact(m, v.elems, d);
      forall i: nat, j: nat | FirstAt(m.path[d], v.elems, i) && FirstAt(m.path[d], v.elems, j) ensures i == j {
      }
    }
  }

  lemma NewIsCreated(m: Mutation, d: nat)
    requires WellFormed(m) && d + 1 < |m.path| && !(m.path[d].List? && m.path[d].glob)
    ensures CreateMissing(m, d) == Some(New(m, d))
  {
    if m.path[d].List? {
      ListIsBetweenObjects(m, d);
    }
  }

  lemma {:induction false} UpdateIsExact(m: Mutation, v: Json, d: nat)
    requires WellFormed(m) && d < |m.path|
    ensures Update(m, v, d).Error? <==> Fails(m, d, v)
    ensures !Fails(m, d, v) ==> (Update(m, v, d).Changed? <==> Hits(m, d, v))
    decreases |m.path| - d, 1
  {
    if d + 1 == |m.path| {
      ExactAtEnd(m, d, v);
    } else {
      FailsStep(m, d, v);
      HitsStep(m, d, v);
      if m.path[d].Object? {
        ExactInField(m, d, v);
      } else if v.Arr? {
        if m.path[d].glob || SomeWithKey(m.path[d], v.elems) {
          ExactInElems(m, d, v.elems);
        } else {
          NewIsCreated(m, d);
          UpdateIsExact(m, New(m, d), d + 1);
          assert TestsAllow(m, d, false) ==> Goes(m, d, v, New(m, d));
        }
      }
    }
  }

  lemma {:induction false} ExactInField(m: Mutation, d: nat, v: Json)
    requires WellFormed(m) && d + 1 < |m.path| && m.path[d].Object?
    requires Fails(m, d, v) <==> Mismatch(m, d, v) || exists u :: Goes(m, d, v, u) && Fails(m, d + 1, u)
    requires Hits(m, d, v) <==> exists u :: Goes(m, d, v, u) && Hits(m, d + 1, u)
    ensures Exact(m, d, v)
    decreases |m.path| - d, 0
  {
    if v.Obj? {
      NewIsCreated(m, d);
      var name := m.path[d].reference;
      var u := if name in v.fields then v.fields[name] else New(m, d);
      UpdateIsExact(m, u, d + 1);
      assert Goes(m, d, v, u) <==> TestsAllow(m, d, name in v.fields);
      assert forall w :: Goes(m, d, v, w) ==> w == u;
    }
  }

  lemma {:induction false} ExactInElems(m: Mutation, d: nat, elems: seq<Json>)
    requires WellFormed(m) && d + 1 < |m.path| && m.path[d].List?
    requires m.path[d].glob || SomeWithKey(m.path[d], elems)
    requires var v := Arr(elems);
      && (Fails(m, d, v) <==> Mismatch(m, d, v) || exists u :: Goes(m, d, v, u) && Fails(m, d + 1, u))
      && (Hits(m, d, v) <==> exists u :: Goes(m, d, v, u) && Hits(m, d + 1, u))
    ensures Exact(m, d, Arr(elems))
    decreases |m.path| - d, 0
  {
    var v := Arr(elems);
    if TestsAllow(m, d, true) {
      ElemsPointwise(m, elems, d);
      forall i | 0 <= i < |elems|
        ensures UpdateElem(m, elems[i], d).Error? <==> Goes(m, d, v, elems[i]) && Fails(m, d + 1, elems[i])
        ensures !Fails(m, d + 1, elems[i]) ==>
                (UpdateElem(m, elems[i], d).Changed? <==> Goes(m, d, v, elems[i]) && Hits(m, d + 1, elems[i]))
      {
        UpdateIsExact(m, elems[i], d + 1);
      }
      forall u | Goes(m, d, v, u) ensures exists i :: 0 <= i < |elems| && elems[i] == u {
      }
    }
  }

  /***** The values at the location *****/

  /** x stands at the end of the path in v, in one of the elements if lists are passed. */
  ghost predicate IsAt(path: Path, d: nat, v: Json, x: Json)
    decreases |path| - d
  {
    if d >= |path| then v == x
    else match path[d]
      case Object(name) => v.Obj? && name in v.fields && IsAt(path, d + 1, v.fields[name], x)
      case List(_, _, glob) =>
        v.Arr? && exists i :: 0 <= i < |v.elems| && (glob || Carries(path[d], v.elems[i])) &&
                              IsAt(path, d + 1, v.elems[i], x)
  }

  /** What is there after a run that does not fail. */
  ghost function Result(m: Mutation, v: Json, d: nat): Json
    requires d < |m.path|
  {
    if Update(m, v, d).Changed? then Update(m, v, d).value else v
  }

  /** An update that changes something leaves the assigned value at the location. */
  lemma {:induction false} ValueIsAssigned(m: Mutation, v: Json, d: nat)
    requires WellFormed(m) && d < |m.path| && Update(m, v, d).Changed?
    ensures IsAt(m.path, d, Update(m, v, d).value, m.value)
    decreases |m.path| - d
  {
    var node := m.path[d];
    var r := Update(m, v, d).value;
    if node.Object? {
      if d + 1 < |m.path| {
        ValueIsAssigned(m, if node.reference in v.fields then v.fields[node.reference] else New(m, d), d + 1);
      }
    } else if d + 1 == |m.path| {
      var i := if FindKey(node, v.elems, 0).Some? then FindKey(node, v.elems, 0).value else |v.elems|;
      assert r.elems[i] == m.value && Carries(node, m.value);
    } else if node.glob || SomeWithKey(node, v.elems) {
      ElemsPointwise(m, v.elems, d);
      var i :| 0 <= i < |v.elems| && UpdateElem(m, v.elems[i], d).Changed?;
      ValueIsAssigned(m, v.elems[i], d + 1);
      if !node.glob { KeepsKey(m, v.elems[i], d); }
      assert r.elems[i] == After(m, v.elems[i], d);
    } else {
      NewIsCreated(m, d);
      ValueIsAssigned(m, New(m, d), d + 1);
      KeepsKey(m, New(m, d), d);
      assert r.elems[|v.elems|] == Update(m, New(m, d), d + 1).value;
    }
  }

  /** Some path test from d on asks for something that is not there. */
  ghost predicate AsksForMissing(m: Mutation, d: nat) {
    exists k :: d <= k < |m.path| && k in m.tests && m.tests[k] == MustNotExist
  }

  /**
   * Every other value at the location was there before, and stayed because the value test keeps it or a
   * path test asks for something missing.
   */
  lemma {:induction false} OthersWereKept(m: Mutation, v: Json, d: nat, x: Json)
    requires WellFormed(m) && d < |m.path| && m.path[|m.path| - 1].Object? && !Update(m, v, d).Error?
    requires IsAt(m.path, d, Result(m, v, d), x) && x != m.value
    ensures IsAt(m.path, d, v, x) && (Keeps(m, x) || AsksForMissing(m, d))
    decreases |m.path| - d, 1
  {
    var node := m.path[d];
    if node.Object? {
      OthersInField(m, v, d, x);
    } else if node.glob || SomeWithKey(node, v.elems) {
      if m.ExistsOkay(d) {
        OthersInElems(m, v.elems, d, x);
      }
    } else if Update(m, v, d).Changed? {
      NewIsCreated(m, d);
      ListIsBetweenObjects(m, d);
      var r := Update(m, v, d).value.elems;
      var i :| 0 <= i < |r| && Carries(node, r[i]) && IsAt(m.path, d + 1, r[i], x);
      OthersWereKept(m, New(m, d), d + 1, x);
      NothingInNew(m, d, x);
    }
  }

  /** There is nothing at the location in a value that was just created. */
  lemma NothingInNew(m: Mutation, d: nat, x: Json)
    requires WellFormed(m) && d + 1 < |m.path| && m.path[|m.path| - 1].Object?
    requires IsAt(m.path, d + 1, New(m, d), x)
    ensures m.path[d].List? && m.path[d + 1] == Object(m.path[d].keyField) && d + 2 < |m.path|
    ensures IsAt(m.path, d + 2, KeyValueOf(m.path[d].keyValue), x)
  {
    if m.path[d].List? { ListIsBetweenObjects(m, d); }
  }

  lemma {:induction false} OthersInField(m: Mutation, v: Json, d: nat, x: Json)
    requires WellFormed(m) && d < |m.path| && m.path[|m.path| - 1].Object? && !Update(m, v, d).Error?
    requires IsAt(m.path, d, Result(m, v, d), x) && x != m.value && m.path[d].Object?
    ensures IsAt(m.path, d, v, x) && (Keeps(m, x) || AsksForMissing(m, d))
    decreases |m.path| - d, 0
  {
    var name := m.path[d].reference;
    if d + 1 < |m.path| && (if name in v.fields then m.ExistsOkay(d) else m.MissingOkay(d)) {
      NewIsCreated(m, d);
      var u := if name in v.fields then v.fields[name] else New(m, d);
      if name in v.fields || Update(m, v, d).Changed? {
        OthersWereKept(m, u, d + 1, x);
        if name !in v.fields { NothingInNew(m, d, x); }
      }
    }
  }

  lemma {:induction false} OthersInElems(m: Mutation, elems: seq<Json>, d: nat, x: Json)
    requires WellFormed(m) && d + 1 < |m.path| && m.path[|m.path| - 1].Object? && m.path[d].List?
    requires m.ExistsOkay(d) && (m.path[d].glob || SomeWithKey(m.path[d], elems)) && !Update(m, Arr(elems), d).Error?
    requires IsAt(m.path, d, Result(m, Arr(elems), d), x) && x != m.value
    ensures IsAt(m.path, d, Arr(elems), x) && (Keeps(m, x) || AsksForMissing(m, d))
    decreases |m.path| - d, 0
  {
    var r := Result(m, Arr(elems), d).elems;
    ElemsPointwise(m, elems, d);
    var i :| 0 <= i < |r| && Selects(m.path[d], r[i]) && IsAt(m.path, d + 1, r[i], x);
    assert r[i] == After(m, elems[i], d);
    assert Selects(m.path[d], elems[i]);
    OthersWereKept(m, elems[i], d + 1, x);
  }

  /** A value that the value test keeps is still there after every run that does not fail. */
  lemma {:induction false} KeptStays(m: Mutation, v: Json, d: nat, x: Json)
    requires WellFormed(m) && d < |m.path| && m.path[|m.path| - 1].Object? && !Update(m, v, d).Error?
    requires IsAt(m.path, d, v, x) && Keeps(m, x)
    ensures IsAt(m.path, d, Result(m, v, d), x)
    decreases |m.path| - d, 1
  {
    if m.path[d].Object? {
      if d + 1 < |m.path| && m.ExistsOkay(d) {
        KeptStays(m, v.fields[m.path[d].reference], d + 1, x);
      }
    } else {
      var node := m.path[d];
      var i :| 0 <= i < |v.elems| && (node.glob || Carries(node, v.elems[i])) && IsAt(m.path, d + 1, v.elems[i], x);
      CarriesIff(node, v.elems[i]);
      assert v.elems[i] in v.elems;
      if m.ExistsOkay(d) { KeptInElem(m, v.elems, d, x, i); }
    }
  }

  lemma {:induction false} KeptInElem(m: Mutation, elems: seq<Json>, d: nat, x: Json, i: nat)
    requires WellFormed(m) && d + 1 < |m.path| && m.path[|m.path| - 1].Object? && m.path[d].List?
    requires !Update(m, Arr(elems), d).Error? && m.ExistsOkay(d) && Keeps(m, x)
    requires i < |elems| && Selects(m.path[d], elems[i]) && IsAt(m.path, d + 1, elems[i], x)
    ensures IsAt(m.path, d, Result(m, Arr(elems), d), x)
    decreases |m.path| - d, 0
  {
    assert elems[i] in elems;
    ElemsPointwise(m, elems, d);
    KeptStays(m, elems[i], d + 1, x);
    if UpdateElem(m, elems[i], d).Changed? && !m.path[d].glob { KeepsKey(m, elems[i], d); }
    var r := Result(m, Arr(elems), d).elems;
    assert r[i] == After(m, elems[i], d) == Result(m, elems[i], d + 1);
    assert m.path[d].glob || Carries(m.path[d], r[i]);
  }
}
