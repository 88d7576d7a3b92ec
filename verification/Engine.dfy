/** JSON values, as Go's encoding/json and Kubernetes' unstructured objects hold them. */
module Json {
  datatype Json =
    | Null
    | Bool(bool)
    | Int(int)
    | Float(real)
    | Str(string)
    | Obj(fields: map<string, Json>)
    | Arr(elems: seq<Json>)
}

/** A mutation of one location, and what it does to a JSON value. */
module Engine {
  import opened Types
  import opened PathAst
  import opened Json

  datatype Condition = MustExist | MustNotExist

  /** The In and NotIn lists of an Assign. */
  datatype ValueTest = ValueTest(isIn: seq<Json>, notIn: seq<Json>)

  datatype Mutation = Mutation(path: Path, value: Json, tests: map<nat, Condition>, valueTest: Option<ValueTest>)
  {
    predicate ExistsOkay(depth: nat) {
      depth in tests ==> tests[depth].MustExist?
    }

    predicate MissingOkay(depth: nat) {
      depth in tests ==> tests[depth].MustNotExist?
    }

    /** AssignMutator.testValue; None stands for the nil test of AssignMetadata. */
    predicate TestValue(v: Option<Json>) {
      match valueTest
      case None => true
      case Some(t) =>
        && (t.isIn != [] ==> v.Some? && v.value in t.isIn)
        && (v.Some? ==> v.value !in t.notIn)
    }
  }

  /** A list key compared to an element's field; the nil key is equal to null. */
  function KeyJson(k: KeyValue): Json {
    match k
    case NoKey => Null
    case StrKey(s) => Str(s)
    case IntKey(n) => Int(n)
  }

  function Field(v: Json, name: string): Option<Json> {
    if v.Obj? && name in v.fields then Some(v.fields[name]) else None
  }

  /** The element carries the key of the list node. */
  predicate HasKey(node: Node, v: Json)
    requires node.List?
  {
    Field(v, node.keyField) == Some(KeyJson(node.keyValue))
  }

  predicate Selects(node: Node, v: Json)
    requires node.List?
  {
    node.glob || HasKey(node, v)
  }

  /***** The pure update *****/

  /** What a mutation makes of a value: an error, the same value, or a new one. */
  datatype Change = Error | Unchanged | Changed(value: Json)

  datatype ElemsChange = ElemsError | Elems(elems: seq<Json>, changed: bool)

  /** A new value for a missing element: empty, but with its key if it is a list element. */
  function CreateMissing(m: Mutation, depth: nat): Option<Json>
    requires depth + 1 < |m.path|
  {
    var node := m.path[depth];
    if node.Object? then
      Some(if m.path[depth + 1].Object? then Obj(map[]) else Arr([]))
    else if m.path[depth + 1].List? || node.keyValue.NoKey? then None
    else Some(Obj(map[node.keyField := KeyJson(node.keyValue)]))
  }

  function Update(m: Mutation, current: Json, depth: nat): Change
    requires depth < |m.path|
    decreases |m.path| - depth, 0
  {
    match m.path[depth]
    case Object(name) =>
      if !current.Obj? then Error
      else
        var next := Field(current, name);
        if !(if next.Some? then m.ExistsOkay(depth) else m.MissingOkay(depth)) then Unchanged
        else if depth + 1 == |m.path| then
          if m.TestValue(next) then Changed(Obj(current.fields[name := m.value])) else Unchanged
        else
          var child := if next.Some? then next else CreateMissing(m, depth);
          if child.None? then Error
          else
            var r := Update(m, child.value, depth + 1);
            if r.Changed? then Changed(Obj(current.fields[name := r.value])) else r
    case List(_, _, glob) =>
      if !current.Arr? then Error
      else if depth + 1 == |m.path| then SetElement(m, current.elems, depth)
      else if glob && !m.ExistsOkay(depth) then Unchanged
      else if glob || exists e :: e in current.elems && HasKey(m.path[depth], e) then
        if !m.ExistsOkay(depth) then Unchanged
        else
          var r := UpdateElems(m, current.elems, depth);
          if r.ElemsError? then Error else if r.changed then Changed(Arr(r.elems)) else Unchanged
      else if !m.MissingOkay(depth) then Unchanged
      else
        var child := CreateMissing(m, depth);
        if child.None? then Error
        else
          var r := Update(m, child.value, depth + 1);
          if r.Changed? then Changed(Arr(current.elems + [r.value])) else r
  }

  function UpdateElem(m: Mutation, e: Json, depth: nat): Change
    requires depth + 1 < |m.path| && m.path[depth].List?
    decreases |m.path| - depth - 1, 1
  {
    if Selects(m.path[depth], e) then Update(m, e, depth + 1) else Unchanged
  }

  /** The selected elements updated in order. */
  function UpdateElems(m: Mutation, elems: seq<Json>, depth: nat): (r: ElemsChange)
    requires depth + 1 < |m.path| && m.path[depth].List?
    ensures r.Elems? ==> |r.elems| == |elems|
    decreases |m.path| - depth - 1, 2, |elems|
  {
    if elems == [] then Elems([], false)
    else
      var head := UpdateElem(m, elems[0], depth);
      var tail := UpdateElems(m, elems[1..], depth);
      if head.Error? || tail.ElemsError? then ElemsError
      else if head.Changed? then Elems([head.value] + tail.elems, true)
      else Elems([elems[0]] + tail.elems, tail.changed)
  }

  /** The first element with the key of node, if no element before it is not an object. */
  function FindKey(node: Node, elems: seq<Json>, from: nat): (r: Option<nat>)
    requires node.List? && from <= |elems|
    ensures r.Some? ==> from <= r.value < |elems| && HasKey(node, elems[r.value])
    ensures r.Some? ==> forall i :: from <= i < r.value ==> elems[i].Obj? && !HasKey(node, elems[i])
    ensures r.None? && (forall i :: from <= i < |elems| ==> elems[i].Obj?) ==>
              forall i :: from <= i < |elems| ==> !HasKey(node, elems[i])
    decreases |elems| - from
  {
    if from == |elems| || !elems[from].Obj? then None
    else if HasKey(node, elems[from]) then Some(from)
    else FindKey(node, elems, from + 1)
  }

  function SetElement(m: Mutation, elems: seq<Json>, depth: nat): Change
    requires depth + 1 == |m.path| && m.path[depth].List?
  {
    var node := m.path[depth];
    if node.glob || !m.value.Obj? || node.keyValue.NoKey? then Error
    else match FindKey(node, elems, 0)
      case Some(i) =>
        if !HasKey(node, m.value) then Error
        else if !m.ExistsOkay(depth) then Unchanged
        else Changed(Arr(elems[i := m.value]))
      case None =>
        if exists e :: e in elems && !e.Obj? then Error
        else if !m.MissingOkay(depth) then Unchanged
        else Changed(Arr(elems + [m.value]))
  }

  /***** Well-formed Assign mutations *****/

  /** checkKeyNotChanged: the location is not the key of a list element. */
  predicate KeyNotChanged(path: Path) {
    && path != []
    && (|path| >= 2 && path[|path| - 2].List? ==>
          && path[|path| - 1].Object?
          && path[|path| - 1].reference != path[|path| - 2].keyField)
  }

  /** validateObjectAssignedToList: a list element is assigned an object carrying the list's key. */
  predicate ListValueOk(path: Path, value: Json) {
    && path != []
    && (path[|path| - 1].List? ==>
          && !path[|path| - 1].glob
          && !path[|path| - 1].keyValue.NoKey?
          && HasKey(path[|path| - 1], value))
  }

  ghost predicate WellFormed(m: Mutation) {
    ParserShaped(m.path) && KeyNotChanged(m.path) && ListValueOk(m.path, m.value)
  }

  lemma ListIsBetweenObjects(m: Mutation, depth: nat)
    requires WellFormed(m) && depth + 1 < |m.path| && m.path[depth].List?
    ensures m.path[depth + 1].Object? && ListShaped(m.path[depth])
  {
    assert m.path[depth] in m.path;
  }

  /** An update below a keyed list element leaves the key alone. */
  lemma KeepsKey(m: Mutation, e: Json, depth: nat)
    requires WellFormed(m) && depth + 1 < |m.path| && m.path[depth].List? && !m.path[depth].glob
    requires HasKey(m.path[depth], e) && Update(m, e, depth + 1).Changed?
    ensures HasKey(m.path[depth], Update(m, e, depth + 1).value)
  {
    ListIsBetweenObjects(m, depth);
  }

  /***** Lists, element by element *****/

  /** The element that replaces e. */
  ghost function After(m: Mutation, e: Json, depth: nat): Json
    requires depth + 1 < |m.path| && m.path[depth].List?
  {
    if UpdateElem(m, e, depth).Changed? then UpdateElem(m, e, depth).value else e
  }

  lemma {:induction false} ElemsPointwise(m: Mutation, elems: seq<Json>, depth: nat)
    requires depth + 1 < |m.path| && m.path[depth].List?
    ensures var r := UpdateElems(m, elems, depth);
            && (r.ElemsError? <==> exists i :: 0 <= i < |elems| && UpdateElem(m, elems[i], depth).Error?)
            && (r.Elems? ==> forall i :: 0 <= i < |elems| ==> r.elems[i] == After(m, elems[i], depth))
            && (r.Elems? ==> (r.changed <==> exists i :: 0 <= i < |elems| && UpdateElem(m, elems[i], depth).Changed?))
    decreases |elems|
  {
    if elems != [] {
      var tail := elems[1..];
      ElemsPointwise(m, tail, depth);
      assert forall i :: 0 <= i < |tail| ==> tail[i] == elems[i + 1];
      if i :| 0 <= i < |tail| && UpdateElem(m, tail[i], depth).Error? {
        assert UpdateElem(m, elems[i + 1], depth).Error?;
      }
      if i :| 0 <= i < |tail| && UpdateElem(m, tail[i], depth).Changed? {
        assert UpdateElem(m, elems[i + 1], depth).Changed?;
      }
      assert forall i :: 0 < i < |elems| ==> elems[i] == tail[i - 1];
    }
  }

  ghost predicate ElemStable(m: Mutation, e: Json, depth: nat)
    requires depth + 1 < |m.path| && m.path[depth].List?
  {
    UpdateElem(m, e, depth) == Unchanged || UpdateElem(m, e, depth) == Changed(e)
  }

  lemma StableElems(m: Mutation, elems: seq<Json>, depth: nat)
    requires depth + 1 < |m.path| && m.path[depth].List?
    requires forall i :: 0 <= i < |elems| ==> ElemStable(m, elems[i], depth)
    ensures UpdateElems(m, elems, depth).Elems? && UpdateElems(m, elems, depth).elems == elems
  {
    ElemsPointwise(m, elems, depth);
    forall i | 0 <= i < |elems|
      ensures After(m, elems[i], depth) == elems[i] && !UpdateElem(m, elems[i], depth).Error?
    {
      assert ElemStable(m, elems[i], depth);
    }
  }

  /***** Idempotence *****/

  ghost predicate Stable(m: Mutation, v: Json, depth: nat)
    requires depth < |m.path|
  {
    Update(m, v, depth) == Unchanged || Update(m, v, depth) == Changed(v)
  }

  /** After a successful update, a second one succeeds and changes nothing. */
  lemma {:induction false} UpdateIsIdempotent(m: Mutation, v: Json, depth: nat)
    requires WellFormed(m) && depth < |m.path| && Update(m, v, depth).Changed?
    ensures Stable(m, Update(m, v, depth).value, depth)
    decreases |m.path| - depth, 0
  {
    var node := m.path[depth];
    var r := Update(m, v, depth).value;
    if node.Object? {
      if depth + 1 < |m.path| {
        var child := if node.reference in v.fields then v.fields[node.reference] else CreateMissing(m, depth).value;
        UpdateIsIdempotent(m, child, depth + 1);
        assert r.fields[node.reference := r.fields[node.reference]] == r.fields;
      } else {
        assert r.fields[node.reference := m.value] == r.fields;
      }
    } else if depth + 1 == |m.path| {
      SetElementIsIdempotent(m, v.elems, depth);
    } else if node.glob || exists e :: e in v.elems && HasKey(node, e) {
      ElemsAreIdempotent(m, v.elems, depth);
      if !node.glob {
        var e :| e in v.elems && HasKey(node, e);
        SelectedStays(m, v.elems, depth, e);
      }
    } else {
      var child := CreateMissing(m, depth).value;
      UpdateIsIdempotent(m, child, depth + 1);
      ListIsBetweenObjects(m, depth);
      KeepsKey(m, child, depth);
      AppendedIsStable(m, v.elems, r.elems[|v.elems|], depth);
    }
  }

  lemma {:induction false} ElemsAreIdempotent(m: Mutation, elems: seq<Json>, depth: nat)
    requires WellFormed(m) && depth + 1 < |m.path| && m.path[depth].List?
    requires UpdateElems(m, elems, depth).Elems?
    ensures var r := UpdateElems(m, elems, depth).elems;
            UpdateElems(m, r, depth).Elems? && UpdateElems(m, r, depth).elems == r
    decreases |m.path| - depth - 1, 1
  {
    var r := UpdateElems(m, elems, depth).elems;
    ElemsPointwise(m, elems, depth);
    forall i | 0 <= i < |r| ensures ElemStable(m, r[i], depth) {
      if UpdateElem(m, elems[i], depth).Changed? {
        UpdateIsIdempotent(m, elems[i], depth + 1);
      }
    }
    StableElems(m, r, depth);
  }

  /** A list in which the key was found still has it after the update. */
  lemma SelectedStays(m: Mutation, elems: seq<Json>, depth: nat, e: Json)
    requires WellFormed(m) && depth + 1 < |m.path| && m.path[depth].List? && !m.path[depth].glob
    requires UpdateElems(m, elems, depth).Elems? && e in elems && HasKey(m.path[depth], e)
    ensures exists x :: x in UpdateElems(m, elems, depth).elems && HasKey(m.path[depth], x)
  {
    var r := UpdateElems(m, elems, depth).elems;
    ElemsPointwise(m, elems, depth);
    var i :| 0 <= i < |elems| && elems[i] == e;
    if UpdateElem(m, e, depth).Changed? {
      KeepsKey(m, e, depth);
    }
    assert r[i] in r && HasKey(m.path[depth], r[i]);
  }

  lemma AppendedIsStable(m: Mutation, elems: seq<Json>, x: Json, depth: nat)
    requires depth + 1 < |m.path| && m.path[depth].List? && !m.path[depth].glob
    requires forall e :: e in elems ==> !HasKey(m.path[depth], e)
    requires HasKey(m.path[depth], x) && Stable(m, x, depth + 1)
    ensures Stable(m, Arr(elems + [x]), depth)
  {
    var r := elems + [x];
    assert r[|elems|] == x;
    forall i | 0 <= i < |r| ensures ElemStable(m, r[i], depth) {
      if i < |elems| {
        assert r[i] in elems;
      }
    }
    StableElems(m, r, depth);
  }

  lemma FoundAt(node: Node, elems: seq<Json>, i: nat, from: nat)
    requires node.List? && from <= i < |elems| && HasKey(node, elems[i])
    requires forall k :: from <= k < i ==> elems[k].Obj? && !HasKey(node, elems[k])
    ensures FindKey(node, elems, from) == Some(i)
    decreases i - from
  {
  }

  lemma SetElementIsIdempotent(m: Mutation, elems: seq<Json>, depth: nat)
    requires WellFormed(m) && depth + 1 == |m.path| && m.path[depth].List?
    requires SetElement(m, elems, depth).Changed?
    ensures Stable(m, SetElement(m, elems, depth).value, depth)
  {
    var node := m.path[depth];
    var r := SetElement(m, elems, depth).value.elems;
    var i := if FindKey(node, elems, 0).Some? then FindKey(node, elems, 0).value else |elems|;
    assert forall k :: 0 <= k < i ==> elems[k] in elems;
    FoundAt(node, r, i, 0);
    assert r[i := m.value] == r;
  }

  /**
   * The premise about keys is needed: assigning "y" to `a[name: x].name` renames the element, so
   * a second run finds none to change and appends another.
   */
  lemma ChangingTheKeyIsNotIdempotent() returns (m: Mutation, v: Json)
    ensures ParserShaped(m.path) && ListValueOk(m.path, m.value) && !KeyNotChanged(m.path)
    ensures Update(m, v, 0).Changed? && !Stable(m, Update(m, v, 0).value, 0)
  {
    m := Mutation([Object("a"), List("name", StrKey("x"), false), Object("name")], Str("y"), map[], None);
    var x, y := Obj(map["name" := Str("x")]), Obj(map["name" := Str("y")]);
    v := Obj(map["a" := Arr([x])]);
    assert x.fields["name" := Str("y")] == y.fields;
    assert Update(m, x, 2) == Changed(y);
    assert [x][0] == x;
    assert UpdateElems(m, [x], 1) == Elems([y], true) by {
      assert [x][1..] == [];
    }
    assert x in [x] && HasKey(m.path[1], x);
    assert Update(m, Arr([x]), 1) == Changed(Arr([y]));
    assert Update(m, Arr([y]), 1) == Changed(Arr([y] + [y])) by {
      assert forall e :: e in [y] ==> !HasKey(m.path[1], e);
    }
    assert Update(m, v, 0).value.fields["a"] == Arr([y]);
    assert |[y] + [y]| != |[y]|;
  }

  /***** What an update leaves alone *****/

  /**
   * b differs from a only at the location: other fields and unselected elements are the same and
   * in the same order, and a list has at most one new element, at its end, and that only if
   * nothing in it carried the key.
   */
  ghost predicate OnlyAtLocation(path: Path, depth: nat, a: Json, b: Json)
    decreases |path| - depth
  {
    if depth >= |path| then true
    else match path[depth]
      case Object(name) =>
        && a.Obj? && b.Obj?
        && name in b.fields
        && (forall k :: k != name ==> Field(a, k) == Field(b, k))
        && (name in a.fields ==> OnlyAtLocation(path, depth + 1, a.fields[name], b.fields[name]))
      case List(_, _, _) =>
        && a.Arr? && b.Arr?
        && |a.elems| <= |b.elems| <= |a.elems| + 1
        && (forall i :: 0 <= i < |a.elems| && !Selects(path[depth], a.elems[i]) ==> b.elems[i] == a.elems[i])
        && (forall i :: 0 <= i < |a.elems| && b.elems[i] != a.elems[i] ==>
              OnlyAtLocation(path, depth + 1, a.elems[i], b.elems[i]))
        && (|a.elems| < |b.elems| ==>
              && b.elems[..|a.elems|] == a.elems
              && (forall e :: e in a.elems ==> !Selects(path[depth], e)))
  }

  lemma {:induction false} UpdateOnlyAtLocation(m: Mutation, v: Json, depth: nat)
    requires depth < |m.path| && Update(m, v, depth).Changed?
    ensures OnlyAtLocation(m.path, depth, v, Update(m, v, depth).value)
    decreases |m.path| - depth
  {
    var node := m.path[depth];
    var r := Update(m, v, depth).value;
    if node.Object? {
      if depth + 1 < |m.path| && node.reference in v.fields {
        UpdateOnlyAtLocation(m, v.fields[node.reference], depth + 1);
      }
    } else if depth + 1 == |m.path| {
      if FindKey(node, v.elems, 0).None? {
        forall e | e in v.elems ensures e.Obj? && !HasKey(node, e) {
          var i :| 0 <= i < |v.elems| && v.elems[i] == e;
          assert forall k :: 0 <= k < |v.elems| ==> v.elems[k] in v.elems;
        }
      }
    } else if node.glob || exists e :: e in v.elems && HasKey(node, e) {
      ElemsPointwise(m, v.elems, depth);
      forall i | 0 <= i < |v.elems| && r.elems[i] != v.elems[i]
        ensures OnlyAtLocation(m.path, depth + 1, v.elems[i], r.elems[i])
      {
        UpdateOnlyAtLocation(m, v.elems[i], depth + 1);
      }
    }
  }

  /** What an update goes into is no scalar, before and after. */
  lemma BelowIsContainer(m: Mutation, v: Json, d: nat)
    requires d + 1 < |m.path| && m.path[d].Object? && Update(m, v, d).Changed?
    ensures var name := m.path[d].reference; var w := Update(m, v, d).value;
      && v.Obj? && w.Obj? && name in w.fields && (w.fields[name].Obj? || w.fields[name].Arr?)
      && (name in v.fields ==> v.fields[name].Obj? || v.fields[name].Arr?)
  {
    var name := m.path[d].reference;
    var child := if name in v.fields then v.fields[name] else CreateMissing(m, d).value;
    UpdateOnlyAtLocation(m, child, d + 1);
  }

  /***** Whether a mutation can alter anything *****/

  /**
   * What the update does to a value that was created for the node before d: whether it changes it.
   * A created list element has its key, which is no object that one could go into.
   */
  predicate Builds(m: Mutation, d: nat)
    requires d < |m.path|
    decreases |m.path| - d
  {
    && m.MissingOkay(d)
    && match m.path[d]
       case Object(name) =>
         && !(d > 0 && m.path[d - 1].List? && m.path[d - 1].keyField == name)
         && if d + 1 == |m.path| then m.TestValue(None) else Builds(m, d + 1)
       case List(_, _, glob) => !glob && (d + 1 == |m.path| || Builds(m, d + 1))
  }

  /** Some value other than the assigned one passes the value test. */
  predicate ReplacesSome(m: Mutation) {
    m.valueTest.None? || m.valueTest.value.isIn == [] ||
    exists x :: x in m.valueTest.value.isIn && x !in m.valueTest.value.notIn && x != m.value
  }

  /** By the tests and the path from d on, some value is changed into another one. */
  predicate CanAlter(m: Mutation, d: nat)
    requires d < |m.path|
    decreases |m.path| - d
  {
    match m.path[d]
    case Object(_) =>
      if d + 1 == |m.path| then (m.ExistsOkay(d) && ReplacesSome(m)) || (m.MissingOkay(d) && m.TestValue(None))
      else (m.ExistsOkay(d) && CanAlter(m, d + 1)) || (m.MissingOkay(d) && Builds(m, d + 1))
    case List(keyField, _, glob) =>
      || d + 1 == |m.path|
      || (m.ExistsOkay(d) && (glob || m.path[d + 1] != Object(keyField)) && CanAlter(m, d + 1))
      || (!glob && m.MissingOkay(d) && Builds(m, d + 1))
  }

  ghost predicate AltersAt(m: Mutation, v: Json, d: nat)
    requires d < |m.path|
  {
    Update(m, v, d).Changed? && Update(m, v, d).value != v
  }

  lemma {:induction false} BuildsIsExact(m: Mutation, d: nat)
    requires WellFormed(m) && 0 < d < |m.path| && CreateMissing(m, d - 1).Some?
    ensures Builds(m, d) <==> Update(m, CreateMissing(m, d - 1).value, d).Changed?
    decreases |m.path| - d
  {
    var v := CreateMissing(m, d - 1).value;
    if m.path[d].List? {
      assert m.path[d] in m.path;
    }
    if d + 1 < |m.path| {
      if m.path[d].List? { ListIsBetweenObjects(m, d); }
      if CreateMissing(m, d).Some? { BuildsIsExact(m, d + 1); }
      if m.path[d].Object? && Update(m, v, d).Changed? { BelowIsContainer(m, v, d); }
    }
  }

  /** An integer that is not in the list, nor is any above it. */
  ghost function Above(s: seq<Json>): (n: int)
    ensures forall i :: i >= n ==> Int(i) !in s
  {
    if s == [] then 0
    else
      var n := Above(s[1..]);
      assert forall x :: x in s ==> x == s[0] || x in s[1..];
      match s[0]
      case Int(i) => if i >= n then i + 1 else n
      case _ => n
  }

  lemma SomeReplaced(m: Mutation) returns (x: Json)
    requires ReplacesSome(m)
    ensures m.TestValue(Some(x)) && x != m.value
  {
    if m.valueTest.Some? && m.valueTest.value.isIn != [] {
      x :| x in m.valueTest.value.isIn && x !in m.valueTest.value.notIn && x != m.value;
    } else {
      var not := (if m.valueTest.Some? then m.valueTest.value.notIn else []) + [m.value];
      x := Int(Above(not));
      assert m.value in not;
    }
  }

  lemma AlterTarget(m: Mutation, d: nat) returns (v: Json)
    requires d + 1 == |m.path| && m.path[d].Object? && CanAlter(m, d)
    ensures AltersAt(m, v, d)
  {
    var name := m.path[d].reference;
    v := Obj(map[]);
    if m.ExistsOkay(d) && ReplacesSome(m) {
      var x := SomeReplaced(m);
      v := Obj(map[name := x]);
      assert Field(v, name) == Some(x);
      assert Update(m, v, d).value.fields[name] == m.value;
    } else {
      assert name in Update(m, v, d).value.fields;
    }
  }

  lemma AlterElementTarget(m: Mutation, d: nat) returns (v: Json)
    requires WellFormed(m) && d + 1 == |m.path| && m.path[d].List?
    ensures AltersAt(m, v, d)
  {
    var node := m.path[d];
    var key := KeyJson(node.keyValue);
    v := Arr([]);
    if m.MissingOkay(d) {
      assert |Update(m, v, d).value.elems| == 1;
    } else {
      var other := node.keyField + "x";
      assert |other| != |node.keyField|;
      var e, f := Obj(map[node.keyField := key]), Obj(map[node.keyField := key, other := Null]);
      assert other in f.fields && other !in e.fields;
      var x := if m.value == e then f else e;
      v := Arr([x]);
      assert FindKey(node, [x], 0) == Some(0);
      assert Update(m, v, d).value.elems[0] == m.value;
    }
  }

  lemma AlterField(m: Mutation, d: nat, x: Json) returns (v: Json)
    requires d + 1 < |m.path| && m.path[d].Object? && m.ExistsOkay(d) && AltersAt(m, x, d + 1)
    ensures AltersAt(m, v, d)
  {
    var name := m.path[d].reference;
    v := Obj(map[name := x]);
    assert Field(v, name) == Some(x);
    assert Update(m, v, d).value.fields[name] != v.fields[name];
  }

  lemma AlterNew(m: Mutation, d: nat) returns (v: Json)
    requires WellFormed(m) && d + 1 < |m.path| && m.MissingOkay(d) && Builds(m, d + 1)
    requires m.path[d].List? ==> !m.path[d].glob
    ensures AltersAt(m, v, d)
  {
    if m.path[d].List? {
      ListIsBetweenObjects(m, d);
    }
    BuildsIsExact(m, d + 1);
    if m.path[d].Object? {
      v := Obj(map[]);
      assert m.path[d].reference in Update(m, v, d).value.fields;
    } else {
      v := Arr([]);
      assert |Update(m, v, d).value.elems| == 1;
    }
  }

  /** An element that the update alters, given the list's key if it needs one. */
  lemma WithKey(m: Mutation, d: nat, x: Json) returns (e: Json)
    requires WellFormed(m) && d + 1 < |m.path| && m.path[d].List? && AltersAt(m, x, d + 1)
    requires m.path[d].glob || m.path[d + 1] != Object(m.path[d].keyField)
    ensures Selects(m.path[d], e) && AltersAt(m, e, d + 1)
  {
    if m.path[d].glob {
      e := x;
    } else {
      ListIsBetweenObjects(m, d);
      var name, key := m.path[d + 1].reference, KeyJson(m.path[d].keyValue);
      e := Obj(x.fields[m.path[d].keyField := key]);
      assert Field(e, name) == Field(x, name);
      var r := Update(m, x, d + 1).value.fields[name];
      assert Update(m, x, d + 1).value.fields == x.fields[name := r];
      assert x.fields[name := r] != x.fields;
      assert Update(m, e, d + 1).value.fields[name] == r;
    }
  }

  lemma AlterElement(m: Mutation, d: nat, x: Json) returns (v: Json)
    requires WellFormed(m) && d + 1 < |m.path| && m.path[d].List? && m.ExistsOkay(d) && AltersAt(m, x, d + 1)
    requires m.path[d].glob || m.path[d + 1] != Object(m.path[d].keyField)
    ensures AltersAt(m, v, d)
  {
    var e := WithKey(m, d, x);
    v := Arr([e]);
    ElemsPointwise(m, [e], d);
    assert [e][0] == e && e in [e];
    assert UpdateElems(m, [e], d).elems[0] == After(m, e, d) != e;
  }

  lemma {:induction false} CanAlterAlters(m: Mutation, d: nat) returns (v: Json)
    requires WellFormed(m) && d < |m.path| && CanAlter(m, d)
    ensures AltersAt(m, v, d)
    decreases |m.path| - d
  {
    if d + 1 == |m.path| {
      if m.path[d].Object? { v := AlterTarget(m, d); } else { v := AlterElementTarget(m, d); }
    } else if m.path[d].Object? && m.ExistsOkay(d) && CanAlter(m, d + 1) {
      var x := CanAlterAlters(m, d + 1);
      v := AlterField(m, d, x);
    } else if m.path[d].List? && m.ExistsOkay(d) && CanAlter(m, d + 1) &&
              (m.path[d].glob || m.path[d + 1] != Object(m.path[d].keyField)) {
      var x := CanAlterAlters(m, d + 1);
      v := AlterElement(m, d, x);
    } else {
      v := AlterNew(m, d);
    }
  }

  /** In a list that is altered by its elements, one of them is. */
  lemma AlteredElement(m: Mutation, elems: seq<Json>, d: nat) returns (e: Json)
    requires d + 1 < |m.path| && m.path[d].List? && AltersAt(m, Arr(elems), d)
    requires m.path[d].glob || exists x :: x in elems && HasKey(m.path[d], x)
    ensures m.ExistsOkay(d) && Selects(m.path[d], e) && AltersAt(m, e, d + 1)
  {
    var r := UpdateElems(m, elems, d).elems;
    ElemsPointwise(m, elems, d);
    assert r != elems;
    var i :| 0 <= i < |elems| && r[i] != elems[i];
    e := elems[i];
  }

  lemma {:induction false} AltersMeansCan(m: Mutation, v: Json, d: nat)
    requires WellFormed(m) && d < |m.path| && AltersAt(m, v, d)
    ensures CanAlter(m, d)
    decreases |m.path| - d
  {
    var node := m.path[d];
    if d + 1 == |m.path| {
      if node.Object? { TargetMeansCan(m, v, d); }
    } else if node.Object? {
      if node.reference in v.fields {
        var x := v.fields[node.reference];
        assert v.fields[node.reference := x] == v.fields;
        AltersMeansCan(m, x, d + 1);
      } else {
        BuildsIsExact(m, d + 1);
      }
    } else if node.glob || exists e :: e in v.elems && HasKey(node, e) {
      var e := AlteredElement(m, v.elems, d);
      AltersMeansCan(m, e, d + 1);
      ListIsBetweenObjects(m, d);
      if m.path[d + 1] == Object(node.keyField) && !node.glob {
        BelowIsContainer(m, e, d + 1);
      }
    } else {
      BuildsIsExact(m, d + 1);
    }
  }

  lemma TargetMeansCan(m: Mutation, v: Json, d: nat)
    requires d + 1 == |m.path| && m.path[d].Object? && AltersAt(m, v, d)
    ensures CanAlter(m, d)
  {
    var name := m.path[d].reference;
    if name in v.fields {
      assert v.fields[name := v.fields[name]] == v.fields;
    }
  }

  /** The tests and the path decide whether anything can be altered at all. */
  lemma CanAlterIsExact(m: Mutation, d: nat)
    requires WellFormed(m) && d < |m.path|
    ensures CanAlter(m, d) <==> exists v :: AltersAt(m, v, d)
  {
    if CanAlter(m, d) {
      var v := CanAlterAlters(m, d);
    }
    if v :| AltersAt(m, v, d) {
      AltersMeansCan(m, v, d);
    }
  }

  /** No two elements carry the same value under the key field. */
  ghost predicate UniqueKeys(elems: seq<Json>, keyField: string) {
    forall i, j :: 0 <= i < j < |elems| && Field(elems[i], keyField).Some? ==>
        Field(elems[i], keyField) != Field(elems[j], keyField)
  }

  /** The location goes through the key field of the list at depth, below a glob. */
  predicate RewritesGlobKey(path: Path, depth: nat) {
    && depth + 1 < |path| && path[depth].List? && path[depth].glob
    && path[depth + 1].Object? && path[depth + 1].reference == path[depth].keyField
  }

  /** Each element of the updated list carries the key it had. */
  lemma ElementKeepsKey(m: Mutation, e: Json, depth: nat)
    requires WellFormed(m) && depth + 1 < |m.path| && m.path[depth].List? && !RewritesGlobKey(m.path, depth)
    requires Selects(m.path[depth], e) && Update(m, e, depth + 1).Changed?
    ensures Field(Update(m, e, depth + 1).value, m.path[depth].keyField) == Field(e, m.path[depth].keyField)
  {
    ListIsBetweenObjects(m, depth);
    if !m.path[depth].glob {
      KeepsKey(m, e, depth);
    }
  }

  /** Unique list keys stay unique. */
  lemma KeysStayUnique(m: Mutation, elems: seq<Json>, depth: nat)
    requires WellFormed(m) && depth < |m.path| && m.path[depth].List? && !RewritesGlobKey(m.path, depth)
    requires Update(m, Arr(elems), depth).Changed? && UniqueKeys(elems, m.path[depth].keyField)
    ensures UniqueKeys(Update(m, Arr(elems), depth).value.elems, m.path[depth].keyField)
  {
    var node := m.path[depth];
    var r := Update(m, Arr(elems), depth).value.elems;
    if depth + 1 == |m.path| {
      KeysAfterSet(m, elems, depth);
    } else if node.glob || exists e :: e in elems && HasKey(node, e) {
      ElemsPointwise(m, elems, depth);
      forall i | 0 <= i < |elems| ensures Field(r[i], node.keyField) == Field(elems[i], node.keyField) {
        if UpdateElem(m, elems[i], depth).Changed? {
          ElementKeepsKey(m, elems[i], depth);
        }
      }
    } else {
      KeepsKey(m, CreateMissing(m, depth).value, depth);
      assert forall i :: 0 <= i < |elems| ==> elems[i] in elems;
    }
  }

  lemma KeysAfterSet(m: Mutation, elems: seq<Json>, depth: nat)
    requires WellFormed(m) && depth + 1 == |m.path| && m.path[depth].List?
    requires SetElement(m, elems, depth).Changed? && UniqueKeys(elems, m.path[depth].keyField)
    ensures UniqueKeys(SetElement(m, elems, depth).value.elems, m.path[depth].keyField)
  {
    assert forall i :: 0 <= i < |elems| ==> elems[i] in elems;
  }

  /** Every list with unique keys has unique keys after the update. */
  ghost predicate PreservesUniqueKeys(m: Mutation, depth: nat)
    requires depth < |m.path| && m.path[depth].List?
  {
    forall elems :: UniqueKeys(elems, m.path[depth].keyField) && Update(m, Arr(elems), depth).Changed? ==>
      UniqueKeys(Update(m, Arr(elems), depth).value.elems, m.path[depth].keyField)
  }

  /** An element and its update have different keys, which become the same. */
  lemma AlteredElementCollides(m: Mutation, e: Json, depth: nat)
    requires WellFormed(m) && depth + 1 < |m.path| && RewritesGlobKey(m.path, depth) && m.ExistsOkay(depth)
    requires AltersAt(m, e, depth + 1)
    ensures var w := Update(m, e, depth + 1).value;
            && UniqueKeys([e, w], m.path[depth].keyField)
            && Update(m, Arr([e, w]), depth) == Changed(Arr([w, w]))
            && !UniqueKeys([w, w], m.path[depth].keyField)
  {
    var w := Update(m, e, depth + 1).value;
    var k := m.path[depth].keyField;
    UpdateOnlyAtLocation(m, e, depth + 1);
    assert Field(e, k) != Field(w, k) by {
      if Field(e, k) == Field(w, k) {
        SameFields(e, w);
      }
    }
    UpdateIsIdempotent(m, e, depth + 1);
    var r := UpdateElems(m, [e, w], depth);
    ElemsPointwise(m, [e, w], depth);
    assert [e, w][0] == e && [e, w][1] == w;
    assert r.elems == [w, w];
    assert Field([w, w][0], k).Some? && [w, w][0] == [w, w][1];
  }

  lemma SameFields(a: Json, b: Json)
    requires a.Obj? && b.Obj? && forall k :: Field(a, k) == Field(b, k)
    ensures a == b
  {
    forall k ensures k in a.fields <==> k in b.fields {
      assert Field(a, k) == Field(b, k);
    }
    forall k | k in a.fields ensures a.fields[k] == b.fields[k] {
      assert Field(a, k) == Field(b, k);
    }
    assert a.fields == b.fields;
  }

  /**
   * Unique list keys stay unique in every list, unless the location goes through the key field of
   * a glob and, by its tests, the mutation can alter an element at all.
   */
  lemma KeysStayUniqueIff(m: Mutation, depth: nat)
    requires WellFormed(m) && depth < |m.path| && m.path[depth].List?
    ensures PreservesUniqueKeys(m, depth) <==>
            !(RewritesGlobKey(m.path, depth) && m.ExistsOkay(depth) && CanAlter(m, depth + 1))
  {
    if !RewritesGlobKey(m.path, depth) {
      forall elems | UniqueKeys(elems, m.path[depth].keyField) && Update(m, Arr(elems), depth).Changed?
        ensures UniqueKeys(Update(m, Arr(elems), depth).value.elems, m.path[depth].keyField)
      {
        KeysStayUnique(m, elems, depth);
      }
    } else if !m.ExistsOkay(depth) {
    } else if CanAlter(m, depth + 1) {
      var e := CanAlterAlters(m, depth + 1);
      AlteredElementCollides(m, e, depth);
    } else {
      UnalteredListsStay(m, depth);
    }
  }

  lemma UnalteredListsStay(m: Mutation, depth: nat)
    requires WellFormed(m) && depth + 1 < |m.path| && m.path[depth].List? && m.path[depth].glob
    requires !CanAlter(m, depth + 1)
    ensures PreservesUniqueKeys(m, depth)
  {
    forall elems | UniqueKeys(elems, m.path[depth].keyField) && Update(m, Arr(elems), depth).Changed?
      ensures UniqueKeys(Update(m, Arr(elems), depth).value.elems, m.path[depth].keyField)
    {
      ElemsPointwise(m, elems, depth);
      forall i | 0 <= i < |elems| ensures After(m, elems[i], depth) == elems[i] {
        if AltersAt(m, elems[i], depth + 1) { AltersMeansCan(m, elems[i], depth + 1); }
      }
      assert Update(m, Arr(elems), depth).value.elems == elems;
    }
  }

  /** A glob through its own key field can make keys equal: `a[k: *].k.x` on two elements without k. */
  lemma GlobKeyRewriteMakesDuplicates() returns (m: Mutation, elems: seq<Json>)
    ensures WellFormed(m) && |m.path| == 4 && RewritesGlobKey(m.path, 1)
    ensures UniqueKeys(elems, "k") && Update(m, Arr(elems), 1).Changed?
    ensures !UniqueKeys(Update(m, Arr(elems), 1).value.elems, "k")
  {
    m := Mutation([Object("a"), List("k", NoKey, true), Object("k"), Object("x")], Null, map[], None);
    var e := Obj(map[]);
    elems := [e, e];
    var r := Obj(map["k" := Obj(map["x" := Null])]);
    assert Update(m, e, 3) == Changed(Obj(map["x" := Null]));
    assert Update(m, e, 2) == Changed(r);
    ElemsPointwise(m, elems, 1);
    assert UpdateElem(m, elems[0], 1) == UpdateElem(m, elems[1], 1) == Changed(r);
    var s := Update(m, Arr(elems), 1).value.elems;
    assert s[0] == r && s[1] == r;
    assert Field(s[0], "k") == Field(s[1], "k");
  }
}
