/** An Assign mutator in the mutation system. */
module AssignLaws {
  import opened Mutators
  import opened Json
  import opened Engine
  import opened FixedPoint

  /** The object after the mutation, if it matches. */
  function ApplyAssign(m: Mutation, matches: Json -> bool, obj: Json): Outcome<Json>
    requires m.path != []
  {
    if !matches(obj) then Fine(obj)
    else match Update(m, obj, 0)
      case Error => Failed
      case Unchanged => Fine(obj)
      case Changed(v) => Fine(v)
  }

  lemma ApplyAssignIsIdempotent(m: Mutation, matches: Json -> bool, obj: Json)
    requires WellFormed(m) && ApplyAssign(m, matches, obj).Fine?
    ensures ApplyAssign(m, matches, ApplyAssign(m, matches, obj).obj) == ApplyAssign(m, matches, obj)
  {
    if matches(obj) && Update(m, obj, 0).Changed? {
      UpdateIsIdempotent(m, obj, 0);
    }
  }

  /** A system with a single well-formed Assign always converges. */
  lemma OneAssignConverges(mutator: Mutator, m: Mutation, matches: Json -> bool, apply: Apply<Json>, obj: Json)
    requires WellFormed(m) && forall o :: apply(mutator, o) == ApplyAssign(m, matches, o)
    ensures Verdict([mutator], apply, obj) != NotConverging
  {
    forall o | apply(mutator, o).Fine?
      ensures apply(mutator, apply(mutator, o).obj) == apply(mutator, o)
    {
      ApplyAssignIsIdempotent(m, matches, o);
    }
    OneMutatorConverges(mutator, apply, obj);
  }
}

/**
 * Two mutations whose locations part: at a field, or at a list by its key. Before that they may have
 * any objects and lists in common, and meet in lists that one goes through by a glob and the other
 * by a key. What one does leaves the other as quiet as it was.
 */
module Separation {
  import opened Types
  import opened PathAst
  import opened Json
  import opened Engine

  /** The two paths go the same way up to depth, and there lead to different fields or elements. */
  predicate PartAt(p: Path, q: Path, depth: nat) {
    && depth < |p| && depth < |q| && (forall d :: 0 <= d < depth ==> Meet(p[d], q[d]))
    && if p[depth].Object? then q[depth].Object? && p[depth].reference != q[depth].reference
       else q[depth].List? && OtherKey(p[depth], q[depth])
  }

  /** The same node, or a glob and a key of the same list. */
  predicate Meet(p: Node, q: Node) {
    p == q || (p.List? && q.List? && p.keyField == q.keyField && p.glob != q.glob)
  }

  /** Two list nodes that select different elements. */
  predicate OtherKey(p: Node, q: Node)
    requires p.List? && q.List?
  {
    !p.glob && !q.glob && p.keyField == q.keyField && p.keyValue != q.keyValue
  }

  lemma SameKinds(p: Path, q: Path, depth: nat, d: nat)
    requires PartAt(p, q, depth) && d < depth
    ensures Meet(p[d], q[d]) && (p[d + 1].Object? <==> q[d + 1].Object?)
  {
    assert d + 1 < depth ==> Meet(p[d + 1], q[d + 1]);
  }

  /**
   * What a may create on the common way, b does not insist on finding; and in a list that b goes
   * through by a glob, a does not create an element for b to deal with.
   */
  ghost predicate Undemanding(a: Mutation, b: Mutation, depth: nat)
    requires depth < |a.path| && depth < |b.path|
  {
    forall d :: 0 <= d < depth && Creates(a, d) ==> if Globs(b, d) then !b.ExistsOkay(d) else b.MissingOkay(d)
  }

  predicate Globs(m: Mutation, d: nat)
    requires d < |m.path|
  {
    m.path[d].List? && m.path[d].glob
  }

  /** The mutation may create a missing field or element at d. */
  predicate Creates(m: Mutation, d: nat)
    requires d < |m.path|
  {
    m.MissingOkay(d) && !Globs(m, d)
  }

  ghost predicate Separate(a: Mutation, b: Mutation, depth: nat) {
    WellFormed(a) && WellFormed(b) && PartAt(a.path, b.path, depth) && Undemanding(a, b, depth)
  }

  lemma OtherField(a: Mutation, b: Mutation, v: Json, depth: nat)
    requires Separate(a, b, depth) && a.path[depth].Object?
    requires Update(a, v, depth).Changed? && Stable(b, v, depth)
    ensures Stable(b, Update(a, v, depth).value, depth)
  {
    var w := Update(a, v, depth).value;
    var g := b.path[depth].reference;
    UpdateOnlyAtLocation(a, v, depth);
    assert Field(w, g) == Field(v, g);
    if Update(b, v, depth).Changed? {
      assert g in v.fields && Update(b, w, depth).value.fields == w.fields[g := v.fields[g]];
      assert w.fields[g := v.fields[g]] == w.fields;
    }
  }

  /** In a list, a changes only elements with its key, and they keep it. */
  ghost predicate OnlyWithKey(node: Node, elems: seq<Json>, r: seq<Json>)
    requires node.List?
  {
    && |elems| <= |r|
    && (forall i :: 0 <= i < |elems| ==> r[i] == elems[i] || (HasKey(node, elems[i]) && HasKey(node, r[i])))
    && (forall i :: |elems| <= i < |r| ==> HasKey(node, r[i]))
  }

  lemma KeyedUpdate(a: Mutation, elems: seq<Json>, depth: nat)
    requires WellFormed(a) && depth < |a.path| && a.path[depth].List? && !a.path[depth].glob
    requires Update(a, Arr(elems), depth).Changed?
    ensures OnlyWithKey(a.path[depth], elems, Update(a, Arr(elems), depth).value.elems)
  {
    var node := a.path[depth];
    if depth + 1 < |a.path| {
      if exists e :: e in elems && HasKey(node, e) {
        ElemsPointwise(a, elems, depth);
        forall e | UpdateElem(a, e, depth).Changed? ensures HasKey(node, e) && HasKey(node, After(a, e, depth)) {
          KeepsKey(a, e, depth);
        }
      } else {
        KeepsKey(a, CreateMissing(a, depth).value, depth);
      }
    }
  }

  /** Such a change neither adds nor removes nor changes an element with another key. */
  lemma OtherElements(p: Node, q: Node, elems: seq<Json>, r: seq<Json>)
    requires p.List? && q.List? && OtherKey(p, q) && OnlyWithKey(p, elems, r)
    ensures forall i :: 0 <= i < |r| && HasKey(q, r[i]) ==> i < |elems| && r[i] == elems[i]
    ensures forall i :: 0 <= i < |elems| && HasKey(q, elems[i]) ==> r[i] == elems[i]
    ensures (exists e :: e in r && HasKey(q, e)) <==> exists e :: e in elems && HasKey(q, e)
  {
    OtherKeyJson(p, q);
    if e :| e in r && HasKey(q, e) {
      var i :| 0 <= i < |r| && r[i] == e;
      assert elems[i] in elems;
    }
    if e :| e in elems && HasKey(q, e) {
      var i :| 0 <= i < |elems| && elems[i] == e;
      assert r[i] in r;
    }
  }

  lemma OtherKeyJson(p: Node, q: Node)
    requires p.List? && q.List? && OtherKey(p, q)
    ensures forall e :: !(HasKey(p, e) && HasKey(q, e))
  {
  }

  /** A list element further down. */
  lemma OtherElementBelow(b: Mutation, elems: seq<Json>, r: seq<Json>, depth: nat, p: Node)
    requires depth + 1 < |b.path| && b.path[depth].List? && p.List? && OtherKey(p, b.path[depth])
    requires OnlyWithKey(p, elems, r) && Stable(b, Arr(elems), depth)
    ensures Stable(b, Arr(r), depth)
  {
    var node := b.path[depth];
    OtherElements(p, node, elems, r);
    if (exists e :: e in elems && HasKey(node, e)) && b.ExistsOkay(depth) {
      StableListElems(b, elems, depth);
      forall i | 0 <= i < |r| ensures ElemStable(b, r[i], depth) {
        if HasKey(node, r[i]) {
          assert ElemStable(b, elems[i], depth);
        }
      }
      StableElems(b, r, depth);
    } else if !(exists e :: e in elems && HasKey(node, e)) && b.MissingOkay(depth) {
      NothingCreated(b, elems, depth);
    }
  }

  /** In a list that an update leaves alone, it leaves every element alone. */
  lemma StableListElems(b: Mutation, elems: seq<Json>, depth: nat)
    requires depth + 1 < |b.path| && b.path[depth].List? && b.ExistsOkay(depth) && Stable(b, Arr(elems), depth)
    requires b.path[depth].glob || exists e :: e in elems && HasKey(b.path[depth], e)
    ensures forall i :: 0 <= i < |elems| ==> ElemStable(b, elems[i], depth)
  {
    ElemsPointwise(b, elems, depth);
  }

  /** If an update leaves a list without its key alone, then because it changes nothing in a new element. */
  lemma NothingCreated(b: Mutation, elems: seq<Json>, depth: nat)
    requires depth + 1 < |b.path| && b.path[depth].List? && !b.path[depth].glob && Stable(b, Arr(elems), depth)
    requires b.MissingOkay(depth) && !exists e :: e in elems && HasKey(b.path[depth], e)
    ensures CreateMissing(b, depth).Some? && Update(b, CreateMissing(b, depth).value, depth + 1) == Unchanged
  {
    assert forall x: Json :: |elems + [x]| != |elems|;
  }

  /** A list element as target. */
  lemma OtherElementTarget(b: Mutation, elems: seq<Json>, r: seq<Json>, depth: nat, p: Node)
    requires depth + 1 == |b.path| && b.path[depth].List? && p.List? && OtherKey(p, b.path[depth])
    requires OnlyWithKey(p, elems, r) && Stable(b, Arr(elems), depth)
    ensures Stable(b, Arr(r), depth)
  {
    var node := b.path[depth];
    OtherElements(p, node, elems, r);
    match FindKey(node, elems, 0)
    case Some(i) =>
      FoundAt(node, r, i, 0);
      if b.ExistsOkay(depth) {
        assert elems[i := b.value][i] == b.value;
        assert r[i := b.value] == r;
      }
    case None =>
      NoneFound(b, elems, depth);
      forall e | e in r ensures e.Obj? && !HasKey(node, e) {
        var i :| 0 <= i < |r| && r[i] == e;
        assert i < |elems| ==> elems[i] in elems;
      }
      NotFound(node, r, 0);
  }

  lemma NoneFound(b: Mutation, elems: seq<Json>, depth: nat)
    requires depth + 1 == |b.path| && b.path[depth].List? && Stable(b, Arr(elems), depth)
    requires FindKey(b.path[depth], elems, 0).None?
    ensures (forall e :: e in elems ==> e.Obj?) && !b.MissingOkay(depth)
    ensures !(b.path[depth].glob || !b.value.Obj? || b.path[depth].keyValue.NoKey?)
    ensures forall e :: e in elems ==> !HasKey(b.path[depth], e)
  {
    assert |elems + [b.value]| != |elems|;
    forall e | e in elems ensures !HasKey(b.path[depth], e) {
      assert forall k :: 0 <= k < |elems| ==> elems[k] in elems;
      var i :| 0 <= i < |elems| && elems[i] == e;
    }
  }

  lemma NotFound(node: Node, elems: seq<Json>, from: nat)
    requires node.List? && from <= |elems| && forall e :: e in elems ==> !HasKey(node, e)
    ensures FindKey(node, elems, from).None?
  {
  }

  lemma OtherElement(a: Mutation, b: Mutation, v: Json, depth: nat)
    requires Separate(a, b, depth) && a.path[depth].List?
    requires Update(a, v, depth).Changed? && Stable(b, v, depth)
    ensures Stable(b, Update(a, v, depth).value, depth)
  {
    var r := Update(a, v, depth).value.elems;
    KeyedUpdate(a, v.elems, depth);
    if depth + 1 < |b.path| {
      OtherElementBelow(b, v.elems, r, depth, a.path[depth]);
    } else {
      OtherElementTarget(b, v.elems, r, depth, a.path[depth]);
    }
  }

  /** Whatever a does, b is left as quiet as it was. */
  lemma {:induction false} NotWoken(a: Mutation, b: Mutation, v: Json, d: nat, depth: nat)
    requires Separate(a, b, depth) && d <= depth
    requires Update(a, v, d).Changed? && Stable(b, v, d)
    ensures Stable(b, Update(a, v, d).value, d)
    decreases depth - d, 0
  {
    if d == depth {
      if a.path[d].Object? { OtherField(a, b, v, d); } else { OtherElement(a, b, v, d); }
    } else {
      SameKinds(a.path, b.path, depth, d);
      if a.path[d].Object? {
        NotWokenInField(a, b, v, d, depth);
      } else if a.path[d].glob || exists e :: e in v.elems && HasKey(a.path[d], e) {
        NotWokenInElems(a, b, v.elems, d, depth);
      } else {
        NotWokenInNew(a, b, v.elems, d, depth);
      }
    }
  }

  lemma {:induction false} NotWokenInField(a: Mutation, b: Mutation, v: Json, d: nat, depth: nat)
    requires Separate(a, b, depth) && d < depth && a.path[d].Object? && a.path[d] == b.path[d]
    requires a.path[d + 1].Object? <==> b.path[d + 1].Object?
    requires Update(a, v, d).Changed? && Stable(b, v, d)
    ensures Stable(b, Update(a, v, d).value, d)
    decreases depth - d - 1, 1
  {
    var name := a.path[d].reference;
    var w := Update(a, v, d).value;
    assert name !in v.fields ==> Creates(a, d);
    if b.ExistsOkay(d) {
      var child := if name in v.fields then v.fields[name] else CreateMissing(a, d).value;
      assert Stable(b, child, d + 1) by {
        if name in v.fields && Update(b, child, d + 1).Changed? {
          assert v.fields[name := Update(b, child, d + 1).value][name] == Update(b, child, d + 1).value;
        }
      }
      NotWoken(a, b, child, d + 1, depth);
      assert w.fields[name := w.fields[name]] == w.fields;
    }
  }

  /** Through a list whose key is no object and no list, an update leaves it open who has that key. */
  lemma KeepsEveryKey(a: Mutation, e: Json, d: nat, q: Node)
    requires WellFormed(a) && d + 1 < |a.path| && a.path[d].List? && UpdateElem(a, e, d).Changed?
    requires q.List? && q.keyField == a.path[d].keyField
    ensures HasKey(q, After(a, e, d)) <==> HasKey(q, e)
  {
    ListIsBetweenObjects(a, d);
    UpdateOnlyAtLocation(a, e, d + 1);
    if a.path[d + 1].reference == q.keyField && d + 2 < |a.path| {
      BelowIsContainer(a, e, d + 1);
    }
  }

  /** The elements with the key of q are where they were. */
  lemma KeysStay(a: Mutation, elems: seq<Json>, d: nat, q: Node)
    requires WellFormed(a) && d + 1 < |a.path| && a.path[d].List? && UpdateElems(a, elems, d).Elems?
    requires q.List? && q.keyField == a.path[d].keyField
    ensures var r := UpdateElems(a, elems, d).elems;
            && (forall i :: 0 <= i < |elems| ==> (HasKey(q, r[i]) <==> HasKey(q, elems[i])))
            && ((exists e :: e in r && HasKey(q, e)) <==> exists e :: e in elems && HasKey(q, e))
  {
    var r := UpdateElems(a, elems, d).elems;
    ElemsPointwise(a, elems, d);
    forall i | 0 <= i < |elems| ensures HasKey(q, r[i]) <==> HasKey(q, elems[i]) {
      if UpdateElem(a, elems[i], d).Changed? {
        KeepsEveryKey(a, elems[i], d, q);
      }
    }
    if e :| e in r && HasKey(q, e) {
      var i :| 0 <= i < |r| && r[i] == e;
      assert elems[i] in elems;
    }
    if e :| e in elems && HasKey(q, e) {
      var i :| 0 <= i < |elems| && elems[i] == e;
      assert r[i] in r;
    }
  }

  /** In a list, the elements that a goes through by its glob or its key. */
  lemma {:induction false} NotWokenInElems(a: Mutation, b: Mutation, elems: seq<Json>, d: nat, depth: nat)
    requires Separate(a, b, depth) && d < depth && a.path[d].List? && Meet(a.path[d], b.path[d])
    requires a.path[d].glob || exists e :: e in elems && HasKey(a.path[d], e)
    requires Update(a, Arr(elems), d).Changed? && Stable(b, Arr(elems), d)
    ensures Stable(b, Update(a, Arr(elems), d).value, d)
    decreases depth - d - 1, 2
  {
    var r := UpdateElems(a, elems, d).elems;
    var node := b.path[d];
    KeysStay(a, elems, d, node);
    if node.glob || exists e :: e in elems && HasKey(node, e) {
      if b.ExistsOkay(d) {
        ElemsStayStable(a, b, elems, d, depth);
        StableElems(b, r, d);
      }
    } else if b.MissingOkay(d) {
      NothingCreated(b, elems, d);
    }
  }

  lemma {:induction false} ElemsStayStable(a: Mutation, b: Mutation, elems: seq<Json>, d: nat, depth: nat)
    requires Separate(a, b, depth) && d < depth && a.path[d].List? && Meet(a.path[d], b.path[d])
    requires UpdateElems(a, elems, d).Elems? && Stable(b, Arr(elems), d) && b.ExistsOkay(d)
    requires b.path[d].glob || exists e :: e in elems && HasKey(b.path[d], e)
    ensures forall i :: 0 <= i < |elems| ==> ElemStable(b, UpdateElems(a, elems, d).elems[i], d)
    decreases depth - d - 1, 1
  {
    var r := UpdateElems(a, elems, d).elems;
    StableListElems(b, elems, d);
    ElemsPointwise(a, elems, d);
    KeysStay(a, elems, d, b.path[d]);
    forall i | 0 <= i < |elems| ensures ElemStable(b, r[i], d) {
      assert ElemStable(b, elems[i], d);
      if UpdateElem(a, elems[i], d).Changed? && Selects(b.path[d], elems[i]) {
        NotWoken(a, b, elems[i], d + 1, depth);
      }
    }
  }

  /** A list to which a adds its element; if b goes through it by a glob, it may not do so. */
  lemma {:induction false} NotWokenInNew(a: Mutation, b: Mutation, elems: seq<Json>, d: nat, depth: nat)
    requires Separate(a, b, depth) && d < depth && a.path[d].List? && Meet(a.path[d], b.path[d])
    requires a.path[d + 1].Object? <==> b.path[d + 1].Object?
    requires !a.path[d].glob && !exists e :: e in elems && HasKey(a.path[d], e)
    requires Update(a, Arr(elems), d).Changed? && Stable(b, Arr(elems), d)
    ensures Stable(b, Update(a, Arr(elems), d).value, d)
    decreases depth - d - 1, 1
  {
    assert Creates(a, d);
    if !Globs(b, d) {
      var child := CreateMissing(a, d).value;
      NothingCreated(b, elems, d);
      ListIsBetweenObjects(a, d);
      KeepsKey(a, child, d);
      NotWoken(a, b, child, d + 1, depth);
      AppendedIsStable(b, elems, Update(a, child, d + 1).value, d);
    }
  }

  /***** What a mutation leaves alone, by field paths *****/

  /** The value at the end of a path of fields. */
  function Get(v: Json, l: seq<string>): Option<Json> {
    if l == [] then Some(v)
    else match Field(v, l[0])
      case None => None
      case Some(child) => Get(child, l[1..])
  }

  /** The location leads through l or ends above it; a list stands for all that is in it. */
  predicate Touches(path: Path, depth: nat, l: seq<string>)
    decreases |l|
  {
    l == [] || depth >= |path| || path[depth].List? ||
    (path[depth].reference == l[0] && Touches(path, depth + 1, l[1..]))
  }

  lemma {:induction false} GetUntouched(m: Mutation, v: Json, depth: nat, l: seq<string>)
    requires depth < |m.path| && Update(m, v, depth).Changed? && !Touches(m.path, depth, l)
    ensures Get(Update(m, v, depth).value, l) == Get(v, l)
    decreases |m.path| - depth
  {
    var w := Update(m, v, depth).value;
    var name := m.path[depth].reference;
    UpdateOnlyAtLocation(m, v, depth);
    if name != l[0] {
      assert Field(w, l[0]) == Field(v, l[0]);
    } else {
      var child := if name in v.fields then v.fields[name] else CreateMissing(m, depth).value;
      GetUntouched(m, child, depth + 1, l[1..]);
    }
  }
}

/**
 * Several Assign mutators whose locations part somewhere. Such a system converges, as long as the
 * mutators do not decide in a cycle by what the others write or create.
 */
module AssignSystems {
  import opened Mutators
  import opened Json
  import opened Engine
  import opened FixedPoint
  import opened Convergence
  import opened AssignLaws
  import opened Separation

  /** An Assign, the objects it matches, and the field paths whose values decide about that. */
  datatype Rule = Rule(mutation: Mutation, matches: Json -> bool, decisive: iset<seq<string>>)

  ghost predicate AgreeOnPaths(a: Json, b: Json, where: iset<seq<string>>) {
    forall l :: l in where ==> Get(a, l) == Get(b, l)
  }

  ghost predicate Sound(rule: Rule) {
    && WellFormed(rule.mutation)
    && forall a, b :: AgreeOnPaths(a, b, rule.decisive) ==> rule.matches(a) == rule.matches(b)
  }

  /** Two rules write to different places. */
  ghost predicate Part(a: Rule, b: Rule) {
    exists depth :: PartAt(a.mutation.path, b.mutation.path, depth)
  }

  /** b matches by something that a writes, or insists on finding something that a creates. */
  ghost predicate LooksAt(b: Rule, a: Rule) {
    || (exists l :: l in b.decisive && Touches(a.mutation.path, 0, l))
    || (exists depth :: PartAt(a.mutation.path, b.mutation.path, depth) && !Undemanding(a.mutation, b.mutation, depth))
  }

  lemma MatchesAsBefore(a: Rule, b: Rule, o: Json)
    requires Sound(a) && Sound(b) && !LooksAt(b, a) && Update(a.mutation, o, 0).Changed?
    ensures b.matches(Update(a.mutation, o, 0).value) == b.matches(o)
  {
    var w := Update(a.mutation, o, 0).value;
    forall l | l in b.decisive ensures Get(w, l) == Get(o, l) {
      GetUntouched(a.mutation, o, 0, l);
    }
    assert AgreeOnPaths(w, o, b.decisive);
  }

  /** A rule that has nothing to do is not given anything to do by one it does not look at. */
  lemma RuleDoesNotWake(a: Rule, b: Rule, o: Json)
    requires Sound(a) && Sound(b) && Part(a, b) && !LooksAt(b, a)
    requires ApplyAssign(a.mutation, a.matches, o).Fine? && ApplyAssign(b.mutation, b.matches, o) == Fine(o)
    ensures var w := ApplyAssign(a.mutation, a.matches, o).obj; ApplyAssign(b.mutation, b.matches, w) == Fine(w)
  {
    if a.matches(o) && Update(a.mutation, o, 0).Changed? {
      MatchesAsBefore(a, b, o);
      if b.matches(o) {
        var depth :| PartAt(a.mutation.path, b.mutation.path, depth);
        NotWoken(a.mutation, b.mutation, o, 0, depth);
      }
    }
  }

  ghost predicate Runs(apply: Apply<Json>, m: Mutator, rule: Rule) {
    Sound(rule) && forall o :: apply(m, o) == ApplyAssign(rule.mutation, rule.matches, o)
  }

  lemma RulesDoNotWake(apply: Apply<Json>, m: Mutator, n: Mutator, a: Rule, b: Rule)
    requires Runs(apply, m, a) && Runs(apply, n, b) && Part(a, b) && !LooksAt(b, a)
    ensures !Wakes(apply, m, n)
  {
    forall o | apply(m, o).Fine? && apply(n, o) == Fine(o) ensures !WakesAt(apply, m, n, o) {
      RuleDoesNotWake(a, b, o);
    }
  }

  /**
   * Well-formed Assigns to different places converge on every object, if none of them looks at what
   * another one of the same or a higher rank writes.
   */
  lemma AssignsConverge(ms: seq<Mutator>, rules: seq<Rule>, rank: seq<nat>, apply: Apply<Json>, o: Json)
    requires |rules| == |rank| == |ms| && forall i :: 0 <= i < |rules| ==> Runs(apply, ms[i], rules[i])
    requires forall i, j :: 0 <= i < |ms| && 0 <= j < |ms| && i != j ==> Part(rules[i], rules[j])
    requires forall i, j :: 0 <= i < |ms| && 0 <= j < |ms| && i != j && LooksAt(rules[j], rules[i]) ==>
               rank[i] < rank[j]
    ensures Verdict(ms, apply, o) != NotConverging
  {
    forall i | 0 <= i < |ms| ensures Idempotent(apply, ms[i]) {
      forall x | apply(ms[i], x).Fine? ensures apply(ms[i], apply(ms[i], x).obj) == apply(ms[i], x) {
        assert Runs(apply, ms[i], rules[i]);
        ApplyAssignIsIdempotent(rules[i].mutation, rules[i].matches, x);
      }
    }
    forall i, j | 0 <= i < |ms| && 0 <= j < |ms| && i != j && Wakes(apply, ms[i], ms[j]) ensures rank[i] < rank[j] {
      if !LooksAt(rules[j], rules[i]) {
        RulesDoNotWake(apply, ms[i], ms[j], rules[i], rules[j]);
      }
    }
    RankedConverges(ms, apply, rank, o);
  }
}
