/** What the answers of the schema tree mean in terms of pairwise conflicts of the live paths. */
module SchemaLaws {
  import opened Types
  import opened PathAst
  import opened SchemaNode

  ghost predicate PathsConflict(p: seq<Step>, q: seq<Step>) {
    exists i: nat :: ConflictAt(p, q, i)
  }

  /** e conflicts with some live path. */
  ghost predicate Conflicted(live: set<Entry>, e: Entry) {
    exists f :: f in live && PathsConflict(e.steps, f.steps)
  }

  /** The reference definition: the IDs whose path conflicts with another live path. */
  ghost function ConflictingIds(live: set<Entry>): set<ID> {
    set e | e in live && Conflicted(live, e) :: e.id
  }

  ghost predicate ConflictFree(live: set<Entry>) {
    forall e, f :: e in live && f in live ==> !PathsConflict(e.steps, f.steps)
  }

  /** Over all positions, node.conflicts reports exactly the pairwise conflicting IDs. */
  lemma ConflictsAreExact(live: set<Entry>, id: ID)
    ensures id in ConflictingIds(live) <==> exists pos, key :: id in ConflictsAt(live, pos, key)
  {
    if id in ConflictingIds(live) {
      var e :| e in live && Conflicted(live, e) && e.id == id;
      var f :| f in live && PathsConflict(e.steps, f.steps);
      var i: nat :| ConflictAt(e.steps, f.steps, i);
      var pos := e.steps[..i];
      assert Disagrees(live, e, pos);
      assert id in ConflictsAt(live, pos, e.steps[i].key);
    }
    if pos, key :| id in ConflictsAt(live, pos, key) {
      var e :| e in live && Disagrees(live, e, pos) && e.steps[|pos|].key == key && e.id == id;
      var f :| f in live && ConflictAt(e.steps, f.steps, |pos|);
      assert PathsConflict(e.steps, f.steps);
    }
  }

  lemma {:induction false} InConflictsAlong(live: set<Entry>, p: seq<Step>, depth: nat, id: ID)
    requires depth <= |p|
    ensures id in ConflictsAlong(live, p, depth)
       <==> exists i :: depth <= i < |p| && id in ConflictsAt(live, p[..i], p[i].key)
    decreases |p| - depth
  {
    if depth < |p| {
      InConflictsAlong(live, p, depth + 1, id);
      var here := ConflictsAt(live, p[..depth], p[depth].key);
      assert ConflictsAlong(live, p, depth) == here + ConflictsAlong(live, p, depth + 1);
      if i :| depth <= i < |p| && id in ConflictsAt(live, p[..i], p[i].key) {
        assert i == depth || depth + 1 <= i;
      }
    }
  }

  /** Two paths that visit the same field of the same position, and disagree there. */
  lemma DisagreeAlong(live: set<Entry>, p: seq<Step>, e: Entry, f: Entry, i: nat)
    requires e in live && f in live && ConflictAt(e.steps, f.steps, i)
    requires i < |p| && e.steps[..i] == p[..i] && e.steps[i].key == p[i].key
    ensures e.id in ConflictsAlong(live, p, 0)
  {
    assert e.steps[..i] <= e.steps;
    assert Disagrees(live, e, p[..i]);
    assert e.id in ConflictsAt(live, p[..i], p[i].key);
    InConflictsAlong(live, p, 0, e.id);
  }

  /** Every ID that Add returns really is in a conflict. */
  lemma AlongIsConflicting(live: set<Entry>, p: seq<Step>)
    ensures ConflictsAlong(live, p, 0) <= ConflictingIds(live)
  {
    forall id | id in ConflictsAlong(live, p, 0)
      ensures id in ConflictingIds(live)
    {
      InConflictsAlong(live, p, 0, id);
      ConflictsAreExact(live, id);
    }
  }

  /** Every conflict of the added path is among the IDs that Add returns. */
  lemma AlongFindsNewConflicts(live: set<Entry>, x: Entry, f: Entry)
    requires x in live && f in live && PathsConflict(x.steps, f.steps)
    ensures x.id in ConflictsAlong(live, x.steps, 0) && f.id in ConflictsAlong(live, x.steps, 0)
  {
    var i: nat :| ConflictAt(x.steps, f.steps, i);
    assert ConflictAt(f.steps, x.steps, i);
    DisagreeAlong(live, x.steps, x, f, i);
    DisagreeAlong(live, x.steps, f, x, i);
  }

  lemma ConflictIsSymmetric(p: seq<Step>, q: seq<Step>)
    ensures PathsConflict(p, q) <==> PathsConflict(q, p)
    ensures !PathsConflict(p, p)
  {
    if i: nat :| ConflictAt(p, q, i) {
      assert ConflictAt(q, p, i);
    }
    if i: nat :| ConflictAt(q, p, i) {
      assert ConflictAt(p, q, i);
    }
  }

  ghost function ConflictPartners(live: set<Entry>, x: Entry): set<ID> {
    set f | f in live && PathsConflict(x.steps, f.steps) :: f.id
  }

  /**
   * Adding to a conflict-free tree reports nothing, or exactly the new ID and everything it
   * conflicts with.
   */
  lemma AddToConflictFree(live: set<Entry>, x: Entry)
    requires ConflictFree(live)
    ensures ConflictsAlong(live + {x}, x.steps, 0)
         == if Conflicted(live, x) then {x.id} + ConflictPartners(live, x) else {}
  {
    var after := live + {x};
    AlongIsConflicting(after, x.steps);
    forall id | id in ConflictsAlong(after, x.steps, 0)
      ensures Conflicted(live, x) && (id == x.id || id in ConflictPartners(live, x))
    {
      var e :| e in after && Conflicted(after, e) && e.id == id;
      var f :| f in after && PathsConflict(e.steps, f.steps);
      ConflictIsSymmetric(e.steps, f.steps);
      assert e == x || f == x;
    }
    forall f | f in live && PathsConflict(x.steps, f.steps)
      ensures x.id in ConflictsAlong(after, x.steps, 0) && f.id in ConflictsAlong(after, x.steps, 0)
    {
      AlongFindsNewConflicts(after, x, f);
    }
  }

  /***** What a conflict is, said of the two locations themselves *****/

  /** The same field name, or the same key field of a list. */
  ghost predicate SameName(m: Node, n: Node) {
    (if m.Object? then m.reference else m.keyField) == (if n.Object? then n.reference else n.keyField)
  }

  /** At the node j, and in the kind of what follows it, the locations agree. */
  ghost predicate SameStep(p: Path, q: Path, j: nat)
    requires j + 1 < |p| && j + 1 < |q|
  {
    SameName(p[j], q[j]) && (p[j + 1].Object? <==> q[j + 1].Object?)
  }

  /**
   * The locations go the same way up to the i-th node. The next one makes that an object for one and a
   * list for the other, or a list for both with different key fields.
   */
  ghost predicate ApartAt(p: Path, q: Path, i: nat) {
    && i + 1 < |p| && i + 1 < |q|
    && (forall j :: 0 <= j < i ==> SameStep(p, q, j))
    && SameName(p[i], q[i])
    && (|| (p[i + 1].Object? && q[i + 1].List?) || (p[i + 1].List? && q[i + 1].Object?)
        || (p[i + 1].List? && q[i + 1].List? && p[i + 1].keyField != q[i + 1].keyField))
  }

  lemma {:induction false} StepOf(p: Path, i: nat)
    requires i < |p|
    ensures Encode(p)[i].key == if p[i].Object? then p[i].reference else p[i].keyField
    ensures Encode(p)[i].kind == if i + 1 == |p| then Unknown else if p[i + 1].Object? then ObjectNode else ListNode
  {
    if i > 0 {
      StepOf(p[1..], i - 1);
    }
  }

  lemma SameStepIff(p: Path, q: Path, j: nat)
    requires j + 1 < |p| && j + 1 < |q|
    ensures Encode(p)[j] == Encode(q)[j] <==> SameStep(p, q, j)
    ensures Encode(p)[j].key == Encode(q)[j].key <==> SameName(p[j], q[j])
  {
    StepOf(p, j);
    StepOf(q, j);
  }

  lemma SameWayIff(p: Path, q: Path, i: nat)
    requires i + 1 < |p| && i + 1 < |q|
    ensures Encode(p)[..i] == Encode(q)[..i] <==> forall j :: 0 <= j < i ==> SameStep(p, q, j)
  {
    var a, b := Encode(p), Encode(q);
    forall j | 0 <= j < i ensures a[..i][j] == b[..i][j] <==> SameStep(p, q, j) {
      SameStepIff(p, q, j);
    }
  }

  lemma ConflictIsApart(p: Path, q: Path, i: nat)
    ensures ConflictAt(Encode(p), Encode(q), i) <==> ApartAt(p, q, i)
  {
    if i < |p| && i < |q| {
      StepOf(p, i);
      StepOf(q, i);
      if i + 1 < |p| && i + 1 < |q| {
        SameWayIff(p, q, i);
        StepOf(p, i + 1);
        StepOf(q, i + 1);
      }
    }
  }

  /** Two locations conflict iff they use some common part of an object in two ways. */
  lemma LocationsConflictIff(p: Path, q: Path)
    ensures PathsConflict(Encode(p), Encode(q)) <==> exists i: nat :: ApartAt(p, q, i)
  {
    forall i: nat ensures ConflictAt(Encode(p), Encode(q), i) <==> ApartAt(p, q, i) {
      ConflictIsApart(p, q, i);
    }
    if i: nat :| ApartAt(p, q, i) {
      assert ConflictAt(Encode(p), Encode(q), i);
    }
  }

  /***** HasConflicts *****/

  /** Some pair of live paths disagrees about the field that p visits at depth i. */
  ghost predicate ConflictOnWay(live: set<Entry>, p: seq<Step>, i: nat) {
    i < |p| && ConflictsAt(live, p[..i], p[i].key) != {}
  }

  lemma CheckOneStep(live: set<Entry>, e: Entry, depth: nat)
    requires e in live && depth < |e.steps|
    ensures ConflictCheckFrom(live, e.steps, depth) ==
            if ConflictOnWay(live, e.steps, depth) then Known(true) else ConflictCheckFrom(live, e.steps, depth + 1)
  {
    assert Continues(e, e.steps[..depth], e.steps[depth]);
    assert Visits(e, e.steps[..depth + 1]);
  }

  lemma {:induction false} CheckOfLivePath(live: set<Entry>, e: Entry, depth: nat)
    requires e in live && depth <= |e.steps|
    ensures ConflictCheckFrom(live, e.steps, depth) == Known(exists i :: depth <= i && ConflictOnWay(live, e.steps, i))
    decreases |e.steps| - depth
  {
    if depth < |e.steps| {
      CheckOfLivePath(live, e, depth + 1);
      CheckOneStep(live, e, depth);
      if !ConflictOnWay(live, e.steps, depth) {
        assert forall i :: depth <= i && ConflictOnWay(live, e.steps, i) ==> depth + 1 <= i;
      }
    }
  }

  /** A third path with a known type at the disputed field disagrees with one of the two. */
  lemma ThirdPathTakesSides(e: Entry, f: Entry, g: Entry, i: nat)
    requires WellTyped(e.steps) && WellTyped(f.steps) && WellTyped(g.steps)
    requires ConflictAt(f.steps, g.steps, i)
    requires i + 1 < |e.steps| && e.steps[..i] == f.steps[..i] && e.steps[i].key == f.steps[i].key
    ensures ConflictAt(e.steps, f.steps, i) || ConflictAt(e.steps, g.steps, i)
  {
  }

  /** Two live paths disagree about the last field of e, whose own type e leaves open. */
  ghost predicate TargetDisputed(live: set<Entry>, e: Entry) {
    e.steps != [] && ConflictOnWay(live, e.steps, |e.steps| - 1)
  }

  /**
   * For a live path, HasConflicts is true exactly when the path conflicts with another one or
   * when other paths disagree about its last field.
   */
  lemma HasConflictsIsExact(live: set<Entry>, e: Entry)
    requires e in live && AllWellTyped(live)
    ensures ConflictCheckFrom(live, e.steps, 0) == Known(Conflicted(live, e) || TargetDisputed(live, e))
  {
    CheckOfLivePath(live, e, 0);
    if i :| 0 <= i && ConflictOnWay(live, e.steps, i) {
      var id :| id in ConflictsAt(live, e.steps[..i], e.steps[i].key);
      var f :| f in live && Disagrees(live, f, e.steps[..i]) && f.steps[i].key == e.steps[i].key && f.id == id;
      var g :| g in live && ConflictAt(f.steps, g.steps, i);
      assert f.steps[..i] == e.steps[..i];
      if i + 1 < |e.steps| {
        ThirdPathTakesSides(e, f, g, i);
        var h := if ConflictAt(e.steps, f.steps, i) then f else g;
        assert PathsConflict(e.steps, h.steps);
      }
    }
    if Conflicted(live, e) {
      var f :| f in live && PathsConflict(e.steps, f.steps);
      var i: nat :| ConflictAt(e.steps, f.steps, i);
      assert Disagrees(live, e, e.steps[..i]);
      assert e.id in ConflictsAt(live, e.steps[..i], e.steps[i].key);
      assert ConflictOnWay(live, e.steps, i);
    }
  }

  /**
   * The second case is real: HasConflicts of `a.b` is true beside `a.b.c` and `a.b[k: v]`, though
   * `a.b` itself conflicts with neither.
   */
  lemma HasConflictsOverreports() returns (live: set<Entry>, e: Entry)
    ensures e in live && AllWellTyped(live)
    ensures !Conflicted(live, e) && ConflictCheckFrom(live, e.steps, 0) == Known(true)
  {
    var a := Step("a", ObjectNode);
    e := Entry(ID("", "", "", "x"), [a, Step("b", Unknown)]);
    var f := Entry(ID("", "", "", "y"), [a, Step("b", ObjectNode), Step("c", Unknown)]);
    var g := Entry(ID("", "", "", "z"), [a, Step("b", ListNode), Step("k", Unknown)]);
    live := {e, f, g};
    assert f.steps[..1] == g.steps[..1] == e.steps[..1] == [a];
    assert ConflictAt(f.steps, g.steps, 1);
    assert Disagrees(live, f, [a]);
    assert f.id in ConflictsAt(live, [a], "b");
    assert TargetDisputed(live, e);
    HasConflictsIsExact(live, e);
  }

  /** More live paths can only make more conflicts. */
  lemma HasConflictsIsMonotone(small: set<Entry>, big: set<Entry>, e: Entry)
    requires small <= big && e in small && AllWellTyped(big)
    requires ConflictCheckFrom(small, e.steps, 0) == Known(true)
    ensures ConflictCheckFrom(big, e.steps, 0) == Known(true)
  {
    CheckOfLivePath(small, e, 0);
    CheckOfLivePath(big, e, 0);
    var i :| 0 <= i && ConflictOnWay(small, e.steps, i);
    var id :| id in ConflictsAt(small, e.steps[..i], e.steps[i].key);
    var f :| f in small && Disagrees(small, f, e.steps[..i]) && f.steps[i].key == e.steps[i].key && f.id == id;
    assert Disagrees(big, f, e.steps[..i]);
    assert id in ConflictsAt(big, e.steps[..i], e.steps[i].key);
    assert ConflictOnWay(big, e.steps, i);
  }

  lemma ConflictFreeHasNone(live: set<Entry>, e: Entry)
    requires e in live && ConflictFree(live)
    ensures ConflictCheckFrom(live, e.steps, 0) == Known(false)
  {
    CheckOfLivePath(live, e, 0);
    forall i: nat | i < |e.steps|
      ensures ConflictsAt(live, e.steps[..i], e.steps[i].key) == {}
    {
      forall id ensures id !in ConflictsAt(live, e.steps[..i], e.steps[i].key) {
        ConflictsAreExact(live, id);
      }
    }
  }

  /***** Add and Remove undo each other *****/

  /**
   * Remove panics unless its path is a prefix of the one that was added. Since only a last step is
   * untyped, that means the same steps, or an empty path: list key values play no part.
   */
  lemma RemovablePathIsWhole(path: Path, e: Entry)
    requires WellTyped(e.steps) && path != []
    ensures Visits(e, Encode(path)) <==> Encode(path) == e.steps
  {
    EncodeIsWellTyped(path);
    if Visits(e, Encode(path)) {
      assert e.steps[|path| - 1] == Encode(path)[|path| - 1];
    }
  }

  /** Removing an ID just added, which nothing referenced before, gives the same tree back. */
  method AddThenRemove(n: Tree, id: ID, path: Path, ghost live: set<Entry>)
    returns (added: Tree, ok: bool, r: Tree)
    requires IsTrie(n, live, []) && AllWellTyped(live)
    requires id !in n.referencedBy
    ensures IsTrie(added, live + {Entry(id, Encode(path))}, [])
    ensures ok && r == n
  {
    EncodeIsWellTyped(path);
    ghost var x := Entry(id, [] + Encode(path));
    assert [] + Encode(path) == Encode(path);
    assert forall e :: e in live ==> Visits(e, []);
    var tree, _ := Add(n, id, path, live, []);
    added := tree;
    ok, r := Remove(added, id, path, live + {x}, []);
    assert live + {x} - {x} == live;
    TrieIsUnique(r, n, live, []);
  }

  method AddTwo(n: Tree, id: ID, path: Path, id': ID, path': Path, ghost live: set<Entry>) returns (r: Tree)
    requires IsTrie(n, live, []) && AllWellTyped(live)
    ensures IsTrie(r, live + {Entry(id, Encode(path)), Entry(id', Encode(path'))}, [])
  {
    EncodeIsWellTyped(path);
    EncodeIsWellTyped(path');
    ghost var x, y := Entry(id, Encode(path)), Entry(id', Encode(path'));
    assert [] + Encode(path) == Encode(path) && [] + Encode(path') == Encode(path');
    var a, _ := Add(n, id, path, live, []);
    var ab, _ := Add(a, id', path', live + {x}, []);
    r := ab;
    assert live + {x} + {y} == live + {x, y};
  }

  /** Two paths added in either order give the same tree. */
  method AddInEitherOrder(n: Tree, id: ID, path: Path, id': ID, path': Path, ghost live: set<Entry>)
    returns (r: Tree, r': Tree)
    requires IsTrie(n, live, []) && AllWellTyped(live)
    ensures IsTrie(r, live + {Entry(id, Encode(path)), Entry(id', Encode(path'))}, []) && r == r'
  {
    ghost var x, y := Entry(id, Encode(path)), Entry(id', Encode(path'));
    r := AddTwo(n, id, path, id', path', live);
    r' := AddTwo(n, id', path', id, path, live);
    assert {x, y} == {y, x};
    TrieIsUnique(r, r', live + {x, y}, []);
  }
}
