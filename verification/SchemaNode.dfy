/**
 * The implicit schema of one kind: a tree of path elements, reference counted by mutator ID.
 *
 * A node of the source is a struct kept by value in its parent's map: a child is copied out,
 * changed and stored back. The model does the same on values.
 */
module SchemaNode {
  import opened Types
  import opened PathAst

  /** Unknown is the type of a last path element, about which a path says nothing. */
  datatype NodeType = ObjectNode | ListNode | Unknown

  datatype Tree = Tree(referencedBy: set<ID>, children: map<string, ByType>)
  datatype ByType = ByType(nodes: map<NodeType, Tree>)

  const EMPTY: Tree := Tree({}, map[])

  function Key(n: Node): string {
    match n
    case Object(reference) => reference
    case List(keyField, _, _) => keyField
  }

  /** The type of the first element of path, known from the element after it. */
  function HeadType(path: Path): NodeType {
    if |path| < 2 then Unknown else if path[1].Object? then ObjectNode else ListNode
  }

  /***** The live paths, and what the tree must be *****/

  /** A position below the root is a sequence of steps. */
  datatype Step = Step(key: string, kind: NodeType)

  datatype Entry = Entry(id: ID, steps: seq<Step>)

  function Encode(path: Path): (steps: seq<Step>)
    ensures |steps| == |path|
  {
    if path == [] then [] else [Step(Key(path[0]), HeadType(path))] + Encode(path[1..])
  }

  /** Only the last step of an encoded path has an unknown type. */
  ghost predicate WellTyped(steps: seq<Step>) {
    forall i :: 0 <= i < |steps| ==> (steps[i].kind.Unknown? <==> i == |steps| - 1)
  }

  ghost predicate AllWellTyped(live: set<Entry>) {
    forall e :: e in live ==> WellTyped(e.steps)
  }

  lemma {:induction false} EncodeIsWellTyped(path: Path)
    ensures WellTyped(Encode(path))
  {
    if path != [] {
      EncodeIsWellTyped(path[1..]);
      assert forall i :: 1 <= i < |path| ==> Encode(path)[i] == Encode(path[1..])[i - 1];
    }
  }

  /** The live path e visits the position pos. */
  ghost predicate Visits(e: Entry, pos: seq<Step>) {
    pos <= e.steps
  }

  /** The live path e goes on from pos with the step s. */
  ghost predicate Continues(e: Entry, pos: seq<Step>, s: Step) {
    pos < e.steps && e.steps[|pos|] == s
  }

  lemma ContinuesMeansVisits(e: Entry, pos: seq<Step>, s: Step)
    ensures Continues(e, pos, s) <==> Visits(e, pos + [s])
    ensures Visits(e, pos + [s]) ==> Visits(e, pos)
  {
    if Continues(e, pos, s) {
      assert e.steps[..|pos| + 1] == e.steps[..|pos|] + [s] == pos + [s];
    }
    if Visits(e, pos + [s]) {
      assert e.steps[..|pos| + 1] == pos + [s];
      assert e.steps[..|pos|] == (pos + [s])[..|pos|] == pos;
    }
  }

  ghost predicate HasChild(n: Tree, s: Step) {
    s.key in n.children && s.kind in n.children[s.key].nodes
  }

  ghost function Child(n: Tree, s: Step): Tree
    requires HasChild(n, s)
  {
    n.children[s.key].nodes[s.kind]
  }

  /** An ID references a position iff the position is a prefix of its path. */
  ghost predicate RefersExactly(ids: set<ID>, live: set<Entry>, pos: seq<Step>) {
    && (forall e :: e in live && Visits(e, pos) ==> e.id in ids)
    && (forall id :: id in ids ==> exists e :: e in live && Visits(e, pos) && e.id == id)
  }

  /** A position has a child iff some live path goes on that way. */
  ghost predicate BranchesExactly(n: Tree, live: set<Entry>, pos: seq<Step>) {
    && NoEmptyKey(n)
    && (forall e, s :: e in live && Continues(e, pos, s) ==> HasChild(n, s))
    && (forall s :: HasChild(n, s) ==> exists e :: e in live && Continues(e, pos, s))
  }

  /** n is exactly the trie of the live paths below pos. */
  ghost predicate IsTrie(n: Tree, live: set<Entry>, pos: seq<Step>)
    decreases n
  {
    && RefersExactly(n.referencedBy, live, pos)
    && BranchesExactly(n, live, pos)
    && forall s :: HasChild(n, s) ==> IsTrie(Child(n, s), live, pos + [s])
  }

  /** The tree is a function of the live paths alone, so insertion order is irrelevant. */
  lemma {:induction false} TrieIsUnique(n: Tree, m: Tree, live: set<Entry>, pos: seq<Step>)
    requires IsTrie(n, live, pos) && IsTrie(m, live, pos)
    ensures n == m
    decreases n
  {
    assert n.referencedBy == m.referencedBy;
    forall s | HasChild(n, s) || HasChild(m, s)
      ensures HasChild(n, s) && HasChild(m, s) && Child(n, s) == Child(m, s)
    {
      TrieIsUnique(Child(n, s), Child(m, s), live, pos + [s]);
    }
    SameChildren(n, m);
  }

  lemma SameChildren(n: Tree, m: Tree)
    requires NoEmptyKey(n) && NoEmptyKey(m)
    requires forall s :: HasChild(n, s) || HasChild(m, s) ==>
               HasChild(n, s) && HasChild(m, s) && Child(n, s) == Child(m, s)
    ensures n.children == m.children
  {
    forall k | k in n.children
      ensures k in m.children && n.children[k] == m.children[k]
    {
      var t :| t in n.children[k].nodes;
      assert HasChild(n, Step(k, t));
      forall u
        ensures u in n.children[k].nodes <==> u in m.children[k].nodes
        ensures u in n.children[k].nodes ==> n.children[k].nodes[u] == m.children[k].nodes[u]
      {
        assert HasChild(n, Step(k, u)) <==> HasChild(m, Step(k, u));
      }
      assert n.children[k].nodes == m.children[k].nodes;
    }
    forall k | k in m.children
      ensures k in n.children
    {
      var t :| t in m.children[k].nodes;
      assert HasChild(m, Step(k, t));
    }
  }

  /** A subtree does not notice a change to paths that do not pass through it. */
  lemma {:induction false} TrieFrame(n: Tree, before: set<Entry>, after: set<Entry>, pos: seq<Step>)
    requires IsTrie(n, before, pos)
    requires forall e :: Visits(e, pos) ==> (e in before <==> e in after)
    ensures IsTrie(n, after, pos)
    decreases n
  {
    assert forall e, s :: Continues(e, pos, s) ==> Visits(e, pos);
    forall s | HasChild(n, s)
      ensures IsTrie(Child(n, s), after, pos + [s])
    {
      forall e ensures Visits(e, pos + [s]) ==> Visits(e, pos) {
        ContinuesMeansVisits(e, pos, s);
      }
      TrieFrame(Child(n, s), before, after, pos + [s]);
    }
  }

  /***** Pairwise conflicts *****/

  /**
   * Two paths disagree about the element at index i: they agree before it and name the same
   * field there, one as an object and one as a list, or both as lists with different key fields.
   */
  ghost predicate ConflictAt(p: seq<Step>, q: seq<Step>, i: nat) {
    && i < |p| && i < |q|
    && p[..i] == q[..i]
    && p[i].key == q[i].key
    && !p[i].kind.Unknown? && !q[i].kind.Unknown?
    && (|| p[i].kind != q[i].kind
        || (p[i].kind.ListNode? && i + 1 < |p| && i + 1 < |q| && p[i + 1].key != q[i + 1].key))
  }

  /** e disagrees about its step at pos with some live path. */
  ghost predicate Disagrees(live: set<Entry>, e: Entry, pos: seq<Step>) {
    Visits(e, pos) && exists f :: f in live && ConflictAt(e.steps, f.steps, |pos|)
  }

  /** The IDs that disagree about the field key below pos. */
  ghost function ConflictsAt(live: set<Entry>, pos: seq<Step>, key: string): set<ID> {
    set e | e in live && Disagrees(live, e, pos) && e.steps[|pos|].key == key :: e.id
  }

  /***** node.conflicts *****/

  /** More than one known type, or a list with more than one key field. */
  ghost predicate Reported(nodes: map<NodeType, Tree>, t: NodeType)
    requires t in nodes
  {
    !t.Unknown? && (|nodes.Keys - {Unknown}| > 1 || (t.ListNode? && |nodes[t].children| > 1))
  }

  ghost function ReportedIds(nodes: map<NodeType, Tree>, types: set<NodeType>): set<ID>
    requires types <= nodes.Keys
  {
    set t, id | t in types && Reported(nodes, t) && id in nodes[t].referencedBy :: id
  }

  lemma ReportOne(nodes: map<NodeType, Tree>, types: set<NodeType>, t: NodeType)
    requires types <= nodes.Keys && t in nodes
    ensures ReportedIds(nodes, types + {t}) ==
            ReportedIds(nodes, types) + if Reported(nodes, t) then nodes[t].referencedBy else {}
  {
  }

  /** The counts and the loop of node.conflicts, for the nodes of one field. */
  method CollectReported(nodes: map<NodeType, Tree>) returns (conflicts: set<ID>)
    ensures conflicts == ReportedIds(nodes, nodes.Keys)
  {
    var nTypes := |nodes|;
    if Unknown in nodes {
      nTypes := nTypes - 1;
    }
    assert nTypes == |nodes.Keys - {Unknown}|;
    conflicts := {};
    var todo := nodes.Keys;
    while todo != {}
      invariant todo <= nodes.Keys
      invariant conflicts == ReportedIds(nodes, nodes.Keys - todo)
    {
      var t :| t in todo;
      if !t.Unknown? && (nTypes > 1 || (t.ListNode? && |nodes[t].children| > 1)) {
        conflicts := conflicts + nodes[t].referencedBy;
      }
      assert nodes.Keys - (todo - {t}) == nodes.Keys - todo + {t};
      ReportOne(nodes, nodes.Keys - todo, t);
      todo := todo - {t};
    }
    assert nodes.Keys - todo == nodes.Keys;
  }

  method Conflicts(n: Tree, key: string, ghost live: set<Entry>, ghost pos: seq<Step>) returns (conflicts: set<ID>)
    requires IsTrie(n, live, pos) && AllWellTyped(live)
    ensures conflicts == ConflictsAt(live, pos, key)
  {
    var nodes := if key in n.children then n.children[key].nodes else map[];
    conflicts := CollectReported(nodes);
    ReportedIsExact(n, key, nodes, live, pos);
  }

  lemma TwoOrMore<T>(s: set<T>, x: T)
    requires x in s
    ensures |s| > 1 <==> exists y :: y in s && y != x
  {
    assert s == {x} + (s - {x});
    if y :| y in s && y != x {
      assert s - {x} == {y} + (s - {x, y});
    }
  }

  /** A second known type at the field means a path that uses it as the other type. */
  lemma TypesDisagree(n: Tree, live: set<Entry>, pos: seq<Step>, e: Entry)
    requires RefersExactly(n.referencedBy, live, pos) && BranchesExactly(n, live, pos)
    requires e in live && pos < e.steps && !e.steps[|pos|].kind.Unknown?
    ensures HasChild(n, e.steps[|pos|])
    ensures |n.children[e.steps[|pos|].key].nodes.Keys - {Unknown}| > 1
       <==> exists f, s :: f in live && Continues(f, pos, s) && s.key == e.steps[|pos|].key &&
                           s.kind != e.steps[|pos|].kind && !s.kind.Unknown?
  {
    var s := e.steps[|pos|];
    assert Continues(e, pos, s);
    var types := n.children[s.key].nodes.Keys - {Unknown};
    TwoOrMore(types, s.kind);
    if u :| u in types && u != s.kind {
      assert HasChild(n, Step(s.key, u));
      var f :| f in live && Continues(f, pos, Step(s.key, u));
    }
    if f, u :| f in live && Continues(f, pos, u) && u.key == s.key && u.kind != s.kind && !u.kind.Unknown? {
      assert HasChild(n, u);
      assert u.kind in types;
    }
  }

  /** A list node with a second child means a path that uses another key field. */
  lemma KeyFieldsDisagree(child: Tree, live: set<Entry>, at: seq<Step>, e: Entry)
    requires BranchesExactly(child, live, at)
    requires e in live && at < e.steps
    ensures |child.children| > 1
       <==> exists f, s :: f in live && Continues(f, at, s) && s.key != e.steps[|at|].key
  {
    var s := e.steps[|at|];
    assert Continues(e, at, s);
    assert HasChild(child, s);
    TwoOrMore(child.children.Keys, s.key);
    if k :| k in child.children.Keys && k != s.key {
      var t :| t in child.children[k].nodes;
      assert HasChild(child, Step(k, t));
    }
    if f, u :| f in live && Continues(f, at, u) && u.key != s.key {
      assert HasChild(child, u);
      assert u.key in child.children.Keys;
    }
  }

  /** What ConflictAt says of two paths that both continue from pos. */
  lemma ConflictBelow(pos: seq<Step>, e: Entry, f: Entry)
    requires WellTyped(e.steps) && WellTyped(f.steps) && pos < e.steps
    ensures ConflictAt(e.steps, f.steps, |pos|) <==>
            && pos < f.steps
            && e.steps[|pos|].key == f.steps[|pos|].key
            && !e.steps[|pos|].kind.Unknown? && !f.steps[|pos|].kind.Unknown?
            && (|| e.steps[|pos|].kind != f.steps[|pos|].kind
                || (&& e.steps[|pos|].kind.ListNode?
                    && e.steps[|pos| + 1].key != f.steps[|pos| + 1].key))
  {
    assert e.steps[..|pos|] == pos;
  }

  /** A type is reported iff each path using it disagrees with some live path. */
  lemma ReportedMeansDisagrees(n: Tree, live: set<Entry>, pos: seq<Step>, e: Entry)
    requires IsTrie(n, live, pos) && AllWellTyped(live)
    requires e in live && pos < e.steps
    ensures HasChild(n, e.steps[|pos|])
    ensures Reported(n.children[e.steps[|pos|].key].nodes, e.steps[|pos|].kind) <==> Disagrees(live, e, pos)
  {
    var s := e.steps[|pos|];
    assert Continues(e, pos, s);
    if !s.kind.Unknown? {
      TypesDisagree(n, live, pos, e);
      var at := pos + [s];
      ContinuesMeansVisits(e, pos, s);
      assert WellTyped(e.steps);
      assert at < e.steps;
      KeyFieldsDisagree(Child(n, s), live, at, e);
      forall f | f in live
        ensures ConflictAt(e.steps, f.steps, |pos|) <==>
                || (exists u :: Continues(f, pos, u) && u.key == s.key && u.kind != s.kind && !u.kind.Unknown?)
                || (s.kind.ListNode? && exists u :: Continues(f, at, u) && u.key != e.steps[|at|].key)
      {
        ConflictBelow(pos, e, f);
        ContinuesMeansVisits(f, pos, s);
        assert WellTyped(f.steps);
        if pos < f.steps {
          assert Continues(f, pos, f.steps[|pos|]);
        }
        if at < f.steps {
          assert Continues(f, at, f.steps[|at|]);
        }
      }
    } else if f :| f in live && ConflictAt(e.steps, f.steps, |pos|) {
      assert false;
    }
  }

  lemma ReportedIsExact(n: Tree, key: string, nodes: map<NodeType, Tree>, live: set<Entry>, pos: seq<Step>)
    requires IsTrie(n, live, pos) && AllWellTyped(live)
    requires nodes == if key in n.children then n.children[key].nodes else map[]
    ensures ReportedIds(nodes, nodes.Keys) == ConflictsAt(live, pos, key)
  {
    forall id | id in ReportedIds(nodes, nodes.Keys)
      ensures id in ConflictsAt(live, pos, key)
    {
      var t :| t in nodes && Reported(nodes, t) && id in nodes[t].referencedBy;
      var s := Step(key, t);
      assert HasChild(n, s) && nodes[t] == Child(n, s);
      var e :| e in live && Visits(e, pos + [s]) && e.id == id;
      ContinuesMeansVisits(e, pos, s);
      ReportedMeansDisagrees(n, live, pos, e);
    }
    forall id | id in ConflictsAt(live, pos, key)
      ensures id in ReportedIds(nodes, nodes.Keys)
    {
      var e :| e in live && Disagrees(live, e, pos) && e.steps[|pos|].key == key && e.id == id;
      var s := e.steps[|pos|];
      ReportedMeansDisagrees(n, live, pos, e);
      assert Continues(e, pos, s);
      ContinuesMeansVisits(e, pos, s);
      assert id in nodes[s.kind].referencedBy;
    }
  }

  /***** node.Add *****/

  function SetChild(n: Tree, s: Step, child: Tree): Tree {
    var nodes := if s.key in n.children then n.children[s.key].nodes else map[];
    n.(children := n.children[s.key := ByType(nodes[s.kind := child])])
  }

  ghost predicate NoEmptyKey(n: Tree) {
    forall k :: k in n.children ==> n.children[k].nodes != map[]
  }

  lemma SetChildFrame(n: Tree, s: Step, child: Tree, r: Tree)
    requires NoEmptyKey(n) && r.children == SetChild(n, s, child).children
    ensures HasChild(r, s) && Child(r, s) == child && DiffersAt(n, r, s)
  {
  }

  /** The child at s removed, and its key with it if that was its last child. */
  function DropChild(n: Tree, s: Step): Tree
    requires s.key in n.children
  {
    var nodes := n.children[s.key].nodes - {s.kind};
    if nodes == map[] then n.(children := n.children - {s.key})
    else n.(children := n.children[s.key := ByType(nodes)])
  }

  lemma DropChildFrame(n: Tree, s: Step, r: Tree)
    requires NoEmptyKey(n) && HasChild(n, s) && r.children == DropChild(n, s).children
    ensures !HasChild(r, s) && DiffersAt(n, r, s)
  {
    var nodes := n.children[s.key].nodes - {s.kind};
    forall u: Step | u != s
      ensures HasChild(r, u) <==> HasChild(n, u)
      ensures HasChild(n, u) ==> Child(r, u) == Child(n, u)
    {
      if u.key == s.key {
        assert u.kind in nodes <==> u.kind in n.children[s.key].nodes;
      }
    }
  }

  /** The conflicts at every position the path p visits from depth on. */
  ghost function ConflictsAlong(live: set<Entry>, p: seq<Step>, depth: nat): set<ID>
    requires depth <= |p|
    decreases |p| - depth
  {
    if depth == |p| then {}
    else ConflictsAt(live, p[..depth], p[depth].key) + ConflictsAlong(live, p, depth + 1)
  }

  lemma EncodeStep(path: Path, pos: seq<Step>)
    requires path != []
    ensures var s := Step(Key(path[0]), HeadType(path));
            && pos + Encode(path) == pos + [s] + Encode(path[1..])
            && (pos + Encode(path))[|pos|] == s
            && (pos + Encode(path))[..|pos|] == pos
            && pos < pos + Encode(path)
  {
  }

  /**
   * Inserts the path of id and returns every ID that is now in a conflict at a position the path
   * visits. The source's nil result is the empty set.
   */
  method Add(n: Tree, id: ID, path: Path, ghost live: set<Entry>, ghost pos: seq<Step>)
    returns (r: Tree, conflicts: set<ID>)
    requires IsTrie(n, live, pos) && AllWellTyped(live)
    requires WellTyped(pos + Encode(path))
    ensures IsTrie(r, live + {Entry(id, pos + Encode(path))}, pos)
    ensures conflicts == ConflictsAlong(live + {Entry(id, pos + Encode(path))}, pos + Encode(path), |pos|)
    decreases |path|
  {
    ghost var x := Entry(id, pos + Encode(path));
    ghost var live' := live + {x};
    r := n.(referencedBy := n.referencedBy + {id});
    if |path| == 0 {
      AddHere(n, r, x, live, pos);
      return r, {};
    }
    var s := Step(Key(path[0]), HeadType(path));
    EncodeStep(path, pos);
    var child := ChildToAdd(n, s, live, pos);
    child, conflicts := Add(child, id, path[1..], live, pos + [s]);
    var here;
    r, here := Attach(r, n, s, child, x, live, pos);
    AlongStep(live', x.steps, |pos|);
    conflicts := conflicts + here;
  }

  /** The child that a step leads to, or a new one. */
  method ChildToAdd(n: Tree, s: Step, ghost live: set<Entry>, ghost pos: seq<Step>) returns (child: Tree)
    requires IsTrie(n, live, pos)
    ensures IsTrie(child, live, pos + [s])
  {
    var nodes := if s.key in n.children then n.children[s.key].nodes else map[];
    child := if s.kind in nodes then nodes[s.kind] else EMPTY;
    FreshOrOldChild(n, s, child, live, pos);
  }

  /** Stores the child back and looks for conflicts at its field. */
  method Attach(m: Tree, ghost n: Tree, s: Step, child: Tree, ghost x: Entry, ghost live: set<Entry>,
                ghost pos: seq<Step>)
    returns (r: Tree, here: set<ID>)
    requires IsTrie(n, live, pos) && Continues(x, pos, s) && m == n.(referencedBy := n.referencedBy + {x.id})
    requires IsTrie(child, live + {x}, pos + [s]) && AllWellTyped(live + {x})
    ensures IsTrie(r, live + {x}, pos) && here == ConflictsAt(live + {x}, pos, s.key)
  {
    r := SetChild(m, s, child);
    AddBelow(n, r, child, x, s, live, pos);
    here := Conflicts(r, s.key, live + {x}, pos);
  }

  lemma AlongStep(live: set<Entry>, p: seq<Step>, depth: nat)
    requires depth < |p|
    ensures ConflictsAlong(live, p, depth) ==
            ConflictsAt(live, p[..depth], p[depth].key) + ConflictsAlong(live, p, depth + 1)
  {
  }

  lemma FreshOrOldChild(n: Tree, s: Step, child: Tree, live: set<Entry>, pos: seq<Step>)
    requires IsTrie(n, live, pos)
    requires child == if HasChild(n, s) then Child(n, s) else EMPTY
    ensures IsTrie(child, live, pos + [s])
  {
    if !HasChild(n, s) {
      forall e | e in live
        ensures !Visits(e, pos + [s])
      {
        ContinuesMeansVisits(e, pos, s);
      }
      assert forall e, u :: Continues(e, pos + [s], u) ==> Visits(e, pos + [s]);
      assert forall u :: !HasChild(child, u);
    }
  }

  lemma AddHere(n: Tree, r: Tree, x: Entry, live: set<Entry>, pos: seq<Step>)
    requires IsTrie(n, live, pos) && x.steps == pos
    requires r == n.(referencedBy := n.referencedBy + {x.id})
    ensures IsTrie(r, live + {x}, pos)
  {
    forall s | HasChild(r, s)
      ensures IsTrie(Child(r, s), live + {x}, pos + [s])
    {
      assert Child(r, s) == Child(n, s);
      TrieFrame(Child(n, s), live, live + {x}, pos + [s]);
    }
    AddRefers(n, r, x, live, pos);
    forall s | HasChild(r, s)
      ensures exists e :: e in live + {x} && Continues(e, pos, s)
    {
      assert HasChild(n, s);
      var e :| e in live && Continues(e, pos, s);
      assert e in live + {x};
    }
  }

  lemma AddBelow(n: Tree, r: Tree, child: Tree, x: Entry, s: Step, live: set<Entry>, pos: seq<Step>)
    requires IsTrie(n, live, pos) && Continues(x, pos, s)
    requires r == SetChild(n.(referencedBy := n.referencedBy + {x.id}), s, child)
    requires IsTrie(child, live + {x}, pos + [s])
    ensures IsTrie(r, live + {x}, pos)
  {
    SetChildFrame(n, s, child, r);
    OtherChildrenKept(n, r, x, s, live, live + {x}, pos);
    AddRefers(n, r, x, live, pos);
    AddBranches(n, r, x, s, live, pos);
  }

  /** r has the children of n, and possibly another one at s, which is where x goes. */
  ghost predicate DiffersAt(n: Tree, r: Tree, s: Step) {
    && (forall u :: u != s ==> (HasChild(r, u) <==> HasChild(n, u)))
    && (forall u :: u != s && HasChild(n, u) ==> Child(r, u) == Child(n, u))
    && NoEmptyKey(r)
  }

  lemma OtherChildrenKept(n: Tree, r: Tree, x: Entry, s: Step, before: set<Entry>, after: set<Entry>, pos: seq<Step>)
    requires IsTrie(n, before, pos) && Continues(x, pos, s) && DiffersAt(n, r, s)
    requires forall e :: e != x ==> (e in before <==> e in after)
    ensures forall u :: u != s && HasChild(r, u) ==> IsTrie(Child(r, u), after, pos + [u])
  {
    forall u | u != s && HasChild(r, u)
      ensures IsTrie(Child(r, u), after, pos + [u])
    {
      ContinuesMeansVisits(x, pos, u);
      TrieFrame(Child(n, u), before, after, pos + [u]);
    }
  }

  lemma AddRefers(n: Tree, r: Tree, x: Entry, live: set<Entry>, pos: seq<Step>)
    requires RefersExactly(n.referencedBy, live, pos) && Visits(x, pos)
    requires r.referencedBy == n.referencedBy + {x.id}
    ensures RefersExactly(r.referencedBy, live + {x}, pos)
  {
    forall id | id in r.referencedBy
      ensures exists e :: e in live + {x} && Visits(e, pos) && e.id == id
    {
      if id != x.id {
        var e :| e in live && Visits(e, pos) && e.id == id;
        assert e in live + {x};
      } else {
        assert x in live + {x};
      }
    }
  }

  lemma AddBranches(n: Tree, r: Tree, x: Entry, s: Step, live: set<Entry>, pos: seq<Step>)
    requires BranchesExactly(n, live, pos) && Continues(x, pos, s)
    requires DiffersAt(n, r, s) && HasChild(r, s)
    ensures BranchesExactly(r, live + {x}, pos)
  {
    forall u | HasChild(r, u)
      ensures exists e :: e in live + {x} && Continues(e, pos, u)
    {
      if u != s {
        var e :| e in live && Continues(e, pos, u);
        assert e in live + {x};
      } else {
        assert x in live + {x};
      }
    }
  }

  /***** node.Remove *****/

  /**
   * Removes the path of id. The source panics unless id references every position of path:
   * ok says that it does not panic.
   */
  method Remove(n: Tree, id: ID, path: Path, ghost live: set<Entry>, ghost pos: seq<Step>) returns (ok: bool, r: Tree)
    requires IsTrie(n, live, pos)
    ensures ok <==> exists e :: e in live && e.id == id && Visits(e, pos + Encode(path))
    ensures ok ==> r.referencedBy == n.referencedBy - {id}
    ensures Entry(id, pos + Encode(path)) in live && OnePath(live, id)
        ==> ok && IsTrie(r, live - {Entry(id, pos + Encode(path))}, pos)
    decreases |path|
  {
    ghost var x := Entry(id, pos + Encode(path));
    r := n;
    if id !in r.referencedBy {
      return false, r;
    }
    r := r.(referencedBy := r.referencedBy - {id});
    if |path| == 0 {
      if x in live && OnePath(live, id) {
        RemoveHere(n, r, x, live, pos);
      }
      return true, r;
    }
    var s := Step(Key(path[0]), HeadType(path));
    EncodeStep(path, pos);
    ghost var at := pos + [s];
    forall e | Visits(e, pos + Encode(path)) ensures Continues(e, pos, s) {
      assert e.steps[|pos|] == (pos + Encode(path))[|pos|];
    }
    if s.key !in r.children || s.kind !in r.children[s.key].nodes {
      return false, r;
    }
    var child := r.children[s.key].nodes[s.kind];
    ok, child := Remove(child, id, path[1..], live, at);
    if !ok {
      return;
    }
    if child.referencedBy == {} {
      r := r.(children := r.children[s.key := ByType(r.children[s.key].nodes - {s.kind})]);
      if r.children[s.key].nodes == map[] {
        r := r.(children := r.children - {s.key});
      }
      assert r.children == DropChild(n, s).children;
      DropChildFrame(n, s, r);
    } else {
      r := SetChild(r, s, child);
      SetChildFrame(n, s, child, r);
    }
    if x in live && OnePath(live, id) {
      RemoveBelow(n, r, child, x, s, live, pos);
    }
  }

  /** id is live with at most one path. */
  ghost predicate OnePath(live: set<Entry>, id: ID) {
    forall e, f :: e in live && f in live && e.id == id && f.id == id ==> e == f
  }

  lemma RefersWithout(n: Tree, r: Tree, x: Entry, live: set<Entry>, pos: seq<Step>)
    requires RefersExactly(n.referencedBy, live, pos) && x in live && OnePath(live, x.id)
    requires r.referencedBy == n.referencedBy - {x.id}
    ensures RefersExactly(r.referencedBy, live - {x}, pos)
  {
  }

  lemma RemoveHere(n: Tree, r: Tree, x: Entry, live: set<Entry>, pos: seq<Step>)
    requires IsTrie(n, live, pos) && x.steps == pos && x in live && OnePath(live, x.id)
    requires r == n.(referencedBy := n.referencedBy - {x.id})
    ensures IsTrie(r, live - {x}, pos)
  {
    forall s | HasChild(r, s)
      ensures IsTrie(Child(r, s), live - {x}, pos + [s])
    {
      assert Child(r, s) == Child(n, s);
      TrieFrame(Child(n, s), live, live - {x}, pos + [s]);
    }
    RefersWithout(n, r, x, live, pos);
    assert BranchesExactly(r, live - {x}, pos) by {
      assert forall s :: HasChild(r, s) <==> HasChild(n, s);
    }
  }

  lemma RemoveBelow(n: Tree, r: Tree, child: Tree, x: Entry, s: Step, live: set<Entry>, pos: seq<Step>)
    requires IsTrie(n, live, pos) && x in live && OnePath(live, x.id) && Continues(x, pos, s)
    requires r.referencedBy == n.referencedBy - {x.id}
    requires IsTrie(child, live - {x}, pos + [s])
    requires HasChild(r, s) <==> child.referencedBy != {}
    requires HasChild(r, s) ==> Child(r, s) == child
    requires DiffersAt(n, r, s)
    ensures IsTrie(r, live - {x}, pos)
  {
    OtherChildrenKept(n, r, x, s, live, live - {x}, pos);
    RefersWithout(n, r, x, live, pos);
    RemoveBranches(n, r, child, x, s, live, pos);
  }

  lemma RemoveBranches(n: Tree, r: Tree, child: Tree, x: Entry, s: Step, live: set<Entry>, pos: seq<Step>)
    requires BranchesExactly(n, live, pos) && Continues(x, pos, s)
    requires RefersExactly(child.referencedBy, live - {x}, pos + [s])
    requires HasChild(r, s) <==> child.referencedBy != {}
    requires DiffersAt(n, r, s)
    ensures BranchesExactly(r, live - {x}, pos)
  {
    forall e, u | e in live - {x} && Continues(e, pos, u)
      ensures HasChild(r, u)
    {
      if u == s {
        ContinuesMeansVisits(e, pos, s);
        assert e.id in child.referencedBy;
      }
    }
    forall u | HasChild(r, u)
      ensures exists e :: e in live - {x} && Continues(e, pos, u)
    {
      if u == s {
        var id :| id in child.referencedBy;
        var e :| e in live - {x} && Visits(e, pos + [s]) && e.id == id;
        ContinuesMeansVisits(e, pos, s);
      } else {
        var e :| e in live && Continues(e, pos, u);
        assert !Continues(x, pos, u);
      }
    }
  }

  /***** node.HasConflicts *****/

  datatype ConflictCheck = Known(hasConflicts: bool) | NotFound

  /** Some live path goes on from pos through the field key. */
  ghost predicate FieldExists(live: set<Entry>, pos: seq<Step>, key: string) {
    exists e, s :: e in live && Continues(e, pos, s) && s.key == key
  }

  /** What HasConflicts answers, in terms of the live paths. */
  ghost function ConflictCheckFrom(live: set<Entry>, p: seq<Step>, depth: nat): ConflictCheck
    requires depth <= |p|
    decreases |p| - depth
  {
    if depth == |p| then Known(false)
    else if !FieldExists(live, p[..depth], p[depth].key) then NotFound
    else if ConflictsAt(live, p[..depth], p[depth].key) != {} then Known(true)
    else if !exists e :: e in live && Visits(e, p[..depth + 1]) then NotFound
    else ConflictCheckFrom(live, p, depth + 1)
  }

  method HasConflicts(n: Tree, path: Path, ghost live: set<Entry>, ghost pos: seq<Step>) returns (r: ConflictCheck)
    requires IsTrie(n, live, pos) && AllWellTyped(live)
    ensures r == ConflictCheckFrom(live, pos + Encode(path), |pos|)
    decreases |path|
  {
    if |path| == 0 {
      return Known(false);
    }
    var s := Step(Key(path[0]), HeadType(path));
    EncodeStep(path, pos);
    ghost var p := pos + Encode(path);
    assert p[..|pos| + 1] == pos + [s];
    forall e ensures Continues(e, pos, s) <==> Visits(e, pos + [s]) {
      ContinuesMeansVisits(e, pos, s);
    }
    if s.key !in n.children {
      assert forall u: Step :: u.key == s.key ==> !HasChild(n, u);
      return NotFound;
    }
    assert FieldExists(live, pos, s.key) by {
      var t :| t in n.children[s.key].nodes;
      assert HasChild(n, Step(s.key, t));
    }
    var conflicts := Conflicts(n, s.key, live, pos);
    if |conflicts| > 0 {
      return Known(true);
    }
    if s.kind !in n.children[s.key].nodes {
      assert !HasChild(n, s);
      return NotFound;
    }
    assert HasChild(n, s);
    r := HasConflicts(n.children[s.key].nodes[s.kind], path[1..], live, pos + [s]);
  }
}
