/**
 * The engine as the source runs it. A JSON map is a reference into the heap and is written in
 * place; a list is a value that is copied before an element is replaced or appended.
 */
module EngineHeap {
  import opened Types
  import opened PathAst
  import opened Json
  import opened Engine

  /** An interface{}: a scalar, a reference to a map, or a slice. */
  datatype Val = Scalar(json: Json) | Ref(addr: nat) | Slice(elems: seq<Val>)

  type Cells = map<nat, map<string, Val>>

  /** What a value in the heap looks like: its JSON tree, with the address of every map in it. */
  datatype Shape = SScalar(json: Json) | SObj(addr: nat, fields: map<string, Shape>) | SArr(elems: seq<Shape>)

  function Top(s: Shape): Val {
    match s
    case SScalar(j) => Scalar(j)
    case SObj(r, _) => Ref(r)
    case SArr(es) => Slice(Tops(es))
  }

  function Tops(es: seq<Shape>): (r: seq<Val>)
    ensures |r| == |es|
    ensures forall i :: 0 <= i < |es| ==> r[i] == Top(es[i])
  {
    if es == [] then [] else [Top(es[0])] + Tops(es[1..])
  }

  function Erase(s: Shape): Json {
    match s
    case SScalar(j) => j
    case SObj(_, fields) => Obj(map k | k in fields :: Erase(fields[k]))
    case SArr(es) => Arr(EraseAll(es))
  }

  function EraseAll(es: seq<Shape>): (r: seq<Json>)
    ensures |r| == |es|
    ensures forall i :: 0 <= i < |es| ==> r[i] == Erase(es[i])
  {
    if es == [] then [] else [Erase(es[0])] + EraseAll(es[1..])
  }

  function Refs(s: Shape): set<nat> {
    match s
    case SScalar(_) => {}
    case SObj(r, fields) => {r} + set k, x | k in fields && x in Refs(fields[k]) :: x
    case SArr(es) => set i, x | 0 <= i < |es| && x in Refs(es[i]) :: x
  }

  /** No map is reachable in two ways, and scalars are scalars. */
  ghost predicate IsTree(s: Shape) {
    match s
    case SScalar(j) => !j.Obj? && !j.Arr?
    case SObj(r, fields) =>
      && (forall k :: k in fields ==> IsTree(fields[k]) && r !in Refs(fields[k]))
      && (forall k, l :: k in fields && l in fields && k != l ==> Refs(fields[k]) !! Refs(fields[l]))
    case SArr(es) =>
      && (forall i :: 0 <= i < |es| ==> IsTree(es[i]))
      && (forall i, j :: 0 <= i < j < |es| ==> Refs(es[i]) !! Refs(es[j]))
  }

  /** The heap holds s. */
  ghost predicate Holds(cells: Cells, s: Shape) {
    match s
    case SScalar(_) => true
    case SObj(r, fields) =>
      && r in cells
      && cells[r].Keys == fields.Keys
      && (forall k :: k in fields ==> cells[r][k] == Top(fields[k]) && Holds(cells, fields[k]))
    case SArr(es) => forall i :: 0 <= i < |es| ==> Holds(cells, es[i])
  }

  /** Every old map is still there, and only those in touched may differ. */
  ghost predicate Framed(before: Cells, after: Cells, touched: set<nat>) {
    forall r :: r in before ==> r in after && (r !in touched ==> after[r] == before[r])
  }

  lemma {:induction false} HoldsIsFramed(before: Cells, after: Cells, touched: set<nat>, s: Shape)
    requires Holds(before, s) && Framed(before, after, touched) && Refs(s) !! touched
    ensures Holds(after, s)
    decreases s
  {
    match s
    case SScalar(_) =>
    case SObj(r, fields) =>
      forall k | k in fields ensures Holds(after, fields[k]) {
        HoldsIsFramed(before, after, touched, fields[k]);
      }
    case SArr(es) =>
      forall i | 0 <= i < |es| ensures Holds(after, es[i]) {
        HoldsIsFramed(before, after, touched, es[i]);
      }
  }

  lemma {:induction false} RefsAreCells(cells: Cells, s: Shape)
    requires Holds(cells, s)
    ensures Refs(s) <= cells.Keys
    decreases s
  {
    match s
    case SScalar(_) =>
    case SObj(r, fields) =>
      forall k | k in fields ensures Refs(fields[k]) <= cells.Keys {
        RefsAreCells(cells, fields[k]);
      }
    case SArr(es) =>
      forall i | 0 <= i < |es| ensures Refs(es[i]) <= cells.Keys {
        RefsAreCells(cells, es[i]);
      }
  }

  ghost predicate Allocated(cells: Cells, next: nat) {
    forall r :: r in cells ==> r < next
  }

  /** The references of s are among old, or were allocated at or after from. */
  ghost predicate OldOrNew(s: Shape, old': set<nat>, from: nat) {
    forall x :: x in Refs(s) ==> x in old' || x >= from
  }

  /** The fields other than name are as the heap holds them at r, and share nothing. */
  ghost predicate OtherFields(cells: Cells, r: nat, fields: map<string, Shape>, name: string) {
    && r in cells
    && (forall k :: k in fields && k != name ==>
          && k in cells[r] && cells[r][k] == Top(fields[k])
          && IsTree(fields[k]) && Holds(cells, fields[k]) && r !in Refs(fields[k]))
    && (forall k, l :: k in fields && l in fields && k != l && k != name && l != name ==>
          Refs(fields[k]) !! Refs(fields[l]))
  }

  ghost predicate ApartFrom(fields: map<string, Shape>, name: string, refs: set<nat>) {
    forall k :: k in fields && k != name ==> Refs(fields[k]) !! refs
  }

  /** A field of an object replaced. */
  lemma FieldReplaced(cells: Cells, r: nat, fields: map<string, Shape>, name: string, s: Shape)
    requires OtherFields(cells, r, fields, name) && ApartFrom(fields, name, Refs(s))
    requires IsTree(s) && Holds(cells, s) && r !in Refs(s)
    requires cells[r].Keys == fields.Keys + {name} && cells[r][name] == Top(s)
    ensures IsTree(SObj(r, fields[name := s])) && Holds(cells, SObj(r, fields[name := s]))
  {
    var after := fields[name := s];
    assert IsTree(SObj(r, after)) by {
      forall k, l | k in after && l in after && k != l ensures Refs(after[k]) !! Refs(after[l]) {
      }
    }
  }

  lemma EraseReplaced(r: nat, fields: map<string, Shape>, name: string, s: Shape)
    ensures Erase(SObj(r, fields[name := s])) == Obj(Erase(SObj(r, fields)).fields[name := Erase(s)])
  {
  }

  lemma RefsReplaced(r: nat, fields: map<string, Shape>, name: string, s: Shape, old': set<nat>, from: nat)
    requires Refs(SObj(r, fields)) <= old' && OldOrNew(s, old', from)
    ensures OldOrNew(SObj(r, fields[name := s]), old', from)
  {
  }

  datatype Ret = Err | Ret(mutated: bool, val: Val)

  const NOT_MUTATED := Ret(false, Scalar(Null))

  class Heap {
    var cells: Cells
    var next: nat

    ghost predicate Valid()
      reads this
    {
      Allocated(cells, next)
    }

    /** make(map[string]interface{}), with its first fields. */
    method Alloc(fields: map<string, Val>) returns (r: nat)
      requires Valid()
      modifies this
      ensures Valid() && r == old(next) && next == r + 1 && cells == old(cells)[r := fields]
    {
      r := next;
      cells := cells[r := fields];
      next := next + 1;
    }

    /** A deep copy of a JSON value, as Value() returns it: all its maps are new. */
    method Copy(j: Json) returns (v: Val, ghost s: Shape)
      requires Valid()
      modifies this
      ensures Valid() && old(next) <= next && Framed(old(cells), cells, {})
      ensures v == Top(s) && IsTree(s) && Holds(cells, s) && Erase(s) == j && OldOrNew(s, {}, old(next))
      decreases j, 1
    {
      match j
      case Obj(_) => v, s := CopyObject(j);
      case Arr(_) => v, s := CopyList(j);
      case _ => v, s := Scalar(j), SScalar(j);
    }

    method CopyObject(j: Json) returns (v: Val, ghost s: Shape)
      requires Valid() && j.Obj?
      modifies this
      ensures Valid() && old(next) <= next && Framed(old(cells), cells, {})
      ensures v == Top(s) && IsTree(s) && Holds(cells, s) && Erase(s) == j && OldOrNew(s, {}, old(next))
      decreases j, 0
    {
      var fields: map<string, Val> := map[];
      ghost var shapes: map<string, Shape> := map[];
      var todo := j.fields.Keys;
      while todo != {}
        invariant todo <= j.fields.Keys
        invariant Valid() && old(next) <= next && Framed(old(cells), cells, {})
        invariant shapes.Keys == j.fields.Keys - todo
        invariant CopiedFields(cells, fields, shapes, j.fields, old(next), next)
      {
        var k :| k in todo;
        ghost var before, from := cells, next;
        var w, t := Copy(j.fields[k]);
        RefsAreCells(cells, t);
        FieldCopied(before, cells, fields, shapes, j.fields, old(next), from, next, k, w, t);
        fields := fields[k := w];
        shapes := shapes[k := t];
        todo := todo - {k};
      }
      ghost var before := cells;
      var r := Alloc(fields);
      v, s := Ref(r), SObj(r, shapes);
      ObjectCopied(before, cells, r, fields, shapes, j, old(next));
    }

    method CopyList(j: Json) returns (v: Val, ghost s: Shape)
      requires Valid() && j.Arr?
      modifies this
      ensures Valid() && old(next) <= next && Framed(old(cells), cells, {})
      ensures v == Top(s) && IsTree(s) && Holds(cells, s) && Erase(s) == j && OldOrNew(s, {}, old(next))
      decreases j, 0
    {
      var vs: seq<Val> := [];
      ghost var shapes: seq<Shape> := [];
      for i := 0 to |j.elems|
        invariant Valid() && old(next) <= next && Framed(old(cells), cells, {})
        invariant |shapes| == |vs| == i
        invariant forall k :: 0 <= k < i ==> CopiedField(cells, vs[k], shapes[k], j.elems[k], old(next), next)
        invariant forall k, l :: 0 <= k < l < i ==> Refs(shapes[k]) !! Refs(shapes[l])
      {
        ghost var before, from := cells, next;
        var w, t := Copy(j.elems[i]);
        ListCopyKept(before, cells, vs, shapes, j.elems, old(next), from, next, t);
        RefsAreCells(cells, t);
        vs := vs + [w];
        shapes := shapes + [t];
      }
      v, s := Slice(vs), SArr(shapes);
      ListCopied(cells, vs, shapes, j, old(next), next);
    }

    /** The JSON value that v stands for, for the comparisons of the value test. */
    method Read(v: Val, ghost s: Shape) returns (j: Json)
      requires v == Top(s) && In(cells, s)
      ensures j == Erase(s)
      decreases s, 1
    {
      match v
      case Scalar(x) => j := x;
      case Ref(r) => j := ReadMap(r, s);
      case Slice(vs) => j := ReadSlice(vs, s);
    }

    method ReadMap(r: nat, ghost s: Shape) returns (j: Json)
      requires Ref(r) == Top(s) && In(cells, s)
      ensures j == Erase(s)
      decreases s, 0
    {
      var fields: map<string, Json> := map[];
      var todo := cells[r].Keys;
      while todo != {}
        invariant todo <= s.fields.Keys
        invariant fields.Keys == s.fields.Keys - todo
        invariant forall k :: k in fields ==> fields[k] == Erase(s.fields[k])
      {
        var k :| k in todo;
        var x := Read(cells[r][k], s.fields[k]);
        fields := fields[k := x];
        todo := todo - {k};
      }
      assert fields == Erase(s).fields;
      j := Obj(fields);
    }

    method ReadSlice(vs: seq<Val>, ghost s: Shape) returns (j: Json)
      requires Slice(vs) == Top(s) && In(cells, s)
      ensures j == Erase(s)
      decreases s, 0
    {
      var elems: seq<Json> := [];
      for i := 0 to |vs|
        invariant |elems| == i
        invariant forall k :: 0 <= k < i ==> elems[k] == Erase(s.elems[k])
      {
        var x := Read(vs[i], s.elems[i]);
        elems := elems + [x];
      }
      assert elems == Erase(s).elems;
      j := Arr(elems);
    }

    /** createMissingElement; None is its error. */
    method Create(m: Mutation, depth: nat) returns (v: Option<Val>, ghost s: Shape)
      requires Valid() && depth + 1 < |m.path|
      modifies this
      ensures Valid() && old(next) <= next && Framed(old(cells), cells, {})
      ensures v.Some? <==> CreateMissing(m, depth).Some?
      ensures v.Some? ==> v.value == Top(s) && In(cells, s) && OldOrNew(s, {}, old(next))
      ensures v.Some? ==> Erase(s) == CreateMissing(m, depth).value
    {
      var node := m.path[depth];
      if node.Object? && m.path[depth + 1].List? {
        s := SArr([]);
        return Some(Slice([])), s;
      }
      if node.Object? {
        var r := Alloc(map[]);
        s := SObj(r, map[]);
        EmptyObject(cells, r);
        return Some(Ref(r)), s;
      }
      if m.path[depth + 1].List? || node.keyValue.NoKey? {
        s := SArr([]);
        return None, s;
      }
      var key := KeyJson(node.keyValue);
      var r := Alloc(map[node.keyField := Scalar(key)]);
      s := SObj(r, map[node.keyField := SScalar(key)]);
      KeyedObject(cells, r, node.keyField, key);
      return Some(Ref(r)), s;
    }

    /** mutateInternal does in place what Update says of values. */
    method MutateInternal(m: Mutation, current: Val, depth: nat, ghost s: Shape) returns (r: Ret, ghost t: Shape)
      requires Valid() && current == Top(s) && In(cells, s)
      requires ParserShaped(m.path) && depth < |m.path|
      modifies this
      ensures Refines(m, depth, s, old(cells), old(next), r, t, cells, next)
      decreases |m.path| - depth, 3
    {
      t := s;
      if m.path[depth].Object? {
        if !current.Ref? {
          return Err, t;
        }
        r, t := MutateObject(m, current.addr, depth, s);
      } else {
        if !current.Slice? {
          return Err, t;
        }
        if depth + 1 == |m.path| {
          r, t := SetListElement(m, current.elems, depth, s);
        } else {
          r, t := MutateList(m, current.elems, depth, s);
        }
      }
    }

    method MutateObject(m: Mutation, addr: nat, depth: nat, ghost s: Shape) returns (r: Ret, ghost t: Shape)
      requires Valid() && Ref(addr) == Top(s) && In(cells, s)
      requires ParserShaped(m.path) && depth < |m.path| && m.path[depth].Object?
      modifies this
      ensures Refines(m, depth, s, old(cells), old(next), r, t, cells, next)
      decreases |m.path| - depth, 1
    {
      var name := m.path[depth].reference;
      var exists' := name in cells[addr];
      t := s;
      if !(if exists' then m.ExistsOkay(depth) else m.MissingOkay(depth)) {
        return NOT_MUTATED, t;
      }
      if depth + 1 == |m.path| {
        r, t := AssignField(m, addr, depth, s);
      } else {
        r, t := MutateField(m, addr, depth, s);
      }
    }

    /** The end of the path: the value is tested and written. */
    method AssignField(m: Mutation, addr: nat, depth: nat, ghost s: Shape) returns (r: Ret, ghost t: Shape)
      requires Valid() && Ref(addr) == Top(s) && In(cells, s)
      requires depth + 1 == |m.path| && m.path[depth].Object? && Passes(m, depth, s)
      modifies this
      ensures Refines(m, depth, s, old(cells), old(next), r, t, cells, next)
    {
      var name := m.path[depth].reference;
      t := s;
      var value: Option<Json> := None;
      if name in cells[addr] {
        var j := Read(cells[addr][name], s.fields[name]);
        value := Some(j);
      }
      assert value == Field(Erase(s), name);
      if !m.TestValue(value) {
        return NOT_MUTATED, t;
      }
      var v, child := Copy(m.value);
      WriteField(old(cells), old(next), cells, s, name, child);
      cells := cells[addr := cells[addr][name := v]];
      t := SObj(addr, s.fields[name := child]);
      return Ret(true, Ref(addr)), t;
    }

    /** Further down the path: the field, created if missing, is mutated and stored if it changed. */
    method MutateField(m: Mutation, addr: nat, depth: nat, ghost s: Shape) returns (r: Ret, ghost t: Shape)
      requires Valid() && Ref(addr) == Top(s) && In(cells, s)
      requires ParserShaped(m.path) && depth + 1 < |m.path| && m.path[depth].Object? && Passes(m, depth, s)
      modifies this
      ensures Refines(m, depth, s, old(cells), old(next), r, t, cells, next)
      decreases |m.path| - depth, 0
    {
      var name := m.path[depth].reference;
      t := s;
      var below;
      ghost var child: Shape;
      if name in cells[addr] {
        below, child := cells[addr][name], s.fields[name];
      } else {
        var created;
        created, child := Create(m, depth);
        below := created.value;
      }
      ghost var mid, from := cells, next;
      var sub, child' := MutateInternal(m, below, depth + 1, child);
      ChildFramed(old(cells), old(next), mid, from, cells, s, name, child, child', sub.Ret? && sub.mutated);
      FieldUpdate(m, depth, s, child);
      if sub.Err? {
        return Err, t;
      }
      if sub.mutated {
        WriteField(old(cells), old(next), cells, s, name, child');
        cells := cells[addr := cells[addr][name := sub.val]];
        t := SObj(addr, s.fields[name := child']);
        return Ret(true, Ref(addr)), t;
      }
      return Ret(false, Ref(addr)), t;
    }

    /** The element carries the key of the list node. */
    method Matches(node: Node, v: Val, ghost s: Shape) returns (r: bool)
      requires node.List? && v == Top(s) && In(cells, s)
      ensures r == HasKey(node, Erase(s))
    {
      r := v.Ref? && node.keyField in cells[v.addr] && cells[v.addr][node.keyField] == Scalar(KeyJson(node.keyValue));
      ErasedKind(s);
      if v.Ref? && node.keyField in s.fields {
        ErasedKind(s.fields[node.keyField]);
      }
    }

    method MutateList(m: Mutation, elems: seq<Val>, depth: nat, ghost s: Shape) returns (r: Ret, ghost t: Shape)
      requires Valid() && Slice(elems) == Top(s) && In(cells, s)
      requires ParserShaped(m.path) && depth + 1 < |m.path| && m.path[depth].List?
      modifies this
      ensures Refines(m, depth, s, old(cells), old(next), r, t, cells, next)
      decreases |m.path| - depth, 1
    {
      var node := m.path[depth];
      t := s;
      if node.glob && !m.ExistsOkay(depth) {
        return NOT_MUTATED, t;
      }
      var walk, ss := MutateSelected(m, elems, depth, s);
      if walk.Stopped? {
        ListStopped(m, depth, s);
        return NOT_MUTATED, t;
      }
      if walk.Broken? {
        ListBroken(m, depth, s);
        return Err, t;
      }
      if !node.glob && !walk.found {
        NothingWalked(m, depth, s, old(cells), cells, walk.mutated);
        ghost var mid := cells;
        ghost var from := next;
        r, t := MutateNewElement(m, elems, depth, s);
        RefinesAfter(m, depth, s, old(cells), old(next), mid, from, r, t, cells, next);
        return;
      }
      t := SArr(ss);
      ListWalked(m, depth, s, ss, walk, old(next));
      return Ret(walk.mutated, Slice(elems)), t;
    }

    /** No element carries the key: one is created, mutated and appended. */
    method MutateNewElement(m: Mutation, elems: seq<Val>, depth: nat, ghost s: Shape) returns (r: Ret, ghost t: Shape)
      requires Valid() && Slice(elems) == Top(s) && In(cells, s)
      requires ParserShaped(m.path) && depth + 1 < |m.path| && m.path[depth].List? && !m.path[depth].glob
      requires !SomeSelected(m, depth, s.elems, |s.elems|)
      modifies this
      ensures Refines(m, depth, s, old(cells), old(next), r, t, cells, next)
      decreases |m.path| - depth, 0
    {
      t := s;
      NoneSelected(m, depth, s);
      if !m.MissingOkay(depth) {
        return NOT_MUTATED, t;
      }
      var created, child := Create(m, depth);
      if created.None? {
        return Err, t;
      }
      r, t := AppendMutated(m, elems, created.value, depth, s, child, old(cells), old(next));
    }

    /** The created element, v, is mutated; if that changes it, it stays in the list. */
    method AppendMutated(m: Mutation, elems: seq<Val>, v: Val, depth: nat, ghost s: Shape, ghost child: Shape,
                         ghost cells0: Cells, ghost next0: nat)
      returns (r: Ret, ghost t: Shape)
      requires Valid() && Slice(elems) == Top(s) && In(cells0, s) && Allocated(cells0, next0)
      requires Framed(cells0, cells, {}) && next0 <= next
      requires v == Top(child) && In(cells, child) && OldOrNew(child, {}, next0)
      requires ParserShaped(m.path) && depth + 1 < |m.path| && m.path[depth].List? && !m.path[depth].glob
      requires m.MissingOkay(depth) && CreateMissing(m, depth) == Some(Erase(child))
      requires forall e :: e in EraseAll(s.elems) ==> !HasKey(m.path[depth], e)
      modifies this
      ensures Refines(m, depth, s, cells0, next0, r, t, cells, next)
      decreases |m.path| - depth - 1, 4
    {
      t := s;
      ghost var mid, from := cells, next;
      var sub, child' := MutateInternal(m, v, depth + 1, child);
      NewFramed(cells0, next0, mid, from, cells, s, child, child', sub.Ret? && sub.mutated);
      AppendUpdate(m, depth, s, child);
      if sub.Err? {
        return Err, t;
      }
      if sub.mutated {
        ListAppended(cells0, next0, cells, s, child');
        t := SArr(s.elems + [child']);
      }
      return Ret(sub.mutated, Slice(elems + [v])), t;
    }

    /** setListElementToValue: the first element with the key is replaced, or the value appended. */
    method SetListElement(m: Mutation, elems: seq<Val>, depth: nat, ghost s: Shape) returns (r: Ret, ghost t: Shape)
      requires Valid() && Slice(elems) == Top(s) && In(cells, s)
      requires depth + 1 == |m.path| && m.path[depth].List?
      modifies this
      ensures Refines(m, depth, s, old(cells), old(next), r, t, cells, next)
      decreases |m.path| - depth, 1
    {
      var node := m.path[depth];
      t := s;
      if node.glob {
        return Err, t;
      }
      var v, c := Copy(m.value);
      ErasedKind(c);
      if !v.Ref? || node.keyValue.NoKey? {
        return Err, t;
      }
      HoldsIsFramed(old(cells), cells, {}, s);
      var find := FindElement(node, elems, s);
      match find {
        case NotAMap =>
          return Err, t;
        case At(i) =>
          var sameKey := Matches(node, v, c);
          if !sameKey {
            return Err, t;
          }
          if !m.ExistsOkay(depth) {
            return NOT_MUTATED, t;
          }
          ListReplaced(old(cells), old(next), cells, s, i, c);
          t := SArr(s.elems[i := c]);
          return Ret(true, Slice(elems[i := v])), t;
        case Missing =>
          if !m.MissingOkay(depth) {
            return NOT_MUTATED, t;
          }
          ListAppended(old(cells), old(next), cells, s, c);
          t := SArr(s.elems + [c]);
          return Ret(true, Slice(elems + [v])), t;
      }
    }

    method Probe(node: Node, elems: seq<Val>, i: nat, ghost s: Shape) returns (isMap: bool, matches: bool)
      requires node.List? && Slice(elems) == Top(s) && In(cells, s) && i < |elems|
      ensures i < |EraseAll(s.elems)|
      ensures isMap <==> EraseAll(s.elems)[i].Obj?
      ensures matches <==> HasKey(node, EraseAll(s.elems)[i])
    {
      ErasedKind(s.elems[i]);
      isMap := elems[i].Ref?;
      matches := Matches(node, elems[i], s.elems[i]);
    }

    /** The search loop of setListElementToValue. */
    method FindElement(node: Node, elems: seq<Val>, ghost s: Shape) returns (find: Find)
      requires node.List? && Slice(elems) == Top(s) && In(cells, s)
      ensures FindKey(node, EraseAll(s.elems), 0) == if find.At? then Some(find.index) else None
      ensures find.NotAMap? ==> exists e :: e in EraseAll(s.elems) && !e.Obj?
      ensures find.Missing? ==> forall e :: e in EraseAll(s.elems) ==> e.Obj?
    {
      ghost var js := EraseAll(s.elems);
      for i := 0 to |elems|
        invariant PassedOver(node, js, i)
      {
        var isMap, matches := Probe(node, elems, i, s);
        if !isMap {
          FindsNoMap(node, js, i);
          return NotAMap;
        }
        if matches {
          FoundAt(node, js, i, 0);
          return At(i);
        }
        PassedOne(node, js, i);
      }
      FindsNothing(node, js);
      return Missing;
    }

    /**
     * The loop over the elements. What the recursive calls return is dropped: the elements are
     * maps, so the list of references, elems, still names the changed ones.
     */
    method MutateSelected(m: Mutation, elems: seq<Val>, depth: nat, ghost s: Shape)
      returns (walk: Walk, ghost ss: seq<Shape>)
      requires Valid() && Slice(elems) == Top(s) && In(cells, s)
      requires ParserShaped(m.path) && depth + 1 < |m.path| && m.path[depth].List?
      requires m.path[depth].glob ==> m.ExistsOkay(depth)
      modifies this
      ensures Valid() && old(next) <= next && Framed(old(cells), cells, Refs(s))
      ensures WalkOf(m, depth, s.elems, walk)
      ensures walk.Stopped? || (walk.Walked? && !walk.mutated) ==> Framed(old(cells), cells, {})
      ensures walk.Walked? ==> Updated(m, depth, s.elems, ss, |elems|) && Kept(s.elems, ss, old(next))
      ensures walk.Walked? ==> In(cells, SArr(ss)) && Tops(ss) == elems
      decreases |m.path| - depth, 0
    {
      var mutated, found := false, false;
      ss := s.elems;
      for i := 0 to |elems|
        invariant InLoop(m, depth, s, ss, elems, i, old(cells), old(next), cells, next, mutated, found)
      {
        var walk', ss' := MutateElement(m, elems, depth, i, mutated, found, s, ss, old(cells), old(next));
        ss := ss';
        if !walk'.Walked? {
          return walk', ss;
        }
        mutated, found := walk'.mutated, walk'.found;
      }
      return Walked(mutated, found), ss;
    }

    /** One round of the loop. */
    method MutateElement(m: Mutation, elems: seq<Val>, depth: nat, i: nat, mutated: bool, found: bool,
                         ghost s: Shape, ghost ss: seq<Shape>, ghost cells0: Cells, ghost next0: nat)
      returns (walk: Walk, ghost ss': seq<Shape>)
      requires ParserShaped(m.path) && depth + 1 < |m.path| && m.path[depth].List?
      requires m.path[depth].glob ==> m.ExistsOkay(depth)
      requires s.SArr? && IsTree(s) && i < |elems| == |s.elems|
      requires InLoop(m, depth, s, ss, elems, i, cells0, next0, cells, next, mutated, found)
      modifies this
      ensures Valid() && next0 <= next && Framed(cells0, cells, Refs(s))
      ensures walk.Stopped? ==> Framed(cells0, cells, {})
      ensures walk.Stopped? ==> !m.ExistsOkay(depth) && Selects(m.path[depth], Erase(s.elems[i]))
      ensures walk.Broken? ==> m.ExistsOkay(depth) && UpdateElem(m, Erase(s.elems[i]), depth).Error?
      ensures walk.Walked? ==>
                InLoop(m, depth, s, ss', elems, i + 1, cells0, next0, cells, next, walk.mutated, walk.found)
      decreases |m.path| - depth - 1, 4
    {
      var node := m.path[depth];
      ss' := ss;
      assert In(cells, ss[i]) && ss[i] == s.elems[i] && elems[i] == Top(ss[i]);
      var matches := node.glob;
      if !matches {
        matches := Matches(node, elems[i], ss[i]);
      }
      if !matches {
        RoundSkipped(m, depth, s, ss, elems, i, cells0, next0, cells, next, mutated, found);
        return Walked(mutated, found), ss';
      }
      if !m.ExistsOkay(depth) {
        assert !found;
        return Stopped, ss';
      }
      ghost var before, from := cells, next;
      var sub, t := MutateInternal(m, elems[i], depth + 1, ss[i]);
      ElemFramed(cells0, before, cells, s, i);
      if sub.Err? {
        return Broken, ss';
      }
      ss' := if sub.mutated then ss[i := t] else ss;
      RoundDone(m, depth, s, ss, elems, i, cells0, next0, before, from, cells, next, mutated, found, sub, t);
      return Walked(mutated || sub.mutated, true), ss';
    }

    /**
     * core.Mutate on the map at root. Without an error the map is still at root and holds the
     * updated value; if nothing was mutated, no map changed at all.
     */
    method Mutate(m: Mutation, root: nat, ghost s: Shape) returns (r: Option<bool>, ghost t: Shape)
      requires Valid() && Ref(root) == Top(s) && In(cells, s) && ParserShaped(m.path)
      modifies this
      ensures Valid()
      ensures r.None? <==> m.path == [] || Update(m, Erase(s), 0).Error?
      ensures r.Some? ==> Ref(root) == Top(t) && In(cells, t)
      ensures r.Some? && r.value ==> Update(m, Erase(s), 0) == Changed(Erase(t))
      ensures r.Some? && !r.value ==> Update(m, Erase(s), 0) == Unchanged && t == s && Framed(old(cells), cells, {})
    {
      t := s;
      if |m.path| == 0 {
        return None, t;
      }
      var ret, t' := MutateInternal(m, Ref(root), 0, s);
      if ret.Err? {
        return None, t;
      }
      if ret.mutated {
        t := t';
      } else {
        HoldsIsFramed(old(cells), cells, {}, s);
      }
      return Some(ret.mutated), t;
    }

    /** After a run that updates the object, a second one succeeds and leaves it as it is. */
    method MutateTwice(m: Mutation, root: nat, ghost s: Shape)
      returns (first: Option<bool>, second: Option<bool>, ghost t: Shape, ghost u: Shape)
      requires Valid() && Ref(root) == Top(s) && In(cells, s) && WellFormed(m)
      modifies this
      ensures first.None? <==> Update(m, Erase(s), 0).Error?
      ensures first.Some? ==> first.value == Update(m, Erase(s), 0).Changed?
      ensures first.Some? ==> Erase(t) == if first.value then Update(m, Erase(s), 0).value else Erase(s)
      ensures first.Some? ==> second == Some(Update(m, Erase(t), 0).Changed?)
      ensures first.Some? ==> Ref(root) == Top(u) && In(cells, u) && Erase(u) == Erase(t)
    {
      first, t := Mutate(m, root, s);
      second, u := first, t;
      if first.Some? {
        if first.value {
          UpdateIsIdempotent(m, Erase(s), 0);
        }
        assert Stable(m, Erase(t), 0);
        second, u := Mutate(m, root, t);
      }
    }
  }

  ghost predicate CopiedField(cells: Cells, v: Val, s: Shape, j: Json, from: nat, next: nat) {
    && v == Top(s) && IsTree(s) && Holds(cells, s) && Erase(s) == j
    && (forall x :: x in Refs(s) ==> from <= x < next)
  }

  lemma OneCopyKept(before: Cells, cells: Cells, v: Val, s: Shape, j: Json, from: nat, mid: nat, next: nat, t: Shape)
    requires CopiedField(before, v, s, j, from, mid) && Framed(before, cells, {}) && mid <= next
    requires OldOrNew(t, {}, mid)
    ensures CopiedField(cells, v, s, j, from, next) && Refs(s) !! Refs(t)
  {
    HoldsIsFramed(before, cells, {}, s);
  }

  /** The copied fields share nothing. */
  ghost predicate CopiedFields(cells: Cells, fields: map<string, Val>, shapes: map<string, Shape>,
                               js: map<string, Json>, from: nat, next: nat) {
    && shapes.Keys == fields.Keys <= js.Keys
    && (forall k :: k in shapes ==> CopiedField(cells, fields[k], shapes[k], js[k], from, next))
    && (forall k, l :: k in shapes && l in shapes && k != l ==> Refs(shapes[k]) !! Refs(shapes[l]))
  }

  lemma FieldCopied(before: Cells, cells: Cells, fields: map<string, Val>, shapes: map<string, Shape>,
                    js: map<string, Json>, from: nat, mid: nat, next: nat, name: string, v: Val, t: Shape)
    requires CopiedFields(before, fields, shapes, js, from, mid) && Framed(before, cells, {}) && from <= mid <= next
    requires name in js && name !in shapes && OldOrNew(t, {}, mid)
    requires CopiedField(cells, v, t, js[name], from, next)
    ensures CopiedFields(cells, fields[name := v], shapes[name := t], js, from, next)
  {
    CopyKept(before, cells, fields, shapes, js, from, mid, next, t);
  }

  lemma ObjectCopied(before: Cells, cells: Cells, r: nat, fields: map<string, Val>, shapes: map<string, Shape>,
                     j: Json, from: nat)
    requires j.Obj? && shapes.Keys == j.fields.Keys && CopiedFields(before, fields, shapes, j.fields, from, r)
    requires Allocated(before, r) && from <= r && cells == before[r := fields]
    ensures var s := SObj(r, shapes); IsTree(s) && Holds(cells, s) && Erase(s) == j && OldOrNew(s, {}, from)
  {
    CopyKept(before, cells, fields, shapes, j.fields, from, r, r, SScalar(Null));
    assert Erase(SObj(r, shapes)).fields == j.fields;
  }

  lemma ListCopyKept(before: Cells, cells: Cells, vs: seq<Val>, shapes: seq<Shape>, js: seq<Json>,
                     from: nat, mid: nat, next: nat, t: Shape)
    requires |shapes| == |vs| <= |js| && Framed(before, cells, {}) && mid <= next && OldOrNew(t, {}, mid)
    requires forall k :: 0 <= k < |vs| ==> CopiedField(before, vs[k], shapes[k], js[k], from, mid)
    ensures forall k :: 0 <= k < |vs| ==>
              CopiedField(cells, vs[k], shapes[k], js[k], from, next) && Refs(shapes[k]) !! Refs(t)
  {
    forall k | 0 <= k < |vs|
      ensures CopiedField(cells, vs[k], shapes[k], js[k], from, next) && Refs(shapes[k]) !! Refs(t)
    {
      OneCopyKept(before, cells, vs[k], shapes[k], js[k], from, mid, next, t);
    }
  }

  lemma ListCopied(cells: Cells, vs: seq<Val>, shapes: seq<Shape>, j: Json, from: nat, next: nat)
    requires j.Arr? && |shapes| == |vs| == |j.elems|
    requires forall k :: 0 <= k < |vs| ==> CopiedField(cells, vs[k], shapes[k], j.elems[k], from, next)
    requires forall k, l :: 0 <= k < l < |vs| ==> Refs(shapes[k]) !! Refs(shapes[l])
    ensures Slice(vs) == Top(SArr(shapes)) && IsTree(SArr(shapes)) && Holds(cells, SArr(shapes))
    ensures Erase(SArr(shapes)) == j && OldOrNew(SArr(shapes), {}, from)
  {
    assert Tops(shapes) == vs;
    assert EraseAll(shapes) == j.elems;
  }

  /** A new map. */
  lemma EmptyObject(cells: Cells, r: nat)
    requires r in cells && cells[r] == map[]
    ensures var s := SObj(r, map[]); In(cells, s) && Erase(s) == Obj(map[]) && Refs(s) == {r}
  {
    assert Erase(SObj(r, map[])).fields == map[];
  }

  /** A new map that holds a key. */
  lemma KeyedObject(cells: Cells, r: nat, name: string, key: Json)
    requires !key.Obj? && !key.Arr? && r in cells && cells[r] == map[name := Scalar(key)]
    ensures var s := SObj(r, map[name := SScalar(key)]);
            In(cells, s) && Erase(s) == Obj(map[name := key]) && Refs(s) == {r}
  {
    var s := SObj(r, map[name := SScalar(key)]);
    assert Erase(s).fields == map[name := key];
  }

  lemma CopyKept(before: Cells, cells: Cells, fields: map<string, Val>, shapes: map<string, Shape>,
                 js: map<string, Json>, from: nat, mid: nat, next: nat, t: Shape)
    requires shapes.Keys == fields.Keys <= js.Keys && Framed(before, cells, {}) && mid <= next && OldOrNew(t, {}, mid)
    requires forall k :: k in shapes ==> CopiedField(before, fields[k], shapes[k], js[k], from, mid)
    ensures forall k :: k in shapes ==>
              CopiedField(cells, fields[k], shapes[k], js[k], from, next) && Refs(shapes[k]) !! Refs(t)
  {
    forall k | k in shapes
      ensures CopiedField(cells, fields[k], shapes[k], js[k], from, next) && Refs(shapes[k]) !! Refs(t)
    {
      OneCopyKept(before, cells, fields[k], shapes[k], js[k], from, mid, next, t);
    }
  }

  ghost predicate In(cells: Cells, s: Shape) {
    IsTree(s) && Holds(cells, s)
  }

  /** The heap step from the old to the new cells does to s what Update does to its value. */
  ghost predicate Refines(m: Mutation, depth: nat, s: Shape, cells0: Cells, next0: nat, r: Ret, t: Shape,
                          cells1: Cells, next1: nat)
    requires depth < |m.path|
  {
    && Allocated(cells1, next1) && next0 <= next1
    && Framed(cells0, cells1, Refs(s))
    && (r.Err? <==> Update(m, Erase(s), depth).Error?)
    && (Update(m, Erase(s), depth).Unchanged? ==> !r.mutated && Framed(cells0, cells1, {}))
    && (Update(m, Erase(s), depth).Changed? ==>
          && r.mutated && r.val == Top(t) && In(cells1, t)
          && Erase(t) == Update(m, Erase(s), depth).value
          && OldOrNew(t, Refs(s), next0)
          && (s.SObj? ==> t.SObj? && t.addr == s.addr))  // in place: the caller's reference sees it
  }

  /** The part of the heap that a field's value occupies. */
  ghost function FieldRefs(s: Shape, name: string): set<nat> {
    if s.SObj? && name in s.fields then Refs(s.fields[name]) else {}
  }

  lemma {:induction false} ErasedKind(s: Shape)
    requires IsTree(s)
    ensures Erase(s).Obj? <==> s.SObj?
    ensures Erase(s).Arr? <==> s.SArr?
  {
  }

  /** Storing a value in a field of s. */
  lemma WriteField(cells0: Cells, next0: nat, cells1: Cells, s: Shape, name: string, child: Shape)
    requires s.SObj? && In(cells0, s) && Allocated(cells0, next0)
    requires Framed(cells0, cells1, FieldRefs(s, name))
    requires In(cells1, child) && OldOrNew(child, FieldRefs(s, name), next0)
    ensures s.addr in cells1
    ensures var cells2 := cells1[s.addr := cells1[s.addr][name := Top(child)]];
            var t := SObj(s.addr, s.fields[name := child]);
            && In(cells2, t) && Framed(cells0, cells2, Refs(s)) && OldOrNew(t, Refs(s), next0)
            && Erase(t) == Obj(Erase(s).fields[name := Erase(child)])
  {
    var cells2 := cells1[s.addr := cells1[s.addr][name := Top(child)]];
    RefsAreCells(cells0, s);
    assert s.addr !in Refs(child);
    assert Framed(cells1, cells2, {s.addr});
    HoldsIsFramed(cells1, cells2, {s.addr}, child);
    forall k | k in s.fields && k != name
      ensures Holds(cells2, s.fields[k]) && Refs(s.fields[k]) !! Refs(child)
    {
      assert Refs(s.fields[k]) <= Refs(s);
      HoldsIsFramed(cells0, cells1, FieldRefs(s, name), s.fields[k]);
      HoldsIsFramed(cells1, cells2, {s.addr}, s.fields[k]);
    }
    FieldReplaced(cells2, s.addr, s.fields, name, child);
    EraseReplaced(s.addr, s.fields, name, child);
    RefsReplaced(s.addr, s.fields, name, child, Refs(s), next0);
  }

  /** An update below a field, existing or just created, touches nothing old but that field. */
  lemma ChildFramed(cells0: Cells, next0: nat, mid: Cells, from: nat, cells1: Cells, s: Shape, name: string,
                    child: Shape, child': Shape, mutated: bool)
    requires s.SObj? && In(cells0, s) && Allocated(cells0, next0)
    requires Framed(cells0, mid, {}) && next0 <= from
    requires if name in s.fields then child == s.fields[name] else OldOrNew(child, {}, next0)
    requires Framed(mid, cells1, Refs(child)) && (mutated ==> OldOrNew(child', Refs(child), from))
    ensures Framed(cells0, cells1, FieldRefs(s, name))
    ensures mutated ==> OldOrNew(child', FieldRefs(s, name), next0)
    ensures Framed(mid, cells1, {}) ==> Framed(cells0, cells1, {})
  {
  }

  /** Update of an object in terms of the update of its field. */
  lemma FieldUpdate(m: Mutation, depth: nat, s: Shape, child: Shape)
    requires s.SObj? && depth + 1 < |m.path| && m.path[depth].Object?
    requires if m.path[depth].reference in s.fields then m.ExistsOkay(depth) else m.MissingOkay(depth)
    requires if m.path[depth].reference in s.fields then child == s.fields[m.path[depth].reference]
             else CreateMissing(m, depth) == Some(Erase(child))
    ensures var sub := Update(m, Erase(child), depth + 1);
            Update(m, Erase(s), depth) ==
            if sub.Changed? then Changed(Obj(Erase(s).fields[m.path[depth].reference := sub.value])) else sub
  {
  }

  /** The tests of the path at depth let the mutation of an object go on. */
  ghost predicate Passes(m: Mutation, depth: nat, s: Shape)
    requires depth < |m.path| && m.path[depth].Object?
  {
    s.SObj? && if m.path[depth].reference in s.fields then m.ExistsOkay(depth) else m.MissingOkay(depth)
  }

  /***** Lists *****/

  /** What looking for a list key finds. */
  datatype Find = NotAMap | At(index: nat) | Missing

  /** How the loop over the elements ends: at a forbidden element, at an error, or at the end. */
  datatype Walk = Stopped | Broken | Walked(mutated: bool, found: bool)

  ghost predicate SomeSelected(m: Mutation, depth: nat, ss: seq<Shape>, n: nat)
    requires depth + 1 < |m.path| && m.path[depth].List? && n <= |ss|
  {
    exists i :: 0 <= i < n && Selects(m.path[depth], Erase(ss[i]))
  }

  ghost predicate SomeChanged(m: Mutation, depth: nat, ss: seq<Shape>, n: nat)
    requires depth + 1 < |m.path| && m.path[depth].List? && n <= |ss|
  {
    exists i :: 0 <= i < n && UpdateElem(m, Erase(ss[i]), depth).Changed?
  }

  ghost predicate WalkedSoFar(m: Mutation, depth: nat, ss: seq<Shape>, n: nat, mutated: bool, found: bool)
    requires depth + 1 < |m.path| && m.path[depth].List? && n <= |ss|
  {
    && (mutated <==> SomeChanged(m, depth, ss, n))
    && (found <==> SomeSelected(m, depth, ss, n))
    && (found ==> m.ExistsOkay(depth))
  }

  ghost predicate WalkOf(m: Mutation, depth: nat, ss: seq<Shape>, walk: Walk)
    requires depth + 1 < |m.path| && m.path[depth].List?
  {
    match walk
    case Stopped => SomeSelected(m, depth, ss, |ss|) && !m.ExistsOkay(depth)
    case Broken => m.ExistsOkay(depth) && exists i :: 0 <= i < |ss| && UpdateElem(m, Erase(ss[i]), depth).Error?
    case Walked(mutated, found) => WalkedSoFar(m, depth, ss, |ss|, mutated, found)
  }

  /** The first i elements are as Update leaves them, and the others as they were. */
  ghost predicate Updated(m: Mutation, depth: nat, before: seq<Shape>, after: seq<Shape>, i: nat)
    requires depth + 1 < |m.path| && m.path[depth].List?
  {
    && |after| == |before| && i <= |before|
    && (forall k :: 0 <= k < i ==>
          !UpdateElem(m, Erase(before[k]), depth).Error? && Erase(after[k]) == After(m, Erase(before[k]), depth))
    && (forall k :: i <= k < |before| ==> after[k] == before[k])
  }

  ghost predicate Kept(before: seq<Shape>, after: seq<Shape>, from: nat) {
    |after| == |before| && forall k :: 0 <= k < |before| ==> OldOrNew(after[k], Refs(before[k]), from)
  }

  lemma ElemFramed(cells0: Cells, before: Cells, cells: Cells, s: Shape, i: nat)
    requires s.SArr? && i < |s.elems|
    requires Framed(cells0, before, Refs(s)) && Framed(before, cells, Refs(s.elems[i]))
    ensures Framed(cells0, cells, Refs(s))
    ensures Framed(cells0, before, {}) && Framed(before, cells, {}) ==> Framed(cells0, cells, {})
  {
    assert Refs(s.elems[i]) <= Refs(s);
  }

  /** Below a list comes an object, so an element that was changed is a map. */
  lemma SelectedIsMap(m: Mutation, depth: nat, s: Shape)
    requires ParserShaped(m.path) && depth + 1 < |m.path| && m.path[depth].List? && IsTree(s)
    requires Update(m, Erase(s), depth + 1).Changed?
    ensures s.SObj?
  {
    ErasedKind(s);
    assert !m.path[depth + 1].List?;
  }

  lemma OtherElemKept(before: Cells, from: nat, cells: Cells, ss: seq<Shape>, i: nat, t: Shape, k: nat)
    requires i < |ss| && k < |ss| && k != i && In(before, SArr(ss)) && Allocated(before, from)
    requires Framed(before, cells, Refs(ss[i])) && OldOrNew(t, Refs(ss[i]), from)
    ensures IsTree(ss[k]) && Holds(cells, ss[k]) && Refs(ss[k]) !! Refs(t)
  {
    assert Refs(ss[k]) !! Refs(ss[i]);
    RefsAreCells(before, ss[k]);
    HoldsIsFramed(before, cells, Refs(ss[i]), ss[k]);
  }

  lemma ElemReplaced(before: Cells, from: nat, cells: Cells, ss: seq<Shape>, i: nat, t: Shape)
    requires i < |ss| && In(before, SArr(ss)) && Allocated(before, from)
    requires Framed(before, cells, Refs(ss[i])) && In(cells, t) && OldOrNew(t, Refs(ss[i]), from)
    ensures In(cells, SArr(ss[i := t])) && Tops(ss[i := t]) == Tops(ss)[i := Top(t)]
  {
    var rs := ss[i := t];
    forall k | 0 <= k < |ss| && k != i
      ensures rs[k] == ss[k] && IsTree(rs[k]) && Holds(cells, rs[k]) && Refs(rs[k]) !! Refs(t)
    {
      OtherElemKept(before, from, cells, ss, i, t, k);
    }
    ApartReplaced(ss, i, t);
    assert Tops(rs) == Tops(ss)[i := Top(t)];
  }

  /** The elements of a list still share nothing after one of them was replaced. */
  lemma ApartReplaced(ss: seq<Shape>, i: nat, t: Shape)
    requires i < |ss| && IsTree(SArr(ss)) && forall k :: 0 <= k < |ss| && k != i ==> Refs(ss[k]) !! Refs(t)
    ensures var rs := ss[i := t]; forall a, b :: 0 <= a < b < |rs| ==> Refs(rs[a]) !! Refs(rs[b])
  {
    var rs := ss[i := t];
    forall a, b | 0 <= a < b < |rs| ensures Refs(rs[a]) !! Refs(rs[b]) {
      if a != i && b != i {
        assert rs[a] == ss[a] && rs[b] == ss[b];
      }
    }
  }

  lemma ElemKept(m: Mutation, depth: nat, before: seq<Shape>, ss: seq<Shape>, i: nat, t: Shape, next0: nat, from: nat)
    requires depth + 1 < |m.path| && m.path[depth].List? && i < |before|
    requires Updated(m, depth, before, ss, i) && Kept(before, ss, next0) && next0 <= from
    requires UpdateElem(m, Erase(before[i]), depth) == Changed(Erase(t)) && OldOrNew(t, Refs(before[i]), from)
    ensures Updated(m, depth, before, ss[i := t], i + 1) && Kept(before, ss[i := t], next0)
  {
  }

  lemma ListBroken(m: Mutation, depth: nat, s: Shape)
    requires depth + 1 < |m.path| && m.path[depth].List? && s.SArr? && WalkOf(m, depth, s.elems, Broken)
    ensures Update(m, Erase(s), depth).Error?
  {
    var i :| 0 <= i < |s.elems| && UpdateElem(m, Erase(s.elems[i]), depth).Error?;
    ElemsPointwise(m, EraseAll(s.elems), depth);
    assert EraseAll(s.elems)[i] in EraseAll(s.elems);
  }

  /** What the loop over the elements keeps. */
  ghost predicate InLoop(m: Mutation, depth: nat, s: Shape, ss: seq<Shape>, elems: seq<Val>, i: nat,
                         cells0: Cells, next0: nat, cells: Cells, next: nat, mutated: bool, found: bool)
    requires depth + 1 < |m.path| && m.path[depth].List? && s.SArr? && i <= |s.elems|
  {
    && Allocated(cells, next) && next0 <= next && Framed(cells0, cells, Refs(s))
    && Updated(m, depth, s.elems, ss, i) && Kept(s.elems, ss, next0)
    && In(cells, SArr(ss)) && Tops(ss) == elems
    && (!mutated ==> Framed(cells0, cells, {}))
    && WalkedSoFar(m, depth, s.elems, i, mutated, found)
  }

  lemma WalkStep(m: Mutation, depth: nat, ss: seq<Shape>, i: nat, mutated: bool, found: bool)
    requires depth + 1 < |m.path| && m.path[depth].List? && i < |ss| && WalkedSoFar(m, depth, ss, i, mutated, found)
    requires Selects(m.path[depth], Erase(ss[i])) ==> m.ExistsOkay(depth)
    ensures var j := Erase(ss[i]);
            WalkedSoFar(m, depth, ss, i + 1, mutated || UpdateElem(m, j, depth).Changed?,
                        found || Selects(m.path[depth], j))
  {
  }

  lemma RoundSkipped(m: Mutation, depth: nat, s: Shape, ss: seq<Shape>, elems: seq<Val>, i: nat,
                     cells0: Cells, next0: nat, cells: Cells, next: nat, mutated: bool, found: bool)
    requires depth + 1 < |m.path| && m.path[depth].List? && s.SArr? && i < |s.elems|
    requires InLoop(m, depth, s, ss, elems, i, cells0, next0, cells, next, mutated, found)
    requires !Selects(m.path[depth], Erase(s.elems[i]))
    ensures InLoop(m, depth, s, ss, elems, i + 1, cells0, next0, cells, next, mutated, found)
  {
    WalkStep(m, depth, s.elems, i, mutated, found);
    SkippedIsUpdated(m, depth, s.elems, ss, i);
  }

  lemma SkippedIsUpdated(m: Mutation, depth: nat, before: seq<Shape>, ss: seq<Shape>, i: nat)
    requires depth + 1 < |m.path| && m.path[depth].List? && i < |before|
    requires Updated(m, depth, before, ss, i) && !Selects(m.path[depth], Erase(before[i]))
    ensures Updated(m, depth, before, ss, i + 1)
  {
  }

  lemma RoundDone(m: Mutation, depth: nat, s: Shape, ss: seq<Shape>, elems: seq<Val>, i: nat, cells0: Cells, next0: nat,
                  before: Cells, from: nat, cells: Cells, next: nat, mutated: bool, found: bool, sub: Ret, t: Shape)
    requires ParserShaped(m.path) && depth + 1 < |m.path| && m.path[depth].List? && m.ExistsOkay(depth)
    requires s.SArr? && i < |s.elems| && IsTree(s.elems[i]) && Selects(m.path[depth], Erase(s.elems[i]))
    requires InLoop(m, depth, s, ss, elems, i, cells0, next0, before, from, mutated, found)
    requires Refines(m, depth + 1, s.elems[i], before, from, sub, t, cells, next) && sub.Ret?
    ensures var ss' := if sub.mutated then ss[i := t] else ss;
            InLoop(m, depth, s, ss', elems, i + 1, cells0, next0, cells, next, mutated || sub.mutated, true)
  {
    WalkStep(m, depth, s.elems, i, mutated, found);
    ElemFramed(cells0, before, cells, s, i);
    assert UpdateElem(m, Erase(s.elems[i]), depth) == Update(m, Erase(s.elems[i]), depth + 1);
    if sub.mutated {
      SelectedIsMap(m, depth, s.elems[i]);
      RoundChanged(m, depth, s.elems, ss, elems, i, next0, before, from, cells, t);
    } else {
      RoundUnchanged(m, depth, s.elems, ss, i, before, cells);
    }
  }

  lemma RoundChanged(m: Mutation, depth: nat, before: seq<Shape>, ss: seq<Shape>, elems: seq<Val>, i: nat, next0: nat,
                     cells0: Cells, from: nat, cells: Cells, t: Shape)
    requires depth + 1 < |m.path| && m.path[depth].List? && i < |before|
    requires Updated(m, depth, before, ss, i) && Kept(before, ss, next0) && next0 <= from
    requires In(cells0, SArr(ss)) && Tops(ss) == elems && Allocated(cells0, from)
    requires Framed(cells0, cells, Refs(before[i])) && OldOrNew(t, Refs(before[i]), from)
    requires In(cells, t) && Top(t) == Top(before[i])
    requires UpdateElem(m, Erase(before[i]), depth) == Changed(Erase(t))
    ensures Updated(m, depth, before, ss[i := t], i + 1) && Kept(before, ss[i := t], next0)
    ensures In(cells, SArr(ss[i := t])) && Tops(ss[i := t]) == elems
  {
    ElemReplaced(cells0, from, cells, ss, i, t);
    assert elems[i := Top(t)] == elems;
    ElemKept(m, depth, before, ss, i, t, next0, from);
  }

  lemma RoundUnchanged(m: Mutation, depth: nat, before: seq<Shape>, ss: seq<Shape>, i: nat, cells0: Cells, cells: Cells)
    requires depth + 1 < |m.path| && m.path[depth].List? && i < |before| && Updated(m, depth, before, ss, i)
    requires In(cells0, SArr(ss)) && Framed(cells0, cells, {}) && UpdateElem(m, Erase(before[i]), depth).Unchanged?
    ensures Updated(m, depth, before, ss, i + 1) && In(cells, SArr(ss))
  {
    HoldsIsFramed(cells0, cells, {}, SArr(ss));
  }

  lemma ListStopped(m: Mutation, depth: nat, s: Shape)
    requires depth + 1 < |m.path| && m.path[depth].List? && s.SArr? && WalkOf(m, depth, s.elems, Stopped)
    ensures Update(m, Erase(s), depth).Unchanged?
  {
    var i :| 0 <= i < |s.elems| && Selects(m.path[depth], Erase(s.elems[i]));
    assert EraseAll(s.elems)[i] in EraseAll(s.elems);
  }

  lemma ListWalked(m: Mutation, depth: nat, s: Shape, ss: seq<Shape>, walk: Walk, next0: nat)
    requires depth + 1 < |m.path| && m.path[depth].List? && s.SArr? && walk.Walked? && WalkOf(m, depth, s.elems, walk)
    requires Updated(m, depth, s.elems, ss, |s.elems|) && Kept(s.elems, ss, next0)
    requires (m.path[depth].glob && m.ExistsOkay(depth)) || walk.found
    ensures Update(m, Erase(s), depth) == if walk.mutated then Changed(Erase(SArr(ss))) else Unchanged
    ensures OldOrNew(SArr(ss), Refs(s), next0)
  {
    ListRefsKept(s.elems, ss, next0);
    ElemsWalked(m, depth, s.elems, ss, walk.mutated);
    if walk.found {
      SelectedIsThere(m.path[depth], s.elems);
    }
  }

  lemma SelectedIsThere(node: Node, elems: seq<Shape>)
    requires node.List? && exists i :: 0 <= i < |elems| && Selects(node, Erase(elems[i]))
    ensures exists e :: e in EraseAll(elems) && Selects(node, e)
  {
    var i :| 0 <= i < |elems| && Selects(node, Erase(elems[i]));
    assert EraseAll(elems)[i] in EraseAll(elems);
  }

  lemma ElemsWalked(m: Mutation, depth: nat, before: seq<Shape>, ss: seq<Shape>, mutated: bool)
    requires depth + 1 < |m.path| && m.path[depth].List? && Updated(m, depth, before, ss, |before|)
    requires mutated <==> SomeChanged(m, depth, before, |before|)
    ensures UpdateElems(m, EraseAll(before), depth) == Elems(EraseAll(ss), mutated)
  {
    var elems := EraseAll(before);
    ElemsPointwise(m, elems, depth);
    var r := UpdateElems(m, elems, depth);
    assert forall i :: 0 <= i < |elems| ==> UpdateElem(m, elems[i], depth) == UpdateElem(m, Erase(before[i]), depth);
    assert r.Elems? && r.elems == EraseAll(ss);
    if mutated {
      var i :| 0 <= i < |before| && UpdateElem(m, Erase(before[i]), depth).Changed?;
      assert UpdateElem(m, elems[i], depth).Changed?;
    }
  }

  lemma ListRefsKept(before: seq<Shape>, ss: seq<Shape>, next0: nat)
    requires Kept(before, ss, next0)
    ensures OldOrNew(SArr(ss), Refs(SArr(before)), next0)
  {
    forall x | x in Refs(SArr(ss)) ensures x in Refs(SArr(before)) || x >= next0 {
      var i :| 0 <= i < |ss| && x in Refs(ss[i]);
      assert OldOrNew(ss[i], Refs(before[i]), next0);
    }
  }

  /** If no element was selected, the loop changed nothing. */
  lemma NothingWalked(m: Mutation, depth: nat, s: Shape, cells0: Cells, cells: Cells, mutated: bool)
    requires depth + 1 < |m.path| && m.path[depth].List? && s.SArr? && In(cells0, s)
    requires WalkedSoFar(m, depth, s.elems, |s.elems|, mutated, false) && (!mutated ==> Framed(cells0, cells, {}))
    ensures !mutated && In(cells, s)
  {
    assert !mutated;
    HoldsIsFramed(cells0, cells, {}, s);
  }

  lemma RefinesAfter(m: Mutation, depth: nat, s: Shape, cells0: Cells, next0: nat, mid: Cells, from: nat, r: Ret,
                     t: Shape, cells: Cells, next: nat)
    requires depth < |m.path| && Framed(cells0, mid, {}) && next0 <= from
    requires Refines(m, depth, s, mid, from, r, t, cells, next)
    ensures Refines(m, depth, s, cells0, next0, r, t, cells, next)
  {
  }

  lemma NoneSelected(m: Mutation, depth: nat, s: Shape)
    requires depth + 1 < |m.path| && m.path[depth].List? && !m.path[depth].glob && s.SArr?
    requires !SomeSelected(m, depth, s.elems, |s.elems|)
    ensures forall e :: e in EraseAll(s.elems) ==> !HasKey(m.path[depth], e)
  {
    forall e | e in EraseAll(s.elems) ensures !HasKey(m.path[depth], e) {
      var i :| 0 <= i < |s.elems| && EraseAll(s.elems)[i] == e;
      assert !Selects(m.path[depth], Erase(s.elems[i]));
    }
  }

  /** An update below a created element touches nothing old. */
  lemma NewFramed(cells0: Cells, next0: nat, mid: Cells, from: nat, cells: Cells, s: Shape, child: Shape,
                  child': Shape, mutated: bool)
    requires Allocated(cells0, next0) && Framed(cells0, mid, {}) && next0 <= from && OldOrNew(child, {}, next0)
    requires Framed(mid, cells, Refs(child)) && (mutated ==> OldOrNew(child', Refs(child), from))
    ensures Framed(cells0, cells, {})
    ensures mutated ==> OldOrNew(child', {}, next0)
  {
  }

  /** The update of a list without the key, in terms of the new element. */
  lemma AppendUpdate(m: Mutation, depth: nat, s: Shape, child: Shape)
    requires depth + 1 < |m.path| && m.path[depth].List? && !m.path[depth].glob && s.SArr?
    requires m.MissingOkay(depth) && CreateMissing(m, depth) == Some(Erase(child))
    requires forall e :: e in EraseAll(s.elems) ==> !HasKey(m.path[depth], e)
    ensures var r := Update(m, Erase(child), depth + 1);
            Update(m, Erase(s), depth) == if r.Changed? then Changed(Arr(EraseAll(s.elems) + [r.value])) else r
  {
  }

  lemma ListAppended(cells0: Cells, next0: nat, cells: Cells, s: Shape, c: Shape)
    requires s.SArr? && In(cells0, s) && Allocated(cells0, next0) && Framed(cells0, cells, {})
    requires In(cells, c) && OldOrNew(c, {}, next0)
    ensures var t := SArr(s.elems + [c]);
            && In(cells, t) && Erase(t) == Arr(EraseAll(s.elems) + [Erase(c)])
            && Top(t) == Slice(Tops(s.elems) + [Top(c)]) && OldOrNew(t, Refs(s), next0)
  {
    AppendedIn(cells0, next0, cells, s, c);
    assert EraseAll(s.elems + [c]) == EraseAll(s.elems) + [Erase(c)];
    assert Tops(s.elems + [c]) == Tops(s.elems) + [Top(c)];
    forall x | x in Refs(SArr(s.elems + [c])) ensures x in Refs(s) || x >= next0 {
      var i :| 0 <= i < |s.elems + [c]| && x in Refs((s.elems + [c])[i]);
    }
  }

  lemma AppendedIn(cells0: Cells, next0: nat, cells: Cells, s: Shape, c: Shape)
    requires s.SArr? && In(cells0, s) && Allocated(cells0, next0) && Framed(cells0, cells, {})
    requires In(cells, c) && OldOrNew(c, {}, next0)
    ensures In(cells, SArr(s.elems + [c]))
  {
    var rs := s.elems + [c];
    forall k | 0 <= k < |s.elems| ensures In(cells, rs[k]) && Refs(rs[k]) !! Refs(c) {
      HoldsIsFramed(cells0, cells, {}, s.elems[k]);
      RefsAreCells(cells0, s.elems[k]);
    }
    assert rs[|s.elems|] == c;
  }

  lemma ListReplaced(cells0: Cells, next0: nat, cells: Cells, s: Shape, i: nat, c: Shape)
    requires s.SArr? && i < |s.elems| && In(cells0, s) && Allocated(cells0, next0) && Framed(cells0, cells, {})
    requires In(cells, c) && OldOrNew(c, {}, next0)
    ensures var t := SArr(s.elems[i := c]);
            && In(cells, t) && Erase(t) == Arr(EraseAll(s.elems)[i := Erase(c)])
            && Top(t) == Slice(Tops(s.elems)[i := Top(c)]) && OldOrNew(t, Refs(s), next0)
  {
    ElemReplaced(cells0, next0, cells, s.elems, i, c);
    assert EraseAll(s.elems[i := c]) == EraseAll(s.elems)[i := Erase(c)];
    forall k | 0 <= k < |s.elems| ensures OldOrNew(s.elems[i := c][k], Refs(s.elems[k]), next0) {
    }
    ListRefsKept(s.elems, s.elems[i := c], next0);
  }

  /** The first elements are maps without the key. */
  ghost predicate PassedOver(node: Node, js: seq<Json>, i: nat)
    requires node.List? && i <= |js|
  {
    forall k :: 0 <= k < i ==> js[k].Obj? && !HasKey(node, js[k])
  }

  lemma PassedOne(node: Node, js: seq<Json>, i: nat)
    requires node.List? && i < |js| && PassedOver(node, js, i) && js[i].Obj? && !HasKey(node, js[i])
    ensures PassedOver(node, js, i + 1)
  {
  }

  lemma FindsNoMap(node: Node, js: seq<Json>, i: nat)
    requires node.List? && i < |js| && PassedOver(node, js, i) && !js[i].Obj?
    ensures FindKey(node, js, 0).None? && exists e :: e in js && !e.Obj?
  {
    FindStops(node, js, i, 0);
    assert js[i] in js;
  }

  lemma FindsNothing(node: Node, js: seq<Json>)
    requires node.List? && PassedOver(node, js, |js|)
    ensures FindKey(node, js, 0).None? && forall e :: e in js ==> e.Obj?
  {
    FindStops(node, js, |js|, 0);
  }

  lemma {:induction false} FindStops(node: Node, js: seq<Json>, i: nat, from: nat)
    requires node.List? && from <= i <= |js| && (i < |js| ==> !js[i].Obj?)
    requires forall k :: from <= k < i ==> js[k].Obj? && !HasKey(node, js[k])
    ensures FindKey(node, js, from).None?
    decreases i - from
  {
    if from < i {
      FindStops(node, js, i, from + 1);
    }
  }
}
