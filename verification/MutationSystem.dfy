/** The order in which mutators are kept: by group, kind, namespace and name. */
module IdOrder {
  import opened Types

  /** Lexicographic order of strings, as the source's < on strings. */
  predicate Less(a: string, b: string)
    decreases |a|
  {
    b != [] && (a == [] || a[0] < b[0] || (a[0] == b[0] && Less(a[1..], b[1..])))
  }

  lemma {:induction false} LessIsStrictTotal(a: string, b: string)
    ensures Less(a, b) || a == b || Less(b, a)
    ensures !(Less(a, b) && Less(b, a)) && !Less(a, a)
    decreases |a|
  {
    if a != [] {
      LessIsStrictTotal(a[1..], a[1..]);
      if b != [] {
        LessIsStrictTotal(a[1..], b[1..]);
        if a[0] == b[0] && a[1..] == b[1..] {
          assert a == [a[0]] + a[1..] == b;
        }
      }
    }
  }

  lemma {:induction false} LessIsTransitive(a: string, b: string, c: string)
    requires Less(a, b) && Less(b, c)
    ensures Less(a, c)
    decreases |a|
  {
    if a != [] && a[0] == b[0] == c[0] {
      LessIsTransitive(a[1..], b[1..], c[1..]);
    }
  }

  predicate IdLess(a: ID, b: ID) {
    || Less(a.group, b.group)
    || (a.group == b.group &&
        (|| Less(a.kind, b.kind)
         || (a.kind == b.kind &&
             (|| Less(a.namespace, b.namespace)
              || (a.namespace == b.namespace && Less(a.name, b.name))))))
  }

  lemma IdLessIsStrictTotal(a: ID, b: ID)
    ensures IdLess(a, b) || a == b || IdLess(b, a)
    ensures !(IdLess(a, b) && IdLess(b, a)) && !IdLess(a, a)
  {
    LessIsStrictTotal(a.group, b.group);
    LessIsStrictTotal(a.kind, b.kind);
    LessIsStrictTotal(a.namespace, b.namespace);
    LessIsStrictTotal(a.name, b.name);
    LessIsStrictTotal(a.group, a.group);
    LessIsStrictTotal(a.kind, a.kind);
    LessIsStrictTotal(a.namespace, a.namespace);
    LessIsStrictTotal(a.name, a.name);
  }

  lemma IdLessIsTransitive(a: ID, b: ID, c: ID)
    requires IdLess(a, b) && IdLess(b, c)
    ensures IdLess(a, c)
  {
    if Less(a.group, b.group) && Less(b.group, c.group) {
      LessIsTransitive(a.group, b.group, c.group);
    } else if Less(a.kind, b.kind) && Less(b.kind, c.kind) {
      LessIsTransitive(a.kind, b.kind, c.kind);
    } else if Less(a.namespace, b.namespace) && Less(b.namespace, c.namespace) {
      LessIsTransitive(a.namespace, b.namespace, c.namespace);
    } else if Less(a.name, b.name) && Less(b.name, c.name) {
      LessIsTransitive(a.name, b.name, c.name);
    }
  }

  /** a and b agree up to i, where a ends or has the smaller character. */
  ghost predicate SmallerAt(a: string, b: string, i: nat) {
    i <= |a| && i < |b| && a[..i] == b[..i] && (i == |a| || a[i] < b[i])
  }

  /** The order of strings is the dictionary's. */
  lemma {:induction false} LessIsLexicographic(a: string, b: string)
    ensures Less(a, b) <==> exists i: nat :: SmallerAt(a, b, i)
    decreases |a|
  {
    if a == [] {
      assert b != [] ==> SmallerAt(a, b, 0);
    } else if b != [] {
      LessIsLexicographic(a[1..], b[1..]);
      if Less(a, b) {
        if a[0] < b[0] {
          assert SmallerAt(a, b, 0);
        } else {
          var i: nat :| SmallerAt(a[1..], b[1..], i);
          assert a[..i + 1] == [a[0]] + a[1..][..i] && b[..i + 1] == [b[0]] + b[1..][..i];
          assert SmallerAt(a, b, i + 1);
        }
      }
      if i: nat :| SmallerAt(a, b, i) && i > 0 {
        assert a[..i][0] == b[..i][0];
        assert a[1..][..i - 1] == a[..i][1..] && b[1..][..i - 1] == b[..i][1..];
        assert SmallerAt(a[1..], b[1..], i - 1);
      }
    }
  }

  function Fields(id: ID): seq<string> {
    [id.group, id.kind, id.namespace, id.name]
  }

  /** The first of group, kind, namespace and name that differs decides about two IDs. */
  lemma IdLessIsByFields(a: ID, b: ID)
    ensures IdLess(a, b) <==>
            exists i :: 0 <= i < 4 && Fields(a)[..i] == Fields(b)[..i] && Less(Fields(a)[i], Fields(b)[i])
  {
    var p, q := Fields(a), Fields(b);
    assert p[..0] == q[..0];
    assert p[..1] == q[..1] <==> p[0] == q[0];
    assert p[..2] == q[..2] <==> p[0] == q[0] && p[1] == q[1];
    assert p[..3] == q[..3] <==> p[0] == q[0] && p[1] == q[1] && p[2] == q[2];
  }

  /** The source's cascade of comparisons is the order's complement. */
  function GreaterOrEqual(a: ID, b: ID): (r: bool)
    ensures r <==> a == b || IdLess(b, a)
    ensures r <==> !IdLess(a, b)
  {
    LessIsStrictTotal(a.group, b.group);
    LessIsStrictTotal(a.kind, b.kind);
    LessIsStrictTotal(a.namespace, b.namespace);
    LessIsStrictTotal(a.name, b.name);
    if Less(b.group, a.group) then true
    else if Less(a.group, b.group) then false
    else if Less(b.kind, a.kind) then true
    else if Less(a.kind, b.kind) then false
    else if Less(b.namespace, a.namespace) then true
    else if Less(a.namespace, b.namespace) then false
    else if Less(b.name, a.name) then true
    else if Less(a.name, b.name) then false
    else true
  }
}

/** The mutation system: the mutators in order, and their application to a fixed point. */
module MutationSystem {
  import opened Types
  import opened Mutators
  import opened IdOrder
  import opened SchemaNode
  import opened SchemaLaws
  import opened SchemaDB
  import opened FixedPoint

  ghost predicate Sorted(s: seq<Mutator>) {
    forall i, j :: 0 <= i < j < |s| ==> IdLess(s[i].id, s[j].id)
  }

  /** The list holds exactly the mutators of the map, each filed under its ID. */
  ghost predicate InSync(s: seq<Mutator>, m: map<ID, Mutator>) {
    && (forall x :: x in s ==> x.id in m && m[x.id] == x)
    && (forall id :: id in m ==> m[id].id == id && m[id] in s)
  }

  /**
   * The database caches some of the mutators. A rejected update drops its entry, and a mutator
   * that loses its schema leaves a stale one, so the two need not be equal.
   */
  ghost predicate CachesSome(cached: map<ID, Mutator>, m: map<ID, Mutator>) {
    forall id :: id in cached ==> id in m && (m[id].Assign? ==> cached[id] == m[id])
  }

  /** The path of m conflicts with a cached path of the same kind. */
  ghost predicate Clashes(cached: map<ID, Mutator>, m: Mutator) {
    exists gvk :: Bound(m, gvk) && Conflicted(LivePaths(cached, gvk), EntryOf(m))
  }

  /** Go's sort.Search on the ordered list: the first position not before id. */
  method Search(s: seq<Mutator>, id: ID) returns (i: nat)
    requires Sorted(s)
    ensures i <= |s|
    ensures forall k :: 0 <= k < i ==> IdLess(s[k].id, id)
    ensures forall k :: i <= k < |s| ==> s[k].id == id || IdLess(id, s[k].id)
  {
    i := 0;
    var j := |s|;
    while i < j
      invariant i <= j <= |s|
      invariant forall k :: 0 <= k < i ==> IdLess(s[k].id, id)
      invariant forall k :: j <= k < |s| ==> s[k].id == id || IdLess(id, s[k].id)
    {
      var h := (i + j) / 2;
      if !GreaterOrEqual(s[h].id, id) {
        forall k | i <= k < h ensures IdLess(s[k].id, id) {
          IdLessIsTransitive(s[k].id, s[h].id, id);
        }
        i := h + 1;
      } else {
        forall k | h < k < j ensures IdLess(id, s[k].id) {
          if s[h].id != id {
            IdLessIsTransitive(id, s[h].id, s[k].id);
          }
        }
        j := h;
      }
    }
  }

  class System {
    const schemaDB: DB
    var orderedMutators: seq<Mutator>
    var mutatorsMap: map<ID, Mutator>

    ghost predicate Valid()
      reads this, schemaDB
    {
      && schemaDB.Valid()
      && Sorted(orderedMutators)
      && InSync(orderedMutators, mutatorsMap)
      && CachesSome(schemaDB.cachedMutators, mutatorsMap)
      && schemaDB.conflicts == {}
    }

    constructor ()
      ensures Valid() && fresh(schemaDB)
      ensures orderedMutators == [] && mutatorsMap == map[]
    {
      schemaDB := new DB();
      orderedMutators, mutatorsMap := [], map[];
    }

    /** The conflicts that caused a rejection are returned; none means the mutator was accepted. */
    method Upsert(m: Mutator) returns (rejected: set<ID>)
      requires Valid()
      requires m.Assign? ==> Distinct(m.bindings)
      modifies this, schemaDB
      ensures Valid()
      // Whatever was there before, an accepted mutator is in force as given.
      ensures rejected == {} ==> mutatorsMap == old(mutatorsMap)[m.id := m]
      ensures m.id in old(mutatorsMap) && old(mutatorsMap)[m.id] == m ==>
                rejected == {} && unchanged(this) && unchanged(schemaDB)
      ensures !(m.id in old(mutatorsMap) && old(mutatorsMap)[m.id] == m) ==>
                && (rejected != {} <==> m.Assign? && Clashes(old(schemaDB.cachedMutators) - {m.id}, m))
                && (rejected == {} && m.Assign? ==> schemaDB.cachedMutators == old(schemaDB.cachedMutators)[m.id := m])
                && (rejected == {} && m.AssignMetadata? ==> unchanged(schemaDB))
                && (rejected != {} ==> m.id in rejected && unchanged(this))
                && (rejected != {} ==> schemaDB.cachedMutators == old(schemaDB.cachedMutators) - {m.id})
                && (rejected != {} && m.id !in old(mutatorsMap) ==> schemaDB.schemas == old(schemaDB.schemas))
    {
      rejected := {};
      if m.id in mutatorsMap && !m.HasDiff(mutatorsMap[m.id]) {
        return;
      }
      if m.Assign? {
        rejected := UpsertSchema(m);
        if rejected != {} {
          return;
        }
      }
      InsertOrdered(m);
    }

    /** The list half of Upsert. */
    method InsertOrdered(m: Mutator)
      requires Sorted(orderedMutators) && InSync(orderedMutators, mutatorsMap)
      modifies this
      ensures Sorted(orderedMutators) && InSync(orderedMutators, mutatorsMap)
      ensures mutatorsMap == old(mutatorsMap)[m.id := m]
    {
      mutatorsMap := mutatorsMap[m.id := m];
      var i := Search(orderedMutators, m.id);
      if i == |orderedMutators| {
        ListInsert(orderedMutators, i, m, old(mutatorsMap));
        assert orderedMutators[..i] + [m] + orderedMutators[i..] == orderedMutators + [m];
        orderedMutators := orderedMutators + [m];
        return;
      }
      if orderedMutators[i].id == m.id {
        ListReplace(orderedMutators, i, m, old(mutatorsMap));
        orderedMutators := orderedMutators[i := m];
        return;
      }
      forall k | i <= k < |orderedMutators| ensures IdLess(m.id, orderedMutators[k].id) {
        if i < k {
          IdLessIsTransitive(m.id, orderedMutators[i].id, orderedMutators[k].id);
        }
      }
      ListInsert(orderedMutators, i, m, old(mutatorsMap));
      orderedMutators := orderedMutators[..i] + [m] + orderedMutators[i..];
    }

    /** The schema half of Upsert: a conflicting mutator is taken out of the database again. */
    method UpsertSchema(m: Mutator) returns (rejected: set<ID>)
      requires m.Assign? && Distinct(m.bindings)
      requires schemaDB.Valid() && schemaDB.conflicts == {}
      requires CachesSome(schemaDB.cachedMutators, mutatorsMap)
      requires m.id in mutatorsMap ==> mutatorsMap[m.id] != m
      modifies schemaDB
      ensures schemaDB.Valid() && schemaDB.conflicts == {}
      ensures rejected != {} <==> Clashes(old(schemaDB.cachedMutators) - {m.id}, m)
      ensures rejected == {} ==> schemaDB.cachedMutators == old(schemaDB.cachedMutators)[m.id := m]
      ensures rejected != {} ==> m.id in rejected && schemaDB.cachedMutators == old(schemaDB.cachedMutators) - {m.id}
      ensures rejected != {} && m.id !in old(mutatorsMap) ==> schemaDB.schemas == old(schemaDB.schemas)
    {
      ghost var cached := schemaDB.cachedMutators;
      UpsertFacts(cached, m);
      rejected := schemaDB.Upsert(m);
      if rejected == {} {
        return;
      }
      schemaDB.Remove(m.id);
      RestoredSchemas(cached, old(schemaDB.schemas), m.id, schemaDB.schemas, schemaDB.cachedMutators);
    }

    method Remove(id: ID) returns (found: bool)
      requires Valid()
      modifies this, schemaDB
      ensures Valid() && found
      ensures mutatorsMap == old(mutatorsMap) - {id}
      ensures schemaDB.cachedMutators == old(schemaDB.cachedMutators) - {id}
    {
      if id !in mutatorsMap {
        return true;
      }
      schemaDB.Remove(id);
      found := DeleteOrdered(id);
    }

    /** The list half of Remove: the search does not miss. */
    method DeleteOrdered(id: ID) returns (found: bool)
      requires Sorted(orderedMutators) && InSync(orderedMutators, mutatorsMap) && id in mutatorsMap
      modifies this
      ensures Sorted(orderedMutators) && InSync(orderedMutators, mutatorsMap) && found
      ensures mutatorsMap == old(mutatorsMap) - {id}
    {
      var i := Search(orderedMutators, id);
      SearchFinds(orderedMutators, mutatorsMap, id, i);
      found := orderedMutators[i].id == id;
      ListDelete(orderedMutators, i, mutatorsMap);
      mutatorsMap := mutatorsMap - {id};
      orderedMutators := orderedMutators[..i] + orderedMutators[i + 1..];
    }

    /** Since no reachable state has conflicts, every mutator takes part. */
    method Mutate<Obj(==,!new)>(apply: Apply<Obj>, original: Obj) returns (r: MutateResult, obj: Obj)
      requires Valid()
      ensures r == Verdict(orderedMutators, apply, original)
      ensures r.Done? ==> Settled(orderedMutators, apply, obj) && (r.mutated <==> obj != original)
      ensures r.Done? ==> Passes(orderedMutators, apply, original, |orderedMutators| + 1) == Fine(obj)
      ensures r != Oscillating
      ensures r == MutatorFailed <==> Passes(orderedMutators, apply, original, |orderedMutators| + 1).Failed?
      ensures r == NotConverging <==>
              var n := |orderedMutators|;
              && Passes(orderedMutators, apply, original, n + 1).Fine?
              && Passes(orderedMutators, apply, original, n) != Passes(orderedMutators, apply, original, n + 1)
    {
      var skipping := SkipConflicts(schemaDB.conflicts, apply);
      PassesSame(orderedMutators, skipping, apply, original, |orderedMutators|);
      PassesSame(orderedMutators, skipping, apply, original, |orderedMutators| + 1);
      r, obj := FixedPoint.Mutate(orderedMutators, skipping, original);
      PassSame(orderedMutators, skipping, apply, obj);
    }
  }

  /** Mutators with conflicts are not applied. */
  function SkipConflicts<Obj>(conflicts: set<ID>, apply: Apply<Obj>): Apply<Obj> {
    (m: Mutator, obj: Obj) => if m.id in conflicts then Fine(obj) else apply(m, obj)
  }

  /***** Proof steps: the schema database *****/

  lemma NoConflictsMeansFree(cached: map<ID, Mutator>, gvk: GVK)
    requires ConflictsBounded({}, cached)
    ensures ConflictFree(LivePaths(cached, gvk))
  {
    var live := LivePaths(cached, gvk);
    forall e | e in live
      ensures !Conflicted(live, e)
    {
      assert e.id !in ConflictingIds(live);
    }
  }

  lemma OthersAreConflictFree(cached: map<ID, Mutator>, id: ID)
    requires WellFiled(cached) && ConflictsBounded({}, cached)
    ensures forall gvk :: ConflictFree(LivePaths(cached - {id}, gvk))
  {
    forall gvk ensures ConflictFree(LivePaths(cached - {id}, gvk)) {
      NoConflictsMeansFree(cached, gvk);
      if id in cached {
        LiveWithout(cached, id, gvk);
      } else {
        assert cached - {id} == cached;
      }
    }
  }

  lemma NothingReported(cached: map<ID, Mutator>)
    requires forall gvk :: ConflictFree(LivePaths(cached, gvk))
    ensures forall id :: !ReportsSomewhere(cached, id)
  {
    forall id, gvk ensures !Reports(cached, id, gvk) {
      if id in cached && Bound(cached[id], gvk) {
        ConflictFreeHasNone(LivePaths(cached, gvk), EntryOf(cached[id]));
      }
    }
  }

  lemma AddFinds(others: map<ID, Mutator>, m: Mutator, gvk: GVK)
    requires m.id !in others && Bound(m, gvk) && ConflictFree(LivePaths(others, gvk))
    ensures var found := ConflictsAlong(LivePaths(others[m.id := m], gvk), Encode(m.path), 0);
            if Conflicted(LivePaths(others, gvk), EntryOf(m)) then m.id in found else found == {}
  {
    LiveWith(others, m, gvk);
    AddToConflictFree(LivePaths(others, gvk), EntryOf(m));
  }

  /** Adding m to conflict-free others finds conflicts iff m clashes, and m.id is one of them. */
  lemma UpsertFinds(others: map<ID, Mutator>, m: Mutator)
    requires m.Assign? && m.id !in others && forall gvk :: ConflictFree(LivePaths(others, gvk))
    ensures FoundFor(others[m.id := m], m, Kinds(m)) != {} ==> Clashes(others, m)
    ensures Clashes(others, m) ==> m.id in FoundFor(others[m.id := m], m, Kinds(m))
  {
    var after := others[m.id := m];
    if id :| id in FoundFor(after, m, Kinds(m)) {
      var gvk :| gvk in Kinds(m) && id in ConflictsAlong(LivePaths(after, gvk), Encode(m.path), 0);
      AddFinds(others, m, gvk);
      assert Bound(m, gvk) && Conflicted(LivePaths(others, gvk), EntryOf(m));
    }
    if Clashes(others, m) {
      var gvk :| Bound(m, gvk) && Conflicted(LivePaths(others, gvk), EntryOf(m));
      AddFinds(others, m, gvk);
      assert gvk in Kinds(m) && m.id in ConflictsAlong(LivePaths(after, gvk), Encode(m.path), 0);
    }
  }

  lemma KnownDoesNotClash(cached: map<ID, Mutator>, m: Mutator)
    requires WellFiled(cached) && ConflictsBounded({}, cached) && m.id in cached && cached[m.id] == m
    ensures !Clashes(cached - {m.id}, m)
  {
    forall gvk | Bound(m, gvk)
      ensures !Conflicted(LivePaths(cached - {m.id}, gvk), EntryOf(m))
    {
      NoConflictsMeansFree(cached, gvk);
      LiveWithout(cached, m.id, gvk);
    }
  }

  /** What a conflict-free database does with m. */
  lemma UpsertFacts(cached: map<ID, Mutator>, m: Mutator)
    requires WellFiled(cached) && ConflictsBounded({}, cached) && m.Assign?
    ensures var others := cached - {m.id};
            var found := FoundFor(cached[m.id := m], m, Kinds(m));
            && cached[m.id := m] - {m.id} == others
            && (found != {} <==> Clashes(others, m))
            && (Clashes(others, m) ==> m.id in found)
            && (m.id in cached && cached[m.id] == m ==> !Clashes(others, m))
            && (forall ids: set<ID> :: StillReported(others, ids) == {})
  {
    var others := cached - {m.id};
    OthersAreConflictFree(cached, m.id);
    NothingReported(others);
    assert cached[m.id := m] == others[m.id := m];
    UpsertFinds(others, m);
    if m.id in cached && cached[m.id] == m {
      KnownDoesNotClash(cached, m);
    }
  }

  lemma SchemasAreUnique(a: map<GVK, Tree>, b: map<GVK, Tree>, cached: map<ID, Mutator>)
    requires SchemasExact(a, cached) && SchemasExact(b, cached)
    ensures a == b
  {
    forall gvk ensures SchemaOf(a, gvk) == SchemaOf(b, gvk) {
      assert SchemaIs(SchemaOf(a, gvk), LivePaths(cached, gvk));
      assert SchemaIs(SchemaOf(b, gvk), LivePaths(cached, gvk));
      if gvk in a {
        TrieIsUnique(a[gvk], b[gvk], LivePaths(cached, gvk), []);
      }
    }
    assert forall gvk :: gvk in a <==> gvk in b by {
      forall gvk ensures gvk in a <==> gvk in b {
        assert SchemaOf(a, gvk) == SchemaOf(b, gvk);
      }
    }
    forall gvk | gvk in a ensures a[gvk] == b[gvk] {
      assert SchemaOf(a, gvk) == SchemaOf(b, gvk);
    }
  }

  lemma RestoredSchemas(cached: map<ID, Mutator>, schemas: map<GVK, Tree>, id: ID, schemas': map<GVK, Tree>,
                        cached': map<ID, Mutator>)
    requires SchemasExact(schemas, cached) && SchemasExact(schemas', cached')
    requires cached' == cached - {id}
    ensures id !in cached ==> schemas' == schemas
  {
    if id !in cached {
      assert cached - {id} == cached;
      SchemasAreUnique(schemas', schemas, cached);
    }
  }

  /***** Proof steps: the ordered list *****/

  lemma SearchFinds(s: seq<Mutator>, m: map<ID, Mutator>, id: ID, i: nat)
    requires InSync(s, m) && id in m && i <= |s|
    requires forall k :: 0 <= k < i ==> IdLess(s[k].id, id)
    requires forall k :: i <= k < |s| ==> s[k].id == id || IdLess(id, s[k].id)
    requires Sorted(s)
    ensures i < |s| && s[i].id == id
  {
    var k :| 0 <= k < |s| && s[k] == m[id];
    IdLessIsStrictTotal(id, id);
    if i < k {
      IdLessIsStrictTotal(s[i].id, id);
    }
  }

  lemma SortedIsDistinct(s: seq<Mutator>, i: nat, k: nat)
    requires Sorted(s) && i < |s| && k < |s| && i != k
    ensures s[i].id != s[k].id
  {
    IdLessIsStrictTotal(s[i].id, s[k].id);
    IdLessIsStrictTotal(s[k].id, s[i].id);
    assert IdLess(s[i].id, s[k].id) || IdLess(s[k].id, s[i].id);
  }

  lemma Inserted<T>(s: seq<T>, i: nat, x: T, r: seq<T>)
    requires i <= |s| && r == s[..i] + [x] + s[i..]
    ensures |r| == |s| + 1
    ensures forall k :: 0 <= k < |r| ==> r[k] == if k < i then s[k] else if k == i then x else s[k - 1]
    ensures forall y :: y in r <==> y == x || y in s
  {
    assert s == s[..i] + s[i..];
  }

  lemma Deleted<T>(s: seq<T>, i: nat, r: seq<T>)
    requires i < |s| && r == s[..i] + s[i + 1..]
    ensures |r| == |s| - 1
    ensures forall k :: 0 <= k < |r| ==> r[k] == s[if k < i then k else k + 1]
    ensures forall y :: y in s <==> y == s[i] || y in r
  {
    assert s == s[..i] + [s[i]] + s[i + 1..];
  }

  lemma ListInsert(s: seq<Mutator>, i: nat, x: Mutator, m: map<ID, Mutator>)
    requires Sorted(s) && InSync(s, m) && i <= |s|
    requires forall k :: 0 <= k < i ==> IdLess(s[k].id, x.id)
    requires forall k :: i <= k < |s| ==> IdLess(x.id, s[k].id)
    ensures Sorted(s[..i] + [x] + s[i..]) && InSync(s[..i] + [x] + s[i..], m[x.id := x])
  {
    forall k | 0 <= k < |s| ensures s[k].id != x.id {
      IdLessIsStrictTotal(s[k].id, x.id);
    }
    InsertKeepsSorted(s, i, x);
    Inserted(s, i, x, s[..i] + [x] + s[i..]);
    InSyncInserted(s, s[..i] + [x] + s[i..], x, m);
  }

  lemma InsertKeepsSorted(s: seq<Mutator>, i: nat, x: Mutator)
    requires Sorted(s) && i <= |s|
    requires forall k :: 0 <= k < i ==> IdLess(s[k].id, x.id)
    requires forall k :: i <= k < |s| ==> IdLess(x.id, s[k].id)
    ensures Sorted(s[..i] + [x] + s[i..])
  {
    var r := s[..i] + [x] + s[i..];
    forall a, b | 0 <= a < b < |r| ensures IdLess(r[a].id, r[b].id) {
      assert r[a] == if a < i then s[a] else if a == i then x else s[a - 1];
      assert r[b] == if b < i then s[b] else if b == i then x else s[b - 1];
    }
  }

  lemma InSyncInserted(s: seq<Mutator>, r: seq<Mutator>, x: Mutator, m: map<ID, Mutator>)
    requires InSync(s, m) && (forall y :: y in r <==> y in s || y == x) && forall y :: y in s ==> y.id != x.id
    ensures InSync(r, m[x.id := x])
  {
  }

  lemma ListReplace(s: seq<Mutator>, i: nat, x: Mutator, m: map<ID, Mutator>)
    requires Sorted(s) && InSync(s, m) && i < |s| && s[i].id == x.id
    ensures Sorted(s[i := x]) && InSync(s[i := x], m[x.id := x])
  {
    var r, after := s[i := x], m[x.id := x];
    forall k | 0 <= k < |s| && k != i ensures s[k].id != x.id {
      SortedIsDistinct(s, i, k);
    }
    forall id | id in after
      ensures after[id] in r
    {
      if id == x.id {
        assert r[i] == x;
      } else {
        var k :| 0 <= k < |s| && s[k] == m[id];
        assert r[k] == s[k];
      }
    }
  }

  lemma ListDelete(s: seq<Mutator>, i: nat, m: map<ID, Mutator>)
    requires Sorted(s) && InSync(s, m) && i < |s|
    ensures Sorted(s[..i] + s[i + 1..]) && InSync(s[..i] + s[i + 1..], m - {s[i].id})
  {
    forall k | 0 <= k < |s| && k != i ensures s[k].id != s[i].id {
      SortedIsDistinct(s, i, k);
    }
    Deleted(s, i, s[..i] + s[i + 1..]);
  }
}
