/** The schema database: the implied schemas of all kinds, and the mutators in conflict. */
module SchemaDB {
  import opened Types
  import opened PathAst
  import opened Mutators
  import opened SchemaNode
  import opened SchemaLaws

  ghost function EntryOf(m: Mutator): Entry {
    Entry(m.id, Encode(m.path))
  }

  ghost predicate Bound(m: Mutator, gvk: GVK) {
    m.Assign? && gvk in m.bindings
  }

  /** The live paths of one kind. */
  ghost function LivePaths(cached: map<ID, Mutator>, gvk: GVK): set<Entry> {
    set id | id in cached && Bound(cached[id], gvk) :: EntryOf(cached[id])
  }

  /** Every cached mutator is filed under its own ID and bound to distinct kinds. */
  ghost predicate WellFiled(cached: map<ID, Mutator>) {
    forall id :: id in cached ==> cached[id].id == id && cached[id].Assign? && Distinct(cached[id].bindings)
  }

  function SchemaOf(schemas: map<GVK, Tree>, gvk: GVK): Option<Tree> {
    if gvk in schemas then Some(schemas[gvk]) else None
  }

  /** The schema is the trie of live, and is there iff something is live. */
  ghost predicate SchemaIs(schema: Option<Tree>, live: set<Entry>) {
    && (schema.Some? <==> live != {})
    && (schema.Some? ==> IsTrie(schema.value, live, []))
  }

  /** Some schema that id is bound to reports a conflict on the way of its path. */
  ghost predicate Reports(cached: map<ID, Mutator>, id: ID, gvk: GVK) {
    && id in cached && Bound(cached[id], gvk)
    && ConflictCheckFrom(LivePaths(cached, gvk), Encode(cached[id].path), 0) == Known(true)
  }

  ghost predicate ReportsSomewhere(cached: map<ID, Mutator>, id: ID) {
    exists gvk :: Reports(cached, id, gvk)
  }

  ghost predicate SchemasExact(schemas: map<GVK, Tree>, cached: map<ID, Mutator>) {
    forall gvk :: SchemaIs(SchemaOf(schemas, gvk), LivePaths(cached, gvk))
  }

  /** The schema of gvk is up to date with after if gvk is done, and with before otherwise. */
  ghost predicate Partway(schemas: map<GVK, Tree>, gvk: GVK, done: set<GVK>, before: map<ID, Mutator>,
                          after: map<ID, Mutator>) {
    SchemaIs(SchemaOf(schemas, gvk), if gvk in done then LivePaths(after, gvk) else LivePaths(before, gvk))
  }

  /** Every pairwise conflict is known, and every known conflict is reported by some schema. */
  ghost predicate ConflictsBounded(conflicts: set<ID>, cached: map<ID, Mutator>) {
    && (forall gvk :: ConflictingIds(LivePaths(cached, gvk)) <= conflicts)
    && (forall id :: id in conflicts ==> ReportsSomewhere(cached, id))
  }

  /** The IDs that Remove keeps as conflicts. */
  ghost function StillReported(cached: map<ID, Mutator>, ids: set<ID>): set<ID> {
    set id | id in ids && ReportsSomewhere(cached, id)
  }

  /** The IDs that adding m, already in cached, reports. */
  ghost function FoundFor(cached: map<ID, Mutator>, m: Mutator, gvks: set<GVK>): set<ID> {
    set gvk, id | gvk in gvks && id in ConflictsAlong(LivePaths(cached, gvk), Encode(m.path), 0) :: id
  }

  ghost function Kinds(m: Mutator): set<GVK>
    requires m.Assign?
  {
    set gvk | gvk in m.bindings
  }

  lemma LiveIsWellTyped(cached: map<ID, Mutator>, gvk: GVK)
    ensures AllWellTyped(LivePaths(cached, gvk))
  {
    forall e | e in LivePaths(cached, gvk)
      ensures WellTyped(e.steps)
    {
      var id :| id in cached && Bound(cached[id], gvk) && e == EntryOf(cached[id]);
      EncodeIsWellTyped(cached[id].path);
    }
  }

  lemma LiveHasOnePath(cached: map<ID, Mutator>, gvk: GVK, id: ID)
    requires WellFiled(cached)
    ensures OnePath(LivePaths(cached, gvk), id)
  {
  }

  /** Caching m adds its path to the kinds it is bound to, and to no other. */
  lemma LiveWith(cached: map<ID, Mutator>, m: Mutator, gvk: GVK)
    requires m.id !in cached
    ensures LivePaths(cached[m.id := m], gvk)
         == if Bound(m, gvk) then LivePaths(cached, gvk) + {EntryOf(m)} else LivePaths(cached, gvk)
  {
    var after := cached[m.id := m];
    forall e
      ensures e in LivePaths(after, gvk) <==> e in LivePaths(cached, gvk) || (Bound(m, gvk) && e == EntryOf(m))
    {
      if e in LivePaths(cached, gvk) {
        var id :| id in cached && Bound(cached[id], gvk) && e == EntryOf(cached[id]);
        assert after[id] == cached[id];
      }
      if Bound(m, gvk) && e == EntryOf(m) {
        assert after[m.id] == m;
      }
    }
  }

  lemma LiveWithout(cached: map<ID, Mutator>, id: ID, gvk: GVK)
    requires WellFiled(cached) && id in cached
    ensures LivePaths(cached - {id}, gvk)
         == if Bound(cached[id], gvk) then LivePaths(cached, gvk) - {EntryOf(cached[id])} else LivePaths(cached, gvk)
    ensures Bound(cached[id], gvk) ==> EntryOf(cached[id]) in LivePaths(cached, gvk)
  {
    var before := cached - {id};
    assert before[id := cached[id]] == cached;
    LiveWith(before, cached[id], gvk);
    assert EntryOf(cached[id]) !in LivePaths(before, gvk);
  }

  class DB {
    var cachedMutators: map<ID, Mutator>
    var schemas: map<GVK, Tree>
    var conflicts: set<ID>

    ghost predicate Valid()
      reads this
    {
      && WellFiled(cachedMutators)
      && SchemasExact(schemas, cachedMutators)
      && ConflictsBounded(conflicts, cachedMutators)
    }

    constructor ()
      ensures Valid()
      ensures cachedMutators == map[] && schemas == map[] && conflicts == {}
    {
      cachedMutators, schemas, conflicts := map[], map[], {};
    }

    method Upsert(m: Mutator) returns (found: set<ID>)
      requires Valid() && m.Assign? && Distinct(m.bindings)
      modifies this
      ensures Valid() && cachedMutators == old(cachedMutators)[m.id := m]
      ensures m.id in old(cachedMutators) && old(cachedMutators)[m.id] == m ==>
                && found == {}
                && schemas == old(schemas) && conflicts == old(conflicts)
      ensures !(m.id in old(cachedMutators) && old(cachedMutators)[m.id] == m) ==>
                && found == FoundFor(cachedMutators, m, Kinds(m))
                && conflicts == found + (if m.id in old(cachedMutators)
                                         then StillReported(old(cachedMutators) - {m.id}, old(conflicts) - {m.id})
                                         else old(conflicts))
    {
      if m.id in cachedMutators {
        if !m.HasDiff(cachedMutators[m.id]) {
          return {};
        }
        Remove(m.id);
      }
      ghost var before, others := cachedMutators, conflicts;
      cachedMutators := cachedMutators[m.id := m];
      found := AddToSchemas(m, before);
      conflicts := conflicts + found;
      UpsertKeepsBounds(before, m, others);
    }

    method Remove(id: ID)
      requires Valid()
      modifies this
      ensures Valid()
      ensures id !in old(cachedMutators) ==>
                cachedMutators == old(cachedMutators) && schemas == old(schemas) && conflicts == old(conflicts)
      ensures id in old(cachedMutators) ==>
                && cachedMutators == old(cachedMutators) - {id}
                && conflicts == StillReported(cachedMutators, old(conflicts) - {id})
    {
      if id !in cachedMutators {
        return;
      }
      ghost var before, after := cachedMutators, cachedMutators - {id};
      RemoveFromSchemas(cachedMutators[id]);
      cachedMutators := cachedMutators - {id};
      RemoveNarrows(before, id, conflicts);
      conflicts := conflicts - {id};

      RecheckConflicts();
    }

    /** The loop of remove that drops the conflicts no schema reports any more. */
    method RecheckConflicts()
      requires WellFiled(cachedMutators) && SchemasExact(schemas, cachedMutators)
      requires conflicts <= cachedMutators.Keys  // so no nil mutator is dereferenced
      modifies this`conflicts
      ensures conflicts == StillReported(cachedMutators, old(conflicts))
    {
      var todo := conflicts;
      while todo != {}
        invariant todo <= conflicts <= old(conflicts)
        invariant forall c :: c in old(conflicts) - todo ==> (c in conflicts <==> ReportsSomewhere(cachedMutators, c))
      {
        var c :| c in todo;
        var has := HasConflictsAnywhere(cachedMutators[c]);
        if !has {
          conflicts := conflicts - {c};
        }
        todo := todo - {c};
      }
    }

    /** The loop of upsert that adds the path of m to the schema of each of its kinds. */
    method AddToSchemas(m: Mutator, ghost before: map<ID, Mutator>) returns (found: set<ID>)
      requires m.Assign? && Distinct(m.bindings) && m.id !in before
      requires SchemasExact(schemas, before) && cachedMutators == before[m.id := m]
      modifies this`schemas
      ensures SchemasExact(schemas, cachedMutators)
      ensures found == FoundFor(cachedMutators, m, Kinds(m))
    {
      ghost var done: set<GVK> := {};
      found := {};
      NoneDone(before, cachedMutators, schemas);
      for i := 0 to |m.bindings|
        invariant done == set g | g in m.bindings[..i]
        invariant forall g :: Partway(schemas, g, done, before, cachedMutators)
        invariant found == FoundFor(cachedMutators, m, done)
      {
        var gvk := m.bindings[i];
        var newConflicts := AddToSchema(m, gvk, before, done);
        FoundStep(cachedMutators, m, done, gvk);
        found := found + newConflicts;
        done := done + {gvk};
      }
      forall g | g !in done ensures LivePaths(before, g) == LivePaths(cachedMutators, g) {
        LiveWith(before, m, g);
      }
      AllDone(before, cachedMutators, schemas, done);
    }

    method AddToSchema(m: Mutator, gvk: GVK, ghost before: map<ID, Mutator>, ghost done: set<GVK>)
      returns (newConflicts: set<ID>)
      requires Bound(m, gvk) && gvk !in done && m.id !in before && cachedMutators == before[m.id := m]
      requires forall g :: Partway(schemas, g, done, before, cachedMutators)
      modifies this`schemas
      ensures forall g :: Partway(schemas, g, done + {gvk}, before, cachedMutators)
      ensures newConflicts == ConflictsAlong(LivePaths(cachedMutators, gvk), Encode(m.path), 0)
    {
      assert Partway(schemas, gvk, done, before, cachedMutators);
      var s := if gvk in schemas then schemas[gvk] else EMPTY;
      AddReady(before, m, gvk, schemas);
      var t;
      t, newConflicts := Add(s, m.id, m.path, LivePaths(before, gvk), []);
      RootIsReferenced(t, LivePaths(cachedMutators, gvk));
      PartwayStep(schemas, schemas[gvk := t], gvk, t, done, before, cachedMutators);
      schemas := schemas[gvk := t];
    }

    /** The loop of remove that takes the path of m out of the schema of each of its kinds. */
    method RemoveFromSchemas(m: Mutator)
      requires WellFiled(cachedMutators) && SchemasExact(schemas, cachedMutators)
      requires m.id in cachedMutators && cachedMutators[m.id] == m
      modifies this`schemas
      ensures SchemasExact(schemas, cachedMutators - {m.id})
    {
      ghost var before, after := cachedMutators, cachedMutators - {m.id};
      ghost var done: set<GVK> := {};
      NoneDone(before, after, schemas);
      for i := 0 to |m.bindings|
        invariant cachedMutators == before
        invariant done == set g | g in m.bindings[..i]
        invariant forall g :: Partway(schemas, g, done, cachedMutators, after)
      {
        var gvk := m.bindings[i];
        assert gvk !in done;
        RemoveFromSchema(m, gvk, after, done);
        done := done + {gvk};
      }
      forall g | g !in done ensures LivePaths(before, g) == LivePaths(after, g) {
        LiveWithout(before, m.id, g);
      }
      AllDone(before, after, schemas, done);
    }

    /** The schema is there and references m, so neither of the source's panics is reached. */
    method RemoveFromSchema(m: Mutator, gvk: GVK, ghost after: map<ID, Mutator>, ghost done: set<GVK>)
      requires WellFiled(cachedMutators) && m.id in cachedMutators && cachedMutators[m.id] == m
      requires Bound(m, gvk) && gvk !in done && after == cachedMutators - {m.id}
      requires forall g :: Partway(schemas, g, done, cachedMutators, after)
      modifies this`schemas
      ensures forall g :: Partway(schemas, g, done + {gvk}, cachedMutators, after)
    {
      assert Partway(schemas, gvk, done, cachedMutators, after);
      RemoveReady(cachedMutators, m, gvk, schemas);
      var ok, s := SchemaNode.Remove(schemas[gvk], m.id, m.path, LivePaths(cachedMutators, gvk), []);
      assert ok;
      ghost var previous := schemas;
      schemas := if |s.referencedBy| == 0 then schemas - {gvk} else schemas[gvk := s];
      PartwayStep(previous, schemas, gvk, s, done, cachedMutators, after);
    }

    /** The loop over one mutator's bindings inside Remove. */
    method HasConflictsAnywhere(m: Mutator) returns (has: bool)
      requires WellFiled(cachedMutators) && SchemasExact(schemas, cachedMutators)
      requires m.id in cachedMutators && cachedMutators[m.id] == m
      ensures has == ReportsSomewhere(cachedMutators, m.id)
    {
      for i := 0 to |m.bindings|
        invariant forall g :: g in m.bindings[..i] ==> !Reports(cachedMutators, m.id, g)
      {
        var gvk := m.bindings[i];
        assert EntryOf(m) in LivePaths(cachedMutators, gvk);
        assert SchemaIs(SchemaOf(schemas, gvk), LivePaths(cachedMutators, gvk));
        LiveIsWellTyped(cachedMutators, gvk);
        assert [] + Encode(m.path) == Encode(m.path);
        var check := SchemaNode.HasConflicts(schemas[gvk], m.path, LivePaths(cachedMutators, gvk), []);
        if check.Known? && check.hasConflicts {
          assert Reports(cachedMutators, m.id, gvk);
          return true;
        }
      }
      return false;
    }

    /** Whether the mutator of this ID is known to conflict with another. */
    method HasConflicts(id: ID) returns (has: bool)
      requires Valid()
      ensures has ==> ReportsSomewhere(cachedMutators, id)
      ensures (exists gvk :: id in ConflictingIds(LivePaths(cachedMutators, gvk))) ==> has
      ensures has == (id in conflicts)
      ensures !DisputedSomewhere(cachedMutators, id) ==> (has <==> ConflictsSomewhere(cachedMutators, id))
    {
      KnownIsExact(conflicts, cachedMutators, id);
      has := id in conflicts;
    }
  }

  /***** Proof steps *****/

  lemma EmptyIsTrie(schema: Option<Tree>, live: set<Entry>)
    requires SchemaIs(schema, live)
    ensures IsTrie(if schema.Some? then schema.value else EMPTY, live, [])
  {
    assert forall s :: !HasChild(EMPTY, s);
  }

  lemma RootIsReferenced(n: Tree, live: set<Entry>)
    requires IsTrie(n, live, [])
    ensures n.referencedBy == {} <==> live == {}
  {
    if e :| e in live {
      assert Visits(e, []);
    }
  }

  lemma AddReady(before: map<ID, Mutator>, m: Mutator, gvk: GVK, schemas: map<GVK, Tree>)
    requires m.id !in before && Bound(m, gvk) && SchemaIs(SchemaOf(schemas, gvk), LivePaths(before, gvk))
    ensures IsTrie(if gvk in schemas then schemas[gvk] else EMPTY, LivePaths(before, gvk), [])
    ensures AllWellTyped(LivePaths(before, gvk)) && WellTyped([] + Encode(m.path))
    ensures [] + Encode(m.path) == Encode(m.path)
    ensures LivePaths(before[m.id := m], gvk) == LivePaths(before, gvk) + {Entry(m.id, [] + Encode(m.path))}
  {
    assert [] + Encode(m.path) == Encode(m.path);
    EncodeIsWellTyped(m.path);
    LiveIsWellTyped(before, gvk);
    LiveWith(before, m, gvk);
    EmptyIsTrie(SchemaOf(schemas, gvk), LivePaths(before, gvk));
  }

  lemma RemoveReady(cached: map<ID, Mutator>, m: Mutator, gvk: GVK, schemas: map<GVK, Tree>)
    requires WellFiled(cached) && m.id in cached && cached[m.id] == m && Bound(m, gvk)
    requires SchemaIs(SchemaOf(schemas, gvk), LivePaths(cached, gvk))
    ensures gvk in schemas && OnePath(LivePaths(cached, gvk), m.id)
    ensures Entry(m.id, [] + Encode(m.path)) in LivePaths(cached, gvk)
    ensures LivePaths(cached - {m.id}, gvk) == LivePaths(cached, gvk) - {Entry(m.id, [] + Encode(m.path))}
  {
    assert [] + Encode(m.path) == Encode(m.path);
    LiveWithout(cached, m.id, gvk);
    LiveHasOnePath(cached, gvk, m.id);
  }

  lemma NoneDone(before: map<ID, Mutator>, after: map<ID, Mutator>, schemas: map<GVK, Tree>)
    requires SchemasExact(schemas, before)
    ensures forall g :: Partway(schemas, g, {}, before, after)
  {
    forall g ensures Partway(schemas, g, {}, before, after) {
      assert SchemaIs(SchemaOf(schemas, g), LivePaths(before, g));
    }
  }

  /** Storing the new tree of gvk, or dropping it if nothing references it, makes gvk done. */
  lemma PartwayStep(schemas: map<GVK, Tree>, next: map<GVK, Tree>, gvk: GVK, t: Tree, done: set<GVK>,
                    before: map<ID, Mutator>, after: map<ID, Mutator>)
    requires forall g :: Partway(schemas, g, done, before, after)
    requires IsTrie(t, LivePaths(after, gvk), [])
    requires next == if t.referencedBy == {} then schemas - {gvk} else schemas[gvk := t]
    ensures forall g :: Partway(next, g, done + {gvk}, before, after)
  {
    forall g
      ensures Partway(next, g, done + {gvk}, before, after)
    {
      assert Partway(schemas, g, done, before, after);
      if g != gvk {
        assert SchemaOf(next, g) == SchemaOf(schemas, g);
      } else {
        RootIsReferenced(t, LivePaths(after, gvk));
      }
    }
  }

  lemma FoundStep(cached: map<ID, Mutator>, m: Mutator, done: set<GVK>, gvk: GVK)
    ensures FoundFor(cached, m, done + {gvk}) ==
            FoundFor(cached, m, done) + ConflictsAlong(LivePaths(cached, gvk), Encode(m.path), 0)
  {
  }

  lemma AllDone(before: map<ID, Mutator>, after: map<ID, Mutator>, schemas: map<GVK, Tree>, done: set<GVK>)
    requires forall g :: Partway(schemas, g, done, before, after)
    requires forall g :: g !in done ==> LivePaths(before, g) == LivePaths(after, g)
    ensures SchemasExact(schemas, after)
  {
    forall g ensures SchemaIs(SchemaOf(schemas, g), LivePaths(after, g)) {
      assert Partway(schemas, g, done, before, after);
    }
  }

  /** A pairwise conflict is reported by the schema it is in. */
  lemma ConflictingReports(cached: map<ID, Mutator>, id: ID, gvk: GVK)
    requires WellFiled(cached) && id in ConflictingIds(LivePaths(cached, gvk))
    ensures ReportsSomewhere(cached, id)
  {
    var live := LivePaths(cached, gvk);
    var e :| e in live && Conflicted(live, e) && e.id == id;
    LiveIsWellTyped(cached, gvk);
    HasConflictsIsExact(live, e);
    assert e == EntryOf(cached[id]);
    assert Reports(cached, id, gvk);
  }

  lemma OldReportsStay(before: map<ID, Mutator>, m: Mutator, id: ID)
    requires WellFiled(before) && m.id !in before && ReportsSomewhere(before, id)
    ensures ReportsSomewhere(before[m.id := m], id)
  {
    var after := before[m.id := m];
    var gvk :| Reports(before, id, gvk);
    LiveWith(before, m, gvk);
    LiveIsWellTyped(after, gvk);
    assert EntryOf(before[id]) in LivePaths(before, gvk);
    HasConflictsIsMonotone(LivePaths(before, gvk), LivePaths(after, gvk), EntryOf(before[id]));
    assert Reports(after, id, gvk);
  }

  lemma NewConflictsAreFound(before: map<ID, Mutator>, m: Mutator, gvk: GVK, id: ID)
    requires m.Assign? && m.id !in before
    requires id in ConflictingIds(LivePaths(before[m.id := m], gvk))
    ensures id in ConflictingIds(LivePaths(before, gvk)) || id in FoundFor(before[m.id := m], m, Kinds(m))
  {
    LiveWith(before, m, gvk);
    var live := LivePaths(before[m.id := m], gvk);
    var e :| e in live && Conflicted(live, e) && e.id == id;
    var f :| f in live && PathsConflict(e.steps, f.steps);
    var x := EntryOf(m);
    if e == x {
      AlongFindsNewConflicts(live, x, f);
    } else if f == x {
      ConflictIsSymmetric(e.steps, f.steps);
      AlongFindsNewConflicts(live, x, e);
    }
  }

  lemma UpsertKeepsBounds(before: map<ID, Mutator>, m: Mutator, others: set<ID>)
    requires m.Assign? && m.id !in before && WellFiled(before) && WellFiled(before[m.id := m])
    requires ConflictsBounded(others, before)
    ensures ConflictsBounded(others + FoundFor(before[m.id := m], m, Kinds(m)), before[m.id := m])
  {
    var after := before[m.id := m];
    var found := FoundFor(after, m, Kinds(m));
    forall gvk, id | id in ConflictingIds(LivePaths(after, gvk))
      ensures id in others + found
    {
      NewConflictsAreFound(before, m, gvk, id);
    }
    forall id | id in others + found
      ensures ReportsSomewhere(after, id)
    {
      if id in others {
        OldReportsStay(before, m, id);
      } else {
        var gvk :| gvk in Kinds(m) && id in ConflictsAlong(LivePaths(after, gvk), Encode(m.path), 0);
        AlongIsConflicting(LivePaths(after, gvk), Encode(m.path));
        ConflictingReports(after, id, gvk);
      }
    }
  }

  /** Pairwise conflicts left after a removal were there before it, and are not about id. */
  lemma RemoveNarrows(before: map<ID, Mutator>, id: ID, conflicts: set<ID>)
    requires WellFiled(before) && id in before && ConflictsBounded(conflicts, before)
    ensures forall gvk :: ConflictingIds(LivePaths(before - {id}, gvk)) <= conflicts - {id}
    ensures forall c :: c in conflicts - {id} ==> c in before - {id}
    ensures ConflictsBounded(StillReported(before - {id}, conflicts - {id}), before - {id})
  {
    var after := before - {id};
    forall gvk, c | c in ConflictingIds(LivePaths(after, gvk))
      ensures c in conflicts - {id} && ReportsSomewhere(after, c)
    {
      LiveWithout(before, id, gvk);
      ConflictingReports(after, c, gvk);
      var e :| e in LivePaths(after, gvk) && Conflicted(LivePaths(after, gvk), e) && e.id == c;
      assert Conflicted(LivePaths(before, gvk), e);
      assert c in ConflictingIds(LivePaths(before, gvk));
    }
  }

  /***** What DB.HasConflicts means *****/

  /** Somewhere the path of id conflicts with another one. */
  ghost predicate ConflictsSomewhere(cached: map<ID, Mutator>, id: ID) {
    exists gvk :: id in ConflictingIds(LivePaths(cached, gvk))
  }

  /** Somewhere two other paths disagree about the last field of the path of id. */
  ghost predicate DisputedSomewhere(cached: map<ID, Mutator>, id: ID) {
    exists gvk :: id in cached && Bound(cached[id], gvk) && TargetDisputed(LivePaths(cached, gvk), EntryOf(cached[id]))
  }

  /** The removal keeps exactly the IDs that still conflict, or whose last field is disputed. */
  lemma ReportsIsExact(cached: map<ID, Mutator>, id: ID)
    requires WellFiled(cached)
    ensures ReportsSomewhere(cached, id) <==> ConflictsSomewhere(cached, id) || DisputedSomewhere(cached, id)
  {
    forall gvk
      ensures Reports(cached, id, gvk) <==>
              || id in ConflictingIds(LivePaths(cached, gvk))
              || (id in cached && Bound(cached[id], gvk) && TargetDisputed(LivePaths(cached, gvk), EntryOf(cached[id])))
    {
      var live := LivePaths(cached, gvk);
      LiveIsWellTyped(cached, gvk);
      if id in cached && Bound(cached[id], gvk) {
        assert EntryOf(cached[id]) in live;
        HasConflictsIsExact(live, EntryOf(cached[id]));
      }
    }
  }

  /** What the invariant leaves open is exactly the IDs that only others dispute. */
  lemma KnownIsExact(conflicts: set<ID>, cached: map<ID, Mutator>, id: ID)
    requires WellFiled(cached) && ConflictsBounded(conflicts, cached)
    ensures ConflictsSomewhere(cached, id) ==> id in conflicts
    ensures id in conflicts ==> ConflictsSomewhere(cached, id) || DisputedSomewhere(cached, id)
    ensures !DisputedSomewhere(cached, id) ==> (id in conflicts <==> ConflictsSomewhere(cached, id))
  {
    ReportsIsExact(cached, id);
  }

  /** The mutators of one kind, with their entries. */
  lemma LiveWithNew(cached: map<ID, Mutator>, live: set<Entry>, m: Mutator, gvk: GVK)
    requires WellFiled(cached) && LivePaths(cached, gvk) == live
    requires m.id !in cached && m.Assign? && m.bindings == [gvk]
    ensures WellFiled(cached[m.id := m]) && LivePaths(cached[m.id := m], gvk) == live + {EntryOf(m)}
  {
    LiveWith(cached, m, gvk);
  }

  /** `a.b`, `a.b.c`, `a.b[k: v]` and `a[k: v]`, encoded. */
  lemma EncodedWitness(k: string, v: KeyValue)
    ensures var a, b, list := Object("a"), Object("b"), List(k, v, false);
      && Encode([a, b]) == [Step("a", ObjectNode), Step("b", Unknown)]
      && Encode([a, b, Object("c")]) == [Step("a", ObjectNode), Step("b", ObjectNode), Step("c", Unknown)]
      && Encode([a, b, list]) == [Step("a", ObjectNode), Step("b", ListNode), Step(k, Unknown)]
      && Encode([a, list]) == [Step("a", ListNode), Step(k, Unknown)]
  {
    var a, b, c, list := Object("a"), Object("b"), Object("c"), List(k, v, false);
    assert Encode([b]) == [Step("b", Unknown)] && Encode([c]) == [Step("c", Unknown)];
    assert Encode([list]) == [Step(k, Unknown)];
    assert [a, b][1..] == [b] && [a, b, c][1..] == [b, c] && [b, c][1..] == [c];
    assert Encode([b, c]) == [Step("b", ObjectNode), Step("c", Unknown)];
    assert [a, b, list][1..] == [b, list] && [b, list][1..] == [list] && [a, list][1..] == [list];
    assert Encode([b, list]) == [Step("b", ListNode), Step(k, Unknown)];
  }

  lemma WitnessConflicts(e: Entry, f: Entry, g: Entry, h: Entry)
    requires e.steps == [Step("a", ObjectNode), Step("b", Unknown)]
    requires f.steps == [Step("a", ObjectNode), Step("b", ObjectNode), Step("c", Unknown)]
    requires g.steps == [Step("a", ObjectNode), Step("b", ListNode), Step("k", Unknown)]
    requires h.steps == [Step("a", ListNode), Step("k", Unknown)]
    ensures Conflicted({e, f, g, h}, e) && !Conflicted({e, f, g}, e) && TargetDisputed({e, f, g}, e)
  {
    assert ConflictAt(e.steps, h.steps, 0);
    assert PathsConflict(e.steps, h.steps);
    var pos := e.steps[..1];
    assert f.steps[..1] == g.steps[..1] == pos == [Step("a", ObjectNode)];
    assert ConflictAt(f.steps, g.steps, 1);
    assert pos <= f.steps;
    assert Disagrees({e, f, g}, f, pos);
    assert f.id in ConflictsAt({e, f, g}, pos, "b");
  }

  /** A mutator bound to a single kind conflicts there or nowhere. */
  lemma ConflictsInItsKind(cached: map<ID, Mutator>, id: ID, gvk: GVK)
    requires WellFiled(cached) && id in cached && cached[id].bindings == [gvk]
    ensures ConflictsSomewhere(cached, id) <==> Conflicted(LivePaths(cached, gvk), EntryOf(cached[id]))
    ensures DisputedSomewhere(cached, id) <==> TargetDisputed(LivePaths(cached, gvk), EntryOf(cached[id]))
  {
    var live := LivePaths(cached, gvk);
    assert EntryOf(cached[id]) in live;
    LiveHasOnePath(cached, gvk, id);
    assert Conflicted(live, EntryOf(cached[id])) <==> id in ConflictingIds(live);
    if g :| id in ConflictingIds(LivePaths(cached, g)) {
      assert g == gvk;
    }
  }

  /** Once h is gone, nothing conflicts with e, but its last field is disputed. */
  lemma WitnessOutlives(before: map<ID, Mutator>, e: Mutator, h: Mutator, rest: set<Entry>, gvk: GVK)
    requires WellFiled(before) && e.id in before && h.id in before && before[e.id] == e && before[h.id] == h
    requires e.Assign? && h.Assign? && e.bindings == h.bindings == [gvk] && e.id != h.id
    requires LivePaths(before, gvk) == rest + {EntryOf(h)} && EntryOf(h) !in rest
    requires Conflicted(rest + {EntryOf(h)}, EntryOf(e))
    requires !Conflicted(rest, EntryOf(e)) && TargetDisputed(rest, EntryOf(e))
    ensures ConflictsSomewhere(before, e.id) && !ConflictsSomewhere(before - {h.id}, e.id)
    ensures DisputedSomewhere(before - {h.id}, e.id)
  {
    LiveWithout(before, h.id, gvk);
    assert rest + {EntryOf(h)} - {EntryOf(h)} == rest;
    ConflictsInItsKind(before, e.id, gvk);
    ConflictsInItsKind(before - {h.id}, e.id, gvk);
  }

  ghost predicate InKind(m: Mutator, gvk: GVK) {
    m.Assign? && m.bindings == [gvk]
  }

  lemma FourCached(e: Mutator, f: Mutator, g: Mutator, h: Mutator, gvk: GVK) returns (cached: map<ID, Mutator>)
    requires InKind(e, gvk) && InKind(f, gvk) && InKind(g, gvk) && InKind(h, gvk)
    requires e.id != f.id && g.id !in {e.id, f.id} && h.id !in {e.id, f.id, g.id}
    ensures WellFiled(cached) && e.id in cached && h.id in cached && cached[e.id] == e && cached[h.id] == h
    ensures LivePaths(cached, gvk) == {EntryOf(e), EntryOf(f), EntryOf(g), EntryOf(h)}
  {
    var none: map<ID, Mutator> := map[];
    LiveWithNew(none, {}, e, gvk);
    LiveWithNew(none[e.id := e], {EntryOf(e)}, f, gvk);
    LiveWithNew(none[e.id := e][f.id := f], {EntryOf(e), EntryOf(f)}, g, gvk);
    LiveWithNew(none[e.id := e][f.id := f][g.id := g], {EntryOf(e), EntryOf(f), EntryOf(g)}, h, gvk);
    cached := none[e.id := e][f.id := f][g.id := g][h.id := h];
  }

  /**
   * So a conflict can outlive its cause, though the documentation of DB says otherwise: `a.b`
   * conflicts with `a[k: v]` only, and still counts as conflicting after that is removed if
   * `a.b.c` and `a.b[k: v]` are there.
   */
  lemma ConflictOutlivesItsCause(gvk: GVK) returns (before: map<ID, Mutator>, id: ID, cause: ID)
    ensures WellFiled(before) && ConflictsSomewhere(before, id) && cause in before
    ensures !ConflictsSomewhere(before - {cause}, id)
    ensures id in StillReported(before - {cause}, {id})
  {
    id, cause := ID("", "", "", "e"), ID("", "", "", "h");
    var a, b, list := Object("a"), Object("b"), List("k", StrKey("v"), false);
    var e := Assign(id, [a, b], [gvk], "");
    var f := Assign(ID("", "", "", "f"), [a, b, Object("c")], [gvk], "");
    var g := Assign(ID("", "", "", "g"), [a, b, list], [gvk], "");
    var h := Assign(cause, [a, list], [gvk], "");
    EncodedWitness("k", StrKey("v"));
    WitnessConflicts(EntryOf(e), EntryOf(f), EntryOf(g), EntryOf(h));
    before := FourCached(e, f, g, h, gvk);
    var rest := {EntryOf(e), EntryOf(f), EntryOf(g)};
    assert rest + {EntryOf(h)} == {EntryOf(e), EntryOf(f), EntryOf(g), EntryOf(h)};
    WitnessOutlives(before, e, h, rest, gvk);
    ReportsIsExact(before - {cause}, id);
  }
}
