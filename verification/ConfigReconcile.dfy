/** Which namespaces a process leaves alone. */
module Excluder {
  import opened Types

  /** An object as the data cache knows it. */
  datatype Datum = Datum(gvk: GVK, namespace: string, name: string)

  /** The patterns of each process, by the process's name. */
  type Excluder = map<string, set<string>>

  const SYNC := "sync"

  /** A pattern that ends in a star matches every name that begins with the rest of it. */
  predicate Matches(pattern: string, candidate: string) {
    if pattern != [] && pattern[|pattern| - 1] == '*' then pattern[..|pattern| - 1] <= candidate
    else pattern == candidate
  }

  /** A Namespace counts by its own name. */
  function NamespaceOf(d: Datum): string {
    if d.gvk.kind == "Namespace" && d.gvk.group == "" then d.name else d.namespace
  }

  /** The namespace that counts for d: its own name if it is a core Namespace. */
  ghost predicate LivesIn(d: Datum, ns: string) {
    ns == if d.gvk.group == "" && d.gvk.kind == "Namespace" then d.name else d.namespace
  }

  /** Among the patterns is the namespace itself, or a beginning of it with a star. */
  ghost predicate Listed(patterns: set<string>, ns: string) {
    || (ns in patterns && (ns == "" || ns[|ns| - 1] != '*'))
    || exists n :: 0 <= n <= |ns| && ns[..n] + "*" in patterns
  }

  /** The patterns for syncing keep d out of the cache. */
  ghost predicate Barred(x: Excluder, d: Datum) {
    exists ns :: LivesIn(d, ns) && "sync" in x && Listed(x["sync"], ns)
  }

  /** IsNamespaceExcluded. */
  predicate Excluded(x: Excluder, d: Datum)
    ensures Excluded(x, d) <==> Barred(x, d)
  {
    MatchesIffListed(if SYNC in x then x[SYNC] else {}, NamespaceOf(d));
    SYNC in x && exists p :: p in x[SYNC] && Matches(p, NamespaceOf(d))
  }

  lemma MatchesIffListed(patterns: set<string>, ns: string)
    ensures (exists p :: p in patterns && Matches(p, ns)) <==> Listed(patterns, ns)
  {
    if p :| p in patterns && Matches(p, ns) && (p != ns || (ns != "" && ns[|ns| - 1] == '*')) {
      assert ns[..|p| - 1] + "*" == p;
    }
    if n :| 0 <= n <= |ns| && ns[..n] + "*" in patterns {
      var p := ns[..n] + "*";
      assert p[..|p| - 1] == ns[..n];
      assert Matches(p, ns);
    } else if Listed(patterns, ns) {
      assert Matches(ns, ns);
    }
  }
}

/**
 * The Config reconciler with the data cache it feeds. The sync controller writes to the same
 * cache, one atomic step at a time, between any two steps of the reconciler. What the sync
 * controller does when, which calls fail, and what the lists return is an arbitrary environment,
 * indexed by a clock.
 */
module ConfigReconcile {
  import opened Types
  import opened Excluder

  /** What the sync controller finds when an event makes it look at an object. */
  datatype SyncEvent = Deleted(d: Datum) | Present(d: Datum, terminating: bool)

  datatype Env = Env(
    sync: nat -> seq<SyncEvent>,             // the steps that the sync controller completes at that time
    fails: nat -> bool,                      // the call made at that time fails
    list: (nat, GVK) -> seq<Datum>)          // what listing a kind at that time returns

  /** A list of a kind holds objects of that kind. */
  ghost predicate ListsKinds(env: Env) {
    forall n, g, d :: d in env.list(n, g) ==> d.gvk == g
  }

  /** The last of these steps about d found it deleted or terminating. */
  predicate EndsRemoved(events: seq<SyncEvent>, d: Datum) {
    exists i :: 0 <= i < |events| && (events[i] == Deleted(d) || events[i] == Present(d, true)) &&
                Present(d, false) !in events[i + 1..]
  }

  /** The sync controller found d gone at some time from `from` on, and never there between that and `to`. */
  ghost predicate RemovedLast(env: Env, d: Datum, from: nat, to: nat) {
    exists m: nat :: from <= m < to && EndsRemoved(env.sync(m), d) &&
                     forall k :: m < k < to ==> Present(d, false) !in env.sync(k)
  }

  /** One more step about an object that is not there. */
  lemma EndsRemovedStep(events: seq<SyncEvent>, e: SyncEvent, d: Datum)
    ensures e == Deleted(d) || e == Present(d, true) ==> EndsRemoved(events + [e], d)
    ensures EndsRemoved(events, d) && e != Present(d, false) ==> EndsRemoved(events + [e], d)
  {
    var more := events + [e];
    assert more[|events|] == e && more[|events| + 1..] == [];
    if EndsRemoved(events, d) {
      var i :| 0 <= i < |events| && (events[i] == Deleted(d) || events[i] == Present(d, true)) &&
               Present(d, false) !in events[i + 1..];
      assert more[i] == events[i] && more[i + 1..] == events[i + 1..] + [e];
    }
  }

  /** One more moment in which an object was removed, or at least not found. */
  lemma RemovedLastStep(env: Env, d: Datum, from: nat, to: nat)
    ensures from <= to && EndsRemoved(env.sync(to), d) ==> RemovedLast(env, d, from, to + 1)
    ensures RemovedLast(env, d, from, to) && Present(d, false) !in env.sync(to) ==> RemovedLast(env, d, from, to + 1)
  {
  }

  /** The outcome of reading the Config. */
  datatype Fetch = ReadFailed | NotFound | Found(deleting: bool, syncOnly: seq<GVK>, excluder: Excluder)

  /** The kinds to sync and the excluder that a Config asks for. */
  ghost predicate Asks(cfg: Fetch, kinds: set<GVK>, excluder: Excluder) {
    if cfg.Found? && !cfg.deleting then (forall g :: g in kinds <==> g in cfg.syncOnly) && excluder == cfg.excluder
    else kinds == {} && excluder == map[]
  }

  class ReconcileConfig {
    const env: Env
    var clock: nat
    var watched: set<GVK>
    var excluder: Excluder
    var needsReplay: Option<set<GVK>>
    var needsWipe: bool
    var cache: set<Datum>
    ghost var kept: set<GVK>                    // the kinds watched before and after the last change
    ghost var wipedAt: nat                      // when the cache was last emptied
    ghost var listedAt: map<GVK, nat>           // when the kinds replayed in full since then were listed

    /** Every cached object has a watched kind and a namespace that is not excluded. */
    ghost predicate Clean()
      reads this`watched, this`excluder, this`cache
    {
      forall d :: d in cache ==> d.gvk in watched && !Barred(excluder, d)
    }

    /** The object is cached, unless the sync controller has found it gone at some time since. */
    ghost predicate CachedSince(d: Datum, since: nat)
      reads this`clock, this`cache
    {
      d in cache || RemovedLast(env, d, since, clock)
    }

    /** These objects are cached, unless excluded or found gone since. */
    ghost predicate Stored(ds: seq<Datum>, since: nat)
      reads this`clock, this`excluder, this`cache
    {
      forall d :: d in ds ==> Barred(excluder, d) || CachedSince(d, since)
    }

    /** The kind was listed after the last wipe, and all that the list held was put into the cache. */
    ghost predicate Restored(g: GVK)
      reads this`clock, this`excluder, this`cache, this`wipedAt, this`listedAt
    {
      && g in listedAt && wipedAt <= listedAt[g] <= clock
      && Stored(env.list(listedAt[g], g), listedAt[g])
    }

    ghost predicate Pending(g: GVK)
      reads this`needsReplay
    {
      needsReplay.Some? && g in needsReplay.value
    }

    ghost predicate Valid()
      reads this
    {
      && ListsKinds(env) && wipedAt <= clock
      && (needsWipe || Clean())
      && kept <= watched
      && (needsWipe ==> needsReplay == Some(kept))
      && (needsReplay.Some? ==> needsReplay.value <= kept)
      && (forall g :: g in kept ==> Pending(g) || Restored(g))
    }

    /** The kinds still to be replayed. */
    function DueKinds(): set<GVK>
      reads this`needsReplay
    {
      if needsReplay.Some? then needsReplay.value else {}
    }

    constructor (e: Env)
      requires ListsKinds(e)
      ensures Valid() && env == e && watched == {} && excluder == map[] && cache == {} && kept == {}
    {
      env, clock := e, 0;
      watched, excluder, needsReplay, needsWipe, cache := {}, map[], None, false, {};
      kept, wipedAt, listedAt := {}, 0, map[];
    }

    /** AddData of the filtered client: objects of unwatched kinds are dropped. */
    method AddData(d: Datum)
      modifies this`cache
      ensures cache == if d.gvk in watched then old(cache) + {d} else old(cache)
    {
      if d.gvk in watched {
        cache := cache + {d};
      }
    }

    /** RemoveData of the filtered client. */
    method RemoveData(d: Datum)
      modifies this`cache
      ensures cache == if d.gvk in watched then old(cache) - {d} else old(cache)
    {
      if d.gvk in watched {
        cache := cache - {d};
      }
    }

    /**
     * One reconcile of the sync controller. What is gone is removed, what is there is added, and
     * what is going is removed unless it is excluded; unwatched kinds are left alone.
     */
    method Sync(e: SyncEvent)
      modifies this`cache
      ensures e.d.gvk in watched && (e.Deleted? || (e.terminating && !Barred(excluder, e.d))) ==>
                cache == old(cache) - {e.d}
      ensures e.d.gvk in watched && e.Present? && !e.terminating && !Barred(excluder, e.d) ==>
                cache == old(cache) + {e.d}
      ensures e.d.gvk !in watched || (e.Present? && Barred(excluder, e.d)) ==> cache == old(cache)
      ensures old(Clean()) ==> Clean()
    {
      match e
      case Deleted(d) => RemoveData(d);
      case Present(d, terminating) =>
        if Excluded(excluder, d) {
        } else if terminating {
          RemoveData(d);
        } else {
          AddData(d);
        }
    }

    /** What these steps leave of a cache: an object is missing only if the last step about it says so. */
    ghost predicate Synced(before: set<Datum>, events: seq<SyncEvent>)
      reads this`watched, this`excluder, this`cache
    {
      forall d: Datum :: d.gvk in watched && !Barred(excluder, d) && d !in cache ==>
        EndsRemoved(events, d) || (d !in before && Present(d, false) !in events)
    }

    /** Whoever was cached since some time still is. */
    twostate predicate Kept()
      reads this`clock, this`watched, this`excluder, this`cache
    {
      forall d: Datum, since: nat :: since <= old(clock) && d.gvk in watched && !Barred(excluder, d) ==>
        old(CachedSince(d, since)) ==> CachedSince(d, since)
    }

    twostate lemma SyncedKeeps()
      requires clock == old(clock) + 1 && Synced(old(cache), env.sync(old(clock)))
      ensures Kept()
    {
      forall d: Datum, since: nat |
        since <= old(clock) && d.gvk in watched && !Barred(excluder, d) && old(CachedSince(d, since))
        ensures CachedSince(d, since)
      {
        RemovedLastStep(env, d, since, old(clock));
      }
    }

    /** Time passes: the sync controller takes its steps, and the next call is due. */
    method Tick() returns (fails: bool)
      requires Valid()
      modifies this`clock, this`cache
      ensures Valid() && clock == old(clock) + 1 && Kept()
      ensures Synced(old(cache), env.sync(old(clock)))
      ensures fails == env.fails(old(clock))
    {
      var events := env.sync(clock);
      for i := 0 to |events|
        invariant clock == old(clock) && Synced(old(cache), events[..i])
        invariant old(Clean()) ==> Clean()
      {
        SyncNext(old(cache), events, i);
      }
      assert events[..|events|] == events;
      fails := env.fails(clock);
      clock := clock + 1;
      SyncedKeeps();
    }

    method SyncNext(ghost before: set<Datum>, events: seq<SyncEvent>, i: nat)
      requires i < |events| && Synced(before, events[..i])
      modifies this`cache
      ensures Synced(before, events[..i + 1])
      ensures old(Clean()) ==> Clean()
    {
      Sync(events[i]);
      assert events[..i + 1] == events[..i] + [events[i]];
      forall d: Datum | d.gvk in watched && !Barred(excluder, d) && d !in cache
        ensures EndsRemoved(events[..i + 1], d) || (d !in before && Present(d, false) !in events[..i + 1])
      {
        EndsRemovedStep(events[..i], events[i], d);
      }
    }

    /** Empties the cache if that is due, and else leaves it to the sync controller. */
    method WipeCacheIfNeeded() returns (ok: bool)
      requires Valid()
      modifies this`clock, this`cache, this`wipedAt, this`listedAt, this`needsWipe
      ensures Valid() && old(clock) < clock
      ensures needsWipe == (old(needsWipe) && !ok)
      ensures if old(needsWipe) && ok then cache == {} && wipedAt == clock && listedAt == map[]
              else wipedAt == old(wipedAt) && listedAt == old(listedAt) && Kept()
      ensures (forall n :: !env.fails(n)) ==> ok
    {
      var fails := Tick();
      if needsWipe {
        if fails { return false; }
        cache, wipedAt, listedAt := {}, clock, map[];
        needsWipe := false;
      }
      return true;
    }

    /** Adds the objects listed at some time back, unless one of them fails. */
    method ReplayList(g: GVK, items: seq<Datum>, ghost since: nat) returns (ok: bool)
      requires Valid() && g in watched && since <= clock && forall d :: d in items ==> d.gvk == g
      modifies this`clock, this`cache
      ensures Valid() && old(clock) <= clock && (ok ==> Stored(items, since))
      ensures (forall n :: !env.fails(n)) ==> ok
    {
      for i := 0 to |items|
        invariant Valid() && old(clock) <= clock && Stored(items[..i], since)
      {
        var fails := Tick();
        assert items[..i + 1] == items[..i] + [items[i]];
        assert forall d :: d in items[..i] ==> d in items;
        if !Excluded(excluder, items[i]) {
          if fails { return false; }
          Readd(items[i]);
        }
      }
      assert items[..|items|] == items;
      return true;
    }

    /** AddData of an object that may be cached. */
    method Readd(d: Datum)
      requires Valid() && d.gvk in watched && !Barred(excluder, d)
      modifies this`cache
      ensures Valid() && cache == old(cache) + {d}
    {
      AddData(d);
    }

    /** Lists one kind and adds what was listed back; only then the kind is no longer due. */
    method ReplayKind(g: GVK) returns (ok: bool)
      requires Valid() && !needsWipe && needsReplay.Some? && g in needsReplay.value
      modifies this`clock, this`cache, this`listedAt, this`needsReplay
      ensures Valid() && old(clock) < clock
      ensures needsReplay == if ok then Some(old(needsReplay.value) - {g}) else old(needsReplay)
      ensures if ok then Restored(g) && old(clock) < listedAt[g] && listedAt == old(listedAt)[g := listedAt[g]]
              else listedAt == old(listedAt)
      ensures (forall n :: !env.fails(n)) ==> ok
    {
      var fails := Tick();
      if fails { return false; }
      var items := env.list(clock, g);
      ghost var since := clock;
      ok := ReplayList(g, items, since);
      if !ok { return; }
      listedAt := listedAt[g := since];
      needsReplay := Some(needsReplay.value - {g});
    }

    /** Replays every kind that is due, each listed anew; a failure leaves the rest due. */
    method ReplayData() returns (ok: bool)
      requires Valid() && !needsWipe
      modifies this`clock, this`cache, this`listedAt, this`needsReplay
      ensures Valid() && old(clock) <= clock && (ok ==> needsReplay.None?)
      ensures forall g :: g in old(DueKinds()) && (ok || g !in DueKinds()) ==>
                Restored(g) && old(clock) < listedAt[g]
      ensures DueKinds() <= old(DueKinds())
      ensures (forall n :: !env.fails(n)) ==> ok
    {
      if needsReplay.None? { return true; }
      while needsReplay.value != {}
        invariant Valid() && needsReplay.Some? && old(clock) <= clock
        invariant needsReplay.value <= old(DueKinds())
        invariant forall g :: g in old(DueKinds()) - needsReplay.value ==> g in listedAt && old(clock) < listedAt[g]
        decreases needsReplay.value
      {
        var g :| g in needsReplay.value;
        ok := ReplayKind(g);
        if !ok { return; }
      }
      needsReplay := None;
      return true;
    }

    /** The kinds and the excluder of the Config; none at all if it is gone or going. */
    method Read(cfg: Fetch) returns (kinds: set<GVK>, x: Excluder)
      requires !cfg.ReadFailed?
      ensures Asks(cfg, kinds, x)
    {
      kinds, x := {}, map[];
      if cfg.Found? && !cfg.deleting {
        for i := 0 to |cfg.syncOnly|
          invariant forall g :: g in kinds <==> g in cfg.syncOnly[..i]
        {
          kinds := kinds + {cfg.syncOnly[i]};
        }
        assert cfg.syncOnly[..|cfg.syncOnly|] == cfg.syncOnly;
        x := cfg.excluder;
      }
    }

    /** Switches to new kinds and a new excluder; changed says whether they are new. */
    method Switch(kinds: set<GVK>, x: Excluder, changed: bool)
      requires Valid() && changed == !(watched == kinds && excluder == x)
      requires !changed ==> needsWipe || needsReplay.Some?
      modifies this`clock, this`cache, this`watched, this`excluder
      modifies this`needsReplay, this`needsWipe, this`kept
      ensures Valid() && watched == kinds && excluder == x && needsReplay.Some?
      ensures kept == if changed then old(watched) * kinds else old(kept)
      ensures clock == old(clock) + 1
      ensures if changed then needsWipe else needsWipe == old(needsWipe)
    {
      if changed {
        needsReplay := None;
        needsWipe := true;
        kept := watched * kinds;
      }
      if needsReplay.None? { needsReplay := Some(watched * kinds); }
      watched := kinds;
      var _ := Tick();
      excluder := x;
    }

    /** After the change, or to finish what an earlier one left undone. */
    method Finish() returns (ok: bool)
      requires Valid()
      modifies this`clock, this`cache, this`wipedAt, this`listedAt, this`needsReplay, this`needsWipe
      ensures Valid() && old(clock) < clock && (ok ==> !needsWipe && needsReplay.None?)
      ensures if old(needsWipe) && !needsWipe then old(clock) < wipedAt else wipedAt == old(wipedAt)
      ensures ok ==> forall g :: g in old(DueKinds()) ==> Restored(g) && old(clock) < listedAt[g]
      ensures (forall n :: !env.fails(n)) ==> ok
    {
      ok := WipeCacheIfNeeded();
      if !ok { return; }
      var fails := Tick();
      if fails { return false; }  // replacing the watches failed
      ok := ReplayData();
    }

    method Reconcile(cfg: Fetch) returns (ok: bool)
      requires Valid()
      modifies this
      ensures Valid()
      ensures !cfg.ReadFailed? ==> Asks(cfg, watched, excluder)
      ensures cfg.ReadFailed? ==> !ok && watched == old(watched) && excluder == old(excluder)
      ensures kept == if watched == old(watched) && excluder == old(excluder) then old(kept) else old(watched) * watched
      // After a success nothing is stale, and the kinds that stayed watched were listed after the
      // last wipe and are back in the cache, up to what the sync controller found gone since.
      ensures ok ==> Clean() && forall g :: g in kept ==> Restored(g)
      // After a change the wipe, and so every list, is from this call; otherwise only one that was due.
      ensures ok && !(watched == old(watched) && excluder == old(excluder)) ==> old(clock) < wipedAt
      ensures watched == old(watched) && excluder == old(excluder) && !old(needsWipe) ==> wipedAt == old(wipedAt)
      // Only failures keep it from succeeding.
      ensures !cfg.ReadFailed? && (forall n :: !env.fails(n)) ==> ok
    {
      if cfg.ReadFailed? { return false; }
      var kinds, x := Read(cfg);
      var _ := Tick();
      var changed := !(watched == kinds && excluder == x);
      if !changed && !(needsWipe || needsReplay.Some?) { return true; }
      Switch(kinds, x, changed);
      ok := Finish();
    }
  }
}
