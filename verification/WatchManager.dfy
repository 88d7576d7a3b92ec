/**
 * The watch manager as its callers see it: one call at a time, each under the watch lock. The
 * informer cache is foreign: the kinds whose informer cannot be had, and those whose informer
 * cannot be removed, are parameters. Every call of the manager asks for each kind at most once.
 */
module WatchManager {
  import opened Types
  import opened ReplayTracker

  type Watches = map<GVK, set<Registrar>>
  type Intents = map<Registrar, set<GVK>>

  /** Registrar q is on the list of kind g. */
  ghost predicate Watching(m: Watches, q: Registrar, g: GVK) {
    g in m && q in m[g]
  }

  ghost predicate Intends(intent: Intents, q: Registrar, g: GVK) {
    q in intent && g in intent[q]
  }

  /** m is the intent turned around: the kinds somebody wants, and who wants each of them. */
  ghost predicate Merged(intent: Intents, m: Watches) {
    && (forall q, g :: Watching(m, q, g) <==> Intends(intent, q, g))
    && (forall g :: g in m ==> m[g] != {})
  }

  /** Exactly the watched kinds have an informer with our handler on it, just one, and a watcher. */
  ghost predicate OneHandlerEach(watched: Watches, handlers: map<GVK, nat>) {
    && handlers.Keys == watched.Keys
    && forall g :: g in watched ==> watched[g] != {} && handlers[g] == 1
  }

  /** The lists after one removal: an unwatched kind is forgotten only if its informer is gone. */
  function Removed(m: Watches, r: Registrar, g: GVK, gone: bool): Watches {
    if r !in WatchersOf(m, g) then m
    else if m[g] == {r} && gone then m - {g}
    else m[g := m[g] - {r}]
  }

  /** The event handlers after an addition: a kind nobody watched gets one more. */
  function HandlersAfterAdd(hs: map<GVK, nat>, m: Watches, g: GVK, ok: bool): map<GVK, nat> {
    if ok && WatchersOf(m, g) == {} then hs[g := (if g in hs then hs[g] else 0) + 1] else hs
  }

  /** The event handlers after a removal: they go with the informer. */
  function HandlersAfterRemove(hs: map<GVK, nat>, m: Watches, r: Registrar, g: GVK, gone: bool): map<GVK, nat> {
    if WatchersOf(m, g) == {r} && gone then hs - {g} else hs
  }

  /** b is a after registrar r, and only r, has left the kinds in gone. */
  ghost predicate LeftBy(a: Watches, b: Watches, r: Registrar, gone: set<GVK>) {
    forall q, g :: Watching(b, q, g) <==> Watching(a, q, g) && !(q == r && g in gone)
  }

  /** b is a after registrar r, and only r, has joined the kinds in come. */
  ghost predicate JoinedBy(a: Watches, b: Watches, r: Registrar, come: set<GVK>) {
    forall q, g :: Watching(b, q, g) <==> Watching(a, q, g) || (q == r && g in come)
  }

  function KindsOf(intent: Intents, r: Registrar): set<GVK> {
    if r in intent then intent[r] else {}
  }

  lemma NoWatchers(m: Watches, g: GVK)
    ensures WatchersOf(m, g) == {} <==> forall q :: !Watching(m, q, g)
  {
    if WatchersOf(m, g) != {} {
      var q :| q in WatchersOf(m, g);
      assert Watching(m, q, g);
    }
  }

  class Manager {
    var intent: Intents
    var watched: Watches
    var handlers: map<GVK, nat>

    constructor ()
      ensures intent == map[] && watched == map[] && handlers == map[]
      ensures OneHandlerEach(watched, handlers)
    {
      intent, watched, handlers := map[], map[], map[];
    }

    /** recordKeeper.Get. */
    method Get() returns (m: Watches)
      ensures Merged(intent, m)
    {
      m := map[];
      var todo := intent.Keys;
      while todo != {}
        invariant todo <= intent.Keys
        invariant forall q, g :: Watching(m, q, g) <==> Intends(intent, q, g) && q !in todo
        invariant forall g :: g in m ==> m[g] != {}
        decreases todo
      {
        var q :| q in todo;
        m := MergeOne(m, q, intent[q]);
        todo := todo - {q};
      }
    }

    method MergeOne(m: Watches, q: Registrar, kinds: set<GVK>) returns (b: Watches)
      requires forall g :: g in m ==> m[g] != {}
      ensures JoinedBy(m, b, q, kinds)
      ensures forall g :: g in b ==> b[g] != {}
    {
      b := m;
      var todo := kinds;
      while todo != {}
        invariant todo <= kinds
        invariant JoinedBy(m, b, q, kinds - todo)
        invariant forall g :: g in b ==> b[g] != {}
        decreases todo
      {
        var g :| g in todo;
        ghost var was := b;
        b := b[g := WatchersOf(b, g) + {q}];
        todo := todo - {g};
        forall p, h ensures Watching(b, p, h) <==> Watching(m, p, h) || (p == q && h in kinds - todo) {
          assert Watching(was, p, h) <==> Watching(m, p, h) || (p == q && h in kinds - (todo + {g}));
        }
      }
    }

    method DoAddWatch(r: Registrar, g: GVK, informer: bool) returns (ok: bool)
      modifies this`watched, this`handlers
      ensures ok <==> Intends(intent, r, g) && (old(WatchersOf(watched, g)) != {} || informer)
      ensures watched == if ok then old(watched)[g := old(WatchersOf(watched, g)) + {r}] else old(watched)
      ensures handlers == HandlersAfterAdd(old(handlers), old(watched), g, ok)
      ensures old(OneHandlerEach(watched, handlers)) ==> OneHandlerEach(watched, handlers)
    {
      var watchers := WatchersOf(watched, g);
      var m := Get();
      if g !in m { return false; }
      if r !in m[g] { return false; }
      if r in watchers {
        assert watchers + {r} == watchers;
        return true;
      }
      if watchers == {} {
        if !informer { return false; }
        handlers := handlers[g := (if g in handlers then handlers[g] else 0) + 1];
      }
      watched := watched[g := watchers + {r}];
      return true;
    }

    method DoRemoveWatch(r: Registrar, g: GVK, gone: bool) returns (ok: bool)
      modifies this`watched, this`handlers
      ensures ok <==> (old(WatchersOf(watched, g)) == {r} ==> gone)
      ensures watched == Removed(old(watched), r, g, gone)
      ensures handlers == HandlersAfterRemove(old(handlers), old(watched), r, g, gone)
      ensures ok && old(OneHandlerEach(watched, handlers)) ==> OneHandlerEach(watched, handlers)
    {
      if g !in watched || r !in watched[g] { return true; }
      watched := watched[g := watched[g] - {r}];
      if watched[g] != {} { return true; }
      if !gone { return false; }
      handlers := handlers - {g};
      watched := watched - {g};
      return true;
    }

    /** The first loop of replaceWatches: leave every kind that r no longer desires. */
    method LeaveOthers(r: Registrar, desired: Watches, stuck: set<GVK>) returns (failed: set<GVK>)
      modifies this`watched, this`handlers
      ensures forall q, g :: Watching(watched, q, g) <==>
                old(Watching(watched, q, g)) && (q == r ==> Watching(desired, r, g))
      ensures forall g :: g in failed <==> old(WatchersOf(watched, g)) == {r} && !Watching(desired, r, g) && g in stuck
      ensures failed == {} && old(OneHandlerEach(watched, handlers)) ==> OneHandlerEach(watched, handlers)
    {
      failed := {};
      ghost var was := watched;
      var todo := watched.Keys;
      while todo != {}
        invariant todo <= was.Keys
        invariant forall g :: g in todo ==> g in watched && watched[g] == was[g]
        invariant forall q, g :: Watching(watched, q, g) <==>
                    Watching(was, q, g) && (q == r && g !in todo ==> Watching(desired, r, g))
        invariant forall g :: g in failed <==>
                    g !in todo && WatchersOf(was, g) == {r} && !Watching(desired, r, g) && g in stuck
        invariant failed == {} && old(OneHandlerEach(watched, handlers)) ==> OneHandlerEach(watched, handlers)
        decreases todo
      {
        var g :| g in todo;
        todo := todo - {g};
        if !(g in desired && r in desired[g]) {
          var ok := DoRemoveWatch(r, g, g !in stuck);
          if !ok { failed := failed + {g}; }
        }
      }
    }

    /** The second loop: join every desired kind. */
    method JoinDesired(r: Registrar, desired: Watches, down: set<GVK>) returns (failed: set<GVK>)
      requires Merged(intent, desired)
      modifies this`watched, this`handlers
      ensures forall q, g :: Watching(watched, q, g) <==>
                old(Watching(watched, q, g)) || (q == r && Watching(desired, r, g) && g !in failed)
      ensures forall g :: g in failed <==> Watching(desired, r, g) && old(WatchersOf(watched, g)) == {} && g in down
      ensures old(OneHandlerEach(watched, handlers)) ==> OneHandlerEach(watched, handlers)
    {
      failed := {};
      ghost var was := watched;
      var todo := desired.Keys;
      while todo != {}
        invariant todo <= desired.Keys
        invariant forall g :: g in todo ==> WatchersOf(watched, g) == WatchersOf(was, g)
        invariant forall q, g :: Watching(watched, q, g) <==>
                    Watching(was, q, g) || (q == r && g !in todo && Watching(desired, r, g) && g !in failed)
        invariant forall g :: g in failed <==>
                    g !in todo && Watching(desired, r, g) && WatchersOf(was, g) == {} && g in down
        invariant old(OneHandlerEach(watched, handlers)) ==> OneHandlerEach(watched, handlers)
        decreases todo
      {
        var g :| g in todo;
        todo := todo - {g};
        if r in desired[g] {
          assert Watching(desired, r, g);
          var ok := DoAddWatch(r, g, g !in down);
          if !ok { failed := failed + {g}; }
        }
      }
    }

    /** replaceWatches: the error list names the kinds that failed. */
    method ReplaceWatches(r: Registrar, down: set<GVK>, stuck: set<GVK>) returns (failed: set<GVK>)
      modifies this`watched, this`handlers
      ensures forall q, g :: q != r ==> (Watching(watched, q, g) <==> old(Watching(watched, q, g)))
      ensures forall g :: Watching(watched, r, g) <==> Intends(intent, r, g) && g !in failed
      ensures forall g :: g in failed <==>
        if Intends(intent, r, g) then old(WatchersOf(watched, g)) == {} && g in down
        else old(WatchersOf(watched, g)) == {r} && g in stuck
      ensures failed == {} && old(OneHandlerEach(watched, handlers)) ==> OneHandlerEach(watched, handlers)
    {
      var desired := Get();
      ghost var was := watched;
      var left := LeaveOthers(r, desired, stuck);
      forall g | Watching(desired, r, g) ensures WatchersOf(watched, g) == {} <==> WatchersOf(was, g) == {} {
        NoWatchers(watched, g);
        NoWatchers(was, g);
      }
      var missed := JoinDesired(r, desired, down);
      failed := left + missed;
    }

    /** Registrar.AddWatch. */
    method AddWatch(r: Registrar, g: GVK, informer: bool) returns (ok: bool)
      modifies this
      ensures intent == old(intent)[r := old(KindsOf(intent, r)) + {g}]
      ensures ok <==> old(WatchersOf(watched, g)) != {} || informer
      ensures watched == if ok then old(watched)[g := old(WatchersOf(watched, g)) + {r}] else old(watched)
      ensures handlers == HandlersAfterAdd(old(handlers), old(watched), g, ok)
      ensures old(OneHandlerEach(watched, handlers)) ==> OneHandlerEach(watched, handlers)
    {
      intent := intent[r := KindsOf(intent, r) + {g}];
      ok := DoAddWatch(r, g, informer);
    }

    /** Registrar.RemoveWatch: nobody else notices, and r is off the list even if removing the informer fails. */
    method RemoveWatch(r: Registrar, g: GVK, gone: bool) returns (ok: bool)
      modifies this
      ensures forall q, h :: Intends(intent, q, h) <==> old(Intends(intent, q, h)) && !(q == r && h == g)
      ensures ok <==> (old(WatchersOf(watched, g)) == {r} ==> gone)
      ensures watched == Removed(old(watched), r, g, gone)
      ensures LeftBy(old(watched), watched, r, {g})
      ensures handlers == HandlersAfterRemove(old(handlers), old(watched), r, g, gone)
      ensures ok && old(OneHandlerEach(watched, handlers)) ==> OneHandlerEach(watched, handlers)
    {
      if r in intent { intent := intent[r := intent[r] - {g}]; }
      ok := DoRemoveWatch(r, g, gone);
    }

    /** Registrar.ReplaceWatch. */
    method ReplaceWatch(r: Registrar, gvks: seq<GVK>, down: set<GVK>, stuck: set<GVK>) returns (failed: set<GVK>)
      modifies this
      ensures forall g :: Intends(intent, r, g) <==> g in gvks
      ensures forall q, g :: q != r ==> (Intends(intent, q, g) <==> old(Intends(intent, q, g)))
      // Nobody else's watches change, whether or not the call succeeds.
      ensures forall q, g :: q != r ==> (Watching(watched, q, g) <==> old(Watching(watched, q, g)))
      // A successful call leaves r watching its argument; a failed one misses only kinds it reports.
      ensures failed == {} ==> forall g :: Watching(watched, r, g) <==> g in gvks
      ensures forall g :: Watching(watched, r, g) <==> g in gvks && g !in failed
      // The call fails on exactly these kinds.
      ensures forall g :: g in failed <==>
        if g in gvks then old(WatchersOf(watched, g)) == {} && g in down
        else old(WatchersOf(watched, g)) == {r} && g in stuck
      ensures failed == {} && old(OneHandlerEach(watched, handlers)) ==> OneHandlerEach(watched, handlers)
    {
      var roster := {};
      for i := 0 to |gvks|
        invariant forall g :: g in roster <==> g in gvks[..i]
      {
        roster := roster + {gvks[i]};
      }
      assert gvks[..|gvks|] == gvks;
      intent := intent[r := roster];
      failed := ReplaceWatches(r, down, stuck);
    }
  }
}
