/**
 * One tracker of expected objects, as a state and what each call does to it. Satisfied is split
 * into its read step (NeedsWrite) and its write step (Resolve): other calls may come between.
 */
module Expectations {
  import opened Types

  datatype Key = Key(gvk: GVK, namespace: string, name: string)

  /** Once the circuit breaker has tripped only the kinds are kept. */
  datatype State =
    | Tracking(
        awaited: set<Key>,
        seen: set<Key>,
        satisfied: set<Key>,
        canceled: set<Key>,
        tries: map<Key, int>,  // retries left to the objects somebody tried to cancel
        populated: bool)
    | Tripped(kinds: set<GVK>)

  const NEW := Tracking({}, {}, {}, {}, map[], false)

  datatype Event =
    | Expect(k: Key, terminating: bool)
    | Observe(k: Key)
    | Cancel(k: Key)
    | TryCancel(k: Key)
    | ExpectationsDone
    | Resolve

  predicate Populated(o: State) {
    o.Tripped? || o.populated
  }

  function Kinds(o: State): set<GVK> {
    if o.Tripped? then o.kinds else set k | k in o.satisfied + o.awaited :: k.gvk
  }

  /** decrementRetries: what is left, and whether nothing was; a negative number never runs out. */
  function Decremented(retries: int): (int, bool) {
    if retries < 0 then (retries, false)
    else if retries > 0 then (retries - 1, false)
    else (0, true)
  }

  function Left(o: State, retries: int, k: Key): int
    requires o.Tracking?
  {
    if k in o.tries then o.tries[k] else retries
  }

  function Canceled(o: State, k: Key): State
    requires o.Tracking?
  {
    o.(awaited := o.awaited - {k}, seen := o.seen - {k}, satisfied := o.satisfied - {k},
       tries := o.tries - {k}, canceled := o.canceled + {k})
  }

  function Satisfy(o: State, ks: set<Key>): State
    requires o.Tracking?
  {
    o.(awaited := o.awaited - ks, seen := o.seen - ks, satisfied := o.satisfied + ks)
  }

  /** unsatisfied: what the collector of invalid expectations may cancel. */
  function Unsatisfied(o: State): set<Key> {
    if o.Tripped? then {} else o.awaited - o.satisfied
  }

  /** Expect takes k on: it is accepted. */
  predicate Accepts(o: State, k: Key, terminating: bool) {
    o.Tracking? && !o.populated && !terminating && k !in o.canceled
  }

  /** TryCancel cancels k. */
  predicate Cancels(o: State, retries: int, k: Key) {
    o.Tracking? && Decremented(Left(o, retries, k)).1
  }

  /** The read step of Satisfied: the write step is needed. */
  predicate NeedsWrite(o: State) {
    o.Tracking? && o.populated && ((o.seen != {} && o.awaited != {}) || o.awaited == {})
  }

  function Expected(o: State, k: Key): State
    requires o.Tracking?
  {
    if k in o.seen then Satisfy(o, {k}) else o.(awaited := o.awaited + {k})
  }

  function Observed(o: State, k: Key): State
    requires o.Tracking?
  {
    if k in o.canceled || k in o.satisfied then o
    else if k in o.awaited then Satisfy(o, {k})
    else if o.populated then o.(seen := o.seen - {k})
    else o.(seen := o.seen + {k})
  }

  function TriedToCancel(o: State, retries: int, k: Key): State
    requires o.Tracking?
  {
    if Cancels(o, retries, k) then Canceled(o, k)
    else o.(tries := o.tries[k := Decremented(Left(o, retries, k)).0])
  }

  function Resolved(o: State): State
    requires o.Tracking?
  {
    var p := Satisfy(o, o.seen * o.awaited);
    if p.populated && p.awaited == {} then Tripped(Kinds(p)) else p
  }

  function Step(o: State, retries: int, e: Event): State {
    if o.Tripped? then o
    else match e
      case Expect(k, terminating) => if Accepts(o, k, terminating) then Expected(o, k) else o
      case Observe(k) => Observed(o, k)
      case Cancel(k) => Canceled(o, k)
      case TryCancel(k) => TriedToCancel(o, retries, k)
      case ExpectationsDone => o.(populated := true)
      case Resolve => Resolved(o)
  }

  /** What has happened to a tracker, kept apart from what the tracker itself remembers. */
  datatype Past = Past(
    accepted: set<Key>,     // Expect took it on
    again: set<Key>,        // Expect took it on when its expectation was satisfied already
    observed: set<Key>,     // Observe was called with it before the breaker tripped
    canceled: set<Key>,     // CancelExpect, or the last TryCancelExpect, canceled it
    tried: map<Key, nat>)   // fruitless TryCancelExpect calls since it was last canceled

  const NOTHING := Past({}, {}, {}, {}, map[])

  function Tried(p: Past, k: Key): nat {
    if k in p.tried then p.tried[k] else 0
  }

  function Remember(p: Past, o: State, retries: int, e: Event): Past {
    if o.Tripped? then p
    else match e
      case Expect(k, terminating) =>
        if !Accepts(o, k, terminating) then p
        else p.(accepted := p.accepted + {k}, again := if k in o.satisfied then p.again + {k} else p.again)
      case Observe(k) => p.(observed := p.observed + {k})
      case Cancel(k) => p.(canceled := p.canceled + {k}, tried := p.tried - {k})
      case TryCancel(k) =>
        if Cancels(o, retries, k) then p.(canceled := p.canceled + {k}, tried := p.tried - {k})
        else p.(tried := p.tried[k := Tried(p, k) + 1])
      case _ => p
  }

  /** A tracker with its past. */
  datatype Object = Object(now: State, past: Past)

  function After(x: Object, retries: int, e: Event): Object {
    Object(Step(x.now, retries, e), Remember(x.past, x.now, retries, e))
  }

  function Run(retries: int, events: seq<Event>): Object {
    if events == [] then Object(NEW, NOTHING)
    else After(Run(retries, events[..|events| - 1]), retries, events[|events| - 1])
  }

  /***** What holds in every run *****/

  /** The sets of a tracker are apart, except that awaited may meet satisfied. */
  ghost predicate Apart(o: State) {
    o.Tracking? ==>
      && o.canceled !! o.awaited && o.canceled !! o.seen && o.canceled !! o.satisfied
      && o.seen !! o.awaited && o.seen !! o.satisfied
  }

  /** What the sets mean. */
  ghost predicate Meaning(o: State, p: Past)
    requires o.Tracking?
  {
    && o.canceled == p.canceled
    && o.awaited + o.satisfied == p.accepted - p.canceled
    && o.awaited * o.satisfied == p.again - p.canceled
    && o.satisfied <= p.observed
    && (p.accepted - p.canceled) * p.observed <= o.satisfied
    && o.seen <= p.observed
    && (!o.populated ==> p.observed - p.accepted - p.canceled <= o.seen)
  }

  /** The retries that are left and those used add up. */
  ghost predicate Budget(o: State, p: Past, retries: int)
    requires o.Tracking?
  {
    && o.tries.Keys == p.tried.Keys
    && forall k :: k in o.tries ==>
         && o.tries[k] == (if retries < 0 then retries else retries - p.tried[k])
         && (retries >= 0 ==> p.tried[k] <= retries)
  }

  /** A tripped tracker has missed nothing, and its kinds are those of what was not canceled. */
  ghost predicate Fulfilled(o: State, p: Past)
    requires o.Tripped?
  {
    && p.accepted <= p.observed + p.canceled
    && p.again <= p.canceled
    && o.kinds == set k | k in p.accepted - p.canceled :: k.gvk
  }

  ghost predicate Inv(x: Object, retries: int) {
    && Apart(x.now)
    && if x.now.Tripped? then Fulfilled(x.now, x.past) else Meaning(x.now, x.past) && Budget(x.now, x.past, retries)
  }

  lemma NothingLeft(a: set<Key>, b: set<Key>)
    ensures a - b == {} <==> a <= b
  {
    if a - b == {} {
      forall k | k in a ensures k in b {
        assert k in b || k in a - b;
      }
    }
  }

  lemma StepKeepsBudget(x: Object, retries: int, e: Event)
    requires x.now.Tracking? && Budget(x.now, x.past, retries)
    ensures var y := After(x, retries, e); y.now.Tracking? ==> Budget(y.now, y.past, retries)
  {
  }

  lemma ExpectKeeps(x: Object, retries: int, k: Key)
    requires x.now.Tracking? && Apart(x.now) && Meaning(x.now, x.past) && Accepts(x.now, k, false)
    ensures var y := After(x, retries, Expect(k, false)); Apart(y.now) && Meaning(y.now, y.past)
  {
    var y := After(x, retries, Expect(k, false));
    var o, p := y.now, y.past;
    assert o.awaited + o.satisfied == x.now.awaited + x.now.satisfied + {k};
    assert p.accepted - p.canceled == x.past.accepted - x.past.canceled + {k};
    var both := x.now.awaited * x.now.satisfied;
    assert o.awaited * o.satisfied == if k in x.now.satisfied then both + {k} else both;
    assert p.again - p.canceled == if k in x.now.satisfied then both + {k} else both;
  }

  lemma ObserveKeeps(x: Object, retries: int, k: Key)
    requires x.now.Tracking? && Apart(x.now) && Meaning(x.now, x.past)
    ensures var y := After(x, retries, Observe(k)); Apart(y.now) && Meaning(y.now, y.past)
  {
    var y := After(x, retries, Observe(k));
    assert y.now.awaited + y.now.satisfied == x.now.awaited + x.now.satisfied;
    assert y.now.awaited * y.now.satisfied == x.now.awaited * x.now.satisfied;
  }

  lemma CancelKeeps(x: Object, y: Object, k: Key)
    requires x.now.Tracking? && Apart(x.now) && Meaning(x.now, x.past)
    requires y.now == Canceled(x.now, k)
    requires y.past == x.past.(canceled := x.past.canceled + {k}, tried := x.past.tried - {k})
    ensures Apart(y.now) && Meaning(y.now, y.past)
  {
    assert y.now.awaited + y.now.satisfied == (x.now.awaited + x.now.satisfied) - {k};
    assert y.now.awaited * y.now.satisfied == (x.now.awaited * x.now.satisfied) - {k};
  }

  /** The write step never resolves anything: what was seen is not expected. */
  lemma NothingToResolve(x: Object, retries: int)
    requires x.now.Tracking? && Inv(x, retries)
    ensures x.now.seen * x.now.awaited == {}
    ensures Step(x.now, retries, Resolve) ==
            if x.now.populated && x.now.awaited == {} then Tripped(Kinds(x.now)) else x.now
  {
    assert x.now.seen * x.now.awaited == {};
    var p := Satisfy(x.now, {});
    assert p.awaited == x.now.awaited && p.seen == x.now.seen && p.satisfied == x.now.satisfied;
    assert p == x.now;
  }

  lemma ResolveKeeps(x: Object, retries: int)
    requires x.now.Tracking? && Inv(x, retries)
    ensures Inv(After(x, retries, Resolve), retries)
  {
    NothingToResolve(x, retries);
    if x.now.populated && x.now.awaited == {} {
      assert x.now.satisfied + x.now.awaited == x.now.awaited + x.now.satisfied;
      NothingLeft(x.past.again, x.past.canceled);
    }
  }

  /** Every call keeps the invariant. */
  lemma StepKeepsInv(x: Object, retries: int, e: Event)
    requires Inv(x, retries)
    ensures Inv(After(x, retries, e), retries)
  {
    if x.now.Tripped? { return; }
    StepKeepsBudget(x, retries, e);
    match e
    case Expect(k, terminating) => if Accepts(x.now, k, terminating) { ExpectKeeps(x, retries, k); }
    case Observe(k) => ObserveKeeps(x, retries, k);
    case Cancel(k) => CancelKeeps(x, After(x, retries, e), k);
    case TryCancel(k) => if Cancels(x.now, retries, k) { CancelKeeps(x, After(x, retries, e), k); }
    case ExpectationsDone =>
    case Resolve => ResolveKeeps(x, retries);
  }

  lemma {:induction false} RunsKeepInv(retries: int, events: seq<Event>)
    ensures Inv(Run(retries, events), retries)
  {
    if events != [] {
      RunsKeepInv(retries, events[..|events| - 1]);
      StepKeepsInv(Run(retries, events[..|events| - 1]), retries, events[|events| - 1]);
    }
  }

  /** The breaker trips only if every accepted key was observed or canceled. */
  lemma TripsOnlyWhenMet(retries: int, events: seq<Event>)
    requires Run(retries, events).now.Tripped?
    ensures var p := Run(retries, events).past; p.accepted <= p.observed + p.canceled
    ensures var x := Run(retries, events); x.now.kinds == set k | k in x.past.accepted - x.past.canceled :: k.gvk
  {
    RunsKeepInv(retries, events);
  }

  /** A tripped tracker stays as it is, kinds and past included, whatever is called afterwards. */
  lemma {:induction false} TrippedForever(retries: int, events: seq<Event>, more: seq<Event>)
    requires Run(retries, events).now.Tripped?
    ensures Run(retries, events + more) == Run(retries, events)
    decreases |more|
  {
    if more == [] {
      assert events + more == events;
    } else {
      var init := more[..|more| - 1];
      TrippedForever(retries, events, init);
      assert (events + more)[..|events + more| - 1] == events + init;
    }
  }

  /**
   * The converse holds exactly when nothing canceled aside was expected again after it was
   * satisfied: once everything accepted is observed or canceled, a check trips the breaker iff so.
   */
  lemma MetTripsIff(retries: int, events: seq<Event>)
    requires var x := Run(retries, events); Populated(x.now) && x.past.accepted <= x.past.observed + x.past.canceled
    ensures var x := Run(retries, events);
      Step(x.now, retries, Resolve).Tripped? <==> x.past.again <= x.past.canceled
    ensures var x := Run(retries, events);
      x.now.Tracking? ==> (NeedsWrite(x.now) <== x.past.again <= x.past.canceled)
  {
    RunsKeepInv(retries, events);
    var x := Run(retries, events);
    if x.now.Tracking? {
      NothingToResolve(x, retries);
      assert x.now.awaited == x.past.again - x.past.canceled by {
        forall k | k in x.now.awaited ensures k in x.now.satisfied {
          assert k in x.now.awaited + x.now.satisfied;
        }
        assert x.now.awaited * x.now.satisfied == x.now.awaited;
      }
      NothingLeft(x.past.again, x.past.canceled);
    }
  }

  lemma RunOne(retries: int, events: seq<Event>, e: Event)
    ensures Run(retries, events + [e]) == After(Run(retries, events), retries, e)
  {
    assert (events + [e])[..|events + [e]| - 1] == events;
  }

  /** What a call that does not cancel k leaves of its past. */
  lemma PastGrows(x: Object, retries: int, e: Event, k: Key)
    ensures var y := After(x, retries, e);
      && x.past.accepted <= y.past.accepted && x.past.again <= y.past.again && x.past.observed <= y.past.observed
      && (k in y.past.canceled ==> k in x.past.canceled || e == Cancel(k) || e == TryCancel(k))
  {
  }

  /** Such a key keeps its tracker from tripping, and the collector does not see it. */
  lemma StuckNow(x: Object, retries: int, k: Key)
    requires Inv(x, retries) && k in x.past.again - x.past.canceled
    ensures x.now.Tracking? && k !in Unsatisfied(x.now)
  {
    if x.now.Tracking? {
      assert k in x.now.awaited * x.now.satisfied;
    }
  }

  /** A key once expected again, and never canceled, keeps the tracker from ever tripping. */
  lemma {:induction false} StuckForever(retries: int, events: seq<Event>, more: seq<Event>, k: Key)
    requires k in Run(retries, events).past.again - Run(retries, events).past.canceled
    requires Cancel(k) !in more && TryCancel(k) !in more
    ensures var x := Run(retries, events + more);
      x.now.Tracking? && k in x.past.again - x.past.canceled && k !in Unsatisfied(x.now)
    decreases |more|
  {
    RunsKeepInv(retries, events + more);
    if more == [] {
      assert events + more == events;
      StuckNow(Run(retries, events), retries, k);
    } else {
      var init, e := more[..|more| - 1], more[|more| - 1];
      StuckForever(retries, events, init, k);
      assert events + more == events + init + [e];
      RunOne(retries, events + init, e);
      PastGrows(Run(retries, events + init), retries, e, k);
      StuckNow(Run(retries, events + more), retries, k);
    }
  }

  /**
   * So an object that is listed twice, and seen in between, keeps the tracker from tripping, whatever
   * comes later, until it is canceled.
   */
  lemma ExpectedAgainIsStuck(retries: int, k: Key, more: seq<Event>)
    requires Cancel(k) !in more && TryCancel(k) !in more
    ensures var events := [Expect(k, false), Observe(k), Expect(k, false), Observe(k), ExpectationsDone];
      var x := Run(retries, events);
      && x.past.accepted == x.past.observed == {k} && x.past.canceled == {}
      && Step(x.now, retries, Resolve).Tracking?
      && Run(retries, events + more).now.Tracking?
  {
    var e1 := [] + [Expect(k, false)];
    var e2 := e1 + [Observe(k)];
    var e3 := e2 + [Expect(k, false)];
    var e4 := e3 + [Observe(k)];
    var events := e4 + [ExpectationsDone];
    assert events == [Expect(k, false), Observe(k), Expect(k, false), Observe(k), ExpectationsDone];
    RunOne(retries, [], Expect(k, false));
    RunOne(retries, e1, Observe(k));
    RunOne(retries, e2, Expect(k, false));
    RunOne(retries, e3, Observe(k));
    RunOne(retries, e4, ExpectationsDone);
    StuckForever(retries, events, more, k);
    StuckForever(retries, events, [Resolve], k);
    RunOne(retries, events, Resolve);
  }

  /** TryCancelExpect cancels exactly when the allotted retries are used up, and never if they are negative. */
  lemma CancelsWhenRetriesAreUsed(retries: int, events: seq<Event>, k: Key)
    ensures var x := Run(retries, events);
      x.now.Tracking? ==> (Cancels(x.now, retries, k) <==> retries >= 0 && Tried(x.past, k) == retries)
  {
    RunsKeepInv(retries, events);
  }

  /***** The past, in terms of the calls that were made *****/

  lemma RunInit(retries: int, events: seq<Event>)
    requires events != []
    ensures var n := |events| - 1; Run(retries, events) == After(Run(retries, events[..n]), retries, events[n])
  {
  }

  /** Call i of events is call i of every beginning that includes it, and so is what was before it. */
  lemma Earlier(events: seq<Event>, i: nat)
    requires i + 1 < |events|
    ensures var init := events[..|events| - 1]; init[i] == events[i] && init[..i] == events[..i]
  {
  }

  /** Being populated takes the call that says so, and tripping takes being populated. */
  lemma {:induction false} PopulatedIff(retries: int, events: seq<Event>)
    ensures Populated(Run(retries, events).now) <==> ExpectationsDone in events
  {
    if events != [] {
      var n := |events| - 1;
      PopulatedIff(retries, events[..n]);
      RunInit(retries, events);
      assert forall e :: e in events <==> e in events[..n] || e == events[n];
    }
  }

  /** Call i expects k, which is not being deleted, before the tracker is populated and k is canceled. */
  ghost predicate ExpectedAt(retries: int, events: seq<Event>, k: Key, i: nat) {
    && i < |events| && events[i] == Expect(k, false)
    && ExpectationsDone !in events[..i] && k !in Run(retries, events[..i]).past.canceled
  }

  /** What is accepted, and so waited for, is exactly what some call expects in time. */
  lemma {:induction false} AcceptedIff(retries: int, events: seq<Event>, k: Key)
    ensures k in Run(retries, events).past.accepted <==> exists i :: ExpectedAt(retries, events, k, i)
  {
    if events != [] {
      var n := |events| - 1;
      var init := events[..n];
      AcceptedIff(retries, init, k);
      RunInit(retries, events);
      PopulatedIff(retries, init);
      RunsKeepInv(retries, init);
      forall i: nat | i < n ensures ExpectedAt(retries, events, k, i) <==> ExpectedAt(retries, init, k, i) {
        Earlier(events, i);
      }
      assert ExpectedAt(retries, events, k, n) ==> k in Run(retries, events).past.accepted;
    }
  }

  /** Call i observes k before the breaker trips. */
  ghost predicate ObservedAt(retries: int, events: seq<Event>, k: Key, i: nat) {
    i < |events| && events[i] == Observe(k) && Run(retries, events[..i]).now.Tracking?
  }

  lemma {:induction false} ObservedIff(retries: int, events: seq<Event>, k: Key)
    ensures k in Run(retries, events).past.observed <==> exists i :: ObservedAt(retries, events, k, i)
  {
    if events != [] {
      var n := |events| - 1;
      ObservedIff(retries, events[..n], k);
      RunInit(retries, events);
      forall i: nat | i < n ensures ObservedAt(retries, events, k, i) <==> ObservedAt(retries, events[..n], k, i) {
        Earlier(events, i);
      }
      assert ObservedAt(retries, events, k, n) ==> k in Run(retries, events).past.observed;
    }
  }

  /** How often somebody tried to cancel k. */
  ghost function CountTries(events: seq<Event>, k: Key): nat {
    if events == [] then 0
    else CountTries(events[..|events| - 1], k) + if events[|events| - 1] == TryCancel(k) then 1 else 0
  }

  /** Call i cancels k: outright, or because all its retries were used before. */
  ghost predicate CanceledAt(retries: int, events: seq<Event>, k: Key, i: nat) {
    && i < |events| && Run(retries, events[..i]).now.Tracking?
    && (events[i] == Cancel(k) || (events[i] == TryCancel(k) && 0 <= retries <= CountTries(events[..i], k)))
  }

  /** As long as nothing has canceled k, every try is remembered. */
  lemma {:induction false} TriesAreCounted(retries: int, events: seq<Event>, k: Key)
    requires var x := Run(retries, events); x.now.Tracking? && k !in x.past.canceled
    ensures Tried(Run(retries, events).past, k) == CountTries(events, k)
  {
    if events != [] {
      var n := |events| - 1;
      RunInit(retries, events);
      PastGrows(Run(retries, events[..n]), retries, events[n], k);
      CanceledStays(Run(retries, events[..n]), retries, events[n]);
      TriesAreCounted(retries, events[..n], k);
    }
  }

  lemma CanceledStays(x: Object, retries: int, e: Event)
    ensures x.past.canceled <= After(x, retries, e).past.canceled
    ensures x.now.Tripped? ==> After(x, retries, e).now.Tripped?
  {
  }

  lemma {:induction false} CanceledIff(retries: int, events: seq<Event>, k: Key)
    ensures k in Run(retries, events).past.canceled <==> exists i :: CanceledAt(retries, events, k, i)
  {
    if events != [] {
      var n := |events| - 1;
      var init := events[..n];
      var x := Run(retries, init);
      CanceledIff(retries, init, k);
      RunInit(retries, events);
      CanceledStays(x, retries, events[n]);
      CancelsWhenRetriesAreUsed(retries, init, k);
      RunsKeepInv(retries, init);
      forall i: nat | i < n ensures CanceledAt(retries, events, k, i) <==> CanceledAt(retries, init, k, i) {
        Earlier(events, i);
      }
      if x.now.Tracking? && k !in x.past.canceled {
        TriesAreCounted(retries, init, k);
      }
      assert CanceledAt(retries, events, k, n) ==> k in Run(retries, events).past.canceled;
    }
  }

  /** Call i expects k when it was accepted, observed and not canceled before. */
  ghost predicate ExpectedAgainAt(retries: int, events: seq<Event>, k: Key, i: nat) {
    ExpectedAt(retries, events, k, i) && var p := Run(retries, events[..i]).past; k in p.accepted && k in p.observed
  }

  lemma {:induction false} AgainIff(retries: int, events: seq<Event>, k: Key)
    ensures k in Run(retries, events).past.again <==> exists i :: ExpectedAgainAt(retries, events, k, i)
  {
    if events != [] {
      var n := |events| - 1;
      var init := events[..n];
      AgainIff(retries, init, k);
      RunInit(retries, events);
      PopulatedIff(retries, init);
      RunsKeepInv(retries, init);
      forall i: nat | i < n ensures ExpectedAgainAt(retries, events, k, i) <==> ExpectedAgainAt(retries, init, k, i) {
        Earlier(events, i);
      }
      assert ExpectedAgainAt(retries, events, k, n) ==> k in Run(retries, init).now.satisfied;
    }
  }

  /**
   * What a tracker says of itself: its kinds are those of what was accepted and not canceled, and
   * unsatisfied, until it trips, is what of that was not observed.
   */
  lemma AnswersAreExact(retries: int, events: seq<Event>)
    ensures var x := Run(retries, events);
      && Kinds(x.now) == (set k | k in x.past.accepted - x.past.canceled :: k.gvk)
      && Unsatisfied(x.now) == if x.now.Tripped? then {} else x.past.accepted - x.past.canceled - x.past.observed
  {
    RunsKeepInv(retries, events);
    var x := Run(retries, events);
    if x.now.Tracking? {
      assert x.now.satisfied + x.now.awaited == x.past.accepted - x.past.canceled;
      forall k
        ensures k in x.now.awaited - x.now.satisfied <==> k in x.past.accepted - x.past.canceled - x.past.observed
      {
        assert k in x.now.satisfied + x.now.awaited <==> k in x.past.accepted - x.past.canceled;
        assert k in (x.past.accepted - x.past.canceled) * x.past.observed ==> k in x.now.satisfied;
      }
    }
  }
}

/** The tracker as the source keeps it: maps that are freed when the breaker trips. */
module ObjectTracker {
  import opened Types
  import opened Expectations

  /** A map of the source: reading or deleting from a freed one is harmless, writing to it panics. */
  datatype Keys = Freed | Held(keys: set<Key>)
  {
    predicate Has(k: Key) { Held? && k in keys }

    predicate Empty() { Held? ==> keys == {} }

    function Plus(k: Key): Keys
      requires Held?
    {
      Held(keys + {k})
    }

    function Minus(k: Key): Keys {
      if Freed? then Freed else Held(keys - {k})
    }
  }

  datatype Retries = NoRetries | Retries(left: map<Key, int>)

  class ObjectTracker {
    const retries: int
    var awaited: Keys
    var seen: Keys
    var satisfied: Keys
    var canceled: Keys
    var tryCanceled: Retries
    var populated: bool
    var allSatisfied: bool
    var kindsSnapshot: set<GVK>

    /** The maps are freed exactly when the breaker has tripped, and that takes populated. */
    ghost predicate Valid()
      reads this
    {
      && (allSatisfied ==> populated)
      && allSatisfied == awaited.Freed? == seen.Freed? == satisfied.Freed? == canceled.Freed? == tryCanceled.NoRetries?
      && (!allSatisfied ==> kindsSnapshot == {})
    }

    ghost function State(): State
      requires Valid()
      reads this
    {
      if allSatisfied then Tripped(kindsSnapshot)
      else Tracking(awaited.keys, seen.keys, satisfied.keys, canceled.keys, tryCanceled.left, populated)
    }

    constructor (allotted: int)
      ensures Valid() && State() == NEW && retries == allotted
    {
      retries := allotted;
      awaited, seen, satisfied, canceled := Held({}), Held({}), Held({}), Held({});
      tryCanceled := Retries(map[]);
      populated, allSatisfied := false, false;
      kindsSnapshot := {};
    }

    method Expect(k: Key, terminating: bool)
      requires Valid()
      modifies this
      ensures Valid() && State() == Step(old(State()), retries, Expectations.Expect(k, terminating))
    {
      if populated || terminating || canceled.Has(k) { return; }
      if seen.Has(k) {
        seen := seen.Minus(k);
        awaited := awaited.Minus(k);
        satisfied := satisfied.Plus(k);
        return;
      }
      awaited := awaited.Plus(k);
    }

    method CancelExpectNoLock(k: Key)
      requires Valid() && !allSatisfied
      modifies this
      ensures Valid() && State() == Canceled(old(State()), k)
    {
      awaited := awaited.Minus(k);
      seen := seen.Minus(k);
      satisfied := satisfied.Minus(k);
      tryCanceled := Retries(tryCanceled.left - {k});
      canceled := canceled.Plus(k);
    }

    method CancelExpect(k: Key)
      requires Valid()
      modifies this
      ensures Valid() && State() == Step(old(State()), retries, Cancel(k))
    {
      if !allSatisfied { CancelExpectNoLock(k); }
    }

    method TryCancelExpect(k: Key) returns (shouldDel: bool)
      requires Valid()
      modifies this
      ensures Valid() && State() == Step(old(State()), retries, TryCancel(k))
      ensures shouldDel <==> old(Cancels(State(), retries, k))
    {
      if allSatisfied { return false; }
      var left := if k in tryCanceled.left then tryCanceled.left[k] else retries;
      shouldDel := false;
      if left > 0 {
        left := left - 1;
      } else if left == 0 {
        shouldDel := true;
      }
      ghost var was := State();
      tryCanceled := Retries(tryCanceled.left[k := left]);
      if shouldDel {
        CancelExpectNoLock(k);
        assert was.tries[k := left] - {k} == was.tries - {k};
      }
    }

    method ExpectationsDone()
      requires Valid()
      modifies this`populated
      ensures Valid() && State() == Step(old(State()), retries, Expectations.ExpectationsDone)
    {
      populated := true;
    }

    method Observe(k: Key)
      requires Valid()
      modifies this
      ensures Valid() && State() == Step(old(State()), retries, Expectations.Observe(k))
    {
      if allSatisfied || canceled.Has(k) || satisfied.Has(k) { return; }
      if awaited.Has(k) {
        seen := seen.Minus(k);
        awaited := awaited.Minus(k);
        satisfied := satisfied.Plus(k);
      } else if populated {
        seen := seen.Minus(k);
      } else {
        seen := seen.Plus(k);
      }
    }

    /** The read step of Satisfied. */
    method CheckSatisfied() returns (done: bool, needMutate: bool)
      requires Valid()
      ensures done <==> State().Tripped?
      ensures needMutate <==> NeedsWrite(State())
    {
      var resolvable := !seen.Empty() && !awaited.Empty();
      return allSatisfied, !allSatisfied && populated && (resolvable || awaited.Empty());
    }

    /** The write step of Satisfied; the breaker may have tripped since the read step. */
    method ResolveSatisfied() returns (done: bool)
      requires Valid()
      modifies this
      ensures Valid() && State() == Step(old(State()), retries, Resolve)
      ensures done <==> State().Tripped?
    {
      if !seen.Freed? {
        ResolveSeen();
      }
      if populated && awaited.Empty() {
        var kinds := Kinds();
        allSatisfied := true;
        kindsSnapshot := kinds;
        seen, awaited, satisfied, canceled := Freed, Freed, Freed, Freed;
        tryCanceled := NoRetries;
      }
      return allSatisfied;
    }

    method ResolveSeen()
      requires Valid() && !allSatisfied
      modifies this
      ensures Valid() && !allSatisfied && State() == Satisfy(old(State()), old(seen.keys * awaited.keys))
    {
      var todo := seen.keys;
      ghost var was := State();
      ghost var done := {};
      while todo != {}
        invariant Valid() && !allSatisfied && State() == Satisfy(was, done)
        invariant done == (was.seen - todo) * was.awaited && todo <= was.seen
        decreases todo
      {
        var k :| k in todo;
        todo := todo - {k};
        if awaited.Has(k) {
          seen := seen.Minus(k);
          awaited := awaited.Minus(k);
          satisfied := satisfied.Plus(k);
          done := done + {k};
        }
      }
    }

    method Kinds() returns (m: set<GVK>)
      requires Valid()
      ensures m == Expectations.Kinds(State())
    {
      if kindsSnapshot != {} { return kindsSnapshot; }
      m := {};
      if allSatisfied { return; }
      m := KindsIn(satisfied.keys);
      var more := KindsIn(awaited.keys);
      m := m + more;
    }

    method KindsIn(keys: set<Key>) returns (m: set<GVK>)
      ensures m == set k | k in keys :: k.gvk
    {
      m := {};
      var todo := keys;
      while todo != {}
        invariant todo <= keys && m == set k | k in keys - todo :: k.gvk
        decreases todo
      {
        var k :| k in todo;
        m := m + {k.gvk};
        todo := todo - {k};
      }
    }

    method Populated() returns (done: bool)
      requires Valid()
      ensures done <==> Expectations.Populated(State())
    {
      return populated;
    }

    /** Satisfied, uninterrupted. */
    method Satisfied() returns (done: bool)
      requires Valid()
      modifies this
      ensures Valid() && (done <==> State().Tripped?)
      ensures State() == if NeedsWrite(old(State())) then Step(old(State()), retries, Resolve) else old(State())
    {
      var satisfied, needMutate := CheckSatisfied();
      if satisfied { return true; }
      if !needMutate { return false; }
      done := ResolveSatisfied();
    }
  }
}
