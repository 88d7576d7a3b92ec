/** The trackers that readiness depends on. */
module ReadySlots {
  import opened Types

  datatype Slot = AssignMetadata | Assign | Templates | Config | Constraint(g: GVK) | Data(g: GVK)

  predicate OfKind(x: Slot) {
    x.Constraint? || x.Data?
  }

  /** The mutator trackers exist only if mutation is enabled; retries is the readiness-retries flag. */
  datatype Setup = Setup(mutation: bool, retries: int)

  function FixedSlots(u: Setup): set<Slot> {
    {Templates, Config} + if u.mutation then {AssignMetadata, Assign} else {}
  }
}

/**
 * The readiness tracker: trackers for templates, the config, the two kinds of mutators, and one
 * tracker for each constraint kind and each data kind. Any number of readiness checks run at the
 * same time, and a step is one critical section of one of the trackers. Calls on trackers, the
 * creation of trackers and their removal may come at any moment, so the steps include everything
 * that For, ForData, CancelTemplate, TryCancelTemplate and CancelData can do in any interleaving.
 */
module ReadyTracker {
  import opened Types
  import opened Expectations
  import opened ReadySlots

  datatype Shared = Shared(latch: bool, trackers: map<Slot, Object>, removed: set<Slot>)

  /** The parts of Satisfied, in its order. */
  datatype Stage = Mutators | TheTemplates | Constraints | TheConfig | AllData | Finished

  /** About to get the next tracker, to take the read step on it, to take the write step. */
  datatype Position = Get | Read | Write

  datatype Check =
    | AtLatch
    | Checking(stage: Stage, todo: seq<Slot>, at: Position)
    | Returned(ready: bool)

  datatype State = State(sh: Shared, checks: map<nat, Check>)

  const FRESH := Object(NEW, NOTHING)

  ghost predicate Init(u: Setup, s: State) {
    s == State(Shared(false, map x | x in FixedSlots(u) :: FRESH, {}), map[])
  }

  /***** Steps *****/

  function Rank(st: Stage): nat {
    match st
    case Mutators => 0
    case TheTemplates => 1
    case Constraints => 2
    case TheConfig => 3
    case AllData => 4
    case Finished => 5
  }

  function KindsAt(sh: Shared, x: Slot): set<GVK> {
    if x in sh.trackers then Kinds(sh.trackers[x].now) else {}
  }

  /** The trackers that a part of Satisfied goes through. */
  function SlotsOf(u: Setup, sh: Shared, st: Stage): set<Slot> {
    match st
    case Mutators => if u.mutation then {AssignMetadata, Assign} else {}
    case TheTemplates => {Templates}
    case Constraints => set g | g in KindsAt(sh, Templates) :: Constraint(g)
    case TheConfig => {Config}
    case AllData => set g | g in KindsAt(sh, Config) :: Data(g)
    case Finished => {}
  }

  /** The order in which they are taken: the source fixes it for the mutators only. */
  ghost predicate Listed(u: Setup, sh: Shared, st: Stage, todo: seq<Slot>) {
    && (forall x :: x in todo <==> x in SlotsOf(u, sh, st))
    && (st == Mutators && u.mutation ==> todo == [AssignMetadata, Assign])
  }

  function Next(st: Stage): Stage {
    match st
    case Mutators => TheTemplates
    case TheTemplates => Constraints
    case Constraints => TheConfig
    case TheConfig => AllData
    case AllData => Finished
    case Finished => Finished
  }

  datatype Step =
    | Call(x: Slot, e: Event)
    | Create(x: Slot)
    | Remove(x: Slot)
    | Begin(id: nat)
    | Checks(id: nat)

  ghost predicate Changes(u: Setup, a: Shared, b: Shared, step: Step) {
    match step
    case Call(x, e) =>
      x in a.trackers && b == a.(trackers := a.trackers[x := After(a.trackers[x], u.retries, e)])
    case Create(x) => OfKind(x) && b == Gotten(a, x)
    case Remove(x) => OfKind(x) && b == a.(trackers := a.trackers - {x}, removed := a.removed + {x})
    case _ => false
  }

  /** Get: a tracker is made for a kind that has none and was not removed. */
  function Gotten(sh: Shared, x: Slot): Shared {
    if x in sh.removed || x in sh.trackers then sh else sh.(trackers := sh.trackers[x := FRESH])
  }

  function Passed(c: Check): Check
    requires c.Checking? && c.todo != []
  {
    Checking(c.stage, c.todo[1..], Get)
  }

  /** One step of a check on the tracker at the head of its list. */
  ghost predicate Inspects(u: Setup, a: Shared, c: Check, b: Shared, d: Check)
    requires c.Checking? && c.todo != []
  {
    var x := c.todo[0];
    match c.at
    case Get =>
      b == Gotten(a, x) && d == if x in a.removed then Passed(c) else c.(at := Read)
    case Read =>
      && b == a
      && if x !in a.trackers then  // removed meanwhile: the check goes on with a tracker nobody else can get
           d in {Passed(c), c.(at := Write), Returned(false)}
         else
           d == if a.trackers[x].now.Tripped? then Passed(c)
                else if NeedsWrite(a.trackers[x].now) then c.(at := Write)
                else Returned(false)
    case Write =>
      if x !in a.trackers then
        b == a && d in {Passed(c), Returned(false)}
      else
        var y := After(a.trackers[x], u.retries, Resolve);
        b == a.(trackers := a.trackers[x := y]) && d == if y.now.Tripped? then Passed(c) else Returned(false)
  }

  ghost predicate Advances(u: Setup, a: Shared, c: Check, b: Shared, d: Check) {
    match c
    case AtLatch =>
      && b == a
      && if a.latch then d == Returned(true)
         else d.Checking? && d == Checking(Mutators, d.todo, Get) && Listed(u, a, Mutators, d.todo)
    case Checking(st, todo, at) =>
      if todo != [] then Inspects(u, a, c, b, d)
      else if st == Finished then b == a.(latch := true) && d == Returned(true)
      else b == a && d.Checking? && d == Checking(Next(st), d.todo, Get) && Listed(u, a, Next(st), d.todo)
    case Returned(_) => false
  }

  ghost predicate Takes(u: Setup, s: State, t: State, step: Step) {
    match step
    case Begin(id) => id !in s.checks && t == s.(checks := s.checks[id := AtLatch])
    case Checks(id) =>
      && id in s.checks && id in t.checks && Advances(u, s.sh, s.checks[id], t.sh, t.checks[id])
      && t.checks == s.checks[id := t.checks[id]]
    case _ => t.checks == s.checks && Changes(u, s.sh, t.sh, step)
  }

  ghost predicate Run(u: Setup, states: seq<State>, steps: seq<Step>) {
    && |states| == |steps| + 1 && Init(u, states[0])
    && forall i :: 0 <= i < |steps| ==> Takes(u, states[i], states[i + 1], steps[i])
  }

  /***** What every step keeps *****/

  /** The tracker has tripped, or its kind was removed. */
  ghost predicate Done(sh: Shared, x: Slot) {
    x in sh.removed || (x in sh.trackers && sh.trackers[x].now.Tripped?)
  }

  /** The stages before st are done, and so is what st no longer has to do. */
  ghost predicate Progress(u: Setup, sh: Shared, st: Stage, todo: seq<Slot>) {
    && (forall p, x :: Rank(p) < Rank(st) && x in SlotsOf(u, sh, p) ==> Done(sh, x))
    && (forall x :: x in SlotsOf(u, sh, st) ==> x in todo || Done(sh, x))
  }

  ghost predicate SharedOk(u: Setup, sh: Shared) {
    && FixedSlots(u) <= sh.trackers.Keys
    && (forall x :: x in sh.removed ==> OfKind(x))
    && (forall x :: x in sh.trackers ==> Expectations.Inv(sh.trackers[x], u.retries))
    && (sh.latch ==> Progress(u, sh, Finished, []))
  }

  ghost predicate CheckOk(u: Setup, sh: Shared, c: Check) {
    match c
    case AtLatch => true
    case Checking(st, todo, at) =>
      Progress(u, sh, st, todo) && (todo != [] && at != Get ==> todo[0] in sh.trackers || Done(sh, todo[0]))
    case Returned(ready) => ready ==> sh.latch
  }

  ghost predicate Inv(u: Setup, s: State) {
    SharedOk(u, s.sh) && forall id :: id in s.checks ==> CheckOk(u, s.sh, s.checks[id])
  }

  /** What no step undoes: every part of readiness is latched. */
  ghost predicate Later(a: Shared, b: Shared) {
    && (forall x :: Done(a, x) ==> Done(b, x))
    && (forall x :: x in a.trackers ==> x in b.trackers || x in b.removed)
    && (forall x :: x in a.trackers && x in b.trackers && a.trackers[x].now.Tripped? ==> b.trackers[x] == a.trackers[x])
    && a.removed <= b.removed
    && (a.latch ==> b.latch)
  }

  lemma GottenIsLater(u: Setup, a: Shared, x: Slot)
    requires SharedOk(u, a)
    ensures Later(a, Gotten(a, x))
  {
  }

  lemma CallIsLater(u: Setup, a: Shared, x: Slot, e: Event)
    requires x in a.trackers
    ensures Later(a, a.(trackers := a.trackers[x := After(a.trackers[x], u.retries, e)]))
  {
  }

  lemma RemoveIsLater(a: Shared, x: Slot)
    ensures Later(a, a.(trackers := a.trackers - {x}, removed := a.removed + {x}))
  {
  }

  lemma InspectIsLater(u: Setup, a: Shared, c: Check, b: Shared, d: Check)
    requires SharedOk(u, a) && c.Checking? && c.todo != [] && Inspects(u, a, c, b, d)
    ensures Later(a, b)
  {
    match c.at
    case Get => GottenIsLater(u, a, c.todo[0]);
    case Read =>
    case Write => if c.todo[0] in a.trackers { CallIsLater(u, a, c.todo[0], Resolve); }
  }

  /** No step undoes what is latched. */
  lemma StepIsLater(u: Setup, s: State, t: State, step: Step)
    requires SharedOk(u, s.sh) && Takes(u, s, t, step)
    ensures Later(s.sh, t.sh)
  {
    match step
    case Call(x, e) => CallIsLater(u, s.sh, x, e);
    case Create(x) => GottenIsLater(u, s.sh, x);
    case Remove(x) => RemoveIsLater(s.sh, x);
    case Begin(_) =>
    case Checks(id) =>
      var c := s.checks[id];
      if c.Checking? && c.todo != [] { InspectIsLater(u, s.sh, c, t.sh, t.checks[id]); }
  }

  ghost predicate Fixed(u: Setup, sh: Shared) {
    FixedSlots(u) <= sh.trackers.Keys && forall x :: x in sh.removed ==> OfKind(x)
  }

  /** Once the stage that a list of trackers depends on is done, the list no longer changes. */
  lemma SlotsStay(u: Setup, a: Shared, b: Shared, st: Stage)
    requires Fixed(u, a) && Fixed(u, b) && Later(a, b)
    requires st == Constraints ==> Done(a, Templates)
    requires st == AllData ==> Done(a, Config)
    ensures SlotsOf(u, b, st) == SlotsOf(u, a, st)
  {
  }

  lemma ProgressStays(u: Setup, a: Shared, b: Shared, st: Stage, todo: seq<Slot>)
    requires Fixed(u, a) && Fixed(u, b) && Later(a, b) && Progress(u, a, st, todo)
    ensures Progress(u, b, st, todo)
  {
    forall p | Rank(p) <= Rank(st) ensures SlotsOf(u, b, p) == SlotsOf(u, a, p) {
      assert Rank(p) > Rank(TheTemplates) ==> Templates in SlotsOf(u, a, TheTemplates);
      assert Rank(p) > Rank(TheConfig) ==> Config in SlotsOf(u, a, TheConfig);
      SlotsStay(u, a, b, p);
    }
  }

  lemma CheckStays(u: Setup, a: Shared, b: Shared, c: Check)
    requires Fixed(u, a) && Fixed(u, b) && Later(a, b) && CheckOk(u, a, c)
    ensures CheckOk(u, b, c)
  {
    if c.Checking? { ProgressStays(u, a, b, c.stage, c.todo); }
  }

  /** Moving on to the next part. */
  lemma NextStage(u: Setup, sh: Shared, st: Stage, todo: seq<Slot>)
    requires st != Finished && Progress(u, sh, st, []) && Listed(u, sh, Next(st), todo)
    ensures Progress(u, sh, Next(st), todo)
  {
    forall p, x | Rank(p) < Rank(Next(st)) && x in SlotsOf(u, sh, p) ensures Done(sh, x) {
      assert p == st || Rank(p) < Rank(st);
    }
  }

  /** Dropping a tracker that is done from the list. */
  lemma DropHead(u: Setup, sh: Shared, st: Stage, todo: seq<Slot>)
    requires todo != [] && Progress(u, sh, st, todo) && Done(sh, todo[0])
    ensures Progress(u, sh, st, todo[1..])
  {
    forall x | x in SlotsOf(u, sh, st) ensures x in todo[1..] || Done(sh, x) {
      assert x in todo ==> x == todo[0] || x in todo[1..];
    }
  }

  lemma InspectKeepsCheck(u: Setup, a: Shared, c: Check, b: Shared, d: Check)
    requires Fixed(u, a) && Fixed(u, b) && Later(a, b) && CheckOk(u, a, c)
    requires c.Checking? && c.todo != [] && Inspects(u, a, c, b, d)
    ensures CheckOk(u, b, d)
  {
    CheckStays(u, a, b, c);
    if d == Passed(c) {
      assert Done(b, c.todo[0]);
      DropHead(u, b, c.stage, c.todo);
    }
  }

  lemma AdvanceKeepsCheck(u: Setup, a: Shared, c: Check, b: Shared, d: Check)
    requires Fixed(u, a) && Fixed(u, b) && Later(a, b) && CheckOk(u, a, c) && Advances(u, a, c, b, d)
    ensures CheckOk(u, b, d)
  {
    if c.Checking? {
      if c.todo != [] {
        InspectKeepsCheck(u, a, c, b, d);
      } else if c.stage != Finished {
        NextStage(u, a, c.stage, d.todo);
      }
    }
  }

  lemma StepKeepsFixed(u: Setup, s: State, t: State, step: Step)
    requires SharedOk(u, s.sh) && Takes(u, s, t, step)
    ensures Fixed(u, t.sh)
  {
  }

  /** The trackers keep their own invariant. */
  lemma StepKeepsTrackers(u: Setup, s: State, t: State, step: Step)
    requires SharedOk(u, s.sh) && Takes(u, s, t, step)
    ensures forall x :: x in t.sh.trackers ==> Expectations.Inv(t.sh.trackers[x], u.retries)
  {
    assert Expectations.Inv(FRESH, u.retries);
    forall x, e | x in s.sh.trackers ensures Expectations.Inv(After(s.sh.trackers[x], u.retries, e), u.retries) {
      StepKeepsInv(s.sh.trackers[x], u.retries, e);
    }
  }

  lemma StepKeepsLatch(u: Setup, s: State, t: State, step: Step)
    requires Inv(u, s) && Takes(u, s, t, step) && Fixed(u, t.sh) && Later(s.sh, t.sh) && t.sh.latch
    ensures Progress(u, t.sh, Finished, [])
  {
    if s.sh.latch {
      ProgressStays(u, s.sh, t.sh, Finished, []);
    } else {
      assert step.Checks?;
      ProgressStays(u, s.sh, t.sh, Finished, s.checks[step.id].todo);
    }
  }

  lemma StepKeepsAll(u: Setup, s: State, t: State, step: Step)
    requires Inv(u, s) && Takes(u, s, t, step)
    ensures Inv(u, t) && Later(s.sh, t.sh)
  {
    StepIsLater(u, s, t, step);
    StepKeepsFixed(u, s, t, step);
    StepKeepsTrackers(u, s, t, step);
    if t.sh.latch { StepKeepsLatch(u, s, t, step); }
    forall id | id in t.checks ensures CheckOk(u, t.sh, t.checks[id]) {
      if step.Checks? && step.id == id {
        AdvanceKeepsCheck(u, s.sh, s.checks[id], t.sh, t.checks[id]);
      } else if id in s.checks {
        CheckStays(u, s.sh, t.sh, s.checks[id]);
      }
    }
  }

  lemma {:induction false} RunsKeepInv(u: Setup, states: seq<State>, steps: seq<Step>, i: nat)
    requires Run(u, states, steps) && i < |states|
    ensures Inv(u, states[i])
    decreases i
  {
    if i > 0 {
      RunsKeepInv(u, states, steps, i - 1);
      StepKeepsAll(u, states[i - 1], states[i], steps[i - 1]);
    }
  }

  /***** What readiness means *****/

  /** Everything the tracker accepted was observed or canceled. */
  ghost predicate Met(x: Object) {
    x.past.accepted <= x.past.observed + x.past.canceled
  }

  ghost predicate MetOrRemoved(sh: Shared, x: Slot) {
    x in sh.removed || (x in sh.trackers && sh.trackers[x].now.Tripped? && Met(sh.trackers[x]))
  }

  /** The keys of a tracker that were not canceled. */
  ghost function Remaining(sh: Shared, x: Slot): set<Key> {
    if x in sh.trackers then sh.trackers[x].past.accepted - sh.trackers[x].past.canceled else {}
  }

  ghost predicate Ready(u: Setup, sh: Shared) {
    && (forall x :: x in FixedSlots(u) ==> x in sh.trackers && sh.trackers[x].now.Tripped? && Met(sh.trackers[x]))
    && (forall k :: k in Remaining(sh, Templates) ==> MetOrRemoved(sh, Constraint(k.gvk)))
    && (forall k :: k in Remaining(sh, Config) ==> MetOrRemoved(sh, Data(k.gvk)))
  }

  lemma DoneMeansMet(u: Setup, sh: Shared, x: Slot)
    requires SharedOk(u, sh) && Done(sh, x)
    ensures MetOrRemoved(sh, x)
  {
  }

  /** A tripped tracker's kinds are those of its remaining keys. */
  lemma KindsAreRemaining(u: Setup, sh: Shared, x: Slot, k: Key)
    requires SharedOk(u, sh) && x in sh.trackers && sh.trackers[x].now.Tripped? && k in Remaining(sh, x)
    ensures k.gvk in KindsAt(sh, x)
  {
  }

  lemma LatchMeansReady(u: Setup, sh: Shared)
    requires SharedOk(u, sh) && sh.latch
    ensures Ready(u, sh)
  {
    forall x | x in FixedSlots(u) ensures x in sh.trackers && sh.trackers[x].now.Tripped? && Met(sh.trackers[x]) {
      assert x in SlotsOf(u, sh, Mutators) || x in SlotsOf(u, sh, TheTemplates) || x in SlotsOf(u, sh, TheConfig);
      DoneMeansMet(u, sh, x);
    }
    forall k | k in Remaining(sh, Templates) ensures MetOrRemoved(sh, Constraint(k.gvk)) {
      KindsAreRemaining(u, sh, Templates, k);
      assert Constraint(k.gvk) in SlotsOf(u, sh, Constraints);
      DoneMeansMet(u, sh, Constraint(k.gvk));
    }
    forall k | k in Remaining(sh, Config) ensures MetOrRemoved(sh, Data(k.gvk)) {
      KindsAreRemaining(u, sh, Config, k);
      assert Data(k.gvk) in SlotsOf(u, sh, AllData);
      DoneMeansMet(u, sh, Data(k.gvk));
    }
  }

  /** If any check has returned true, then the parts, though checked at different times, are all met now. */
  lemma SatisfiedMeansReady(u: Setup, states: seq<State>, steps: seq<Step>, i: nat, id: nat)
    requires Run(u, states, steps) && i < |states|
    requires id in states[i].checks && states[i].checks[id] == Returned(true)
    ensures Ready(u, states[i].sh) && states[i].sh.latch
  {
    RunsKeepInv(u, states, steps, i);
    LatchMeansReady(u, states[i].sh);
  }

  lemma {:induction false} LatchStays(u: Setup, states: seq<State>, steps: seq<Step>, i: nat, j: nat)
    requires Run(u, states, steps) && i <= j < |states| && states[i].sh.latch
    ensures states[j].sh.latch
    decreases j
  {
    if i < j {
      LatchStays(u, states, steps, i, j - 1);
      RunsKeepInv(u, states, steps, j - 1);
      StepIsLater(u, states[j - 1], states[j], steps[j - 1]);
    }
  }

  /** The next step of the check takes it from the latch to the answer true. */
  ghost predicate SaysReady(s: State, t: State, id: nat) {
    id in s.checks && s.checks[id].AtLatch? ==> id in t.checks && t.checks[id] == Returned(true)
  }

  /** Once satisfied, always satisfied: readiness stays true, and every check that starts afterwards says so. */
  lemma SatisfiedForever(u: Setup, states: seq<State>, steps: seq<Step>, i: nat, j: nat)
    requires Run(u, states, steps) && i <= j < |states| && states[i].sh.latch
    ensures states[j].sh.latch && Ready(u, states[j].sh)
    ensures j < |steps| && steps[j].Checks? ==> SaysReady(states[j], states[j + 1], steps[j].id)
  {
    LatchStays(u, states, steps, i, j);
    RunsKeepInv(u, states, steps, j);
    LatchMeansReady(u, states[j].sh);
    if j < |steps| && steps[j].Checks? {
      assert Takes(u, states[j], states[j + 1], steps[j]);
    }
  }

  /***** What keeps the process from becoming ready *****/

  /** What a step does to a tracker that it does not remove. */
  function EventOn(x: Slot, step: Step): Event {
    if step.Call? && step.x == x then step.e else Resolve
  }

  lemma TrackerSteps(u: Setup, s: State, t: State, step: Step, x: Slot)
    requires Takes(u, s, t, step) && x in s.sh.trackers && x !in t.sh.removed
    ensures x in t.sh.trackers
    ensures || t.sh.trackers[x] == After(s.sh.trackers[x], u.retries, EventOn(x, step))
            || (t.sh.trackers[x] == s.sh.trackers[x] && !(step.Call? && step.x == x))
  {
  }

  /** A tracker that was not there is new. */
  lemma TrackerIsNew(u: Setup, s: State, t: State, step: Step, x: Slot)
    requires Takes(u, s, t, step) && x !in s.sh.trackers && x in t.sh.trackers
    ensures t.sh.trackers[x] == FRESH
  {
  }

  lemma {:induction false} RemovedStays(u: Setup, states: seq<State>, steps: seq<Step>, i: nat, j: nat)
    requires Run(u, states, steps) && i <= j < |states|
    ensures states[i].sh.removed <= states[j].sh.removed
    decreases j
  {
    if i < j {
      RemovedStays(u, states, steps, i, j - 1);
      RunsKeepInv(u, states, steps, j - 1);
      StepIsLater(u, states[j - 1], states[j], steps[j - 1]);
    }
  }

  /** Until step n nobody says that x has all its expectations, and until step m nobody cancels k. */
  ghost predicate LeftOpen(steps: seq<Step>, x: Slot, k: Key, n: nat, m: nat) {
    && (forall i :: 0 <= i < n && i < |steps| ==> steps[i] != Call(x, ExpectationsDone))
    && (forall i :: 0 <= i < m && i < |steps| ==> steps[i] != Call(x, Cancel(k)) && steps[i] != Call(x, TryCancel(k)))
  }

  ghost predicate IsOpen(o: Object, retries: int, k: Key) {
    Expectations.Inv(o, retries) && o.now.Tracking? && !o.now.populated && k !in o.past.canceled
  }

  lemma OpenStep(o: Object, retries: int, e: Event, k: Key)
    requires IsOpen(o, retries, k) && e != ExpectationsDone && e != Cancel(k) && e != TryCancel(k)
    ensures IsOpen(After(o, retries, e), retries, k)
  {
    StepKeepsInv(o, retries, e);
    PastGrows(o, retries, e, k);
  }

  lemma {:induction false} StaysOpen(u: Setup, states: seq<State>, steps: seq<Step>, x: Slot, k: Key, i: nat)
    requires Run(u, states, steps) && i < |states| && x !in states[i].sh.removed && LeftOpen(steps, x, k, i, i)
    ensures x in states[i].sh.trackers ==> IsOpen(states[i].sh.trackers[x], u.retries, k)
    decreases i
  {
    assert IsOpen(FRESH, u.retries, k);
    if i > 0 && x in states[i].sh.trackers {
      var s, t, step := states[i - 1], states[i], steps[i - 1];
      assert Takes(u, s, t, step);
      RemovedStays(u, states, steps, i - 1, i);
      StaysOpen(u, states, steps, x, k, i - 1);
      if x in s.sh.trackers {
        TrackerSteps(u, s, t, step, x);
        OpenStep(s.sh.trackers[x], u.retries, EventOn(x, step), k);
      } else {
        TrackerIsNew(u, s, t, step, x);
      }
    }
  }

  lemma {:induction false} PastStays(u: Setup, states: seq<State>, steps: seq<Step>, x: Slot, k: Key, i: nat, j: nat)
    requires Run(u, states, steps) && i <= j < |states| && x in states[i].sh.trackers && x !in states[j].sh.removed
    ensures x in states[j].sh.trackers
    ensures var p, q := states[i].sh.trackers[x].past, states[j].sh.trackers[x].past;
            && p.accepted <= q.accepted && p.observed <= q.observed && p.again <= q.again
            && (LeftOpen(steps, x, k, 0, j) && k in q.canceled ==> k in p.canceled)
    decreases j
  {
    if i < j {
      var s, t, step := states[j - 1], states[j], steps[j - 1];
      assert Takes(u, s, t, step);
      RemovedStays(u, states, steps, j - 1, j);
      PastStays(u, states, steps, x, k, i, j - 1);
      TrackerSteps(u, s, t, step, x);
      PastGrows(s.sh.trackers[x], u.retries, EventOn(x, step), k);
    }
  }

  /** The effect of one call on an open tracker. */
  lemma CallOnOpen(u: Setup, states: seq<State>, steps: seq<Step>, x: Slot, k: Key, i: nat, e: Event)
    requires Run(u, states, steps) && i < |steps| && x !in states[i].sh.removed && LeftOpen(steps, x, k, i, i)
    requires steps[i] == Call(x, e)
    ensures x in states[i].sh.trackers && IsOpen(states[i].sh.trackers[x], u.retries, k)
    ensures x in states[i + 1].sh.trackers
    ensures states[i + 1].sh.trackers[x] == After(states[i].sh.trackers[x], u.retries, e)
  {
    StaysOpen(u, states, steps, x, k, i);
    assert Takes(u, states[i], states[i + 1], steps[i]);
  }

  /** Steps a, b and c expect k, observe it and expect it again while x is open. */
  ghost predicate ExpectsAgain(steps: seq<Step>, x: Slot, k: Key, a: nat, b: nat, c: nat) {
    && a < b < c < |steps| && LeftOpen(steps, x, k, c, c)
    && steps[a] == Call(x, Expect(k, false)) && steps[b] == Call(x, Observe(k)) && steps[c] == Call(x, Expect(k, false))
  }

  lemma NotRemovedBefore(u: Setup, states: seq<State>, steps: seq<Step>, x: Slot, j: nat)
    requires Run(u, states, steps) && j < |states| && x !in states[j].sh.removed
    ensures forall i :: 0 <= i <= j ==> x !in states[i].sh.removed
  {
    forall i | 0 <= i <= j ensures x !in states[i].sh.removed {
      RemovedStays(u, states, steps, i, j);
    }
  }

  /** An accepted and observed key is satisfied. */
  lemma SatisfiedBefore(u: Setup, states: seq<State>, steps: seq<Step>, x: Slot, k: Key, a: nat, b: nat, c: nat)
    requires Run(u, states, steps) && ExpectsAgain(steps, x, k, a, b, c) && x !in states[c].sh.removed
    ensures x in states[c].sh.trackers && IsOpen(states[c].sh.trackers[x], u.retries, k)
    ensures k in states[c].sh.trackers[x].now.satisfied
  {
    NotRemovedBefore(u, states, steps, x, c);
    CallOnOpen(u, states, steps, x, k, a, Expect(k, false));
    PastStays(u, states, steps, x, k, a + 1, c);
    CallOnOpen(u, states, steps, x, k, b, Observe(k));
    PastStays(u, states, steps, x, k, b + 1, c);
    StaysOpen(u, states, steps, x, k, c);
  }

  lemma AgainAfter(u: Setup, states: seq<State>, steps: seq<Step>, x: Slot, k: Key, a: nat, b: nat, c: nat, j: nat)
    requires Run(u, states, steps) && ExpectsAgain(steps, x, k, a, b, c)
    requires c < j < |states| && x !in states[j].sh.removed && LeftOpen(steps, x, k, 0, j)
    ensures x in states[j].sh.trackers
    ensures k in states[j].sh.trackers[x].past.again - states[j].sh.trackers[x].past.canceled
  {
    NotRemovedBefore(u, states, steps, x, j);
    SatisfiedBefore(u, states, steps, x, k, a, b, c);
    CallOnOpen(u, states, steps, x, k, c, Expect(k, false));
    PastStays(u, states, steps, x, k, c + 1, j);
  }

  /** Readiness depends on x: always, or because its kind is expected, not canceled and not removed. */
  ghost predicate Needed(u: Setup, sh: Shared, x: Slot) {
    || x in FixedSlots(u)
    || (x.Constraint? && x !in sh.removed && exists k :: k in Remaining(sh, Templates) && k.gvk == x.g)
    || (x.Data? && x !in sh.removed && exists k :: k in Remaining(sh, Config) && k.gvk == x.g)
  }

  /** A tracker that readiness depends on has tripped if the process is ready. */
  lemma ReadyNeeds(u: Setup, sh: Shared, x: Slot)
    requires SharedOk(u, sh) && sh.latch && Needed(u, sh, x)
    ensures x !in sh.removed && x in sh.trackers && sh.trackers[x].now.Tripped?
  {
    LatchMeansReady(u, sh);
    if x !in FixedSlots(u) {
      assert MetOrRemoved(sh, x);
    }
  }

  /**
   * If an object is expected, observed and expected again before its tracker has all its
   * expectations, then, whatever else happens in between and afterwards, no check returns true as
   * long as readiness depends on that tracker and nobody cancels the object; and the collector of
   * invalid expectations never does, since the object does not count as unsatisfied.
   */
  lemma ExpectedAgainIsNeverReady(u: Setup, states: seq<State>, steps: seq<Step>, x: Slot, k: Key,
                                  a: nat, b: nat, c: nat, j: nat)
    requires Run(u, states, steps) && ExpectsAgain(steps, x, k, a, b, c)
    requires c < j < |states| && Needed(u, states[j].sh, x) && LeftOpen(steps, x, k, 0, j)
    ensures !states[j].sh.latch && forall id :: id in states[j].checks ==> states[j].checks[id] != Returned(true)
    ensures x in states[j].sh.trackers && k !in Unsatisfied(states[j].sh.trackers[x].now)
  {
    RunsKeepInv(u, states, steps, j);
    assert x !in states[j].sh.removed;
    AgainAfter(u, states, steps, x, k, a, b, c, j);
    StuckNow(states[j].sh.trackers[x], u.retries, k);
    if states[j].sh.latch {
      ReadyNeeds(u, states[j].sh, x);
    }
  }
}

/** How trackConfig feeds the config tracker: it expects and at once observes every kind to sync. */
module TrackConfig {
  import opened Types
  import opened Expectations

  function KeyOf(g: GVK): Key {
    Key(g, "", "")
  }

  /** What trackConfig calls, for the kinds that the Config lists under syncOnly. */
  function Listing(syncOnly: seq<GVK>): seq<Event> {
    if syncOnly == [] then []
    else
      var n := |syncOnly| - 1;
      Listing(syncOnly[..n]) + [Expect(KeyOf(syncOnly[n]), false)] + [Observe(KeyOf(syncOnly[n]))]
  }

  function Calls(syncOnly: seq<GVK>): seq<Event> {
    Listing(syncOnly) + [ExpectationsDone]
  }

  /** The tracker while the kinds are listed: all that was accepted is observed and satisfied. */
  ghost predicate Listed(x: Object) {
    && x.now.Tracking? && !x.now.populated && x.now.seen == {} && x.past.canceled == {}
    && x.past.observed == x.past.accepted == x.now.satisfied
  }

  /** One more kind is listed. */
  lemma ListOne(x: Object, retries: int, k: Key)
    requires Listed(x) && Inv(x, retries)
    ensures var y := After(After(x, retries, Expect(k, false)), retries, Observe(k));
      && Listed(y) && y.past.accepted == x.past.accepted + {k}
      && y.past.again == if k in x.past.accepted then x.past.again + {k} else x.past.again
  {
    var e := After(x, retries, Expect(k, false));
    assert e.now == x.now.(awaited := x.now.awaited + {k});
  }

  /** What was accepted are the kinds listed, and what was expected again those listed twice. */
  ghost predicate Lists(p: Past, syncOnly: seq<GVK>) {
    && (forall k :: k in p.accepted <==> k == KeyOf(k.gvk) && k.gvk in syncOnly)
    && (p.again == {} <==> Distinct(syncOnly))
    && (forall g :: KeyOf(g) in p.again <==> Repeated(syncOnly, g))
  }

  lemma ListsOneMore(p: Past, q: Past, s: seq<GVK>)
    requires s != [] && Lists(p, s[..|s| - 1]) && q.accepted == p.accepted + {KeyOf(s[|s| - 1])}
    requires var k := KeyOf(s[|s| - 1]); q.again == if k in p.accepted then p.again + {k} else p.again
    ensures Lists(q, s)
  {
    var n := |s| - 1;
    var init, g := s[..n], s[n];
    DistinctInit(s);
    forall h ensures KeyOf(h) in q.again <==> Repeated(s, h) {
      RepeatedInit(s, h);
    }
    assert forall h :: h in s <==> h in init || h == g;
  }

  lemma {:induction false} ListingState(retries: int, syncOnly: seq<GVK>)
    ensures var x := Run(retries, Listing(syncOnly)); Listed(x) && Lists(x.past, syncOnly)
  {
    if syncOnly != [] {
      var n := |syncOnly| - 1;
      var init, k := syncOnly[..n], KeyOf(syncOnly[n]);
      ListingState(retries, init);
      var es := Listing(init);
      RunOne(retries, es, Expect(k, false));
      RunOne(retries, es + [Expect(k, false)], Observe(k));
      RunsKeepInv(retries, es);
      ListOne(Run(retries, es), retries, k);
      ListsOneMore(Run(retries, es).past, Run(retries, Listing(syncOnly)).past, syncOnly);
    }
  }

  lemma DistinctInit(s: seq<GVK>)
    requires s != []
    ensures var n := |s| - 1; Distinct(s) <==> Distinct(s[..n]) && s[n] !in s[..n]
  {
  }

  ghost predicate Repeated(s: seq<GVK>, g: GVK) {
    exists i, j :: 0 <= i < j < |s| && s[i] == s[j] == g
  }

  lemma RepeatedInit(s: seq<GVK>, g: GVK)
    requires s != []
    ensures var n := |s| - 1; Repeated(s, g) <==> Repeated(s[..n], g) || (s[n] == g && g in s[..n])
  {
    var n := |s| - 1;
    if g in s[..n] && s[n] == g {
      var i :| 0 <= i < n && s[..n][i] == g;
      assert s[i] == s[n] == g;
    }
    if i, j :| 0 <= i < j < n && s[..n][i] == s[..n][j] == g {
      assert s[i] == s[j] == g;
    }
    if i, j :| 0 <= i < j < |s| && s[i] == s[j] == g {
      assert s[..n][i] == g;
      assert j < n ==> s[..n][j] == g;
    }
  }

  ghost predicate CancelsNothing(events: seq<Event>) {
    forall k :: Cancel(k) !in events && TryCancel(k) !in events
  }

  /** After trackConfig, calls that cancel nothing can lead to a tripped tracker. */
  ghost predicate CanTrip(retries: int, syncOnly: seq<GVK>) {
    exists more :: Run(retries, Calls(syncOnly) + more).now.Tripped? && CancelsNothing(more)
  }

  /** A kind listed twice holds the tracker back for ever, until its entry is canceled. */
  lemma RepeatedKindIsStuck(retries: int, syncOnly: seq<GVK>, g: GVK, more: seq<Event>)
    requires Repeated(syncOnly, g) && Cancel(KeyOf(g)) !in more && TryCancel(KeyOf(g)) !in more
    ensures Run(retries, Calls(syncOnly) + more).now.Tracking?
  {
    ListingState(retries, syncOnly);
    RunOne(retries, Listing(syncOnly), ExpectationsDone);
    StuckForever(retries, Calls(syncOnly), more, KeyOf(g));
  }

  /**
   * Right after the calls a check of the config tracker succeeds iff no kind is listed twice, and if
   * one is, it never does.
   */
  lemma ConfigIsSatisfiedIffDistinct(retries: int, syncOnly: seq<GVK>)
    ensures Step(Run(retries, Calls(syncOnly)).now, retries, Resolve).Tripped? <==> Distinct(syncOnly)
    ensures CanTrip(retries, syncOnly) <==> Distinct(syncOnly)
  {
    ListingState(retries, syncOnly);
    RunOne(retries, Listing(syncOnly), ExpectationsDone);
    MetTripsIff(retries, Calls(syncOnly));
    RunOne(retries, Calls(syncOnly), Resolve);
    if !Distinct(syncOnly) && CanTrip(retries, syncOnly) {
      var i, j :| 0 <= i < j < |syncOnly| && syncOnly[i] == syncOnly[j];
      var more :| Run(retries, Calls(syncOnly) + more).now.Tripped? && CancelsNothing(more);
      assert Repeated(syncOnly, syncOnly[i]);
      RepeatedKindIsStuck(retries, syncOnly, syncOnly[i], more);
    }
  }
}

/** The same tracker, one call at a time. */
module ReadyTrackerCalls {
  import opened Types
  import opened Expectations
  import opened ReadySlots

  /** A check of this tracker succeeds. */
  ghost predicate Trips(o: State) {
    o.Tripped? || (o.populated && o.awaited <= o.seen)
  }

  ghost predicate Passes(trackers: map<Slot, State>, removed: set<Slot>, x: Slot) {
    x in removed || (x in trackers && Trips(trackers[x]))
  }

  ghost function KindsIn(trackers: map<Slot, State>, x: Slot): set<GVK> {
    if x in trackers then Kinds(trackers[x]) else {}
  }

  /** Everything Satisfied looks at would pass. */
  ghost predicate AllPass(u: Setup, trackers: map<Slot, State>, removed: set<Slot>) {
    && (u.mutation ==> Passes(trackers, removed, AssignMetadata) && Passes(trackers, removed, Assign))
    && Passes(trackers, removed, Templates) && Passes(trackers, removed, Config)
    && (forall g :: g in KindsIn(trackers, Templates) ==> Passes(trackers, removed, Constraint(g)))
    && (forall g :: g in KindsIn(trackers, Config) ==> Passes(trackers, removed, Data(g)))
  }

  /** The tracker that belongs to a kind the templates, or the config, brought in. */
  function KindSlot(x: Slot, g: GVK): Slot {
    if x.Templates? then Constraint(g) else Data(g)
  }

  ghost predicate WithKindsPass(trackers: map<Slot, State>, removed: set<Slot>, x: Slot) {
    Passes(trackers, removed, x) && forall g :: g in KindsIn(trackers, x) ==> Passes(trackers, removed, KindSlot(x, g))
  }

  /** What checks may change: trackers trip or are made, but what would pass stays what it was. */
  ghost predicate OnlyChecked(a: map<Slot, State>, b: map<Slot, State>) {
    && a.Keys <= b.Keys
    && (forall x :: x in a ==> Kinds(b[x]) == Kinds(a[x]) && (Trips(b[x]) <==> Trips(a[x])))
    && (forall x :: x in b && x !in a ==> !Trips(b[x]))
  }

  lemma CheckedTwice(a: map<Slot, State>, b: map<Slot, State>, c: map<Slot, State>)
    requires OnlyChecked(a, b) && OnlyChecked(b, c)
    ensures OnlyChecked(a, c)
  {
    forall x | x in c && x !in a ensures !Trips(c[x]) {
      assert x in b || x !in b;
    }
  }

  lemma CheckedPasses(a: map<Slot, State>, b: map<Slot, State>, removed: set<Slot>, x: Slot)
    requires OnlyChecked(a, b)
    ensures Passes(b, removed, x) <==> Passes(a, removed, x)
  {
  }

  lemma ResolvingKeepsTrips(o: State, retries: int)
    ensures var p := Step(o, retries, Resolve);
      && Kinds(p) == Kinds(o) && (Trips(p) <==> Trips(o)) && (p.Tripped? <==> Trips(o))
      && (Trips(o) && o.Tracking? ==> NeedsWrite(o))
  {
    if o.Tracking? {
      var p := Satisfy(o, o.seen * o.awaited);
      assert p.satisfied + p.awaited == o.satisfied + o.awaited;
      assert p.awaited == o.awaited - o.seen && p.seen == o.seen - o.awaited;
      assert p.awaited == {} <==> o.awaited <= o.seen by {
        if p.awaited == {} {
          forall k | k in o.awaited ensures k in o.seen { assert k in p.awaited || k in o.seen; }
        }
      }
      assert p.awaited <= p.seen <==> p.awaited == {};
    }
  }

  /** The template k is neither awaited nor seen, nor are its constraints. */
  ghost predicate Released(trackers: map<Slot, State>, removed: set<Slot>, k: Key) {
    && Passes(trackers, removed, Constraint(k.gvk))
    && Templates in trackers
    && (trackers[Templates].Tracking? ==>
          k !in trackers[Templates].awaited + trackers[Templates].seen + trackers[Templates].satisfied)
  }

  lemma ReleasesTemplate(o: State, retries: int, k: Key)
    ensures var p := Step(o, retries, Cancel(k)); p.Tracking? ==> k !in p.awaited + p.seen + p.satisfied
  {
  }

  class Tracker {
    const u: Setup
    var satisfied: bool
    var trackers: map<Slot, State>
    var removed: set<Slot>

    ghost predicate Valid()
      reads this
    {
      FixedSlots(u) <= trackers.Keys && forall x :: x in removed ==> OfKind(x) && x !in trackers
    }

    constructor (setup: Setup)
      ensures Valid() && u == setup && !satisfied && removed == {}
      ensures trackers.Keys == FixedSlots(u) && forall x :: x in trackers ==> trackers[x] == NEW
    {
      u := setup;
      satisfied := false;
      trackers := map x | x in FixedSlots(setup) :: NEW;
      removed := {};
    }

    /** trackerMap.Get: false stands for the throwaway tracker. */
    method Get(x: Slot) returns (tracked: bool)
      requires Valid()
      modifies this`trackers
      ensures Valid() && tracked == (x !in removed)
      ensures trackers == if x in removed || x in old(trackers) then old(trackers) else old(trackers)[x := NEW]
    {
      if x in removed { return false; }
      if x !in trackers { trackers := trackers[x := NEW]; }
      return true;
    }

    /** trackerMap.Remove: the kind cannot be tracked again. */
    method Remove(x: Slot)
      requires Valid() && OfKind(x)
      modifies this`trackers, this`removed
      ensures Valid() && x in removed && removed == old(removed) + {x} && trackers == old(trackers) - {x}
    {
      trackers := trackers - {x};
      removed := removed + {x};
    }

    /** For and ForData for a constraint or data kind: no new tracker once the kinds are all known. */
    method ForKind(x: Slot) returns (tracked: bool)
      requires Valid() && OfKind(x)
      modifies this`trackers
      ensures Valid()
      ensures var known := old(Populated(trackers[if x.Constraint? then Templates else Config]));
        && tracked == (x !in removed && (known ==> x in old(trackers)))
        && trackers == if tracked && x !in old(trackers) then old(trackers)[x := NEW] else old(trackers)
    {
      if Populated(trackers[if x.Constraint? then Templates else Config]) && x !in trackers { return false; }
      tracked := Get(x);
    }

    /** templateCleanup: the constraints of this kind are no longer waited for. */
    method TemplateCleanup(k: Key)
      requires Valid()
      modifies this`trackers, this`removed
      ensures Valid() && removed == old(removed) + {Constraint(k.gvk)}
      ensures trackers == old(trackers) - {Constraint(k.gvk)}
    {
      Remove(Constraint(k.gvk));
    }

    /** CancelTemplate: neither the template nor its constraints hold readiness back any more. */
    method CancelTemplate(k: Key)
      requires Valid()
      modifies this`trackers, this`removed
      ensures Valid() && removed == old(removed) + {Constraint(k.gvk)}
      ensures trackers ==
              old(trackers[Templates := Step(trackers[Templates], u.retries, Cancel(k))]) - {Constraint(k.gvk)}
      ensures Released(trackers, removed, k)
    {
      ReleasesTemplate(trackers[Templates], u.retries, k);
      trackers := trackers[Templates := Step(trackers[Templates], u.retries, Cancel(k))];
      TemplateCleanup(k);
    }

    /** TryCancelTemplate: the same once the retries of the template are used up, and one retry less otherwise. */
    method TryCancelTemplate(k: Key) returns (shouldDel: bool)
      requires Valid()
      modifies this`trackers, this`removed
      ensures Valid() && (shouldDel <==> old(Cancels(trackers[Templates], u.retries, k)))
      ensures var after := old(trackers[Templates := Step(trackers[Templates], u.retries, TryCancel(k))]);
        if shouldDel then trackers == after - {Constraint(k.gvk)} && removed == old(removed) + {Constraint(k.gvk)}
        else trackers == after && removed == old(removed)
      ensures shouldDel ==> Released(trackers, removed, k)
    {
      shouldDel := Cancels(trackers[Templates], u.retries, k);
      trackers := trackers[Templates := Step(trackers[Templates], u.retries, TryCancel(k))];
      if shouldDel { TemplateCleanup(k); }
    }

    /** CancelData: a kind that is no longer synced is no longer waited for. */
    method CancelData(g: GVK)
      requires Valid()
      modifies this`trackers, this`removed
      ensures Valid() && removed == old(removed) + {Data(g)} && trackers == old(trackers) - {Data(g)}
      ensures Passes(trackers, removed, Data(g))
    {
      Remove(Data(g));
    }

    /** Get, and Satisfied on what it returns. */
    method Check(x: Slot) returns (ok: bool)
      requires Valid()
      modifies this`trackers
      ensures Valid() && OnlyChecked(old(trackers), trackers)
      ensures ok <==> old(Passes(trackers, removed, x))
    {
      var tracked := Get(x);
      if !tracked { return true; }
      ResolvingKeepsTrips(trackers[x], u.retries);
      if NeedsWrite(trackers[x]) { trackers := trackers[x := Step(trackers[x], u.retries, Resolve)]; }
      return trackers[x].Tripped?;
    }

    method CheckAll(xs: set<Slot>) returns (ok: bool)
      requires Valid()
      modifies this`trackers
      ensures Valid() && OnlyChecked(old(trackers), trackers)
      ensures ok <==> forall x :: x in xs ==> old(Passes(trackers, removed, x))
    {
      var todo := xs;
      while todo != {}
        invariant Valid() && OnlyChecked(old(trackers), trackers)
        invariant forall x :: x in xs && x !in todo ==> old(Passes(trackers, removed, x))
        decreases todo
      {
        var x :| x in todo;
        ghost var was := trackers;
        CheckedPasses(old(trackers), was, removed, x);
        ok := Check(x);
        CheckedTwice(old(trackers), was, trackers);
        if !ok { return; }
        todo := todo - {x};
      }
      return true;
    }

    /** Satisfied, uninterrupted: it returns true exactly if it did before or everything passes. */
    method Satisfied() returns (ok: bool)
      requires Valid()
      modifies this`satisfied, this`trackers
      ensures Valid() && OnlyChecked(old(trackers), trackers)
      ensures ok <==> old(satisfied) || old(AllPass(u, trackers, removed))
      ensures satisfied == ok
    {
      if satisfied { return true; }
      ghost var was := trackers;
      if u.mutation {
        ok := CheckAll({AssignMetadata, Assign});
        if !ok { return; }
      }
      ok := CheckWithKinds(Templates, was);
      if !ok { return; }
      ok := CheckWithKinds(Config, was);
      if !ok { return; }
      satisfied := true;
    }

    /** The templates and then the constraints of each template; or the config and then the data. */
    method CheckWithKinds(x: Slot, ghost was: map<Slot, State>) returns (ok: bool)
      requires Valid() && OnlyChecked(was, trackers) && (x == Templates || x == Config) && x in was
      modifies this`trackers
      ensures Valid() && OnlyChecked(was, trackers)
      ensures ok <==> WithKindsPass(was, removed, x)
    {
      ok := CheckFor({x}, was);
      if !ok { return; }
      var kinds := Kinds(trackers[x]);
      var slots := set g | g in kinds :: KindSlot(x, g);
      ok := CheckFor(slots, was);
      assert forall g :: g in kinds ==> KindSlot(x, g) in slots;
    }

    /** CheckAll, in terms of the trackers as they were when Satisfied began. */
    method CheckFor(xs: set<Slot>, ghost was: map<Slot, State>) returns (ok: bool)
      requires Valid() && OnlyChecked(was, trackers)
      modifies this`trackers
      ensures Valid() && OnlyChecked(was, trackers)
      ensures ok <==> forall x :: x in xs ==> Passes(was, removed, x)
    {
      ghost var mid := trackers;
      ok := CheckAll(xs);
      CheckedTwice(was, mid, trackers);
      forall x | x in xs ensures Passes(mid, removed, x) <==> Passes(was, removed, x) {
        CheckedPasses(was, mid, removed, x);
      }
    }
  }
}
