/** When everything that was expected is met, the readiness check says so. */
module ReadyProgress {
  import opened Types
  import opened Expectations
  import opened ReadySlots
  import opened ReadyTracker

  /** All expectations are known and met, and none of them was expected again after it was satisfied. */
  ghost predicate Achieved(x: Object) {
    Populated(x.now) && Met(x) && x.past.again <= x.past.canceled
  }

  ghost predicate AchievedAt(sh: Shared, x: Slot) {
    x in sh.removed || (x in sh.trackers && Achieved(sh.trackers[x]))
  }

  /** Everything that readiness depends on is achieved, whether or not a check has seen it yet. */
  ghost predicate AllAchieved(u: Setup, sh: Shared) {
    && (forall x :: x in FixedSlots(u) ==> AchievedAt(sh, x))
    && (forall k :: k in Remaining(sh, Templates) ==> AchievedAt(sh, Constraint(k.gvk)))
    && (forall k :: k in Remaining(sh, Config) ==> AchievedAt(sh, Data(k.gvk)))
  }

  /***** A tracker that would trip *****/

  ghost predicate Complete(o: Expectations.State) {
    o.Tracking? ==> o.populated && o.awaited == {}
  }

  lemma AchievedIsComplete(x: Object, retries: int)
    requires Expectations.Inv(x, retries) && Achieved(x)
    ensures Complete(x.now)
  {
    if x.now.Tracking? {
      assert x.now.awaited * x.now.satisfied == {};
      forall k | k in x.now.awaited ensures k in x.now.satisfied {
        assert k in x.now.awaited + x.now.satisfied;
      }
    }
  }

  /** No call makes an expectation of a tracker that has them all, and none brings a kind back. */
  lemma CompleteStays(x: Object, retries: int, e: Event)
    requires Expectations.Inv(x, retries) && Complete(x.now)
    ensures Complete(After(x, retries, e).now)
    ensures Kinds(After(x, retries, e).now) <= Kinds(x.now)
  {
    if x.now.Tracking? && e.Resolve? {
      NothingToResolve(x, retries);
    }
  }

  lemma CompleteTrips(x: Object, retries: int)
    requires Expectations.Inv(x, retries) && Complete(x.now)
    ensures x.now.Tripped? || NeedsWrite(x.now)
    ensures After(x, retries, Resolve).now.Tripped?
  {
    if x.now.Tracking? {
      NothingToResolve(x, retries);
    }
  }

  /***** All of them *****/

  ghost predicate Answers(sh: Shared, x: Slot) {
    x in sh.removed || (x in sh.trackers && Complete(sh.trackers[x].now))
  }

  ghost predicate AllAnswer(u: Setup, sh: Shared) {
    forall st, x :: x in SlotsOf(u, sh, st) ==> Answers(sh, x)
  }

  lemma KindRemains(u: Setup, sh: Shared, x: Slot, g: GVK)
    requires SharedOk(u, sh) && g in KindsAt(sh, x)
    ensures exists k :: k in Remaining(sh, x) && k.gvk == g
  {
    var o := sh.trackers[x];
    var keys := if o.now.Tripped? then o.past.accepted - o.past.canceled else o.now.satisfied + o.now.awaited;
    var k :| k in keys && k.gvk == g;
    assert o.now.Tracking? ==> k in o.now.awaited + o.now.satisfied;
    assert k in Remaining(sh, x);
  }

  lemma AchievedMeansAnswers(u: Setup, sh: Shared)
    requires SharedOk(u, sh) && AllAchieved(u, sh)
    ensures AllAnswer(u, sh)
  {
    forall st, x | x in SlotsOf(u, sh, st) ensures Answers(sh, x) {
      if st == Constraints {
        KindRemains(u, sh, Templates, x.g);
      } else if st == AllData {
        KindRemains(u, sh, Config, x.g);
      }
      assert AchievedAt(sh, x);
      if x !in sh.removed { AchievedIsComplete(sh.trackers[x], u.retries); }
    }
  }

  /** A tracker that is there before and after a step stays complete. */
  lemma CompleteStep(u: Setup, s: ReadyTracker.State, t: ReadyTracker.State, step: ReadyTracker.Step, x: Slot)
    requires SharedOk(u, s.sh) && Takes(u, s, t, step) && x in s.sh.trackers && x in t.sh.trackers
    requires Complete(s.sh.trackers[x].now)
    ensures Complete(t.sh.trackers[x].now) && Kinds(t.sh.trackers[x].now) <= Kinds(s.sh.trackers[x].now)
  {
    var o, e := s.sh.trackers[x], EventOn(x, step);
    assert t.sh.trackers[x] == After(o, u.retries, e) || t.sh.trackers[x] == o;
    CompleteStays(o, u.retries, e);
  }

  lemma AnswersStay(u: Setup, s: ReadyTracker.State, t: ReadyTracker.State, step: ReadyTracker.Step, x: Slot)
    requires SharedOk(u, s.sh) && Takes(u, s, t, step) && Answers(s.sh, x)
    ensures Answers(t.sh, x)
  {
    StepIsLater(u, s, t, step);
    if x !in t.sh.removed {
      CompleteStep(u, s, t, step, x);
    }
  }

  lemma AllAnswerStays(u: Setup, s: ReadyTracker.State, t: ReadyTracker.State, step: ReadyTracker.Step)
    requires SharedOk(u, s.sh) && Takes(u, s, t, step) && AllAnswer(u, s.sh)
    ensures AllAnswer(u, t.sh)
  {
    StepKeepsFixed(u, s, t, step);
    assert Templates in SlotsOf(u, s.sh, TheTemplates) && Config in SlotsOf(u, s.sh, TheConfig);
    assert Answers(s.sh, Templates) && Answers(s.sh, Config);
    CompleteStep(u, s, t, step, Templates);
    CompleteStep(u, s, t, step, Config);
    forall st, x | x in SlotsOf(u, t.sh, st) ensures Answers(t.sh, x) {
      assert x in SlotsOf(u, s.sh, st);
      AnswersStay(u, s, t, step, x);
    }
  }

  /***** One check *****/

  /** Between getting a tracker and finishing with it, a check has it in hand. */
  ghost predicate InHand(c: Check, x: Slot) {
    c.Checking? && c.todo != [] && c.at != Get && c.todo[0] == x
  }

  /** What the check still has to look at will answer, and what it has in hand is not taken away. */
  ghost predicate WellUnderWay(sh: Shared, c: Check) {
    match c
    case AtLatch => true
    case Checking(_, todo, at) =>
      && (forall x :: x in todo ==> Answers(sh, x))
      && (todo != [] && at != Get ==> todo[0] in sh.trackers && Complete(sh.trackers[todo[0]].now))
    case Returned(ready) => ready
  }

  lemma InspectSucceeds(u: Setup, a: Shared, c: Check, b: Shared, d: Check)
    requires SharedOk(u, a) && c.Checking? && c.todo != [] && Inspects(u, a, c, b, d) && WellUnderWay(a, c)
    ensures d == Passed(c) || (d.Checking? && d == c.(at := d.at) && d.at != Get && c.todo[0] in b.trackers)
    ensures d != Passed(c) ==> Complete(b.trackers[c.todo[0]].now)
  {
    assert Answers(a, c.todo[0]);
    if c.at != Get {
      CompleteTrips(a.trackers[c.todo[0]], u.retries);
    }
  }

  lemma OwnStep(u: Setup, s: ReadyTracker.State, t: ReadyTracker.State, id: nat)
    requires ReadyTracker.Inv(u, s) && Takes(u, s, t, Checks(id)) && AllAnswer(u, s.sh)
    requires WellUnderWay(s.sh, s.checks[id])
    ensures WellUnderWay(t.sh, t.checks[id])
  {
    var c, d := s.checks[id], t.checks[id];
    forall x | Answers(s.sh, x) ensures Answers(t.sh, x) {
      AnswersStay(u, s, t, Checks(id), x);
    }
    if c.Checking? && c.todo != [] {
      InspectSucceeds(u, s.sh, c, t.sh, d);
      assert forall x :: x in c.todo[1..] ==> x in c.todo;
    }
  }

  /** The step removes the tracker that the check has in hand. */
  ghost predicate TakesAway(s: ReadyTracker.State, step: ReadyTracker.Step, id: nat) {
    step.Remove? && id in s.checks && InHand(s.checks[id], step.x)
  }

  lemma OtherStep(u: Setup, s: ReadyTracker.State, t: ReadyTracker.State, step: ReadyTracker.Step, id: nat)
    requires ReadyTracker.Inv(u, s) && Takes(u, s, t, step) && id in s.checks && WellUnderWay(s.sh, s.checks[id])
    requires !(step.Checks? && step.id == id) && !TakesAway(s, step, id)
    ensures id in t.checks && t.checks[id] == s.checks[id] && WellUnderWay(t.sh, t.checks[id])
  {
    var c := s.checks[id];
    assert id in t.checks && t.checks[id] == c;
    forall x | Answers(s.sh, x) ensures Answers(t.sh, x) {
      AnswersStay(u, s, t, step, x);
    }
    if c.Checking? && c.todo != [] && c.at != Get {
      assert c.todo[0] in t.sh.trackers;
      CompleteStep(u, s, t, step, c.todo[0]);
    }
  }

  ghost predicate NeverTakenAway(states: seq<ReadyTracker.State>, steps: seq<ReadyTracker.Step>,
                                 i: nat, j: nat, id: nat)
    requires j <= |steps| <= |states|
  {
    forall k :: i <= k < j ==> !TakesAway(states[k], steps[k], id)
  }

  /** The check has not begun, or has not passed the latch. */
  ghost predicate YetToLook(s: ReadyTracker.State, id: nat) {
    id in s.checks ==> s.checks[id].AtLatch?
  }

  lemma {:induction false} RunsAnswer(u: Setup, states: seq<ReadyTracker.State>, steps: seq<ReadyTracker.Step>,
                                      i: nat, j: nat, id: nat)
    requires ReadyTracker.Run(u, states, steps) && i <= j < |states|
    requires AllAchieved(u, states[i].sh) && YetToLook(states[i], id) && NeverTakenAway(states, steps, i, j, id)
    ensures AllAnswer(u, states[j].sh)
    ensures id in states[j].checks ==> WellUnderWay(states[j].sh, states[j].checks[id])
    decreases j
  {
    ReadyTracker.RunsKeepInv(u, states, steps, i);
    AchievedMeansAnswers(u, states[i].sh);
    if i < j {
      var s, t, step := states[j - 1], states[j], steps[j - 1];
      RunsAnswer(u, states, steps, i, j - 1, id);
      ReadyTracker.RunsKeepInv(u, states, steps, j - 1);
      assert Takes(u, s, t, step);
      AllAnswerStays(u, s, t, step);
      if step == Checks(id) {
        OwnStep(u, s, t, id);
      } else if id in s.checks {
        OtherStep(u, s, t, step, id);
      }
    }
  }

  /***** A check comes to an end *****/

  function PlaceOf(at: Position): nat {
    match at
    case Get => 0
    case Read => 1
    case Write => 2
  }

  /** d is nearer to the end than c: the measure is the part, then what is left of it, then the place. */
  ghost predicate Nearer(c: Check, d: Check) {
    || (!c.Returned? && d.Returned?)
    || (c.AtLatch? && d.Checking?)
    || (c.Checking? && d.Checking? && Rank(c.stage) < Rank(d.stage))
    || (c.Checking? && d.Checking? && c.stage == d.stage && |d.todo| < |c.todo|)
    || (c.Checking? && d.Checking? && c.stage == d.stage && d.todo == c.todo && PlaceOf(c.at) < PlaceOf(d.at))
  }

  /** Every step of a check brings it nearer to its end, whatever its answer. */
  lemma StepsBringNearer(u: Setup, s: ReadyTracker.State, t: ReadyTracker.State, id: nat)
    requires Takes(u, s, t, Checks(id))
    ensures Nearer(s.checks[id], t.checks[id])
  {
  }

  lemma {:induction false} ListOf(rest: set<Slot>) returns (todo: seq<Slot>)
    ensures forall x :: x in todo <==> x in rest
  {
    todo := [];
    if rest != {} {
      var x :| x in rest;
      var more := ListOf(rest - {x});
      todo := [x] + more;
    }
  }

  /** A check that has not returned is never stuck. */
  lemma NeverStuck(u: Setup, s: ReadyTracker.State, id: nat)
    requires id in s.checks && !s.checks[id].Returned?
    ensures exists t :: Takes(u, s, t, Checks(id))
  {
    var c := s.checks[id];
    var b, d := NextOf(u, s.sh, c);
    var t := ReadyTracker.State(b, s.checks[id := d]);
    assert Takes(u, s, t, Checks(id));
  }

  lemma NextOf(u: Setup, a: Shared, c: Check) returns (b: Shared, d: Check)
    requires !c.Returned?
    ensures Advances(u, a, c, b, d)
  {
    b := a;
    if c.AtLatch? || (c.todo == [] && c.stage != Finished) {
      var st := if c.AtLatch? then Mutators else Next(c.stage);
      var todo: seq<Slot>;
      if c.AtLatch? && u.mutation {
        todo := [AssignMetadata, Assign];
      } else {
        todo := ListOf(SlotsOf(u, a, st));
      }
      d := if c.AtLatch? && a.latch then Returned(true) else Checking(st, todo, Get);
    } else if c.todo == [] {
      b, d := a.(latch := true), Returned(true);
    } else {
      b, d := InspectOf(u, a, c);
    }
  }

  lemma InspectOf(u: Setup, a: Shared, c: Check) returns (b: Shared, d: Check)
    requires c.Checking? && c.todo != []
    ensures Inspects(u, a, c, b, d)
  {
    var x := c.todo[0];
    b, d := a, Passed(c);
    if c.at == Get {
      b := Gotten(a, x);
      d := if x in a.removed then Passed(c) else c.(at := Read);
    } else if x in a.trackers && c.at == Read {
      d := if a.trackers[x].now.Tripped? then Passed(c)
           else if NeedsWrite(a.trackers[x].now) then c.(at := Write) else Returned(false);
    } else if x in a.trackers {
      var y := After(a.trackers[x], u.retries, Resolve);
      b := a.(trackers := a.trackers[x := y]);
      d := if y.now.Tripped? then Passed(c) else Returned(false);
    }
  }

  /**
   * If at some moment all that readiness depends on is achieved, then no check that looks after that
   * moment answers false, unless the tracker it has in hand is removed meanwhile. It can always go on
   * until it answers, and every step that it takes brings it nearer to that.
   */
  lemma AchievedIsReported(u: Setup, states: seq<ReadyTracker.State>, steps: seq<ReadyTracker.Step>,
                           i: nat, j: nat, id: nat)
    requires ReadyTracker.Run(u, states, steps) && i <= j < |states|
    requires AllAchieved(u, states[i].sh) && YetToLook(states[i], id) && NeverTakenAway(states, steps, i, j, id)
    requires id in states[j].checks
    ensures states[j].checks[id].Returned? ==> states[j].checks[id] == Returned(true)
    ensures !states[j].checks[id].Returned? ==> exists t :: Takes(u, states[j], t, Checks(id))
    ensures forall t :: Takes(u, states[j], t, Checks(id)) ==> Nearer(states[j].checks[id], t.checks[id])
  {
    RunsAnswer(u, states, steps, i, j, id);
    if !states[j].checks[id].Returned? {
      NeverStuck(u, states[j], id);
    }
    forall t | Takes(u, states[j], t, Checks(id)) ensures Nearer(states[j].checks[id], t.checks[id]) {
      StepsBringNearer(u, states[j], t, id);
    }
  }
}
