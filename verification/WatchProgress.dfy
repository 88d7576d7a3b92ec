/** What the watch protocol does get done: whoever joins gets a replay, and what is intended is watched. */
module ReplayProgress {
  import opened Types
  import opened ReplayTracker
  import opened WatchProtocol
  import opened ReplaySafety
  import opened WatchSafety

  /***** An intended replay is started *****/

  /** The lock is held to add, or to remove, the watch of r on g, and has come to pc. */
  ghost predicate AddsAt(h: Holder, pc: Pc, r: Registrar, g: GVK) {
    AddAt(h, pc) && h.todo[0] == Add(r, g)
  }

  ghost predicate RemovesAt(h: Holder, pc: Pc, r: Registrar, g: GVK) {
    RemAt(h, pc) && h.todo[0] == Rem(r, g)
  }

  /** The replay of g for r has been started, or the request for it is on its way. */
  ghost predicate ReplayDue(s: State, r: Registrar, g: GVK) {
    (r, g) in s.p.cancels || s.p.loop == Got(Request(r, g, false)) || AddsAt(s.w.holder, Send, r, g)
  }

  ghost predicate WantsReplay(s: State, r: Registrar, g: GVK) {
    (r, g) in s.p.tracker.intent
  }

  ghost predicate IntentInv(s: State, r: Registrar, g: GVK) {
    && (WantsReplay(s, r, g) ==> ReplayDue(s, r, g))
    && (WantsReplay(s, r, g) && s.p.loop == Got(Request(r, g, true)) ==> AddsAt(s.w.holder, Send, r, g))
    && (RemovesAt(s.w.holder, Send, r, g) ==> !WantsReplay(s, r, g))
  }

  /** The loop drops the request because r has no channel that one could replay to. */
  ghost predicate Skips(s: State, step: Step, r: Registrar, g: GVK) {
    step == OnReplays(Decide(true)) && s.p.loop == Got(Request(r, g, false))
  }

  ghost predicate NeverSkipped(states: seq<State>, steps: seq<Step>, i: nat, r: Registrar, g: GVK)
    requires i <= |steps| <= |states|
  {
    forall k :: 0 <= k < i ==> !Skips(states[k], steps[k], r, g)
  }

  lemma IntentStep(s: State, t: State, step: Step, r: Registrar, g: GVK)
    requires Takes(s, t, step) && !t.stopped && !Skips(s, step, r, g) && IntentInv(s, r, g)
    ensures IntentInv(t, r, g)
  {
    match step
    case OnWatches(ws) => SendStays(s.w, t.w, ws);
    case OnReplays(ps) => IntentReplayStep(s, t, ps, r, g);
    case RecordIntent =>
    case SendRequest =>
    case _ =>
  }

  /** The steps on the watches alone neither come to the sending of a request nor leave it. */
  lemma SendStays(w: Watches, v: Watches, ws: WStep)
    requires WTakes(w, v, ws)
    ensures AddAt(v.holder, Send) || RemAt(v.holder, Send) ==> v.holder == w.holder
    ensures AddAt(w.holder, Send) || RemAt(w.holder, Send) ==> v.holder == w.holder
  {
  }

  lemma IntentReplayStep(s: State, t: State, ps: PStep, r: Registrar, g: GVK)
    requires Takes(s, t, OnReplays(ps)) && !Skips(s, OnReplays(ps), r, g) && IntentInv(s, r, g)
    ensures IntentInv(t, r, g)
  {
    assert t.w == s.w;
    match ps
    case Decide(skip) =>
      var req := s.p.loop.req;
      if req == Request(r, g, false) {
        assert WantsReplay(s, r, g) ==> (r, g) in t.p.cancels;
      } else if req == Request(r, g, true) {
        assert WantsReplay(s, r, g) ==> AddsAt(s.w.holder, Send, r, g);
      } else {
        assert (req.r, req.g) != (r, g);
        assert (r, g) in s.p.cancels ==> (r, g) in t.p.cancels;
      }
    case _ =>
  }

  lemma {:induction false} StoppedStays(states: seq<State>, steps: seq<Step>, i: nat, j: nat)
    requires Run(states, steps) && i <= j < |states| && states[i].stopped
    ensures states[j].stopped
    decreases j
  {
    if i < j {
      StoppedStays(states, steps, i, j - 1);
      assert Takes(states[j - 1], states[j], steps[j - 1]);
    }
  }

  lemma IntentAt(states: seq<State>, steps: seq<Step>, i: nat, r: Registrar, g: GVK)
    requires Run(states, steps) && i < |steps| && !states[i + 1].stopped && !Skips(states[i], steps[i], r, g)
    requires IntentInv(states[i], r, g)
    ensures IntentInv(states[i + 1], r, g)
  {
    IntentStep(states[i], states[i + 1], steps[i], r, g);
  }

  lemma {:induction false} RunsKeepIntent(states: seq<State>, steps: seq<Step>, i: nat, r: Registrar, g: GVK)
    requires Run(states, steps) && i < |states| && !states[i].stopped && NeverSkipped(states, steps, i, r, g)
    ensures IntentInv(states[i], r, g)
  {
    if i > 0 {
      if states[i - 1].stopped {
        StoppedStays(states, steps, i - 1, i);
      }
      RunsKeepIntent(states, steps, i - 1, r, g);
      IntentAt(states, steps, i - 1, r, g);
    }
  }

  /**
   * In every run, while the manager is not stopped, a replay that is wanted has been started or its
   * request is on its way, unless the registrar has no channel to replay to.
   */
  lemma WantedReplayStarts(states: seq<State>, steps: seq<Step>, i: nat, r: Registrar, g: GVK)
    requires Run(states, steps) && i < |states| && !states[i].stopped && NeverSkipped(states, steps, i, r, g)
    requires WantsReplay(states[i], r, g)
    ensures || (r, g) in states[i].p.cancels
            || states[i].p.loop == Got(Request(r, g, false))
            || AddsAt(states[i].w.holder, Send, r, g)
  {
    RunsKeepIntent(states, steps, i, r, g);
  }

  /***** What the loop can cancel was really started *****/

  /** Step k starts the goroutine of this replay. */
  ghost predicate SpawnedAt(states: seq<State>, steps: seq<Step>, k: nat, r: Registrar, g: GVK, id: nat) {
    k < |steps| <= |states| && steps[k] == OnReplays(Spawn) && states[k].p.loop == Spawning(r, g, id)
  }

  ghost predicate Spawned(states: seq<State>, steps: seq<Step>, i: nat, r: Registrar, g: GVK, id: nat) {
    exists k :: 0 <= k < i && SpawnedAt(states, steps, k, r, g, id)
  }

  /** The replay ended by itself. */
  ghost predicate Ended(states: seq<State>, steps: seq<Step>, i: nat, id: nat) {
    exists k :: 0 <= k < i && k < |steps| && steps[k] == OnReplays(Ends(id))
  }

  ghost predicate OnItsWay(p: Replays, r: Registrar, g: GVK, id: nat) {
    p.loop == Adding(r, g, id) || p.loop == Spawning(r, g, id)
  }

  ghost predicate StartInv(states: seq<State>, steps: seq<Step>, i: nat)
    requires i < |states|
  {
    var p := states[i].p;
    && (forall a, b :: a in p.cancels && b in p.cancels && a != b ==> p.cancels[a] != p.cancels[b])
    && (forall r, g :: (r, g) in p.cancels ==> Started(states, steps, i, r, g, p.cancels[(r, g)]))
  }

  ghost predicate Started(states: seq<State>, steps: seq<Step>, i: nat, r: Registrar, g: GVK, id: nat)
    requires i < |states|
  {
    && (OnItsWay(states[i].p, r, g, id) || Spawned(states, steps, i, r, g, id))
    && (id in states[i].p.canceled ==> Ended(states, steps, i, id))
  }

  lemma HistoryGrows(states: seq<State>, steps: seq<Step>, i: nat)
    requires Run(states, steps) && i < |steps|
    ensures forall r, g, id :: Spawned(states, steps, i, r, g, id) ==> Spawned(states, steps, i + 1, r, g, id)
    ensures forall id :: Ended(states, steps, i, id) ==> Ended(states, steps, i + 1, id)
    ensures forall r, g, id :: SpawnedAt(states, steps, i, r, g, id) ==> Spawned(states, steps, i + 1, r, g, id)
    ensures forall id :: steps[i] == OnReplays(Ends(id)) ==> Ended(states, steps, i + 1, id)
  {
  }

  /** What one step does to the cancel functions and to what is canceled. */
  lemma CancelsStep(p: Replays, q: Replays, ps: PStep)
    requires ReplaysOk(p) && PTakes(p, q, ps)
    requires forall a, b :: a in p.cancels && b in p.cancels && a != b ==> p.cancels[a] != p.cancels[b]
    ensures forall a, b :: a in q.cancels && b in q.cancels && a != b ==> q.cancels[a] != q.cancels[b]
    ensures forall r, g :: (r, g) in q.cancels ==>
              var id := q.cancels[(r, g)];
              && (((r, g) in p.cancels && p.cancels[(r, g)] == id) || (q.loop == Adding(r, g, id) && id !in p.canceled))
              && (id in q.canceled ==> id in p.canceled || ps == Ends(id))
    ensures forall r, g, id :: OnItsWay(p, r, g, id) ==>
              OnItsWay(q, r, g, id) || (ps == Spawn && p.loop == Spawning(r, g, id))
  {
  }

  lemma OtherStepsKeepCancels(s: State, t: State, step: Step)
    requires Takes(s, t, step) && !step.OnReplays?
    ensures t.p.cancels == s.p.cancels && t.p.canceled == s.p.canceled
    ensures forall r, g, id :: OnItsWay(s.p, r, g, id) ==> OnItsWay(t.p, r, g, id)
  {
  }

  lemma StartedStays(states: seq<State>, steps: seq<Step>, i: nat)
    requires Run(states, steps) && i < |steps| && StartInv(states, steps, i) && ReplaysOk(states[i].p)
    requires steps[i].OnReplays? && PTakes(states[i].p, states[i + 1].p, steps[i].ps)
    ensures StartInv(states, steps, i + 1)
  {
    var p, q, ps := states[i].p, states[i + 1].p, steps[i].ps;
    HistoryGrows(states, steps, i);
    CancelsStep(p, q, ps);
    forall r, g | (r, g) in q.cancels ensures Started(states, steps, i + 1, r, g, q.cancels[(r, g)]) {
      var id := q.cancels[(r, g)];
      if (r, g) in p.cancels && p.cancels[(r, g)] == id {
        assert Started(states, steps, i, r, g, id);
        assert ps == Spawn && p.loop == Spawning(r, g, id) ==> SpawnedAt(states, steps, i, r, g, id);
      }
    }
  }

  lemma {:induction false} RunsStartReplays(states: seq<State>, steps: seq<Step>, i: nat)
    requires Run(states, steps) && i < |states|
    ensures StartInv(states, steps, i)
  {
    if i > 0 {
      RunsStartReplays(states, steps, i - 1);
      var s, t, step := states[i - 1], states[i], steps[i - 1];
      assert Takes(s, t, step);
      if step.OnReplays? {
        RunsKeepInv(states, steps, i - 1);
        StartedStays(states, steps, i - 1);
      } else {
        HistoryGrows(states, steps, i - 1);
        OtherStepsKeepCancels(s, t, step);
      }
    }
  }

  /***** Who wants a replay *****/

  /** Step k gives r, as the first watcher of g, a fresh informer. */
  ghost predicate GetsInformer(s: State, step: Step, r: Registrar, g: GVK) {
    step == OnWatches(AddInformer(true)) && AddsAt(s.w.holder, Informer, r, g)
  }

  /** The step takes r off the list of g. */
  ghost predicate Leaves(s: State, step: Step, r: Registrar, g: GVK) {
    step == OnWatches(RemDelete) && RemovesAt(s.w.holder, Delete, r, g)
  }

  ghost predicate FirstAt(states: seq<State>, steps: seq<Step>, k: nat, i: nat, r: Registrar, g: GVK) {
    && k < i <= |steps| <= |states| && GetsInformer(states[k], steps[k], r, g)
    && forall j :: k < j < i ==> !Leaves(states[j], steps[j], r, g)
  }

  /** r was given a fresh informer, and has not left since. */
  ghost predicate WasFirst(states: seq<State>, steps: seq<Step>, i: nat, r: Registrar, g: GVK) {
    exists k :: FirstAt(states, steps, k, i, r, g)
  }

  /** r is on its way off the list. */
  ghost predicate Leaving(h: Holder, r: Registrar, g: GVK) {
    RemovesAt(h, Send, r, g) || RemovesAt(h, Delete, r, g)
  }

  ghost predicate JoinInv(s: State, first: bool, r: Registrar, g: GVK) {
    && (r in WatchersOf(s.w.watched, g) ==> WantsReplay(s, r, g) || first || Leaving(s.w.holder, r, g))
    && (AddsAt(s.w.holder, Send, r, g) ==> WantsReplay(s, r, g))
    && (AddsAt(s.w.holder, Mark, r, g) ==> WantsReplay(s, r, g) || first)
  }

  lemma JoinStep(s: State, t: State, step: Step, first: bool, r: Registrar, g: GVK)
    requires Takes(s, t, step) && WatchInv(s.w) && JoinInv(s, first, r, g)
    ensures JoinInv(t, if Leaves(s, step, r, g) then false else first || GetsInformer(s, step, r, g), r, g)
  {
    match step
    case OnWatches(ws) => JoinWatchStep(s, t, ws, first, r, g);
    case OnReplays(ps) => IntentKept(s.p, t.p, ps);
    case _ =>
  }

  lemma IntentKept(p: Replays, q: Replays, ps: PStep)
    requires PTakes(p, q, ps)
    ensures q.tracker.intent == p.tracker.intent
  {
  }

  lemma JoinWatchStep(s: State, t: State, ws: WStep, first: bool, r: Registrar, g: GVK)
    requires Takes(s, t, OnWatches(ws)) && WatchInv(s.w) && JoinInv(s, first, r, g)
    ensures var step := OnWatches(ws);
            JoinInv(t, if Leaves(s, step, r, g) then false else first || GetsInformer(s, step, r, g), r, g)
  {
    SendStays(s.w, t.w, ws);
    if !ws.AddMark? && !ws.RemDelete? && !ws.RemCache? {
      assert t.w.watched == s.w.watched;
      JoinWithoutChange(s, t, ws, first, r, g);
    }
  }

  lemma JoinWithoutChange(s: State, t: State, ws: WStep, first: bool, r: Registrar, g: GVK)
    requires Takes(s, t, OnWatches(ws)) && JoinInv(s, first, r, g) && t.w.watched == s.w.watched
    requires AddAt(t.w.holder, Send) ==> t.w.holder == s.w.holder
    requires !ws.AddMark? && !ws.RemDelete? && !ws.RemCache?
    ensures JoinInv(t, first || GetsInformer(s, OnWatches(ws), r, g), r, g)
  {
    assert t.p == s.p;
    HolderMoves(s.w, t.w, ws);
  }

  /** Nothing else comes to the marking of a kind, or leaves the deletion of a registrar. */
  lemma HolderMoves(w: Watches, v: Watches, ws: WStep)
    requires WTakes(w, v, ws) && !ws.RemDelete?
    ensures AddAt(v.holder, Mark) ==>
            || v.holder == w.holder
            || (ws == AddInformer(true) && AddAt(w.holder, Informer) && v.holder.todo == w.holder.todo)
    ensures RemAt(w.holder, Send) || RemAt(w.holder, Delete) ==> v.holder == w.holder
  {
  }

  lemma {:induction false} RunsKeepJoin(states: seq<State>, steps: seq<Step>, i: nat, r: Registrar, g: GVK)
    requires Run(states, steps) && i < |states|
    ensures JoinInv(states[i], WasFirst(states, steps, i, r, g), r, g)
  {
    if i > 0 {
      RunsKeepJoin(states, steps, i - 1, r, g);
      RunsKeepInv(states, steps, i - 1);
      var s, t, step := states[i - 1], states[i], steps[i - 1];
      assert Takes(s, t, step);
      JoinStep(s, t, step, WasFirst(states, steps, i - 1, r, g), r, g);
      FirstStep(states, steps, i - 1, r, g);
    }
  }

  lemma FirstStep(states: seq<State>, steps: seq<Step>, i: nat, r: Registrar, g: GVK)
    requires Run(states, steps) && i < |steps|
    ensures GetsInformer(states[i], steps[i], r, g) ==> WasFirst(states, steps, i + 1, r, g)
    ensures WasFirst(states, steps, i, r, g) && !Leaves(states[i], steps[i], r, g) ==>
            WasFirst(states, steps, i + 1, r, g)
  {
    if GetsInformer(states[i], steps[i], r, g) {
      assert FirstAt(states, steps, i, i + 1, r, g);
    }
    if WasFirst(states, steps, i, r, g) && !Leaves(states[i], steps[i], r, g) {
      var k :| FirstAt(states, steps, k, i, r, g);
      assert FirstAt(states, steps, k, i + 1, r, g);
    }
  }

  /**
   * In every run, while the manager is not stopped, whoever is on the list of a kind when the lock is
   * free and the replay loop idle was either its first watcher and got a fresh informer, or has had a
   * replay started that nobody canceled: it is running or has ended by itself. The exception is a
   * registrar without a channel.
   */
  lemma EveryJoinerGetsAReplay(states: seq<State>, steps: seq<Step>, i: nat, r: Registrar, g: GVK)
    requires Run(states, steps) && i < |states| && !states[i].stopped && NeverSkipped(states, steps, i, r, g)
    requires states[i].w.holder.Free? && states[i].p.loop.Idle? && r in WatchersOf(states[i].w.watched, g)
    ensures WasFirst(states, steps, i, r, g) ||
            exists id :: Spawned(states, steps, i, r, g, id) &&
                         (id in states[i].p.canceled ==> Ended(states, steps, i, id))
  {
    RunsKeepJoin(states, steps, i, r, g);
    if !WasFirst(states, steps, i, r, g) {
      WantedReplayStarts(states, steps, i, r, g);
      RunsStartReplays(states, steps, i);
      var id := states[i].p.cancels[(r, g)];
      assert Spawned(states, steps, i, r, g, id);
    }
  }
}

/** What is intended is watched, and when it is not. */
module IntentProgress {
  import opened Types
  import opened ReplayTracker
  import opened WatchProtocol
  import opened WatchSafety
  import opened ReplayProgress

  /** Somebody will add the watch, or has the lock and is at it. */
  ghost predicate WillAdd(w: Watches, r: Registrar, g: GVK) {
    || OAdd(r, g) in w.pending || OReplace(r) in w.pending
    || w.holder == Replacing(r) || (w.holder.Working? && Add(r, g) in w.holder.todo)
  }

  ghost predicate Served(w: Watches, r: Registrar, g: GVK) {
    (r, g) in w.intent ==> r in WatchersOf(w.watched, g) || WillAdd(w, r, g)
  }

  /** The informer cannot be had. */
  ghost predicate FailsToAdd(s: State, step: Step, r: Registrar, g: GVK) {
    step == OnWatches(AddInformer(false)) && AddsAt(s.w.holder, Informer, r, g)
  }

  /** A removal takes the watch away that somebody has meanwhile asked for again. */
  ghost predicate RemovesIntended(s: State, step: Step, r: Registrar, g: GVK) {
    Leaves(s, step, r, g) && (r, g) in s.w.intent
  }

  ghost predicate Regains(s: State, step: Step, r: Registrar, g: GVK) {
    step == OnWatches(AddMark) && AddsAt(s.w.holder, Mark, r, g)
  }

  /** Step k failed to add the watch, or took it away, and no later step before i has added it. */
  ghost predicate MissedAt(states: seq<State>, steps: seq<Step>, k: nat, i: nat, r: Registrar, g: GVK) {
    && k < i <= |steps| <= |states|
    && (FailsToAdd(states[k], steps[k], r, g) || RemovesIntended(states[k], steps[k], r, g))
    && forall j :: k < j < i ==> !Regains(states[j], steps[j], r, g)
  }

  ghost predicate Missed(states: seq<State>, steps: seq<Step>, i: nat, r: Registrar, g: GVK) {
    exists k :: MissedAt(states, steps, k, i, r, g)
  }

  lemma ServedStep(s: State, t: State, step: Step, r: Registrar, g: GVK)
    requires Takes(s, t, step) && WatchInv(s.w) && Served(s.w, r, g)
    ensures Served(t.w, r, g) || FailsToAdd(s, step, r, g) || RemovesIntended(s, step, r, g)
  {
    if step.OnWatches? {
      ServedWatchStep(s, t, step.ws, r, g);
    }
  }

  lemma ServedWatchStep(s: State, t: State, ws: WStep, r: Registrar, g: GVK)
    requires Takes(s, t, OnWatches(ws)) && WatchInv(s.w) && Served(s.w, r, g)
    ensures Served(t.w, r, g) || FailsToAdd(s, OnWatches(ws), r, g) || RemovesIntended(s, OnWatches(ws), r, g)
  {
    if ws.AddIntent? || ws.RemoveIntent? || ws.ReplaceIntent? || ws.Acquire? || ws.ReadDesired? {
      ServedByIntent(s.w, t.w, ws, r, g);
    } else if (r, g) in t.w.intent {
      ServedByWork(s, t, ws, r, g);
    }
  }

  lemma ServedByIntent(w: Watches, v: Watches, ws: WStep, r: Registrar, g: GVK)
    requires WTakes(w, v, ws) && Served(w, r, g)
    requires ws.AddIntent? || ws.RemoveIntent? || ws.ReplaceIntent? || ws.Acquire? || ws.ReadDesired?
    ensures Served(v, r, g)
  {
    if ws.Acquire? {
      ServedByAcquire(w, v, ws.op, r, g);
    }
  }

  lemma ServedByAcquire(w: Watches, v: Watches, op: Op, r: Registrar, g: GVK)
    requires WTakes(w, v, Acquire(op)) && Served(w, r, g)
    ensures Served(v, r, g)
  {
    assert forall o :: o != op ==> (o in v.pending <==> o in w.pending);
    if op == OAdd(r, g) {
      assert v.holder.todo[0] == Add(r, g);
    }
  }

  /** Only finishing a piece of work takes it off the list. */
  lemma ServedByWork(s: State, t: State, ws: WStep, r: Registrar, g: GVK)
    requires Takes(s, t, OnWatches(ws)) && WatchInv(s.w) && Served(s.w, r, g) && (r, g) in s.w.intent
    requires ws.AddBegin? || ws.AddInformer? || ws.AddMark? || ws.RemBegin? || ws.RemDelete? || ws.RemCache?
    ensures Served(t.w, r, g) || FailsToAdd(s, OnWatches(ws), r, g) || RemovesIntended(s, OnWatches(ws), r, g)
  {
    var w, v := s.w, t.w;
    assert w.holder.Working? && w.holder.todo != [];
    var todo := w.holder.todo;
    assert Add(r, g) in todo ==> todo[0] == Add(r, g) || Add(r, g) in todo[1..];
    assert |todo| == 1 ==> todo[1..] == [];
    if ws.RemDelete? && todo[0] != Rem(r, g) {
      assert r in WatchersOf(w.watched, g) ==> r in WatchersOf(v.watched, g);
    }
  }

  lemma MissedStep(states: seq<State>, steps: seq<Step>, i: nat, r: Registrar, g: GVK)
    requires Run(states, steps) && i < |steps|
    ensures FailsToAdd(states[i], steps[i], r, g) || RemovesIntended(states[i], steps[i], r, g) ==>
            Missed(states, steps, i + 1, r, g)
    ensures Missed(states, steps, i, r, g) && !Regains(states[i], steps[i], r, g) ==> Missed(states, steps, i + 1, r, g)
  {
    if FailsToAdd(states[i], steps[i], r, g) || RemovesIntended(states[i], steps[i], r, g) {
      assert MissedAt(states, steps, i, i + 1, r, g);
    }
    if Missed(states, steps, i, r, g) && !Regains(states[i], steps[i], r, g) {
      var k :| MissedAt(states, steps, k, i, r, g);
      assert MissedAt(states, steps, k, i + 1, r, g);
    }
  }

  lemma RegainServes(s: State, t: State, r: Registrar, g: GVK)
    requires Takes(s, t, OnWatches(AddMark)) && AddsAt(s.w.holder, Mark, r, g)
    ensures Served(t.w, r, g)
  {
    assert t.w.watched == s.w.watched[g := WatchersOf(s.w.watched, g) + {r}];
  }

  lemma ServedNext(s: State, t: State, step: Step, r: Registrar, g: GVK, missed: bool)
    requires Takes(s, t, step) && WatchInv(s.w) && (Served(s.w, r, g) || missed)
    ensures || Served(t.w, r, g) || FailsToAdd(s, step, r, g) || RemovesIntended(s, step, r, g)
            || (missed && !Regains(s, step, r, g))
  {
    if Served(s.w, r, g) {
      ServedStep(s, t, step, r, g);
    } else if Regains(s, step, r, g) {
      RegainServes(s, t, r, g);
    }
  }

  lemma NextServes(states: seq<State>, steps: seq<Step>, i: nat, r: Registrar, g: GVK, missed: bool)
    requires Run(states, steps) && i < |steps| && (Served(states[i].w, r, g) || missed)
    ensures || Served(states[i + 1].w, r, g)
            || FailsToAdd(states[i], steps[i], r, g) || RemovesIntended(states[i], steps[i], r, g)
            || (missed && !Regains(states[i], steps[i], r, g))
  {
    RunsKeepInv(states, steps, i);
    ServedNext(states[i], states[i + 1], steps[i], r, g, missed);
  }

  lemma {:induction false} RunsServe(states: seq<State>, steps: seq<Step>, i: nat, r: Registrar, g: GVK)
    requires Run(states, steps) && i < |states|
    ensures Served(states[i].w, r, g) || Missed(states, steps, i, r, g)
  {
    if i == 0 {
      assert Init(states[0]);
    } else {
      RunsServe(states, steps, i - 1, r, g);
      NextServes(states, steps, i - 1, r, g, Missed(states, steps, i - 1, r, g));
      MissedStep(states, steps, i - 1, r, g);
    }
  }

  /**
   * In every run, a kind that a registrar intends to watch is watched, or an addition or replacement is
   * pending or under way, unless since it was last added the informer could not be had, or a removal
   * that had been asked for earlier came late. At rest only the last two are left.
   */
  lemma IntentIsWatched(states: seq<State>, steps: seq<Step>, i: nat, r: Registrar, g: GVK)
    requires Run(states, steps) && i < |states| && (r, g) in states[i].w.intent
    ensures r in WatchersOf(states[i].w.watched, g) || WillAdd(states[i].w, r, g) || Missed(states, steps, i, r, g)
    ensures states[i].w.holder.Free? && states[i].w.pending == multiset{} ==>
            r in WatchersOf(states[i].w.watched, g) || Missed(states, steps, i, r, g)
  {
    RunsServe(states, steps, i, r, g);
  }

  /***** A removal that comes late *****/

  /** A call to the cache fails. */
  ghost predicate CallFails(step: Step) {
    step == OnWatches(AddInformer(false)) || step == OnWatches(RemCache(false))
  }

  /** A run without a failure leads to s. */
  ghost predicate Reached(s: State) {
    exists states, steps :: RunsTo(states, steps, s)
  }

  ghost predicate RunsTo(states: seq<State>, steps: seq<Step>, s: State) {
    Run(states, steps) && states[|states| - 1] == s && forall step :: step in steps ==> !CallFails(step)
  }

  lemma Then(s: State, step: Step, t: State)
    requires Reached(s) && Takes(s, t, step) && !CallFails(step)
    ensures Reached(t)
  {
    var states, steps :| RunsTo(states, steps, s);
    RunOnce(states, steps, step, t);
    assert RunsTo(states + [t], steps + [step], t);
  }

  lemma RunOnce(states: seq<State>, steps: seq<Step>, step: Step, t: State)
    requires Run(states, steps) && Takes(states[|states| - 1], t, step)
    ensures Run(states + [t], steps + [step])
  {
    var more, taken := states + [t], steps + [step];
    forall i | 0 <= i < |taken| ensures Takes(more[i], more[i + 1], taken[i]) {
      if i < |steps| {
        assert Takes(states[i], states[i + 1], steps[i]);
      }
    }
  }

  /** A state of the watches, in which nothing was ever replayed. */
  function Calm(intent: set<(Registrar, GVK)>, pending: multiset<Op>, holder: Holder, watched: map<GVK, set<Registrar>>,
                handlers: map<GVK, nat>, loop: Loop): State {
    State(false, Watches(intent, pending, holder, watched, handlers, {}), Replays(loop, map[], map[], {}, 0, NEW))
  }

  /** r watches g, and nothing is going on. */
  function Watching(r: Registrar, g: GVK): State {
    Calm({(r, g)}, multiset{}, Free, map[g := {r}], map[g := 1], Idle)
  }

  /** r has asked for the removal and then for the addition, both of which still wait. */
  function Crossing(r: Registrar, g: GVK): State {
    Calm({(r, g)}, multiset{ORemove(r, g), OAdd(r, g)}, Free, map[g := {r}], map[g := 1], Idle)
  }

  /** Only the removal is left, and it has come to this point. */
  function Removing(r: Registrar, g: GVK, holder: Holder, watched: map<GVK, set<Registrar>>, loop: Loop): State {
    Calm({(r, g)}, multiset{}, holder, watched, map[g := 1], loop)
  }

  lemma ReachesInformer(r: Registrar, g: GVK)
    ensures Reached(Calm({(r, g)}, multiset{}, Working([Add(r, g)], Informer), map[], map[], Idle))
  {
    var none: map<GVK, set<Registrar>> := map[];
    var s0 := Calm({}, multiset{}, Free, none, map[], Idle);
    assert RunsTo([s0], [], s0);
    var s1 := Calm({(r, g)}, multiset{OAdd(r, g)}, Free, none, map[], Idle);
    Then(s0, OnWatches(AddIntent(r, g)), s1);
    var s2 := Calm({(r, g)}, multiset{}, Working([Add(r, g)], Begin), none, map[], Idle);
    Then(s1, OnWatches(Acquire(OAdd(r, g))), s2);
    Then(s2, OnWatches(AddBegin), Calm({(r, g)}, multiset{}, Working([Add(r, g)], Informer), none, map[], Idle));
  }

  lemma ReachesWatching(r: Registrar, g: GVK)
    ensures Reached(Watching(r, g))
  {
    ReachesInformer(r, g);
    var none: map<GVK, set<Registrar>> := map[];
    var s := Calm({(r, g)}, multiset{}, Working([Add(r, g)], Informer), none, map[], Idle);
    var t := Calm({(r, g)}, multiset{}, Working([Add(r, g)], Mark), none, map[g := 1], Idle);
    Then(s, OnWatches(AddInformer(true)), t);
    assert {} + {r} == {r};
    Then(t, OnWatches(AddMark), Watching(r, g));
  }

  lemma ReachesCrossing(r: Registrar, g: GVK)
    ensures Reached(Crossing(r, g))
  {
    ReachesWatching(r, g);
    var s := Calm({}, multiset{ORemove(r, g)}, Free, map[g := {r}], map[g := 1], Idle);
    assert {(r, g)} - {(r, g)} == {};
    Then(Watching(r, g), OnWatches(RemoveIntent(r, g)), s);
    Then(s, OnWatches(AddIntent(r, g)), Crossing(r, g));
  }

  /** The addition finds the watch in place. */
  lemma AdditionFirst(r: Registrar, g: GVK)
    requires Reached(Crossing(r, g))
    ensures Reached(Calm({(r, g)}, multiset{ORemove(r, g)}, Free, map[g := {r}], map[g := 1], Idle))
  {
    var s := Calm({(r, g)}, multiset{ORemove(r, g)}, Working([Add(r, g)], Begin), map[g := {r}], map[g := 1], Idle);
    assert multiset{ORemove(r, g), OAdd(r, g)} - multiset{OAdd(r, g)} == multiset{ORemove(r, g)};
    Then(Crossing(r, g), OnWatches(Acquire(OAdd(r, g))), s);
    Then(s, OnWatches(AddBegin), Calm({(r, g)}, multiset{ORemove(r, g)}, Free, map[g := {r}], map[g := 1], Idle));
  }

  lemma RemovalBegins(r: Registrar, g: GVK)
    requires Reached(Calm({(r, g)}, multiset{ORemove(r, g)}, Free, map[g := {r}], map[g := 1], Idle))
    ensures Reached(Removing(r, g, Working([Rem(r, g)], Send), map[g := {r}], Idle))
  {
    var s := Calm({(r, g)}, multiset{ORemove(r, g)}, Free, map[g := {r}], map[g := 1], Idle);
    var t := Removing(r, g, Working([Rem(r, g)], Begin), map[g := {r}], Idle);
    Then(s, OnWatches(Acquire(ORemove(r, g))), t);
    var u := Removing(r, g, Working([Rem(r, g)], Intend), map[g := {r}], Idle);
    Then(t, OnWatches(RemBegin), u);
    Then(u, RecordIntent, Removing(r, g, Working([Rem(r, g)], Send), map[g := {r}], Idle));
  }

  lemma RemovalIsSent(r: Registrar, g: GVK)
    requires Reached(Removing(r, g, Working([Rem(r, g)], Send), map[g := {r}], Idle))
    ensures Reached(Removing(r, g, Working([Rem(r, g)], GetChannel), map[g := {}], Idle))
  {
    var s := Removing(r, g, Working([Rem(r, g)], Send), map[g := {r}], Idle);
    var t := Removing(r, g, Working([Rem(r, g)], Delete), map[g := {r}], Got(Request(r, g, true)));
    Then(s, SendRequest, t);
    var u := Removing(r, g, Working([Rem(r, g)], Delete), map[g := {r}], Idle);
    Then(t, OnReplays(Decide(false)), u);
    assert {r} - {r} == {};
    Then(u, OnWatches(RemDelete), Removing(r, g, Working([Rem(r, g)], GetChannel), map[g := {}], Idle));
  }

  lemma RemovalEnds(r: Registrar, g: GVK)
    requires Reached(Removing(r, g, Working([Rem(r, g)], GetChannel), map[g := {}], Idle))
    ensures Reached(Calm({(r, g)}, multiset{}, Free, map[], map[], Idle))
  {
    var gone: map<GVK, set<Registrar>> := map[g := {}];
    var s := Removing(r, g, Working([Rem(r, g)], GetChannel), gone, Idle);
    var t := Removing(r, g, Working([Rem(r, g)], Wait(None)), gone, Idle);
    Then(s, GetWaitChannel, t);
    var u := Removing(r, g, Working([Rem(r, g)], CacheRemove), gone, Idle);
    Then(t, Waited, u);
    assert gone - {g} == map[];
    Then(u, OnWatches(RemCache(true)), Calm({(r, g)}, multiset{}, Free, map[], map[], Idle));
  }

  /**
   * So RemoveWatch and then AddWatch of the same kind, whose waits for the lock cross, can leave a
   * registrar at rest without the watch that it intends, though no step of the run has failed.
   */
  lemma LateRemovalUndoesAdd(r: Registrar, g: GVK) returns (states: seq<State>, steps: seq<Step>)
    ensures Run(states, steps) && forall step :: step in steps ==> !CallFails(step)
    ensures var w := states[|states| - 1].w;
            w.holder.Free? && w.pending == multiset{} && (r, g) in w.intent && r !in WatchersOf(w.watched, g)
  {
    ReachesCrossing(r, g);
    AdditionFirst(r, g);
    RemovalBegins(r, g);
    RemovalIsSent(r, g);
    RemovalEnds(r, g);
    var last := Calm({(r, g)}, multiset{}, Free, map[], map[], Idle);
    states, steps :| RunsTo(states, steps, last);
  }
}
