/** The watch protocol has no deadlock: left alone, it comes to rest. */
module WatchRest {
  import opened Types
  import opened ReplayTracker
  import opened WatchProtocol
  import opened ReplaySafety
  import opened WatchSafety
  import opened IntentProgress

  /** A call from outside: to the registrars, or to stop the manager. */
  ghost predicate IsCall(step: Step) {
    step == Stop || (step.OnWatches? && (step.ws.AddIntent? || step.ws.RemoveIntent? || step.ws.ReplaceIntent?))
  }

  /** Nothing waits or is under way: no operation, no request, no replay. */
  ghost predicate AtRest(s: State) {
    && s.w.pending == multiset{} && s.w.holder.Free?
    && (s.p.loop.Idle? || s.p.loop.Exited?) && s.p.live == map[]
  }

  /***** What else every run keeps *****/

  /** A channel that was made is the open one of some kind, or closed. */
  ghost predicate OpenOrClosed(t: Tracker) {
    forall c :: 0 <= c < t.nextChannel ==> c in t.closed || exists g :: g in t.channels && t.channels[g] == c
  }

  ghost predicate Shaped(s: State) {
    && OpenOrClosed(s.p.tracker)
    && (s.p.loop.Exited? ==> s.stopped)
    && (s.w.holder.Working? && s.w.holder.todo != [] && s.w.holder.todo[0].Rem? ==>
          !s.w.holder.pc.Informer? && !s.w.holder.pc.Mark?)
  }

  lemma AddedShaped(t: Tracker, g: GVK)
    requires Valid(t) && OpenOrClosed(t)
    ensures OpenOrClosed(Added(t, g))
  {
    var u := Added(t, g);
    forall c | 0 <= c < u.nextChannel ensures c in u.closed || exists h :: h in u.channels && u.channels[h] == c {
      if c < t.nextChannel && c !in t.closed {
        var h :| h in t.channels && t.channels[h] == c;
        assert h in u.channels && u.channels[h] == c;
      } else if c >= t.nextChannel {
        assert u.channels[g] == c;
      }
    }
  }

  lemma FinishedShaped(t: Tracker, g: GVK)
    requires Valid(t) && CountOf(t, g) > 0 && OpenOrClosed(t)
    ensures OpenOrClosed(Finished(t, g))
  {
    var u := Finished(t, g);
    forall c | 0 <= c < u.nextChannel ensures c in u.closed || exists h :: h in u.channels && u.channels[h] == c {
      if c !in t.closed {
        var h :| h in t.channels && t.channels[h] == c;
        assert h != g ==> h in u.channels && u.channels[h] == c;
      }
    }
  }

  lemma WatchStepShaped(w: Watches, v: Watches, ws: WStep)
    requires HasWork(w) && WTakes(w, v, ws)
    requires w.holder.Working? && w.holder.todo[0].Rem? ==> !w.holder.pc.Informer? && !w.holder.pc.Mark?
    ensures v.holder.Working? && v.holder.todo != [] && v.holder.todo[0].Rem? ==>
            !v.holder.pc.Informer? && !v.holder.pc.Mark?
  {
  }

  lemma StepShaped(s: State, t: State, step: Step)
    requires Inv(s) && Shaped(s) && Takes(s, t, step)
    ensures Shaped(t)
  {
    match step
    case OnWatches(ws) => WatchStepShaped(s.w, t.w, ws);
    case OnReplays(ps) =>
      if ps.Count? {
        AddedShaped(s.p.tracker, s.p.loop.g);
      } else if ps.Done? {
        FinishedShaped(s.p.tracker, s.p.live[ps.id].g);
      }
    case _ =>
  }

  lemma {:induction false} RunsKeepShape(states: seq<State>, steps: seq<Step>, i: nat)
    requires Run(states, steps) && i < |states|
    ensures Shaped(states[i]) && Inv(states[i])
  {
    RunsKeepInv(states, steps, i);
    if i > 0 {
      RunsKeepShape(states, steps, i - 1);
      StepShaped(states[i - 1], states[i], steps[i - 1]);
    }
  }

  /***** Some step can be taken *****/

  ghost predicate CanMove(s: State) {
    exists step, t :: Moves(s, t, step)
  }

  /** A step that is no call and changes something. */
  ghost predicate Moves(s: State, t: State, step: Step) {
    Takes(s, t, step) && !IsCall(step) && t != s
  }

  lemma LoopCanMove(s: State)
    requires ReplaysOk(s.p) && !s.p.loop.Idle? && !s.p.loop.Exited?
    ensures CanMove(s)
  {
    var p := s.p;
    match p.loop
    case Got(req) =>
      var key := (req.r, req.g);
      var q := if req.isCancel && key in p.cancels then
                 p.(loop := Idle, cancels := p.cancels - {key}, canceled := p.canceled + {p.cancels[key]})
               else if req.isCancel || key in p.cancels || key !in p.tracker.intent then p.(loop := Idle)
               else p.(loop := Adding(req.r, req.g, p.nextReplay), cancels := p.cancels[key := p.nextReplay],
                       nextReplay := p.nextReplay + 1);
      assert PTakes(p, q, Decide(false));
      assert Moves(s, s.(p := q), OnReplays(Decide(false)));
    case Adding(r, g, id) =>
      var q := p.(loop := Spawning(r, g, id), tracker := Added(p.tracker, g));
      assert Moves(s, s.(p := q), OnReplays(PStep.Count));
    case Spawning(r, g, id) =>
      var q := p.(loop := Idle, live := p.live[id := Replay(r, g)]);
      assert Moves(s, s.(p := q), OnReplays(Spawn));
  }

  /** A replay can end, and then release its count. */
  lemma ReplayCanMove(s: State)
    requires ReplaysOk(s.p) && s.p.live != map[]
    ensures CanMove(s)
  {
    var id :| id in s.p.live;
    if id in s.p.canceled {
      DoneCanMove(s, id);
    } else {
      var q := s.p.(canceled := s.p.canceled + {id});
      assert id in q.canceled;
      assert Moves(s, s.(p := q), OnReplays(Ends(id)));
    }
  }

  lemma DoneCanMove(s: State, id: nat)
    requires CountsExact(s.p) && id in s.p.live && id in s.p.canceled
    ensures CanMove(s)
  {
    var p := s.p;
    assert id in ReplaysOf(p, p.live[id].g);
    var q := p.(live := p.live - {id}, tracker := Finished(p.tracker, p.live[id].g));
    assert id !in q.live;
    assert Moves(s, s.(p := q), OnReplays(PStep.Done(id)));
  }

  lemma {:induction false} ListRemovals(r: Registrar, gs: set<GVK>) returns (todo: seq<Act>)
    ensures forall a :: a in todo <==> a.Rem? && a.r == r && a.g in gs
  {
    todo := [];
    if gs != {} {
      var g :| g in gs;
      var more := ListRemovals(r, gs - {g});
      todo := [Rem(r, g)] + more;
    }
  }

  lemma {:induction false} ListAdditions(r: Registrar, keys: set<(Registrar, GVK)>) returns (todo: seq<Act>)
    ensures forall a :: a in todo <==> a.Add? && a.r == r && (r, a.g) in keys
  {
    todo := [];
    if keys != {} {
      var key :| key in keys;
      var more := ListAdditions(r, keys - {key});
      todo := (if key.0 == r then [Add(r, key.1)] else []) + more;
    }
  }

  lemma LockCanMove(s: State)
    requires s.w.holder.Replacing? || (s.w.holder.Free? && s.w.pending != multiset{})
    ensures CanMove(s)
  {
    var w := s.w;
    if w.holder.Free? {
      var op :| op in w.pending;
      var v := w.(pending := w.pending - multiset{op}, holder := Start(op));
      assert Moves(s, s.(w := v), OnWatches(Acquire(op)));
    } else {
      var r := w.holder.r;
      var gone := ListRemovals(r, set g | g in w.watched && (r, g) !in w.intent);
      var come := ListAdditions(r, w.intent);
      var todo := gone + come;
      var v := w.(holder := if todo == [] then Free else Working(todo, Begin));
      assert Desired(w, todo);
      assert Moves(s, s.(w := v), OnWatches(ReadDesired(todo)));
    }
  }

  lemma AdditionCanMove(s: State)
    requires WatchInv(s.w) && s.w.holder.Working? && s.w.holder.todo[0].Add? && (s.stopped || s.p.loop.Idle?)
    ensures CanMove(s)
  {
    var w := s.w;
    var a := w.holder.todo[0];
    if w.holder.pc.Begin? {
      var v := if (a.r, a.g) !in w.intent || a.r in WatchersOf(w.watched, a.g) then Finish(w)
               else Go(w, if WatchersOf(w.watched, a.g) != {} then Intend else Informer);
      assert Moves(s, s.(w := v), OnWatches(AddBegin));
    } else if w.holder.pc.Informer? {
      assert Moves(s, s.(w := Finish(w)), OnWatches(AddInformer(false)));
    } else if w.holder.pc.Mark? {
      var v := Finish(w).(watched := w.watched[a.g := WatchersOf(w.watched, a.g) + {a.r}]);
      assert Moves(s, s.(w := v), OnWatches(AddMark));
    } else {
      RequestCanMove(s);
    }
  }

  /** The two steps that additions and removals share. */
  lemma RequestCanMove(s: State)
    requires HasWork(s.w) && s.w.holder.Working? && (s.w.holder.pc.Intend? || s.w.holder.pc.Send?)
    requires s.stopped || s.p.loop.Idle?
    ensures CanMove(s)
  {
    var a := s.w.holder.todo[0];
    if s.w.holder.pc.Intend? {
      assert Moves(s, s.(w := Go(s.w, Send), p := SetIntent(s.p, (a.r, a.g), a.Add?)), RecordIntent);
    } else {
      var p := if s.p.loop.Idle? then s.p.(loop := Got(Request(a.r, a.g, a.Rem?))) else s.p;
      assert Moves(s, s.(w := Go(s.w, if a.Add? then Mark else Delete), p := p), SendRequest);
    }
  }

  lemma RemovalCanMove(s: State)
    requires WatchInv(s.w) && Shaped(s) && s.w.holder.Working? && s.w.holder.todo[0].Rem?
    requires s.stopped || s.p.loop.Idle?
    requires var pc := s.w.holder.pc;
             pc.Wait? && pc.ch.Some? && !s.stopped ==> pc.ch.value in s.p.tracker.closed
    ensures CanMove(s)
  {
    var w := s.w;
    var a := w.holder.todo[0];
    match w.holder.pc
    case Begin =>
      var v := if a.r in WatchersOf(w.watched, a.g) then Go(w, Intend) else Finish(w);
      assert Moves(s, s.(w := v), OnWatches(RemBegin));
    case Delete => DeleteCanMove(s);
    case GetChannel =>
      var ch := if a.g in s.p.tracker.channels then Some(s.p.tracker.channels[a.g]) else None;
      assert Moves(s, s.(w := Go(w, Wait(ch))), GetWaitChannel);
    case Wait(_) =>
      assert Moves(s, s.(w := Go(w, CacheRemove)), Waited);
    case CacheRemove =>
      assert Moves(s, s.(w := Finish(w).(stuck := w.stuck + {a.g})), OnWatches(RemCache(false)));
    case _ => RequestCanMove(s);
  }

  lemma DeleteCanMove(s: State)
    requires RemAt(s.w.holder, Delete)
    ensures CanMove(s)
  {
    var w := s.w;
    var a := w.holder.todo[0];
    var left := WatchersOf(w.watched, a.g) - {a.r};
    var v := (if left != {} then Finish(w) else Go(w, GetChannel)).(watched := w.watched[a.g := left]);
    assert Moves(s, s.(w := v), OnWatches(RemDelete));
  }

  /** Without replays every channel is closed. */
  lemma AllClosed(s: State)
    requires ReplaysOk(s.p) && OpenOrClosed(s.p.tracker) && s.p.live == map[] && (s.p.loop.Idle? || s.p.loop.Exited?)
    ensures forall c :: 0 <= c < s.p.tracker.nextChannel ==> c in s.p.tracker.closed
  {
    forall g ensures g !in s.p.tracker.channels {
      assert CountOf(s.p.tracker, g) == |ReplaysOf(s.p, g)|;
      assert ReplaysOf(s.p, g) == {};
    }
  }

  /**
   * In every run, as long as anything waits or is under way, some step other than a call from outside can
   * be taken: nobody waits in a circle for the lock, the replay loop and the replays.
   */
  lemma NeverDeadlocked(states: seq<State>, steps: seq<Step>, i: nat)
    requires Run(states, steps) && i < |states| && !AtRest(states[i])
    ensures exists step, t :: Moves(states[i], t, step)
  {
    RunsKeepShape(states, steps, i);
    var s := states[i];
    if !s.p.loop.Idle? && !s.p.loop.Exited? {
      LoopCanMove(s);
    } else if s.p.live != map[] {
      ReplayCanMove(s);
    } else if !s.w.holder.Working? {
      LockCanMove(s);
    } else if s.w.holder.todo[0].Add? {
      AdditionCanMove(s);
    } else {
      AllClosed(s);
      RemovalCanMove(s);
    }
  }

  /***** And there are only finitely many *****/

  /** How far the current piece of work is from its end. */
  function PcLeft(h: Holder): nat {
    if !h.Working? then 0
    else match h.pc
      case Begin => 7
      case Intend => 6
      case Send => 5
      case Informer => 5
      case Mark => 4
      case Delete => 4
      case GetChannel => 3
      case Wait(_) => 2
      case CacheRemove => 1
  }

  function TodoLeft(h: Holder): nat {
    if h.Working? then |h.todo| else 0
  }

  function LoopLeft(l: Loop): nat {
    match l
    case Got(_) => 4
    case Adding(_, _, _) => 3
    case Spawning(_, _, _) => 2
    case Idle => 1
    case Exited => 0
  }

  /** The work left, the most lasting first: operations, pieces of work, steps, requests, replays. */
  ghost function Left(s: State): seq<nat> {
    [ |s.w.pending|,
      if s.w.holder.Replacing? then 1 else 0,
      TodoLeft(s.w.holder),
      PcLeft(s.w.holder),
      LoopLeft(s.p.loop),
      |s.p.live|,
      |s.p.live.Keys - s.p.canceled| ]
  }

  /** The first number that differs is the smaller one. */
  ghost predicate Less(a: seq<nat>, b: seq<nat>) {
    |a| == |b| && exists k :: 0 <= k < |a| && a[k] < b[k] && a[..k] == b[..k]
  }

  lemma FirstLess(a: seq<nat>, b: seq<nat>, k: nat)
    requires |a| == |b| && k < |a| && a[k] < b[k] && forall i :: 0 <= i < k ==> a[i] == b[i]
    ensures Less(a, b)
  {
    assert a[..k] == b[..k];
  }

  ghost predicate HolderLess(h: Holder, h': Holder) {
    || (h'.Replacing? && !h.Replacing?)
    || (!h.Replacing? && !h'.Replacing? &&
        (TodoLeft(h) < TodoLeft(h') || (TodoLeft(h) == TodoLeft(h') && PcLeft(h) < PcLeft(h'))))
  }

  ghost predicate ReplaysLess(p: Replays, p': Replays) {
    || LoopLeft(p.loop) < LoopLeft(p'.loop)
    || (p.loop == p'.loop &&
        (|p.live| < |p'.live| || (p.live == p'.live && |p.live.Keys - p.canceled| < |p'.live.Keys - p'.canceled|)))
  }

  lemma Lowers(s: State, t: State)
    requires || |t.w.pending| < |s.w.pending|
             || (t.w.pending == s.w.pending && HolderLess(t.w.holder, s.w.holder))
             || (t.w == s.w && ReplaysLess(t.p, s.p))
    ensures Less(Left(t), Left(s))
  {
    var k := if |t.w.pending| < |s.w.pending| then 0
             else if t.w != s.w then
               if s.w.holder.Replacing? then 1 else if TodoLeft(t.w.holder) < TodoLeft(s.w.holder) then 2 else 3
             else if LoopLeft(t.p.loop) < LoopLeft(s.p.loop) then 4 else if |t.p.live| < |s.p.live| then 5 else 6;
    FirstLess(Left(t), Left(s), k);
  }

  lemma WorkShrinks(w: Watches, v: Watches, ws: WStep)
    requires HasWork(w) && WTakes(w, v, ws) && !IsCall(OnWatches(ws)) && !ws.Acquire?
    ensures v.pending == w.pending && HolderLess(v.holder, w.holder)
  {
  }

  lemma WatchLowers(s: State, t: State, ws: WStep)
    requires Moves(s, t, OnWatches(ws)) && HasWork(s.w)
    ensures Less(Left(t), Left(s))
  {
    if !ws.Acquire? { WorkShrinks(s.w, t.w, ws); }
    Lowers(s, t);
  }

  lemma OneLess(a: set<nat>, b: set<nat>, id: nat)
    requires id in b && a == b - {id}
    ensures |a| < |b|
  {
    assert b == a + {id};
  }

  lemma DoneShrinks(p: Replays, q: Replays, id: nat)
    requires PTakes(p, q, PStep.Done(id))
    ensures ReplaysLess(q, p)
  {
    OneLess(q.live.Keys, p.live.Keys, id);
  }

  lemma EndsShrinks(p: Replays, q: Replays, id: nat)
    requires PTakes(p, q, Ends(id)) && p != q
    ensures ReplaysLess(q, p)
  {
    assert id in p.canceled ==> p.canceled + {id} == p.canceled;
    OneLess(q.live.Keys - q.canceled, p.live.Keys - p.canceled, id);
  }

  lemma ReplaysShrink(p: Replays, q: Replays, ps: PStep)
    requires PTakes(p, q, ps) && p != q
    ensures ReplaysLess(q, p)
  {
    match ps
    case Done(id) => DoneShrinks(p, q, id);
    case Ends(id) => EndsShrinks(p, q, id);
    case _ =>
  }

  lemma ReplayLowers(s: State, t: State, ps: PStep)
    requires Moves(s, t, OnReplays(ps))
    ensures Less(Left(t), Left(s))
  {
    ReplaysShrink(s.p, t.p, ps);
    Lowers(s, t);
  }

  lemma RequestShrinks(s: State, t: State, step: Step)
    requires Takes(s, t, step) && step in {RecordIntent, SendRequest, GetWaitChannel, Waited}
    ensures t.w.pending == s.w.pending && HolderLess(t.w.holder, s.w.holder)
  {
  }

  lemma RequestLowers(s: State, t: State, step: Step)
    requires Takes(s, t, step) && step in {RecordIntent, SendRequest, GetWaitChannel, Waited}
    ensures Less(Left(t), Left(s))
  {
    RequestShrinks(s, t, step);
    Lowers(s, t);
  }

  /**
   * Every such step leaves less to do, in a well-founded order. So between two calls there are only
   * finitely many, and when no more is possible the manager is at rest.
   */
  lemma StepsLeaveLess(states: seq<State>, steps: seq<Step>, i: nat)
    requires Run(states, steps) && i < |steps| && !IsCall(steps[i]) && states[i + 1] != states[i]
    ensures Less(Left(states[i + 1]), Left(states[i]))
  {
    RunsKeepInv(states, steps, i);
    var s, t := states[i], states[i + 1];
    match steps[i]
    case OnWatches(ws) => WatchLowers(s, t, ws);
    case OnReplays(ps) => ReplayLowers(s, t, ps);
    case LoopExit => Lowers(s, t);
    case Stop =>
    case _ => RequestLowers(s, t, steps[i]);
  }

  /** The first numbers agree up to the one that is smaller. */
  lemma LessMeans(a: seq<nat>, b: seq<nat>) returns (k: nat)
    requires Less(a, b)
    ensures k < |a| == |b| && a[k] < b[k] && forall i :: 0 <= i < k ==> a[i] == b[i]
  {
    k :| 0 <= k < |a| && a[k] < b[k] && a[..k] == b[..k];
    forall i | 0 <= i < k ensures a[i] == b[i] {
      assert a[..k][i] == b[..k][i];
    }
  }

  /** One step more, towards rest. */
  lemma GoesOn(states: seq<State>, steps: seq<Step>) returns (t: State, step: Step)
    requires Run(states, steps) && !AtRest(states[|steps|])
    ensures Run(states + [t], steps + [step]) && !IsCall(step)
    ensures Less(Left(t), Left(states[|steps|]))
  {
    NeverDeadlocked(states, steps, |steps|);
    step, t :| Moves(states[|steps|], t, step);
    RunOnce(states, steps, step, t);
    var more, taken := states + [t], steps + [step];
    assert more[|steps|] == states[|steps|] && more[|steps| + 1] == t && taken[|steps|] == step;
    StepsLeaveLess(more, taken, |steps|);
  }

  /** Every run can be continued without further calls until the manager is at rest. */
  lemma {:induction false} ComesToRest(states: seq<State>, steps: seq<Step>)
    returns (more: seq<State>, taken: seq<Step>)
    requires Run(states, steps)
    ensures Run(more, taken) && states <= more && steps <= taken && AtRest(more[|taken|])
    ensures forall k :: |steps| <= k < |taken| ==> !IsCall(taken[k])
    decreases Left(states[|steps|])[0], Left(states[|steps|])[1], Left(states[|steps|])[2], Left(states[|steps|])[3],
              Left(states[|steps|])[4], Left(states[|steps|])[5], Left(states[|steps|])[6]
  {
    more, taken := states, steps;
    if !AtRest(states[|steps|]) {
      var t, step := GoesOn(states, steps);
      var k := LessMeans(Left(t), Left(states[|steps|]));
      assert (states + [t])[|steps| + 1] == t;
      more, taken := ComesToRest(states + [t], steps + [step]);
      assert taken[|steps|] == (steps + [step])[|steps|] == step;
    }
  }
}
