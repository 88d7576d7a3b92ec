/** What every run of the watch protocol keeps: the replays. */
module ReplaySafety {
  import opened Types
  import opened ReplayTracker
  import opened WatchProtocol

  /** The running replays of a kind, with the one about to be started. */
  ghost function ReplaysOf(p: Replays, g: GVK): set<nat> {
    (set id | id in p.live && p.live[id].g == g) + (if p.loop.Spawning? && p.loop.g == g then {p.loop.id} else {})
  }

  /** Counts are the numbers of running replays. */
  ghost predicate CountsExact(p: Replays) {
    Valid(p.tracker) && forall g :: CountOf(p.tracker, g) == |ReplaysOf(p, g)|
  }

  /** Replay numbers are new when given out. */
  ghost predicate NumbersNew(p: Replays) {
    && (forall id :: id in p.live ==> id < p.nextReplay)
    && (forall id :: id in p.canceled ==> id < p.nextReplay)
    && (forall key :: key in p.cancels ==> p.cancels[key] < p.nextReplay)
    && (p.loop.Adding? || p.loop.Spawning? ==>
          p.loop.id < p.nextReplay && p.loop.id !in p.live && p.loop.id !in p.canceled)
  }

  /** The replay id is the one the loop would cancel for this registrar and kind. */
  ghost predicate Cancelable(p: Replays, r: Registrar, g: GVK, id: nat) {
    (r, g) in p.cancels && p.cancels[(r, g)] == id
  }

  /** The loop can cancel every replay that is not yet canceled. */
  ghost predicate AllCancelable(p: Replays) {
    && (p.loop.Adding? || p.loop.Spawning? ==> Cancelable(p, p.loop.r, p.loop.g, p.loop.id))
    && (forall id :: id in p.live && id !in p.canceled ==> Cancelable(p, p.live[id].r, p.live[id].g, id))
  }

  ghost predicate ReplaysOk(p: Replays) {
    CountsExact(p) && NumbersNew(p) && AllCancelable(p)
  }

  lemma SameReplays(p: Replays, q: Replays)
    requires CountsExact(p) && (forall g :: ReplaysOf(q, g) == ReplaysOf(p, g))
    requires q.tracker == p.tracker.(intent := q.tracker.intent)
    ensures CountsExact(q)
  {
    forall g ensures CountOf(q.tracker, g) == |ReplaysOf(q, g)| {
      assert CountOf(p.tracker, g) == |ReplaysOf(p, g)|;
    }
  }

  lemma DecideKeeps(p: Replays, q: Replays, skip: bool)
    requires ReplaysOk(p) && PTakes(p, q, Decide(skip))
    ensures ReplaysOk(q)
  {
    forall g ensures ReplaysOf(q, g) == ReplaysOf(p, g) {
    }
    SameReplays(p, q);
    DecideKeepsCancelable(p, q, skip);
  }

  lemma DecideKeepsCancelable(p: Replays, q: Replays, skip: bool)
    requires NumbersNew(p) && AllCancelable(p) && PTakes(p, q, Decide(skip))
    ensures AllCancelable(q)
  {
    forall id | id in q.live && id !in q.canceled
      ensures Cancelable(q, q.live[id].r, q.live[id].g, id)
    {
      assert Cancelable(p, p.live[id].r, p.live[id].g, id);
    }
  }

  lemma CountKeeps(p: Replays, q: Replays)
    requires ReplaysOk(p) && PTakes(p, q, PStep.Count)
    ensures ReplaysOk(q)
  {
    var g := p.loop.g;
    forall h ensures CountOf(q.tracker, h) == |ReplaysOf(q, h)| {
      assert CountOf(p.tracker, h) == |ReplaysOf(p, h)|;
      if h == g {
        assert ReplaysOf(q, h) == ReplaysOf(p, h) + {p.loop.id};
      } else {
        assert ReplaysOf(q, h) == ReplaysOf(p, h);
      }
    }
    CancelableSame(p, q);
  }

  lemma CancelableSame(p: Replays, q: Replays)
    requires AllCancelable(p) && q.cancels == p.cancels && p.canceled <= q.canceled
    requires forall id :: id in q.live ==>
               || (id in p.live && q.live[id] == p.live[id])
               || (p.loop.Spawning? && id == p.loop.id && q.live[id] == Replay(p.loop.r, p.loop.g))
    requires q.loop.Adding? || q.loop.Spawning? ==>
               && (p.loop.Adding? || p.loop.Spawning?)
               && q.loop.r == p.loop.r && q.loop.g == p.loop.g && q.loop.id == p.loop.id
    ensures AllCancelable(q)
  {
    forall id | id in q.live && id !in q.canceled
      ensures Cancelable(q, q.live[id].r, q.live[id].g, id)
    {
      if id in p.live && q.live[id] == p.live[id] {
        assert Cancelable(p, p.live[id].r, p.live[id].g, id);
      }
    }
  }

  lemma SpawnKeeps(p: Replays, q: Replays)
    requires ReplaysOk(p) && PTakes(p, q, Spawn)
    ensures ReplaysOk(q)
  {
    forall g ensures ReplaysOf(q, g) == ReplaysOf(p, g) {
      SpawnedSame(p, q, g);
    }
    SameReplays(p, q);
    CancelableSame(p, q);
  }

  lemma SpawnedSame(p: Replays, q: Replays, g: GVK)
    requires PTakes(p, q, Spawn) && p.loop.id !in p.live
    ensures ReplaysOf(q, g) == ReplaysOf(p, g)
  {
  }

  lemma EndsKeeps(p: Replays, q: Replays, id: nat)
    requires ReplaysOk(p) && PTakes(p, q, Ends(id))
    ensures ReplaysOk(q)
  {
    forall g ensures ReplaysOf(q, g) == ReplaysOf(p, g) {
    }
    SameReplays(p, q);
    CancelableSame(p, q);
  }

  lemma DoneKeeps(p: Replays, q: Replays, id: nat)
    requires ReplaysOk(p) && PTakes(p, q, PStep.Done(id))
    ensures ReplaysOk(q)
  {
    forall g ensures CountOf(q.tracker, g) == |ReplaysOf(q, g)| {
      assert CountOf(p.tracker, g) == |ReplaysOf(p, g)|;
      DoneRemoves(p, q, id, g);
    }
    CancelableSame(p, q);
  }

  lemma DoneRemoves(p: Replays, q: Replays, id: nat, g: GVK)
    requires NumbersNew(p) && id in p.live && q.live == p.live - {id} && q.loop == p.loop
    ensures ReplaysOf(q, g) == if g == p.live[id].g then ReplaysOf(p, g) - {id} else ReplaysOf(p, g)
    ensures id in ReplaysOf(p, p.live[id].g)
  {
  }

  lemma ReplayStepKeeps(p: Replays, q: Replays, step: PStep)
    requires ReplaysOk(p) && PTakes(p, q, step)
    ensures ReplaysOk(q)
  {
    match step
    case Decide(skip) => DecideKeeps(p, q, skip);
    case Count => CountKeeps(p, q);
    case Spawn => SpawnKeeps(p, q);
    case Ends(id) => EndsKeeps(p, q, id);
    case Done(id) => DoneKeeps(p, q, id);
  }
}

/** What every run keeps: a removal waits for the replays, and watches follow the intent. */
module WatchSafety {
  import opened Types
  import opened ReplayTracker
  import opened WatchProtocol
  import opened ReplaySafety

  /** No work list is empty. */
  ghost predicate HasWork(w: Watches) {
    w.holder.Working? ==> w.holder.todo != []
  }

  /***** Removals wait for replays *****/

  /** The loop is on its way to start a replay of g. */
  ghost predicate Starting(l: Loop, g: GVK) {
    (l.Got? && !l.req.isCancel && l.req.g == g) || ((l.Adding? || l.Spawning?) && l.g == g)
  }

  /** A removal of g has got its cancel request across. */
  ghost predicate PastCancel(h: Holder, g: GVK) {
    && h.Working? && h.todo != [] && h.todo[0].Rem? && h.todo[0].g == g
    && (h.pc.Delete? || h.pc.GetChannel? || h.pc.Wait? || h.pc.CacheRemove?)
  }

  /** While the manager runs, no replay of a kind whose removal is past its cancel can start. */
  ghost predicate NoNewReplay(s: State) {
    !s.stopped ==> forall g :: PastCancel(s.w.holder, g) ==> !Starting(s.p.loop, g)
  }

  /** The channel waited on can only be closed by the last replay of the kind. */
  ghost predicate WaitsWell(h: Holder, t: Tracker) {
    h.Working? && h.todo != [] && h.todo[0].Rem? ==>
      && (h.pc.Wait? && h.pc.ch.None? ==> h.todo[0].g !in t.channels)
      && (h.pc.Wait? && h.pc.ch.Some? ==>
            && h.pc.ch.value < t.nextChannel
            && (h.todo[0].g in t.channels ==> t.channels[h.todo[0].g] == h.pc.ch.value))
      && (h.pc.CacheRemove? ==> h.todo[0].g !in t.channels)
  }

  ghost predicate WaitInv(s: State) {
    HasWork(s.w) && ReplaysOk(s.p) && NoNewReplay(s) && (!s.stopped ==> WaitsWell(s.w.holder, s.p.tracker))
  }

  lemma WorkKept(w: Watches, v: Watches, step: WStep)
    requires HasWork(w) && WTakes(w, v, step)
    ensures HasWork(v)
  {
  }

  /** Steps on the watches alone never enter the part of a removal that is past its cancel. */
  lemma WatchStepKeepsWait(s: State, t: State, ws: WStep)
    requires WaitInv(s) && Takes(s, t, OnWatches(ws))
    ensures WaitInv(t)
  {
    WorkKept(s.w, t.w, ws);
    PastCancelKept(s.w, t.w, ws);
  }

  lemma PastCancelKept(w: Watches, v: Watches, step: WStep)
    requires HasWork(w) && WTakes(w, v, step)
    ensures forall g :: PastCancel(v.holder, g) ==> PastCancel(w.holder, g)
    ensures v.holder.Working? && (v.holder.pc.Wait? || v.holder.pc.CacheRemove?) ==> v.holder == w.holder
  {
    if step.AddIntent? || step.RemoveIntent? || step.ReplaceIntent? {
      assert v.holder == w.holder;
    } else if step.Acquire? || step.ReadDesired? {
      assert v.holder.Working? ==> v.holder.pc.Begin?;
    } else {
      WorkMoves(w, v, step);
    }
  }

  /** A step of the work either finishes it, or goes on with it; only the last part of a removal waits. */
  lemma WorkMoves(w: Watches, v: Watches, step: WStep)
    requires WTakes(w, v, step)
    requires step.AddBegin? || step.AddInformer? || step.AddMark? || step.RemBegin? || step.RemDelete? || step.RemCache?
    ensures w.holder.Working? && w.holder.todo != []
    ensures || v.holder.Free? || (v.holder.Working? && v.holder.pc.Begin?)
            || (&& v.holder == w.holder.(pc := v.holder.pc)
                && if step.RemDelete? then v.holder.pc.GetChannel? else v.holder.pc in {Intend, Informer, Mark})
  {
  }

  lemma ReplayStepKeepsWait(s: State, t: State, ps: PStep)
    requires WaitInv(s) && Takes(s, t, OnReplays(ps))
    ensures WaitInv(t)
  {
    ReplayStepKeeps(s.p, t.p, ps);
    StartingKept(s.p, t.p, ps);
    if !s.stopped {
      ChannelsKept(s, t, ps);
    }
  }

  lemma StartingKept(p: Replays, q: Replays, step: PStep)
    requires PTakes(p, q, step)
    ensures forall g :: Starting(q.loop, g) ==> Starting(p.loop, g)
  {
  }

  /** Only counting a new replay makes a channel, and only its last replay closes it. */
  lemma ChannelsKept(s: State, t: State, ps: PStep)
    requires WaitInv(s) && Takes(s, t, OnReplays(ps)) && !s.stopped
    ensures WaitsWell(t.w.holder, t.p.tracker)
  {
    var h := s.w.holder;
    if h.Working? && h.todo[0].Rem? && (h.pc.Wait? || h.pc.CacheRemove?) {
      var g := h.todo[0].g;
      assert PastCancel(h, g);
      assert !Starting(s.p.loop, g);
      match ps
      case Count => AddedChannels(s.p.tracker, s.p.loop.g);
      case Done(id) => FinishedChannels(s.p.tracker, s.p.live[id].g);
      case _ =>
    }
  }

  lemma AddedChannels(t: Tracker, g: GVK)
    requires Valid(t)
    ensures var r := Added(t, g);
            && t.nextChannel <= r.nextChannel
            && (forall h :: h != g && h in r.channels ==> h in t.channels && r.channels[h] == t.channels[h])
  {
  }

  lemma FinishedChannels(t: Tracker, g: GVK)
    requires Valid(t) && CountOf(t, g) > 0
    ensures var r := Finished(t, g);
            && t.nextChannel == r.nextChannel
            && (forall h :: h in r.channels ==> h in t.channels && r.channels[h] == t.channels[h])
  {
  }

  lemma IntentKeepsReplays(p: Replays, key: (Registrar, GVK), want: bool)
    requires ReplaysOk(p)
    ensures ReplaysOk(SetIntent(p, key, want))
  {
    var q := SetIntent(p, key, want);
    forall g ensures ReplaysOf(q, g) == ReplaysOf(p, g) {
    }
    SameReplays(p, q);
    CancelableSame(p, q);
  }

  lemma LoopMoves(p: Replays, l: Loop)
    requires ReplaysOk(p) && p.loop.Idle? && (l.Got? || l.Exited?)
    ensures ReplaysOk(p.(loop := l))
  {
    var q := p.(loop := l);
    forall g ensures ReplaysOf(q, g) == ReplaysOf(p, g) {
    }
    SameReplays(p, q);
    CancelableSame(p, q);
  }

  lemma SendKeepsWait(s: State, t: State)
    requires WaitInv(s) && Takes(s, t, SendRequest)
    ensures WaitInv(t)
  {
    if t.p != s.p {
      LoopMoves(s.p, t.p.loop);
    }
  }

  lemma WaitedKeepsWait(s: State, t: State)
    requires WaitInv(s) && Takes(s, t, Waited)
    ensures WaitInv(t)
  {
  }

  lemma StepKeepsWait(s: State, t: State, step: Step)
    requires WaitInv(s) && Takes(s, t, step)
    ensures WaitInv(t)
  {
    match step
    case OnWatches(ws) => WatchStepKeepsWait(s, t, ws);
    case OnReplays(ps) => ReplayStepKeepsWait(s, t, ps);
    case RecordIntent =>
      var a := s.w.holder.todo[0];
      IntentKeepsReplays(s.p, (a.r, a.g), a.Add?);
    case SendRequest => SendKeepsWait(s, t);
    case GetWaitChannel =>
    case Waited => WaitedKeepsWait(s, t);
    case LoopExit => LoopMoves(s.p, Exited);
    case Stop =>
  }

  /***** Watches follow the intent *****/

  /** An operation that will take the watch of r on g away is waiting for the lock. */
  ghost predicate RemovalPending(w: Watches, r: Registrar, g: GVK) {
    ORemove(r, g) in w.pending || OReplace(r) in w.pending
  }

  /** Somebody will take the watch away, or has the lock and is at it. */
  ghost predicate WillRemove(w: Watches, r: Registrar, g: GVK) {
    RemovalPending(w, r, g) || w.holder == Replacing(r) || (w.holder.Working? && Rem(r, g) in w.holder.todo)
  }

  /** A watch that is no longer intended is about to go. */
  ghost predicate Covered(w: Watches, r: Registrar, g: GVK) {
    r in WatchersOf(w.watched, g) && (r, g) !in w.intent ==> WillRemove(w, r, g)
  }

  ghost predicate AllCovered(w: Watches) {
    forall r, g :: Covered(w, r, g)
  }

  /** What a piece of work has established when it stands at pc. */
  ghost predicate WorkFacts(w: Watches) {
    w.holder.Working? && w.holder.todo != [] ==>
      var a := w.holder.todo[0];
      var pc := w.holder.pc;
      && (a.Add? && !pc.Begin? ==> (a.r, a.g) in w.intent || RemovalPending(w, a.r, a.g))
      && (a.Add? ==> pc.Begin? || pc.Intend? || pc.Send? || pc.Informer? || pc.Mark?)
      && (a.Add? && (pc.Intend? || pc.Send?) ==> WatchersOf(w.watched, a.g) != {})
      && (a.Rem? && (pc.GetChannel? || pc.Wait? || pc.CacheRemove?) ==> a.g in w.watched && w.watched[a.g] == {})
      && (a.Rem? && (pc.Intend? || pc.Send? || pc.Delete?) ==> a.r in WatchersOf(w.watched, a.g))
  }

  ghost predicate WatchInv(w: Watches) {
    HasWork(w) && AllCovered(w) && WorkFacts(w)
  }

  lemma IntentStepKeeps(w: Watches, v: Watches, step: WStep)
    requires WatchInv(w) && WTakes(w, v, step) && (step.AddIntent? || step.RemoveIntent? || step.ReplaceIntent?)
    ensures WatchInv(v)
  {
    assert forall r, g :: RemovalPending(w, r, g) ==> RemovalPending(v, r, g);
    assert forall r, g :: (r, g) in w.intent ==> (r, g) in v.intent || RemovalPending(v, r, g);
    forall r, g ensures Covered(v, r, g) {
      assert Covered(w, r, g);
    }
  }

  lemma AcquireKeeps(w: Watches, v: Watches, op: Op)
    requires WatchInv(w) && WTakes(w, v, Acquire(op))
    ensures WatchInv(v)
  {
    forall r, g ensures Covered(v, r, g) {
      assert Covered(w, r, g);
      assert forall o :: o != op ==> (o in v.pending <==> o in w.pending);
      if op == ORemove(r, g) {
        assert v.holder.todo[0] == Rem(r, g);
      }
    }
  }

  lemma DesiredKeeps(w: Watches, v: Watches, todo: seq<Act>)
    requires WatchInv(w) && WTakes(w, v, ReadDesired(todo))
    ensures WatchInv(v)
  {
    forall r, g ensures Covered(v, r, g) {
      assert Covered(w, r, g);
    }
  }

  /** Finishing a piece of work drops only itself from the work list. */
  lemma FinishKeeps(w: Watches, v: Watches)
    requires WatchInv(w) && w.holder.Working? && w.holder.todo != []
    requires v == Finish(w).(watched := v.watched, handlers := v.handlers, stuck := v.stuck)
    requires forall r, g :: r in WatchersOf(v.watched, g) ==>
               r in WatchersOf(w.watched, g) || (w.holder.todo[0] == Add(r, g) && !w.holder.pc.Begin?)
    requires w.holder.todo[0].Rem? ==> w.holder.todo[0].r !in WatchersOf(v.watched, w.holder.todo[0].g)
    ensures WatchInv(v)
  {
    var a := w.holder.todo[0];
    assert forall b :: b in w.holder.todo && b != a ==> b in w.holder.todo[1..];
    forall r, g ensures Covered(v, r, g) {
      assert Covered(w, r, g);
      if v.holder.Free? && Rem(r, g) in w.holder.todo {
        assert Rem(r, g) == a;
      }
    }
  }

  lemma GoKeeps(w: Watches, v: Watches, pc: Pc)
    requires WatchInv(w) && w.holder.Working? && v == Go(w, pc).(handlers := v.handlers) && WorkFacts(v)
    ensures WatchInv(v)
  {
    forall r, g ensures Covered(v, r, g) {
      assert Covered(w, r, g);
    }
  }

  lemma AddStepKeeps(w: Watches, v: Watches, step: WStep)
    requires WatchInv(w) && WTakes(w, v, step) && (step.AddBegin? || step.AddInformer? || step.AddMark?)
    ensures WatchInv(v)
  {
    if v.holder.Working? && v.holder.todo == w.holder.todo {
      GoKeeps(w, v, v.holder.pc);
    } else {
      FinishKeeps(w, v);
    }
  }

  lemma RemStepKeeps(w: Watches, v: Watches, step: WStep)
    requires WatchInv(w) && WTakes(w, v, step) && (step.RemBegin? || step.RemCache?)
    ensures WatchInv(v)
  {
    if step.RemBegin? && w.holder.todo[0].r in WatchersOf(w.watched, w.holder.todo[0].g) {
      GoKeeps(w, v, Intend);
    } else {
      FinishKeeps(w, v);
    }
  }

  lemma DeleteKeeps(w: Watches, v: Watches)
    requires WatchInv(w) && WTakes(w, v, RemDelete)
    ensures WatchInv(v)
  {
    var a := w.holder.todo[0];
    if WatchersOf(w.watched, a.g) - {a.r} != {} {
      FinishKeeps(w, v);
    } else {
      forall r, g ensures Covered(v, r, g) {
        assert Covered(w, r, g);
      }
    }
  }

  lemma WatchStepKeeps(w: Watches, v: Watches, step: WStep)
    requires WatchInv(w) && WTakes(w, v, step)
    ensures WatchInv(v)
  {
    match step
    case Acquire(op) => AcquireKeeps(w, v, op);
    case ReadDesired(todo) => DesiredKeeps(w, v, todo);
    case AddBegin => AddStepKeeps(w, v, step);
    case AddInformer(_) => AddStepKeeps(w, v, step);
    case AddMark => AddStepKeeps(w, v, step);
    case RemBegin => RemStepKeeps(w, v, step);
    case RemDelete => DeleteKeeps(w, v);
    case RemCache(_) => RemStepKeeps(w, v, step);
    case _ => IntentStepKeeps(w, v, step);
  }

  lemma StepKeepsWatches(s: State, t: State, step: Step)
    requires WatchInv(s.w) && Takes(s, t, step)
    ensures WatchInv(t.w)
  {
    match step
    case OnWatches(ws) => WatchStepKeeps(s.w, t.w, ws);
    case RecordIntent => GoKeeps(s.w, t.w, Send);
    case SendRequest => GoKeeps(s.w, t.w, t.w.holder.pc);
    case GetWaitChannel => GoKeeps(s.w, t.w, t.w.holder.pc);
    case Waited => GoKeeps(s.w, t.w, CacheRemove);
    case _ =>
  }

  /***** One event handler per watched kind *****/

  /** A removal of g has emptied its list of registrars and not yet removed the informer. */
  ghost predicate Emptying(h: Holder, g: GVK) {
    && h.Working? && h.todo != [] && h.todo[0].Rem? && h.todo[0].g == g
    && (h.pc.GetChannel? || h.pc.Wait? || h.pc.CacheRemove?)
  }

  /** The first watcher of g has registered for events and is not yet marked. */
  ghost predicate Marking(h: Holder, g: GVK) {
    AddAt(h, Mark) && h.todo[0].g == g
  }

  /** One handler for a watched kind and none for others; a stuck kind keeps its informer, and its handlers. */
  ghost predicate HandlerOk(w: Watches, g: GVK) {
    if g in w.stuck then g in w.watched && HandlersOf(w, g) >= 1
    else if g in w.watched then HandlersOf(w, g) == 1 && (w.watched[g] != {} || Emptying(w.holder, g))
    else HandlersOf(w, g) == if Marking(w.holder, g) then 1 else 0
  }

  /** The informer is asked for only if the kind is not watched, or stuck. */
  ghost predicate InformerIsNew(w: Watches) {
    AddAt(w.holder, Informer) ==> w.holder.todo[0].g !in w.watched || w.holder.todo[0].g in w.stuck
  }

  ghost predicate HandlersInv(w: Watches) {
    (forall g :: HandlerOk(w, g)) && InformerIsNew(w)
  }

  lemma HandlerStepKeeps(w: Watches, v: Watches, step: WStep)
    requires WatchInv(w) && HandlersInv(w) && WTakes(w, v, step)
    ensures HandlersInv(v)
  {
    forall g ensures HandlerOk(v, g) {
      assert HandlerOk(w, g);
      HandlerAfter(w, v, step, g);
    }
    InformerAfter(w, v, step);
  }

  lemma InformerAfter(w: Watches, v: Watches, step: WStep)
    requires HandlersInv(w) && WTakes(w, v, step)
    ensures InformerIsNew(v)
  {
    if step.AddBegin? && AddAt(v.holder, Informer) {
      assert HandlerOk(w, w.holder.todo[0].g);
    }
  }

  lemma HandlerAfter(w: Watches, v: Watches, step: WStep, g: GVK)
    requires WatchInv(w) && WTakes(w, v, step) && HandlerOk(w, g) && InformerIsNew(w)
    ensures HandlerOk(v, g)
  {
    if step.AddBegin? || step.AddInformer? || step.AddMark? {
      HandlerAfterAdd(w, v, step, g);
    } else if step.RemDelete? {
      HandlerAfterDelete(w, v, g);
    } else if step.RemCache? {
      HandlerAfterCache(w, v, step.ok, g);
    } else if step.RemBegin? || step.Acquire? || step.ReadDesired? {
      HandlerAfterLock(w, v, step, g);
    }
  }

  /** Work that begins, or none at all. */
  ghost predicate Quiet(h: Holder, g: GVK) {
    !Emptying(h, g) && !Marking(h, g)
  }

  lemma FinishIsQuiet(w: Watches, g: GVK)
    requires w.holder.Working? && w.holder.todo != []
    ensures Quiet(Finish(w).holder, g)
  {
  }

  lemma HandlerAfterAdd(w: Watches, v: Watches, step: WStep, g: GVK)
    requires WTakes(w, v, step) && (step.AddBegin? || step.AddInformer? || step.AddMark?)
    requires HandlerOk(w, g) && InformerIsNew(w)
    ensures HandlerOk(v, g)
  {
    FinishIsQuiet(w, g);
    assert !Emptying(w.holder, g);
    if w.holder.todo[0].g != g {
      assert Quiet(w.holder, g) && Quiet(v.holder, g);
    }
  }

  lemma HandlerAfterDelete(w: Watches, v: Watches, g: GVK)
    requires WTakes(w, v, RemDelete) && HandlerOk(w, g) && WorkFacts(w)
    ensures HandlerOk(v, g)
  {
    FinishIsQuiet(w, g);
    assert Quiet(w.holder, g);
    if w.holder.todo[0].g != g {
      assert Quiet(v.holder, g);
    }
  }

  lemma HandlerAfterCache(w: Watches, v: Watches, ok: bool, g: GVK)
    requires WTakes(w, v, RemCache(ok)) && HandlerOk(w, g) && WatchInv(w)
    ensures HandlerOk(v, g)
  {
    FinishIsQuiet(w, g);
    if w.holder.todo[0].g != g {
      assert Quiet(w.holder, g);
    }
  }

  lemma HandlerAfterLock(w: Watches, v: Watches, step: WStep, g: GVK)
    requires WTakes(w, v, step) && (step.RemBegin? || step.Acquire? || step.ReadDesired?) && HandlerOk(w, g)
    ensures HandlerOk(v, g)
  {
    assert Quiet(w.holder, g) && Quiet(v.holder, g);
  }

  lemma StepKeepsHandlers(s: State, t: State, step: Step)
    requires WatchInv(s.w) && HandlersInv(s.w) && Takes(s, t, step)
    ensures HandlersInv(t.w)
  {
    match step
    case OnWatches(ws) => HandlerStepKeeps(s.w, t.w, ws);
    case _ =>
      forall g ensures HandlerOk(s.w, g) ==> HandlerOk(t.w, g) {
      }
  }

  /***** Runs *****/

  ghost predicate Inv(s: State) {
    WaitInv(s) && WatchInv(s.w) && HandlersInv(s.w)
  }

  lemma InitKeeps(s: State)
    requires Init(s)
    ensures Inv(s)
  {
    assert forall g :: ReplaysOf(s.p, g) == {};
    assert forall r, g :: Covered(s.w, r, g);
    assert forall g :: HandlerOk(s.w, g);
  }

  /** The invariant holds in every state of every run. */
  lemma {:induction false} RunsKeepInv(states: seq<State>, steps: seq<Step>, i: nat)
    requires Run(states, steps) && i < |states|
    ensures Inv(states[i])
  {
    if i == 0 {
      InitKeeps(states[0]);
    } else {
      RunsKeepInv(states, steps, i - 1);
      var s, t, step := states[i - 1], states[i], steps[i - 1];
      assert Takes(s, t, step);
      StepKeepsWait(s, t, step);
      StepKeepsWatches(s, t, step);
      StepKeepsHandlers(s, t, step);
    }
  }

  /**
   * In every run, while the manager is not stopped, the cache removes the informer of a kind only
   * when no replay of that kind is running or about to start.
   */
  lemma NoReplayAtCacheRemove(states: seq<State>, steps: seq<Step>, i: nat, ok: bool)
    requires Run(states, steps) && i < |steps| && steps[i] == OnWatches(RemCache(ok)) && !states[i].stopped
    ensures states[i].w.holder.Working? && states[i].w.holder.todo != []
    ensures var g := states[i].w.holder.todo[0].g;
            && (forall id :: id in states[i].p.live ==> states[i].p.live[id].g != g)
            && !Starting(states[i].p.loop, g)
  {
    RunsKeepInv(states, steps, i);
    var s := states[i];
    assert Takes(s, states[i + 1], steps[i]);
    var g := s.w.holder.todo[0].g;
    assert PastCancel(s.w.holder, g);
    assert CountOf(s.p.tracker, g) == |ReplaysOf(s.p, g)| == 0;
    forall id | id in s.p.live ensures s.p.live[id].g != g {
      assert id in ReplaysOf(s.p, s.p.live[id].g);
    }
  }

  /**
   * In every run, counts are the numbers of running replays, a kind has an open wait channel iff
   * its count is positive, finishing a replay never panics and never closes a channel twice, and
   * a registrar has at most one uncanceled replay of a kind.
   */
  lemma ReplaysAreCounted(states: seq<State>, steps: seq<Step>, i: nat)
    requires Run(states, steps) && i < |states|
    ensures var p := states[i].p;
            && (forall g :: CountOf(p.tracker, g) == |ReplaysOf(p, g)|)
            && (forall g :: g in p.tracker.channels <==> CountOf(p.tracker, g) > 0)
            && (forall g :: g in p.tracker.channels ==> p.tracker.channels[g] !in p.tracker.closed)
            && (forall id :: id in p.live ==> Valid(p.tracker) && CountOf(p.tracker, p.live[id].g) > 0)
            && (forall a, b :: a in p.live && b in p.live && p.live[a] == p.live[b] ==>
                  a == b || a in p.canceled || b in p.canceled)
  {
    RunsKeepInv(states, steps, i);
    var p := states[i].p;
    forall id | id in p.live ensures CountOf(p.tracker, p.live[id].g) > 0 {
      assert id in ReplaysOf(p, p.live[id].g);
    }
    forall a, b | a in p.live && b in p.live && p.live[a] == p.live[b] && a !in p.canceled && b !in p.canceled
      ensures a == b
    {
      assert Cancelable(p, p.live[a].r, p.live[a].g, a) && Cancelable(p, p.live[b].r, p.live[b].g, b);
    }
  }

  /**
   * In every run, a registrar that watches a kind it no longer intends to has a removal pending;
   * at rest, with no operation under way, what is watched is intended.
   */
  lemma WatchesFollowIntent(states: seq<State>, steps: seq<Step>, i: nat, r: Registrar, g: GVK)
    requires Run(states, steps) && i < |states| && r in WatchersOf(states[i].w.watched, g)
    ensures (r, g) in states[i].w.intent || WillRemove(states[i].w, r, g)
    ensures states[i].w.holder.Free? && states[i].w.pending == multiset{} ==> (r, g) in states[i].w.intent
  {
    RunsKeepInv(states, steps, i);
    assert Covered(states[i].w, r, g);
  }

  /**
   * In every run, whenever the lock is free: a watched kind has a watcher and exactly one event
   * handler, and any other kind has none, unless its last removal from the cache failed; then it
   * stays watched and keeps at least one.
   */
  lemma OneHandlerPerKind(states: seq<State>, steps: seq<Step>, i: nat, g: GVK)
    requires Run(states, steps) && i < |states| && states[i].w.holder.Free?
    ensures g !in states[i].w.stuck ==> HandlersOf(states[i].w, g) == if g in states[i].w.watched then 1 else 0
    ensures g !in states[i].w.stuck && g in states[i].w.watched ==> states[i].w.watched[g] != {}
    ensures g in states[i].w.stuck ==> g in states[i].w.watched && HandlersOf(states[i].w, g) >= 1
  {
    RunsKeepInv(states, steps, i);
    assert HandlerOk(states[i].w, g);
  }
}
