/**
 * The watch manager, its registrars and the replay loop as a step relation. Each step is one
 * atomic action of one goroutine: a critical section of a small lock, a rendezvous on the
 * unbuffered request channel, or a call to the cache. The watch lock is held from Acquire to the
 * end of the last piece of work of the operation that took it.
 */
module WatchProtocol {
  import opened Types
  import opened ReplayTracker

  /** An operation that has updated the intent and not yet taken the watch lock. */
  datatype Op = OAdd(r: Registrar, g: GVK) | ORemove(r: Registrar, g: GVK) | OReplace(r: Registrar)

  /** doAddWatch or doRemoveWatch of one kind. */
  datatype Act = Add(r: Registrar, g: GVK) | Rem(r: Registrar, g: GVK)

  /** Where the current piece of work stands. */
  datatype Pc =
    | Begin
    | Intend                  // about to record that a replay is, or is no longer, wanted
    | Send                    // about to send the request to the replay loop
    | Informer                // about to get the informer and register for events
    | Mark                    // about to mark the kind as watched
    | Delete                  // about to take the registrar off the list
    | GetChannel              // about to get the channel to wait on
    | Wait(ch: Option<nat>)   // waiting; None is a channel that is closed already
    | CacheRemove             // about to remove the informer

  /** Who holds the watch lock. */
  datatype Holder = Free | Replacing(r: Registrar) | Working(todo: seq<Act>, pc: Pc)

  datatype Request = Request(r: Registrar, g: GVK, isCancel: bool)

  /** Where the replay loop stands. */
  datatype Loop =
    | Idle
    | Got(req: Request)
    | Adding(r: Registrar, g: GVK, id: nat)    // about to count the new replay
    | Spawning(r: Registrar, g: GVK, id: nat)  // about to start its goroutine
    | Exited

  datatype Replay = Replay(r: Registrar, g: GVK)

  /** What the watch lock protects, and the intent and the operations around it. */
  datatype Watches = Watches(
    intent: set<(Registrar, GVK)>,
    pending: multiset<Op>,
    holder: Holder,
    watched: map<GVK, set<Registrar>>,
    handlers: map<GVK, nat>,  // event handlers on the informer of each kind that has one
    stuck: set<GVK>)          // history: kinds of which the last cache.Remove failed

  /** The replay loop and the replays. */
  datatype Replays = Replays(
    loop: Loop,
    cancels: map<(Registrar, GVK), nat>,  // the loop's cancel functions, by replay
    live: map<nat, Replay>,               // the running replay goroutines
    canceled: set<nat>,                   // replays whose context is canceled
    nextReplay: nat,
    tracker: Tracker)

  datatype State = State(stopped: bool, w: Watches, p: Replays)

  ghost predicate Init(s: State) {
    && !s.stopped
    && s.w == Watches({}, multiset{}, Free, map[], map[], {})
    && s.p == Replays(Idle, map[], map[], {}, 0, NEW)
  }

  function HandlersOf(w: Watches, g: GVK): nat {
    if g in w.handlers then w.handlers[g] else 0
  }

  /** The current piece of work is done; the lock is released after the last one. */
  function Finish(w: Watches): Watches
    requires w.holder.Working? && w.holder.todo != []
  {
    w.(holder := if |w.holder.todo| == 1 then Free else Working(w.holder.todo[1..], Begin))
  }

  function Go(w: Watches, pc: Pc): Watches
    requires w.holder.Working?
  {
    w.(holder := w.holder.(pc := pc))
  }

  /** The holder of the lock is at pc of adding, or of removing, a watch. */
  ghost predicate AddAt(h: Holder, pc: Pc) {
    h.Working? && h.todo != [] && h.pc == pc && h.todo[0].Add?
  }

  ghost predicate RemAt(h: Holder, pc: Pc) {
    h.Working? && h.todo != [] && h.pc == pc && h.todo[0].Rem?
  }

  /***** Steps on the watches alone *****/

  datatype WStep =
    | AddIntent(r: Registrar, g: GVK)
    | RemoveIntent(r: Registrar, g: GVK)
    | ReplaceIntent(r: Registrar, gs: set<GVK>)
    | Acquire(op: Op)
    | ReadDesired(todo: seq<Act>)
    | AddBegin
    | AddInformer(ok: bool)
    | AddMark
    | RemBegin
    | RemDelete
    | RemCache(ok: bool)

  function Start(op: Op): Holder {
    match op
    case OAdd(r, g) => Working([Add(r, g)], Begin)
    case ORemove(r, g) => Working([Rem(r, g)], Begin)
    case OReplace(r) => Replacing(r)
  }

  /** replaceWatches lists the kinds to remove, those watched and not desired, and those to add. */
  ghost predicate Desired(w: Watches, todo: seq<Act>)
    requires w.holder.Replacing?
  {
    && (forall g :: g in w.watched && (w.holder.r, g) !in w.intent ==> Rem(w.holder.r, g) in todo)
    && (forall g :: (w.holder.r, g) in w.intent ==> Add(w.holder.r, g) in todo)
    && (forall a :: a in todo ==>
          && a.r == w.holder.r
          && if a.Rem? then a.g in w.watched && (a.r, a.g) !in w.intent else (a.r, a.g) in w.intent)
  }

  ghost predicate WTakes(w: Watches, v: Watches, step: WStep) {
    match step
    case AddIntent(r, g) => v == w.(intent := w.intent + {(r, g)}, pending := w.pending + multiset{OAdd(r, g)})
    case RemoveIntent(r, g) => v == w.(intent := w.intent - {(r, g)}, pending := w.pending + multiset{ORemove(r, g)})
    case ReplaceIntent(r, gs) =>
      && (forall q, g :: (q, g) in v.intent <==> if q == r then g in gs else (q, g) in w.intent)
      && v == w.(intent := v.intent, pending := w.pending + multiset{OReplace(r)})
    case Acquire(op) =>
      w.holder.Free? && op in w.pending && v == w.(pending := w.pending - multiset{op}, holder := Start(op))
    case ReadDesired(todo) =>
      w.holder.Replacing? && Desired(w, todo) && v == w.(holder := if todo == [] then Free else Working(todo, Begin))
    case AddBegin =>
      && AddAt(w.holder, Begin)
      && var a := w.holder.todo[0];
         v == if (a.r, a.g) !in w.intent || a.r in WatchersOf(w.watched, a.g) then Finish(w)
              else Go(w, if WatchersOf(w.watched, a.g) != {} then Intend else Informer)
    case AddInformer(ok) =>
      && AddAt(w.holder, Informer)
      && var g := w.holder.todo[0].g;
         v == if ok then Go(w, Mark).(handlers := w.handlers[g := HandlersOf(w, g) + 1]) else Finish(w)
    case AddMark =>
      && AddAt(w.holder, Mark)
      && var a := w.holder.todo[0];
         v == Finish(w).(watched := w.watched[a.g := WatchersOf(w.watched, a.g) + {a.r}])
    case RemBegin =>
      && RemAt(w.holder, Begin)
      && var a := w.holder.todo[0];
         v == if a.r in WatchersOf(w.watched, a.g) then Go(w, Intend) else Finish(w)
    case RemDelete =>
      && RemAt(w.holder, Delete)
      && var a := w.holder.todo[0];
         var left := WatchersOf(w.watched, a.g) - {a.r};
         v == (if left != {} then Finish(w) else Go(w, GetChannel)).(watched := w.watched[a.g := left])
    case RemCache(ok) =>
      && RemAt(w.holder, CacheRemove)
      && var g := w.holder.todo[0].g;
         v == if ok then Finish(w).(handlers := w.handlers - {g}, watched := w.watched - {g}, stuck := w.stuck - {g})
              else Finish(w).(stuck := w.stuck + {g})
  }

  /***** Steps of the replay loop and of the replays *****/

  datatype PStep =
    | Decide(skip: bool)  // skip: the registrar has no channel to replay to
    | Count
    | Spawn
    | Ends(id: nat)       // a replay that ended releases its context
    | Done(id: nat)       // and then its count

  ghost predicate PTakes(p: Replays, q: Replays, step: PStep) {
    match step
    case Decide(skip) =>
      && p.loop.Got?
      && var req := p.loop.req;
         var key := (req.r, req.g);
         q == if req.isCancel && key in p.cancels then
                p.(loop := Idle, cancels := p.cancels - {key}, canceled := p.canceled + {p.cancels[key]})
              else if req.isCancel || key in p.cancels || key !in p.tracker.intent || skip then p.(loop := Idle)
              else p.(loop := Adding(req.r, req.g, p.nextReplay), cancels := p.cancels[key := p.nextReplay],
                      nextReplay := p.nextReplay + 1)
    case Count =>
      && p.loop.Adding? && Valid(p.tracker)
      && q == p.(loop := Spawning(p.loop.r, p.loop.g, p.loop.id), tracker := Added(p.tracker, p.loop.g))
    case Spawn =>
      p.loop.Spawning? && q == p.(loop := Idle, live := p.live[p.loop.id := Replay(p.loop.r, p.loop.g)])
    case Ends(id) =>
      id in p.live && q == p.(canceled := p.canceled + {id})
    case Done(id) =>
      && id in p.live && id in p.canceled
      && Valid(p.tracker) && CountOf(p.tracker, p.live[id].g) > 0
      && q == p.(live := p.live - {id}, tracker := Finished(p.tracker, p.live[id].g))
  }

  /***** Steps that involve both *****/

  function SetIntent(p: Replays, key: (Registrar, GVK), want: bool): Replays {
    p.(tracker := p.tracker.(intent := if want then p.tracker.intent + {key} else p.tracker.intent - {key}))
  }

  datatype Step =
    | OnWatches(ws: WStep)
    | OnReplays(ps: PStep)
    | RecordIntent
    | SendRequest
    | GetWaitChannel
    | Waited
    | LoopExit
    | Stop

  ghost predicate Takes(s: State, t: State, step: Step) {
    match step
    case OnWatches(ws) => t == s.(w := t.w) && WTakes(s.w, t.w, ws)
    case OnReplays(ps) => t == s.(p := t.p) && PTakes(s.p, t.p, ps)
    case RecordIntent =>
      && (AddAt(s.w.holder, Intend) || RemAt(s.w.holder, Intend))
      && var a := s.w.holder.todo[0];
         t == s.(w := Go(s.w, Send), p := SetIntent(s.p, (a.r, a.g), a.Add?))
    case SendRequest =>  // a rendezvous with the idle loop, or the end of the manager
      && (AddAt(s.w.holder, Send) || RemAt(s.w.holder, Send))
      && var a := s.w.holder.todo[0];
         && t == s.(w := Go(s.w, if a.Add? then Mark else Delete), p := t.p)
         && (|| (s.p.loop.Idle? && t.p == s.p.(loop := Got(Request(a.r, a.g, a.Rem?))))
             || (s.stopped && t.p == s.p))
    case GetWaitChannel =>
      && RemAt(s.w.holder, GetChannel)
      && var g := s.w.holder.todo[0].g;
         t == s.(w := Go(s.w, Wait(if g in s.p.tracker.channels then Some(s.p.tracker.channels[g]) else None)))
    case Waited =>
      && s.w.holder.Working? && s.w.holder.pc.Wait? && RemAt(s.w.holder, s.w.holder.pc)
      && (s.stopped || s.w.holder.pc.ch.None? || s.w.holder.pc.ch.value in s.p.tracker.closed)
      && t == s.(w := Go(s.w, CacheRemove))
    case LoopExit => s.stopped && s.p.loop.Idle? && t == s.(p := s.p.(loop := Exited))
    case Stop => t == s.(stopped := true)
  }

  /** A run: it starts in the initial state, and steps[i] leads from one state to the next. */
  ghost predicate Run(states: seq<State>, steps: seq<Step>) {
    && |states| == |steps| + 1 && Init(states[0])
    && forall i :: 0 <= i < |steps| ==> Takes(states[i], states[i + 1], steps[i])
  }
}
