/** The counter of running replays, by kind, that lets a removal wait for them. */
module ReplayTracker {
  import opened Types

  type Registrar = string

  /** The registrars on the list of a kind. */
  function WatchersOf(watched: map<GVK, set<Registrar>>, g: GVK): set<Registrar> {
    if g in watched then watched[g] else {}
  }

  /** Channels are numbered as they are made; a closed one stays closed. */
  datatype Tracker = Tracker(
    counts: map<GVK, nat>,
    channels: map<GVK, nat>,
    closed: set<nat>,
    nextChannel: nat,
    intent: set<(Registrar, GVK)>)

  const NEW := Tracker(map[], map[], {}, 0, {})

  /** A kind has a wait channel iff its count is positive, and no wait channel is closed or shared. */
  ghost predicate Valid(t: Tracker) {
    && t.counts.Keys == t.channels.Keys
    && (forall g :: g in t.counts ==> t.counts[g] > 0)
    && (forall g :: g in t.channels ==> t.channels[g] < t.nextChannel && t.channels[g] !in t.closed)
    && (forall g, h :: g in t.channels && h in t.channels && g != h ==> t.channels[g] != t.channels[h])
    && (forall c :: c in t.closed ==> c < t.nextChannel)
  }

  function CountOf(t: Tracker, g: GVK): nat {
    if g in t.counts then t.counts[g] else 0
  }

  function Added(t: Tracker, g: GVK): (r: Tracker)
    requires Valid(t)
    ensures Valid(r) && r.closed == t.closed
    ensures CountOf(r, g) == CountOf(t, g) + 1 && forall h :: h != g ==> CountOf(r, h) == CountOf(t, h)
    ensures forall h :: h != g || h in t.channels ==>
              (h in r.channels <==> h in t.channels) && (h in t.channels ==> r.channels[h] == t.channels[h])
  {
    var u := t.(counts := t.counts[g := CountOf(t, g) + 1]);
    if g in t.channels then u
    else u.(channels := t.channels[g := t.nextChannel], nextChannel := t.nextChannel + 1)
  }

  /** The count must be positive: the source panics otherwise. */
  function Finished(t: Tracker, g: GVK): (r: Tracker)
    requires Valid(t) && CountOf(t, g) > 0
    ensures Valid(r) && t.closed <= r.closed
    ensures CountOf(r, g) == CountOf(t, g) - 1 && forall h :: h != g ==> CountOf(r, h) == CountOf(t, h)
    ensures forall h :: h != g ==>
              (h in r.channels <==> h in t.channels) && (h in t.channels ==> r.channels[h] == t.channels[h])
    ensures forall c :: c in r.closed && c !in t.closed ==> CountOf(r, g) == 0 && c == t.channels[g]
    ensures CountOf(r, g) == 0 ==> t.channels[g] in r.closed
  {
    if t.counts[g] == 1 then
      t.(counts := t.counts - {g}, channels := t.channels - {g}, closed := t.closed + {t.channels[g]})
    else t.(counts := t.counts[g := t.counts[g] - 1])
  }

  /** The tracker of the source: its maps are changed under its lock, one method at a time. */
  class ReplayTracker {
    var counts: map<GVK, nat>
    var channels: map<GVK, nat>
    var closed: set<nat>
    var nextChannel: nat
    var intent: map<Registrar, set<GVK>>

    function View(): Tracker
      reads this
    {
      Tracker(counts, channels, closed, nextChannel, set r, g | r in intent && g in intent[r] :: (r, g))
    }

    constructor ()
      ensures View() == NEW && Valid(View())
    {
      counts, channels, closed, nextChannel, intent := map[], map[], {}, 0, map[];
    }

    method SetIntent(r: Registrar, g: GVK, wantReplay: bool)
      modifies this`intent
      ensures var before := old(View());
              View() == before.(intent := if wantReplay then before.intent + {(r, g)} else before.intent - {(r, g)})
    {
      if wantReplay {
        if r !in intent {
          intent := intent[r := {}];
        }
        intent := intent[r := intent[r] + {g}];
        return;
      }
      if r !in intent {
        return;
      }
      intent := intent[r := intent[r] - {g}];
    }

    method ReplayIntended(r: Registrar, g: GVK) returns (b: bool)
      ensures b <==> (r, g) in View().intent
    {
      b := r in intent && g in intent[r];
    }

    method AddReplay(g: GVK)
      requires Valid(View())
      modifies this
      ensures View() == Added(old(View()), g)
    {
      var c := if g in counts then counts[g] else 0;
      counts := counts[g := c + 1];
      if g !in channels {
        channels := channels[g := nextChannel];
        nextChannel := nextChannel + 1;
      }
    }

    method ReplayDone(g: GVK)
      requires Valid(View()) && CountOf(View(), g) > 0
      modifies this
      ensures View() == Finished(old(View()), g)
    {
      var c := if g in counts then counts[g] else 0;
      counts := counts[g := c - 1];
      if counts[g] == 0 {
        assert counts - {g} == old(counts) - {g};
        counts := counts - {g};
        closed := closed + {channels[g]};
        channels := channels - {g};
      }
    }

    /** None is a channel that is closed already. */
    method ReplayWaitCh(g: GVK) returns (ch: Option<nat>)
      requires Valid(View())
      ensures ch.None? <==> CountOf(View(), g) == 0
      ensures ch.Some? ==> ch.value !in View().closed && View().channels[g] == ch.value
    {
      ch := if g in channels then Some(channels[g]) else None;
    }
  }
}
