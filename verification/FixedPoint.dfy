/** Applying the mutators in passes, until a pass changes nothing. */
module FixedPoint {
  import opened Mutators

  /** What matching and applying one mutator does to an object. */
  datatype Outcome<Obj> = Fine(obj: Obj) | Failed

  type Apply<!Obj> = (Mutator, Obj) -> Outcome<Obj>

  /** One pass over the mutators, in order. */
  function Pass<Obj>(ms: seq<Mutator>, apply: Apply<Obj>, obj: Obj): Outcome<Obj> {
    if ms == [] then Fine(obj)
    else match apply(ms[0], obj)
      case Failed => Failed
      case Fine(next) => Pass(ms[1..], apply, next)
  }

  /** k passes. */
  function Passes<Obj>(ms: seq<Mutator>, apply: Apply<Obj>, obj: Obj, k: nat): Outcome<Obj> {
    if k == 0 then Fine(obj)
    else match Passes(ms, apply, obj, k - 1)
      case Failed => Failed
      case Fine(next) => Pass(ms, apply, next)
  }

  predicate Settled<Obj(==)>(ms: seq<Mutator>, apply: Apply<Obj>, obj: Obj) {
    Pass(ms, apply, obj) == Fine(obj)
  }

  /** objs starts at obj, and each of the first mutators leads from one object to the next. */
  ghost predicate Trace<Obj>(ms: seq<Mutator>, apply: Apply<Obj>, obj: Obj, objs: seq<Obj>) {
    && 0 < |objs| <= |ms| + 1 && objs[0] == obj
    && forall i :: 0 <= i < |objs| - 1 ==> apply(ms[i], objs[i]) == Fine(objs[i + 1])
  }

  /** The mutators up to the first that fails have been applied, each to what the one before it left. */
  ghost predicate BreaksOff<Obj>(ms: seq<Mutator>, apply: Apply<Obj>, obj: Obj, objs: seq<Obj>) {
    Trace(ms, apply, obj, objs) && |objs| <= |ms| && apply(ms[|objs| - 1], objs[|objs| - 1]) == Failed
  }

  ghost predicate GoesThrough<Obj>(ms: seq<Mutator>, apply: Apply<Obj>, obj: Obj, objs: seq<Obj>, last: Obj) {
    Trace(ms, apply, obj, objs) && |objs| == |ms| + 1 && objs[|ms|] == last
  }

  lemma TraceRest<Obj>(ms: seq<Mutator>, apply: Apply<Obj>, obj: Obj, objs: seq<Obj>)
    requires ms != [] && |objs| > 1 && Trace(ms, apply, obj, objs)
    ensures apply(ms[0], obj) == Fine(objs[1]) && Trace(ms[1..], apply, objs[1], objs[1..])
  {
    var rest := objs[1..];
    forall i | 0 <= i < |rest| - 1 ensures apply(ms[1..][i], rest[i]) == Fine(rest[i + 1]) {
      assert apply(ms[i + 1], objs[i + 1]) == Fine(objs[i + 2]);
    }
  }

  lemma TraceMore<Obj>(ms: seq<Mutator>, apply: Apply<Obj>, obj: Obj, rest: seq<Obj>)
    requires ms != [] && apply(ms[0], obj).Fine? && Trace(ms[1..], apply, apply(ms[0], obj).obj, rest)
    ensures Trace(ms, apply, obj, [obj] + rest)
  {
    var objs := [obj] + rest;
    forall i | 0 <= i < |objs| - 1 ensures apply(ms[i], objs[i]) == Fine(objs[i + 1]) {
      if i > 0 {
        assert apply(ms[1..][i - 1], rest[i - 1]) == Fine(rest[i]);
      }
    }
  }

  /** A pass applies every mutator once, in order, to what the one before it left, up to the first error. */
  lemma {:induction false} PassIsTrace<Obj(!new)>(ms: seq<Mutator>, apply: Apply<Obj>, obj: Obj)
    ensures forall last :: Pass(ms, apply, obj) == Fine(last) <==>
                           exists objs :: GoesThrough(ms, apply, obj, objs, last)
    ensures Pass(ms, apply, obj).Failed? <==> exists objs :: BreaksOff(ms, apply, obj, objs)
  {
    forall objs, last | GoesThrough(ms, apply, obj, objs, last) ensures Pass(ms, apply, obj) == Fine(last) {
      PassOfTrace(ms, apply, obj, objs, last);
    }
    forall objs | BreaksOff(ms, apply, obj, objs) ensures Pass(ms, apply, obj).Failed? {
      PassBreaksOff(ms, apply, obj, objs);
    }
    var objs := TraceOfPass(ms, apply, obj);
  }

  lemma {:induction false} PassOfTrace<Obj>(ms: seq<Mutator>, apply: Apply<Obj>, obj: Obj, objs: seq<Obj>, last: Obj)
    requires GoesThrough(ms, apply, obj, objs, last)
    ensures Pass(ms, apply, obj) == Fine(last)
  {
    if ms != [] {
      TraceRest(ms, apply, obj, objs);
      PassOfTrace(ms[1..], apply, objs[1], objs[1..], last);
    }
  }

  lemma {:induction false} PassBreaksOff<Obj>(ms: seq<Mutator>, apply: Apply<Obj>, obj: Obj, objs: seq<Obj>)
    requires BreaksOff(ms, apply, obj, objs)
    ensures Pass(ms, apply, obj).Failed?
  {
    if |objs| > 1 {
      TraceRest(ms, apply, obj, objs);
      PassBreaksOff(ms[1..], apply, objs[1], objs[1..]);
    }
  }

  lemma {:induction false} TraceOfPass<Obj>(ms: seq<Mutator>, apply: Apply<Obj>, obj: Obj) returns (objs: seq<Obj>)
    ensures var r := Pass(ms, apply, obj);
            if r.Fine? then GoesThrough(ms, apply, obj, objs, r.obj) else BreaksOff(ms, apply, obj, objs)
  {
    objs := [obj];
    if ms != [] && apply(ms[0], obj).Fine? {
      var rest := TraceOfPass(ms[1..], apply, apply(ms[0], obj).obj);
      TraceMore(ms, apply, obj, rest);
      objs := [obj] + rest;
      if |rest| < |ms| {
        assert ms[1..][|rest| - 1] == ms[|rest|];
      }
    }
  }

  /** What the object is after each of the first passes. */
  ghost predicate InPasses<Obj>(ms: seq<Mutator>, apply: Apply<Obj>, obj: Obj, objs: seq<Obj>) {
    objs != [] && objs[0] == obj && forall i :: 0 <= i < |objs| - 1 ==> Pass(ms, apply, objs[i]) == Fine(objs[i + 1])
  }

  lemma {:induction false} PassesAre<Obj>(ms: seq<Mutator>, apply: Apply<Obj>, obj: Obj, objs: seq<Obj>, k: nat)
    requires InPasses(ms, apply, obj, objs) && k < |objs|
    ensures Passes(ms, apply, obj, k) == Fine(objs[k])
  {
    if k > 0 {
      PassesAre(ms, apply, obj, objs, k - 1);
      assert Pass(ms, apply, objs[k - 1]) == Fine(objs[k]);
    }
  }

  lemma {:induction false} SettledStays<Obj>(ms: seq<Mutator>, apply: Apply<Obj>, obj: Obj, k: nat, l: nat)
    requires k <= l && Passes(ms, apply, obj, k).Fine?
    requires Settled(ms, apply, Passes(ms, apply, obj, k).obj)
    ensures Passes(ms, apply, obj, l) == Passes(ms, apply, obj, k)
  {
    if k < l {
      SettledStays(ms, apply, obj, k, l - 1);
    }
  }

  lemma {:induction false} FailureStays<Obj>(ms: seq<Mutator>, apply: Apply<Obj>, obj: Obj, k: nat, l: nat)
    requires k <= l && Passes(ms, apply, obj, k).Failed?
    ensures Passes(ms, apply, obj, l).Failed?
  {
    if k < l {
      FailureStays(ms, apply, obj, k, l - 1);
    }
  }

  datatype MutateResult = Done(mutated: bool) | MutatorFailed | Oscillating | NotConverging

  /**
   * The reference answer, without early exits: run as many passes as there are mutators, and one
   * more to see whether anything still changes.
   */
  function Verdict<Obj(==)>(ms: seq<Mutator>, apply: Apply<Obj>, obj: Obj): MutateResult {
    var last := Passes(ms, apply, obj, |ms| + 1);
    if last.Failed? then MutatorFailed
    else if last == Passes(ms, apply, obj, |ms|) then Done(last.obj != obj)
    else NotConverging
  }

  /**
   * The loop of System.Mutate, with annotations off. It stops at the first pass that changes
   * nothing and gives the reference answer; its "oscillating" answer is never given.
   */
  method Mutate<Obj(==)>(ms: seq<Mutator>, apply: Apply<Obj>, original: Obj) returns (r: MutateResult, obj: Obj)
    ensures r == Verdict(ms, apply, original)
    ensures r.Done? ==> Settled(ms, apply, obj) && Passes(ms, apply, original, |ms| + 1) == Fine(obj)
    ensures r == Done(false) ==> obj == original
    ensures r == Done(true) ==> obj != original
    ensures r == MutatorFailed <==> Passes(ms, apply, original, |ms| + 1).Failed?
    ensures r == NotConverging <==>
            && Passes(ms, apply, original, |ms| + 1).Fine?
            && Passes(ms, apply, original, |ms|) != Passes(ms, apply, original, |ms| + 1)
  {
    obj := original;
    var maxIterations := |ms| + 1;
    var i := 0;
    while i < maxIterations
      invariant i <= maxIterations
      invariant Passes(ms, apply, original, i) == Fine(obj)
      invariant i > 0 ==> !Settled(ms, apply, original)
      invariant i > 0 ==> Passes(ms, apply, original, i - 1) != Fine(obj)
    {
      var old' := obj;
      var outcome := RunPass(ms, apply, obj);
      if outcome.Failed? {
        FailureStays(ms, apply, original, i + 1, maxIterations);
        return MutatorFailed, obj;
      }
      obj := outcome.obj;
      if old' == obj {
        SettledStays(ms, apply, original, i, |ms|);
        SettledStays(ms, apply, original, i, maxIterations);
        if i == 0 {
          return Done(false), obj;
        }
        if original == obj {
          return Oscillating, obj;
        }
        return Done(true), obj;
      }
      i := i + 1;
    }
    return NotConverging, obj;
  }

  method RunPass<Obj>(ms: seq<Mutator>, apply: Apply<Obj>, obj: Obj) returns (r: Outcome<Obj>)
    ensures r == Pass(ms, apply, obj)
  {
    var current := obj;
    for i := 0 to |ms|
      invariant Pass(ms, apply, obj) == Pass(ms[i..], apply, current)
    {
      var outcome := apply(ms[i], current);
      assert ms[i..][0] == ms[i] && ms[i..][1..] == ms[i + 1..];
      if outcome.Failed? {
        return Failed;
      }
      current := outcome.obj;
    }
    return Fine(current);
  }

  /** Answers depend only on what the mutators do. */
  lemma {:induction false} PassSame<Obj(!new)>(ms: seq<Mutator>, a: Apply<Obj>, b: Apply<Obj>, obj: Obj)
    requires forall m, o :: a(m, o) == b(m, o)
    ensures Pass(ms, a, obj) == Pass(ms, b, obj)
  {
    if ms != [] && a(ms[0], obj).Fine? {
      PassSame(ms[1..], a, b, a(ms[0], obj).obj);
    }
  }

  lemma {:induction false} PassesSame<Obj(!new)>(ms: seq<Mutator>, a: Apply<Obj>, b: Apply<Obj>, obj: Obj, k: nat)
    requires forall m, o :: a(m, o) == b(m, o)
    ensures Passes(ms, a, obj, k) == Passes(ms, b, obj, k)
  {
    if k > 0 {
      PassesSame(ms, a, b, obj, k - 1);
      if Passes(ms, a, obj, k - 1).Fine? {
        PassSame(ms, a, b, Passes(ms, a, obj, k - 1).obj);
      }
    }
  }

  /** A single idempotent mutator converges whatever it reads and writes. */
  lemma OneMutatorConverges<Obj>(m: Mutator, apply: Apply<Obj>, obj: Obj)
    requires forall o :: apply(m, o).Fine? ==> apply(m, apply(m, o).obj) == apply(m, o)
    ensures Verdict([m], apply, obj) != NotConverging
  {
    assert forall o :: Pass([m], apply, o) == apply(m, o) by {
      forall o ensures Pass([m], apply, o) == apply(m, o) {
        assert [m][1..] == [];
      }
    }
    assert Passes([m], apply, obj, 1) == Pass([m], apply, obj);
    var first := Passes([m], apply, obj, 1);
    assert Passes([m], apply, obj, 2) == if first.Fine? then Pass([m], apply, first.obj) else Failed;
  }
}

/**
 * Idempotent mutators, of which none can wake up another in a cycle, settle within as many passes
 * as there are mutators. Disjoint writes and acyclic reads are one way to meet that.
 */
module Convergence {
  import opened Mutators
  import opened FixedPoint

  ghost predicate Idempotent<Obj(!new)>(apply: Apply<Obj>, m: Mutator) {
    forall o :: apply(m, o).Fine? ==> apply(m, apply(m, o).obj) == apply(m, o)
  }

  /** On o, n has nothing to do, but after m it has. */
  ghost predicate WakesAt<Obj>(apply: Apply<Obj>, m: Mutator, n: Mutator, o: Obj) {
    apply(m, o).Fine? && apply(n, o) == Fine(o) && apply(n, apply(m, o).obj) != Fine(apply(m, o).obj)
  }

  ghost predicate Wakes<Obj(!new)>(apply: Apply<Obj>, m: Mutator, n: Mutator) {
    exists o :: WakesAt(apply, m, n, o)
  }

  /** The premises: idempotent mutators, and a rank that only rises from one to those it can wake. */
  ghost predicate Ranked<Obj(!new)>(ms: seq<Mutator>, apply: Apply<Obj>, rank: seq<nat>) {
    && |rank| == |ms|
    && (forall i :: 0 <= i < |ms| ==> Idempotent(apply, ms[i]))
    && (forall i, j :: 0 <= i < |ms| && 0 <= j < |ms| && i != j && Wakes(apply, ms[i], ms[j]) ==> rank[i] < rank[j])
  }

  /** The mutators of s change nothing any more, and nobody outside s can wake them. */
  ghost predicate Quiet<Obj(!new)>(ms: seq<Mutator>, apply: Apply<Obj>, s: set<nat>, o: Obj) {
    && (forall j :: j in s ==> j < |ms| && apply(ms[j], o) == Fine(o))
    && (forall i, j :: j in s && 0 <= i < |ms| && i != j && Wakes(apply, ms[i], ms[j]) ==> i in s)
  }

  /** Whatever mutator runs next, the quiet ones stay quiet. */
  lemma StepKeepsQuiet<Obj(!new)>(ms: seq<Mutator>, apply: Apply<Obj>, s: set<nat>, o: Obj, i: nat)
    requires Quiet(ms, apply, s, o) && i < |ms| && apply(ms[i], o).Fine?
    ensures Quiet(ms, apply, s, apply(ms[i], o).obj)
  {
    if i !in s {
      forall j | j in s ensures apply(ms[j], apply(ms[i], o).obj) == Fine(apply(ms[i], o).obj) {
        assert !Wakes(apply, ms[i], ms[j]);
        assert !WakesAt(apply, ms[i], ms[j], o);
      }
    }
  }

  /** The rest of a pass, from position i on, keeps s quiet. */
  lemma {:induction false} TailKeepsQuiet<Obj(!new)>(ms: seq<Mutator>, apply: Apply<Obj>, s: set<nat>, o: Obj, i: nat)
    requires Quiet(ms, apply, s, o) && i <= |ms| && Pass(ms[i..], apply, o).Fine?
    ensures Quiet(ms, apply, s, Pass(ms[i..], apply, o).obj)
    decreases |ms| - i
  {
    if i < |ms| {
      assert ms[i..][0] == ms[i] && ms[i..][1..] == ms[i + 1..];
      StepKeepsQuiet(ms, apply, s, o, i);
      TailKeepsQuiet(ms, apply, s, apply(ms[i], o).obj, i + 1);
    }
  }

  /** A mutator that only quiet ones can wake is quiet after the pass. */
  lemma {:induction false} PassQuiets<Obj(!new)>(ms: seq<Mutator>, apply: Apply<Obj>,
                                                 s: set<nat>, o: Obj, i: nat, x: nat)
    requires Quiet(ms, apply, s, o) && i <= x < |ms| && Pass(ms[i..], apply, o).Fine?
    requires Idempotent(apply, ms[x])
    requires forall j :: 0 <= j < |ms| && j != x && Wakes(apply, ms[j], ms[x]) ==> j in s
    ensures Quiet(ms, apply, s + {x}, Pass(ms[i..], apply, o).obj)
    decreases |ms| - i
  {
    assert ms[i..][0] == ms[i] && ms[i..][1..] == ms[i + 1..];
    StepKeepsQuiet(ms, apply, s, o, i);
    var next := apply(ms[i], o).obj;
    if i < x {
      PassQuiets(ms, apply, s, next, i + 1, x);
    } else {
      assert Quiet(ms, apply, s + {x}, next);
      TailKeepsQuiet(ms, apply, s + {x}, next, i + 1);
    }
  }

  /** Some mutator of least rank outside s. */
  lemma LeastRank(rank: seq<nat>, s: set<nat>) returns (x: nat)
    requires exists i: nat :: i < |rank| && i !in s
    ensures x < |rank| && x !in s
    ensures forall i: nat :: i < |rank| && i !in s ==> rank[x] <= rank[i]
  {
    x :| x < |rank| && x !in s;
    for n := 0 to |rank|
      invariant x < |rank| && x !in s
      invariant forall i: nat :: i < n && i !in s ==> rank[x] <= rank[i]
    {
      if n !in s && rank[n] < rank[x] {
        x := n;
      }
    }
  }

  lemma BoundedSet(s: set<nat>, n: nat)
    requires forall j :: j in s ==> j < n
    ensures |s| <= n
    ensures |s| == n ==> forall j: nat :: j < n ==> j in s
  {
    assert Below(n) == s + (Below(n) - s);
  }

  ghost function Below(n: nat): (s: set<nat>)
    ensures |s| == n
    ensures forall j: nat :: j in s <==> j < n
  {
    if n == 0 then {} else Below(n - 1) + {n - 1}
  }

  /** Every pass quiets at least one more mutator. */
  lemma {:induction false} PassesQuiet<Obj(!new)>(ms: seq<Mutator>, apply: Apply<Obj>, rank: seq<nat>, o: Obj, k: nat)
    returns (s: set<nat>)
    requires Ranked(ms, apply, rank) && k <= |ms|
    requires Passes(ms, apply, o, k).Fine?
    ensures Quiet(ms, apply, s, Passes(ms, apply, o, k).obj) && |s| >= k
  {
    if k == 0 {
      s := {};
    } else {
      s := PassesQuiet(ms, apply, rank, o, k - 1);
      var before := Passes(ms, apply, o, k - 1).obj;
      assert ms[0..] == ms;
      BoundedSet(s, |ms|);
      if i: nat :| i < |rank| && i !in s {
        var x := LeastRank(rank, s);
        PassQuiets(ms, apply, s, before, 0, x);
        s := s + {x};
      } else {
        TailKeepsQuiet(ms, apply, s, before, 0);
        assert s == Below(|ms|);
      }
    }
  }

  lemma {:induction false} QuietMeansSettled<Obj(!new)>(ms: seq<Mutator>, apply: Apply<Obj>,
                                                        s: set<nat>, o: Obj, i: nat)
    requires Quiet(ms, apply, s, o) && i <= |ms|
    requires forall j: nat :: j < |ms| ==> j in s
    ensures Pass(ms[i..], apply, o) == Fine(o)
    decreases |ms| - i
  {
    if i < |ms| {
      assert ms[i..][0] == ms[i] && ms[i..][1..] == ms[i + 1..];
      QuietMeansSettled(ms, apply, s, o, i + 1);
    }
  }

  /** The bound of one pass more than there are mutators always suffices. */
  lemma RankedConverges<Obj(!new)>(ms: seq<Mutator>, apply: Apply<Obj>, rank: seq<nat>, o: Obj)
    requires Ranked(ms, apply, rank)
    ensures Verdict(ms, apply, o) != NotConverging
  {
    if Passes(ms, apply, o, |ms|).Fine? {
      var s := PassesQuiet(ms, apply, rank, o, |ms|);
      BoundedSet(s, |ms|);
      QuietMeansSettled(ms, apply, s, Passes(ms, apply, o, |ms|).obj, 0);
      assert ms[0..] == ms;
    }
  }

  /***** Locations *****/

  /** An object is the values at its locations. */
  type Object<Loc, Val> = map<Loc, Val>

  ghost predicate AgreeAt<Loc, Val>(a: Object<Loc, Val>, b: Object<Loc, Val>, l: Loc) {
    (l in a <==> l in b) && (l in a ==> a[l] == b[l])
  }

  ghost predicate AgreeOn<Loc(!new), Val>(a: Object<Loc, Val>, b: Object<Loc, Val>, where: iset<Loc>) {
    forall l :: l in where ==> AgreeAt(a, b, l)
  }

  lemma AgreeEverywhere<Loc(!new), Val>(a: Object<Loc, Val>, b: Object<Loc, Val>)
    requires forall l :: AgreeAt(a, b, l)
    ensures a == b
  {
    assert forall l :: l in a ==> l in b && a[l] == b[l] by {
      forall l | l in a ensures l in b && a[l] == b[l] {
        assert AgreeAt(a, b, l);
      }
    }
    assert forall l :: l in b ==> l in a by {
      forall l | l in b ensures l in a {
        assert AgreeAt(a, b, l);
      }
    }
  }

  /** Where a mutator writes and which other locations it looks at. */
  datatype Footprint<!Loc> = Footprint(writes: iset<Loc>, seen: iset<Loc>)

  /** m changes only what it writes, and that by looking at its footprint only; it is idempotent. */
  ghost predicate Local<Loc(!new), Val(!new)>(apply: Apply<Object<Loc, Val>>, m: Mutator, fp: Footprint<Loc>) {
    && (forall o, l :: apply(m, o).Fine? && l !in fp.writes ==> AgreeAt(apply(m, o).obj, o, l))
    && (forall a, b :: AgreeOn(a, b, fp.writes + fp.seen) ==>
          && (apply(m, a).Fine? <==> apply(m, b).Fine?)
          && (apply(m, a).Fine? ==> AgreeOn(apply(m, a).obj, apply(m, b).obj, fp.writes)))
    && (forall o :: apply(m, o).Fine? ==> apply(m, apply(m, o).obj) == apply(m, o))
  }

  /** One mutator looks at what another one writes. */
  ghost predicate DependsOn<Loc(!new)>(later: Footprint<Loc>, earlier: Footprint<Loc>) {
    exists l :: l in later.seen && l in earlier.writes
  }

  /** The premises: disjoint writes, and a rank that every dependency lowers. */
  ghost predicate Orderly<Loc(!new), Val(!new)>(ms: seq<Mutator>, apply: Apply<Object<Loc, Val>>,
                                                fps: seq<Footprint<Loc>>, rank: seq<nat>) {
    && |fps| == |ms| == |rank|
    && (forall i :: 0 <= i < |ms| ==> Local(apply, ms[i], fps[i]))
    && (forall i, j :: 0 <= i < |ms| && 0 <= j < |ms| && i != j ==> fps[i].writes !! fps[j].writes)
    && (forall i, j :: 0 <= i < |ms| && 0 <= j < |ms| && i != j && DependsOn(fps[j], fps[i]) ==> rank[i] < rank[j])
  }

  lemma Undisturbed<Loc(!new), Val(!new)>(apply: Apply<Object<Loc, Val>>, m: Mutator, fp: Footprint<Loc>,
                                          o: Object<Loc, Val>, next: Object<Loc, Val>)
    requires Local(apply, m, fp) && apply(m, o) == Fine(o)
    requires AgreeOn(next, o, fp.writes + fp.seen)
    ensures apply(m, next) == Fine(next)
  {
    var again := apply(m, next).obj;
    forall l ensures AgreeAt(again, next, l) {
      if l in fp.writes {
        assert AgreeAt(next, o, l);
        assert AgreeAt(again, o, l);
      }
    }
    AgreeEverywhere(again, next);
  }

  /** A mutator is not woken by one that writes neither where it writes nor where it looks. */
  lemma UnrelatedSleeps<Loc(!new), Val(!new)>(apply: Apply<Object<Loc, Val>>, m: Mutator, n: Mutator,
                                              fp: Footprint<Loc>, gp: Footprint<Loc>)
    requires Local(apply, m, fp) && Local(apply, n, gp) && fp.writes !! gp.writes && !DependsOn(gp, fp)
    ensures !Wakes(apply, m, n)
  {
    forall o | apply(m, o).Fine? && apply(n, o) == Fine(o) ensures !WakesAt(apply, m, n, o) {
      var next := apply(m, o).obj;
      forall l | l in gp.writes + gp.seen ensures AgreeAt(next, o, l) {
        assert l !in fp.writes;
      }
      Undisturbed(apply, n, gp, o, next);
    }
  }

  /** So mutators that write disjoint locations and read each other's without a cycle converge. */
  lemma OrderlyConverges<Loc(!new), Val(!new)>(ms: seq<Mutator>, apply: Apply<Object<Loc, Val>>,
                                               fps: seq<Footprint<Loc>>, rank: seq<nat>, o: Object<Loc, Val>)
    requires Orderly(ms, apply, fps, rank)
    ensures Verdict(ms, apply, o) != NotConverging
  {
    forall i, j | 0 <= i < |ms| && 0 <= j < |ms| && i != j && Wakes(apply, ms[i], ms[j]) ensures rank[i] < rank[j] {
      if !DependsOn(fps[j], fps[i]) {
        UnrelatedSleeps(apply, ms[i], ms[j], fps[i], fps[j]);
      }
    }
    forall i | 0 <= i < |ms| ensures Idempotent(apply, ms[i]) {
      assert Local(apply, ms[i], fps[i]);
    }
    RankedConverges(ms, apply, rank, o);
  }
}
