/**
 * The firing rule on values: which transitions are enabled in a marking, and what firing one
 * does to the marking. The net is seen through a value view (place capacities, arcs with the
 * index of their place, the id of their transition and their inscriptions), so that the
 * properties below are about sequences only.
 */
module Firing {
  import opened Tokens
  import opened TokenSets

  /** A transition as the firing rule sees it: its id and its guard. */
  datatype TransitionView = TransitionView(id: string, guard: Marking -> bool)

  /** An arc as the firing rule sees it. */
  datatype ArcView = ArcView(
    place: nat,                        // index of the arc's place
    transition: string,                // id of the arc's transition
    evaluate: seq<Token> -> bool,      // the arc's evaluate() on its place's tokens
    execute: seq<Token>)               // the tokens its execute() creates

  datatype NetView = NetView(capacities: seq<int>, inputArcs: seq<ArcView>, outputArcs: seq<ArcView>)

  function TokensAt(m: Marking, p: nat): seq<Token> {
    if p < |m| then m[p] else []
  }

  function CapacityAt(v: NetView, p: nat): int {
    if p < |v.capacities| then v.capacities[p] else 0
  }

  // ---------------------------------------------------------------------------------------
  // Transition.enabled

  /** An input arc lets its transition fire: its place passes the timing gate and evaluate() holds. */
  predicate InputReady(a: ArcView, m: Marking, time: int) {
    Available(TokensAt(m, a.place), time) && a.evaluate(TokensAt(m, a.place))
  }

  /** An output arc's place has room: capacity 0 means no limit, any other is a strict bound. */
  predicate OutputFree(v: NetView, a: ArcView, m: Marking) {
    CapacityAt(v, a.place) != 0 ==> CapacityAt(v, a.place) > |TokensAt(m, a.place)|
  }

  /** Every one of the first `k` input arcs that belongs to transition `id` is ready. */
  predicate InputsReady(v: NetView, m: Marking, id: string, time: int, k: nat) {
    forall i :: 0 <= i < k && i < |v.inputArcs| && v.inputArcs[i].transition == id ==>
      InputReady(v.inputArcs[i], m, time)
  }

  /** Every one of the first `k` output arcs that belongs to transition `id` has room. */
  predicate OutputsFree(v: NetView, m: Marking, id: string, k: nat) {
    forall i :: 0 <= i < k && i < |v.outputArcs| && v.outputArcs[i].transition == id ==>
      OutputFree(v, v.outputArcs[i], m)
  }

  /** Transition.enabled(time): guard, then input arcs, then output capacities. */
  predicate IsEnabled(v: NetView, m: Marking, t: TransitionView, time: int) {
    t.guard(m) && InputsReady(v, m, t.id, time, |v.inputArcs|) && OutputsFree(v, m, t.id, |v.outputArcs|)
  }

  lemma InputsReadyStep(v: NetView, m: Marking, id: string, time: int, k: nat)
    requires k < |v.inputArcs|
    ensures InputsReady(v, m, id, time, k + 1) <==>
      InputsReady(v, m, id, time, k) &&
      (v.inputArcs[k].transition == id ==> InputReady(v.inputArcs[k], m, time))
  {
  }

  lemma OutputsFreeStep(v: NetView, m: Marking, id: string, k: nat)
    requires k < |v.outputArcs|
    ensures OutputsFree(v, m, id, k + 1) <==>
      OutputsFree(v, m, id, k) &&
      (v.outputArcs[k].transition == id ==> OutputFree(v, v.outputArcs[k], m))
  {
  }

  /**
   * The loops of Transition.enabled(time) over the view: the guard, then each input arc of
   * `t` while still enabled, then each output arc of `t` while still enabled.
   */
  method EnabledIn(v: NetView, m: Marking, t: TransitionView, time: int) returns (enabled: bool)
    ensures enabled == IsEnabled(v, m, t, time)
  {
    enabled := t.guard(m);
    if enabled && |v.inputArcs| > 0 {
      var k := 0;
      while enabled && k < |v.inputArcs|
        invariant 0 <= k <= |v.inputArcs|
        invariant enabled <==> InputsReady(v, m, t.id, time, k)
      {
        var arc := v.inputArcs[k];
        InputsReadyStep(v, m, t.id, time, k);
        if arc.transition == t.id {
          var tokensList := TokensAt(m, arc.place);
          enabled := ContainsTimeIn(tokensList, time);
          enabled := enabled && arc.evaluate(tokensList);
        }
        k := k + 1;
      }
    }
    if enabled && |v.outputArcs| > 0 {
      var k := 0;
      while enabled && k < |v.outputArcs|
        invariant 0 <= k <= |v.outputArcs|
        invariant enabled <==> OutputsFree(v, m, t.id, k)
      {
        var arc := v.outputArcs[k];
        OutputsFreeStep(v, m, t.id, k);
        if arc.transition == t.id {
          var tokensList := TokensAt(m, arc.place);
          if CapacityAt(v, arc.place) != 0 {
            enabled := enabled && CapacityAt(v, arc.place) > |tokensList|;
          }
        }
        k := k + 1;
      }
    }
  }

  /** The net is dead when no transition is enabled at time 0 (in particular when there is none). */
  predicate Dead(v: NetView, m: Marking, ts: seq<TransitionView>) {
    forall i :: 0 <= i < |ts| ==> !IsEnabled(v, m, ts[i], 0)
  }

  /** The net's dead-check over the view: stops at the first transition enabled at time 0. */
  method DeadIn(v: NetView, m: Marking, ts: seq<TransitionView>) returns (dead: bool)
    ensures dead == Dead(v, m, ts)
  {
    var k := 0;
    while k < |ts|
      invariant 0 <= k <= |ts|
      invariant forall i :: 0 <= i < k ==> !IsEnabled(v, m, ts[i], 0)
    {
      var enabled := EnabledIn(v, m, ts[k], 0);
      if enabled {
        return false;
      }
      k := k + 1;
    }
    return true;
  }

  // ---------------------------------------------------------------------------------------
  // Transition.fire

  /** A marking, and whether removing tokens threw on the way to it. */
  datatype FireResult = FireResult(marking: Marking, thrown: bool)

  /** One input arc of the firing transition: its execute() tokens are removed from its place. */
  function RemoveStep(f: FireResult, a: ArcView, id: string): (r: FireResult)
    ensures |r.marking| == |f.marking|
  {
    if f.thrown || a.transition != id || a.place >= |f.marking| then f
    else
      var o := RemoveAllRun(f.marking[a.place], a.execute);
      FireResult(f.marking[a.place := o.kept], o.thrown)
  }

  /** The first loop of fire: the input arcs in net order, up to the first exception. */
  function RemovePhase(arcs: seq<ArcView>, m: Marking, id: string): (f: FireResult)
    ensures |f.marking| == |m|
  {
    if arcs == [] then FireResult(m, false)
    else RemoveStep(RemovePhase(arcs[..|arcs| - 1], m, id), arcs[|arcs| - 1], id)
  }

  /** One output arc: its execute() tokens, shifted by the clock, are appended to its place. */
  function ProduceStep(m: Marking, a: ArcView, id: string, clock: int): (r: Marking)
    ensures |r| == |m|
  {
    if a.transition != id || a.place >= |m| then m
    else m[a.place := m[a.place] + Shifted(a.execute, clock)]
  }

  /** The second loop of fire: the output arcs in net order. */
  function ProducePhase(arcs: seq<ArcView>, m: Marking, id: string, clock: int): (r: Marking)
    ensures |r| == |m|
  {
    if arcs == [] then m
    else ProduceStep(ProducePhase(arcs[..|arcs| - 1], m, id, clock), arcs[|arcs| - 1], id, clock)
  }

  /** Transition.fire(clock): remove through every input arc, then produce through every output arc. */
  function Fired(v: NetView, m: Marking, id: string, clock: int): (f: FireResult)
    ensures |f.marking| == |m|
  {
    var removed := RemovePhase(v.inputArcs, m, id);
    if removed.thrown then removed
    else FireResult(ProducePhase(v.outputArcs, removed.marking, id, clock), false)
  }

  /** Once removal has thrown, later input arcs are not visited. */
  lemma {:induction false} RemovePhaseStopsAtThrow(pre: seq<ArcView>, post: seq<ArcView>, m: Marking, id: string)
    requires RemovePhase(pre, m, id).thrown
    ensures RemovePhase(pre + post, m, id) == RemovePhase(pre, m, id)
    decreases |post|
  {
    if post == [] {
      assert pre + post == pre;
    } else {
      var init := post[..|post| - 1];
      RemovePhaseStopsAtThrow(pre, init, m, id);
      assert (pre + post)[..|pre + post| - 1] == pre + init;
    }
  }

  /** Removal that throws at arc k is the outcome of the whole first loop. */
  lemma RemovePhaseThrowsAt(arcs: seq<ArcView>, m: Marking, id: string, k: nat)
    requires k < |arcs| && RemovePhase(arcs[..k + 1], m, id).thrown
    ensures RemovePhase(arcs, m, id) == RemovePhase(arcs[..k + 1], m, id)
  {
    RemovePhaseStopsAtThrow(arcs[..k + 1], arcs[k + 1..], m, id);
    assert arcs[..k + 1] + arcs[k + 1..] == arcs;
  }

  // ---------------------------------------------------------------------------------------
  // Arcs of other transitions play no part

  /** The arcs of transition `id`, in net order. */
  function ArcsOf(arcs: seq<ArcView>, id: string): (r: seq<ArcView>)
    ensures |r| <= |arcs|
    ensures forall i :: 0 <= i < |r| ==> r[i].transition == id
  {
    if arcs == [] then []
    else ArcsOf(arcs[..|arcs| - 1], id) + (if arcs[|arcs| - 1].transition == id then [arcs[|arcs| - 1]] else [])
  }

  lemma {:induction false} ArcsOfMembers(arcs: seq<ArcView>, id: string, i: nat)
    requires i < |arcs| && arcs[i].transition == id
    ensures exists j :: 0 <= j < |ArcsOf(arcs, id)| && ArcsOf(arcs, id)[j] == arcs[i]
    decreases |arcs|
  {
    var n := |arcs| - 1;
    if i < n {
      ArcsOfMembers(arcs[..n], id, i);
      var j :| 0 <= j < |ArcsOf(arcs[..n], id)| && ArcsOf(arcs[..n], id)[j] == arcs[..n][i];
      assert ArcsOf(arcs, id)[j] == arcs[i];
    } else {
      assert ArcsOf(arcs, id)[|ArcsOf(arcs, id)| - 1] == arcs[i];
    }
  }

  lemma {:induction false} ArcsOfSources(arcs: seq<ArcView>, id: string, j: nat)
    requires j < |ArcsOf(arcs, id)|
    ensures exists i :: 0 <= i < |arcs| && arcs[i] == ArcsOf(arcs, id)[j]
    decreases |arcs|
  {
    var n := |arcs| - 1;
    if j < |ArcsOf(arcs[..n], id)| {
      ArcsOfSources(arcs[..n], id, j);
      var i :| 0 <= i < n && arcs[..n][i] == ArcsOf(arcs[..n], id)[j];
      assert arcs[i] == ArcsOf(arcs, id)[j];
    } else {
      assert arcs[n] == ArcsOf(arcs, id)[j];
    }
  }

  /** The net with only the arcs of transition `id`. */
  function Restrict(v: NetView, id: string): NetView {
    NetView(v.capacities, ArcsOf(v.inputArcs, id), ArcsOf(v.outputArcs, id))
  }

  /** enabled never looks at the arcs of other transitions. */
  lemma EnabledOnlyReadsOwnArcs(v: NetView, m: Marking, t: TransitionView, time: int)
    ensures IsEnabled(v, m, t, time) <==> IsEnabled(Restrict(v, t.id), m, t, time)
  {
    var r := Restrict(v, t.id);
    if InputsReady(v, m, t.id, time, |v.inputArcs|) {
      forall j | 0 <= j < |r.inputArcs|
        ensures InputReady(r.inputArcs[j], m, time)
      {
        ArcsOfSources(v.inputArcs, t.id, j);
      }
    }
    if InputsReady(r, m, t.id, time, |r.inputArcs|) {
      forall i | 0 <= i < |v.inputArcs| && v.inputArcs[i].transition == t.id
        ensures InputReady(v.inputArcs[i], m, time)
      {
        ArcsOfMembers(v.inputArcs, t.id, i);
      }
    }
    if OutputsFree(v, m, t.id, |v.outputArcs|) {
      forall j | 0 <= j < |r.outputArcs|
        ensures OutputFree(r, r.outputArcs[j], m)
      {
        ArcsOfSources(v.outputArcs, t.id, j);
      }
    }
    if OutputsFree(r, m, t.id, |r.outputArcs|) {
      forall i | 0 <= i < |v.outputArcs| && v.outputArcs[i].transition == t.id
        ensures OutputFree(v, v.outputArcs[i], m)
      {
        ArcsOfMembers(v.outputArcs, t.id, i);
      }
    }
  }

  lemma {:induction false} RemovePhaseOnlyOwnArcs(arcs: seq<ArcView>, m: Marking, id: string)
    ensures RemovePhase(arcs, m, id) == RemovePhase(ArcsOf(arcs, id), m, id)
    decreases |arcs|
  {
    if arcs != [] {
      var init, last := arcs[..|arcs| - 1], arcs[|arcs| - 1];
      RemovePhaseOnlyOwnArcs(init, m, id);
      if last.transition == id {
        var own := ArcsOf(init, id) + [last];
        assert own[..|own| - 1] == ArcsOf(init, id);
      } else {
        assert ArcsOf(arcs, id) == ArcsOf(init, id);
      }
    }
  }

  lemma {:induction false} ProducePhaseOnlyOwnArcs(arcs: seq<ArcView>, m: Marking, id: string, clock: int)
    ensures ProducePhase(arcs, m, id, clock) == ProducePhase(ArcsOf(arcs, id), m, id, clock)
    decreases |arcs|
  {
    if arcs != [] {
      var init, last := arcs[..|arcs| - 1], arcs[|arcs| - 1];
      ProducePhaseOnlyOwnArcs(init, m, id, clock);
      if last.transition == id {
        var own := ArcsOf(init, id) + [last];
        assert own[..|own| - 1] == ArcsOf(init, id);
      } else {
        assert ArcsOf(arcs, id) == ArcsOf(init, id);
      }
    }
  }

  /** fire never touches the arcs of other transitions. */
  lemma FireOnlyUsesOwnArcs(v: NetView, m: Marking, id: string, clock: int)
    ensures Fired(v, m, id, clock) == Fired(Restrict(v, id), m, id, clock)
  {
    RemovePhaseOnlyOwnArcs(v.inputArcs, m, id);
    ProducePhaseOnlyOwnArcs(v.outputArcs, RemovePhase(v.inputArcs, m, id).marking, id, clock);
  }

  /** A transition whose guard holds and that has no arcs is enabled, at any time. */
  lemma EnabledWithoutArcs(v: NetView, m: Marking, t: TransitionView, time: int)
    requires t.guard(m)
    requires forall i :: 0 <= i < |v.inputArcs| ==> v.inputArcs[i].transition != t.id
    requires forall i :: 0 <= i < |v.outputArcs| ==> v.outputArcs[i].transition != t.id
    ensures IsEnabled(v, m, t, time)
  {
  }

  /** A guard that fails disables the transition, whatever the arcs say. */
  lemma GuardFalseDisables(v: NetView, m: Marking, t: TransitionView, time: int)
    requires !t.guard(m)
    ensures !IsEnabled(v, m, t, time)
  {
  }

  // ---------------------------------------------------------------------------------------
  // Capacities

  /** Every place with a positive capacity holds at most that many tokens. */
  predicate WithinCapacity(v: NetView, m: Marking) {
    forall p :: 0 <= p < |m| && CapacityAt(v, p) > 0 ==> |m[p]| <= CapacityAt(v, p)
  }

  /**
   * Among the output arcs of `id`, each place is the target of at most one arc, and each of
   * those arcs creates at most one token.
   */
  predicate SingleTokenOutputs(v: NetView, id: string) {
    (forall i :: 0 <= i < |v.outputArcs| && v.outputArcs[i].transition == id ==>
      |v.outputArcs[i].execute| <= 1)
    && (forall i, j ::
          (0 <= i < j < |v.outputArcs| && v.outputArcs[i].transition == id && v.outputArcs[j].transition == id)
          ==> v.outputArcs[i].place != v.outputArcs[j].place)
  }

  /** Removal never adds tokens to a place. */
  lemma {:induction false} RemovePhaseShrinks(arcs: seq<ArcView>, m: Marking, id: string, p: nat)
    requires p < |m|
    ensures |RemovePhase(arcs, m, id).marking[p]| <= |m[p]|
    decreases |arcs|
  {
    if arcs != [] {
      var init, a := arcs[..|arcs| - 1], arcs[|arcs| - 1];
      RemovePhaseShrinks(init, m, id, p);
      var f := RemovePhase(init, m, id);
      if !f.thrown && a.transition == id && a.place < |f.marking| {
        RemoveAllKeepsOrder(f.marking[a.place], a.execute);
      }
    }
  }

  /**
   * The tokens the own arcs among `arcs` put into place `p`: each such arc's tokens, shifted by
   * the clock, in net order.
   */
  function Produced(arcs: seq<ArcView>, id: string, clock: int, p: nat): (r: seq<Token>)
    ensures (forall i :: 0 <= i < |arcs| ==> arcs[i].transition != id || arcs[i].place != p) ==> r == []
  {
    if arcs == [] then []
    else
      var a := arcs[|arcs| - 1];
      Produced(arcs[..|arcs| - 1], id, clock, p) + (if a.transition == id && a.place == p then Shifted(a.execute, clock) else [])
  }

  /** Production appends to every place exactly what the arcs into it produce, in net order. */
  lemma {:induction false} ProducePhaseAppends(arcs: seq<ArcView>, m: Marking, id: string, clock: int, p: nat)
    requires p < |m|
    ensures ProducePhase(arcs, m, id, clock)[p] == m[p] + Produced(arcs, id, clock, p)
    decreases |arcs|
  {
    if arcs != [] {
      var init, a := arcs[..|arcs| - 1], arcs[|arcs| - 1];
      ProducePhaseAppends(init, m, id, clock, p);
      var before := ProducePhase(init, m, id, clock);
      if a.transition == id && a.place == p {
        assert ProducePhase(arcs, m, id, clock)[p] == before[p] + Shifted(a.execute, clock);
        assert m[p] + Produced(arcs, id, clock, p) == (m[p] + Produced(init, id, clock, p)) + Shifted(a.execute, clock);
      } else {
        assert ProducePhase(arcs, m, id, clock)[p] == before[p];
        assert Produced(arcs, id, clock, p) == Produced(init, id, clock, p) + [];
      }
    }
  }

  /**
   * Production through the first arcs of `arcs`: a place that none of them targets keeps its
   * tokens, and a place that one of them targets gains exactly that arc's tokens, shifted by
   * the clock, after its own.
   */
  lemma {:induction false} ProducePhaseGrowth(arcs: seq<ArcView>, m: Marking, id: string, clock: int, p: nat)
    requires p < |m|
    requires forall i, j ::
      (0 <= i < j < |arcs| && arcs[i].transition == id && arcs[j].transition == id)
      ==> arcs[i].place != arcs[j].place
    ensures (forall i :: 0 <= i < |arcs| ==> arcs[i].transition != id || arcs[i].place != p) ==>
      ProducePhase(arcs, m, id, clock)[p] == m[p]
    ensures forall i :: 0 <= i < |arcs| && arcs[i].transition == id && arcs[i].place == p ==>
      ProducePhase(arcs, m, id, clock)[p] == m[p] + Shifted(arcs[i].execute, clock)
    decreases |arcs|
  {
    if arcs != [] {
      var n := |arcs| - 1;
      var init, a := arcs[..n], arcs[n];
      ProducePhaseGrowth(init, m, id, clock, p);
      forall i | 0 <= i < |arcs| && arcs[i].transition == id && arcs[i].place == p
        ensures ProducePhase(arcs, m, id, clock)[p] == m[p] + Shifted(arcs[i].execute, clock)
      {
        if i < n {
          assert init[i] == arcs[i];
          assert a.transition != id || a.place != p;
        } else {
          assert forall k :: 0 <= k < |init| ==> init[k].transition != id || init[k].place != p by {
            forall k | 0 <= k < |init|
              ensures init[k].transition != id || init[k].place != p
            {
              assert init[k] == arcs[k];
            }
          }
        }
      }
    }
  }

  /**
   * Firing an enabled transition keeps every place within its capacity, when each output place
   * receives at most one token from one output arc.
   */
  lemma FireKeepsCapacity(v: NetView, m: Marking, t: TransitionView, time: int, clock: int)
    requires |v.capacities| == |m|
    requires WithinCapacity(v, m)
    requires IsEnabled(v, m, t, time)
    requires SingleTokenOutputs(v, t.id)
    ensures WithinCapacity(v, Fired(v, m, t.id, clock).marking)
  {
    var removed := RemovePhase(v.inputArcs, m, t.id);
    var f := Fired(v, m, t.id, clock);
    forall p | 0 <= p < |f.marking| && CapacityAt(v, p) > 0
      ensures |f.marking[p]| <= CapacityAt(v, p)
    {
      RemovePhaseShrinks(v.inputArcs, m, t.id, p);
      if !removed.thrown {
        ProducePhaseGrowth(v.outputArcs, removed.marking, t.id, clock, p);
        if i :| 0 <= i < |v.outputArcs| && v.outputArcs[i].transition == t.id && v.outputArcs[i].place == p {
          assert OutputFree(v, v.outputArcs[i], m);
        }
      }
    }
  }

  // ---------------------------------------------------------------------------------------
  // Timed production

  /** Every token an arc of `id` creates is untimed. */
  predicate UntimedOutputs(v: NetView, id: string) {
    forall i :: 0 <= i < |v.outputArcs| && v.outputArcs[i].transition == id ==>
      AllUntimed(v.outputArcs[i].execute)
  }

  lemma {:induction false} ProducePhaseUntimed(arcs: seq<ArcView>, m: Marking, id: string, c1: int, c2: int)
    requires forall i :: 0 <= i < |arcs| && arcs[i].transition == id ==> AllUntimed(arcs[i].execute)
    ensures ProducePhase(arcs, m, id, c1) == ProducePhase(arcs, m, id, c2)
    decreases |arcs|
  {
    if arcs != [] {
      var n := |arcs| - 1;
      ProducePhaseUntimed(arcs[..n], m, id, c1, c2);
      if arcs[n].transition == id {
        ShiftedUntimed(arcs[n].execute, c1);
        ShiftedUntimed(arcs[n].execute, c2);
      }
    }
  }

  /** With untimed inscriptions (the default execute()), the clock has no effect on firing. */
  lemma FireIgnoresClockWhenUntimed(v: NetView, m: Marking, id: string, c1: int, c2: int)
    requires UntimedOutputs(v, id)
    ensures Fired(v, m, id, c1) == Fired(v, m, id, c2)
  {
    ProducePhaseUntimed(v.outputArcs, RemovePhase(v.inputArcs, m, id).marking, id, c1, c2);
  }

  /**
   * What a firing leaves in a place: the tokens the input arcs left there, followed by the
   * tokens of every output arc of the transition into that place, in net order.
   */
  lemma FireStampsDelay(v: NetView, m: Marking, id: string, clock: int, p: nat)
    requires p < |m|
    requires !RemovePhase(v.inputArcs, m, id).thrown
    ensures Fired(v, m, id, clock).marking[p] ==
      RemovePhase(v.inputArcs, m, id).marking[p] + Produced(v.outputArcs, id, clock, p)
  {
    ProducePhaseAppends(v.outputArcs, RemovePhase(v.inputArcs, m, id).marking, id, clock, p);
  }

  /**
   * When the transition's output arcs target distinct places, an output arc's place ends as the
   * tokens the input arcs left there, followed by the arc's tokens with every timed stamp (a
   * delay d) moved to d plus the firing clock.
   */
  lemma FireStampsDelayDistinct(v: NetView, m: Marking, id: string, clock: int, k: nat)
    requires k < |v.outputArcs| && v.outputArcs[k].transition == id && v.outputArcs[k].place < |m|
    requires forall i, j ::
      (0 <= i < j < |v.outputArcs| && v.outputArcs[i].transition == id && v.outputArcs[j].transition == id)
      ==> v.outputArcs[i].place != v.outputArcs[j].place
    requires !RemovePhase(v.inputArcs, m, id).thrown
    ensures var a, removed := v.outputArcs[k], RemovePhase(v.inputArcs, m, id).marking;
      Fired(v, m, id, clock).marking[a.place] == removed[a.place] + Shifted(a.execute, clock)
    ensures var a, removed := v.outputArcs[k], RemovePhase(v.inputArcs, m, id).marking;
      forall j :: 0 <= j < |a.execute| && a.execute[j].timestamp != 0 ==>
        Fired(v, m, id, clock).marking[a.place][|removed[a.place]| + j].timestamp == a.execute[j].timestamp + clock
  {
    var a, removed := v.outputArcs[k], RemovePhase(v.inputArcs, m, id).marking;
    ProducePhaseGrowth(v.outputArcs, removed, id, clock, a.place);
    var got := ProducePhase(v.outputArcs, removed, id, clock)[a.place];
    assert Fired(v, m, id, clock).marking[a.place] == got;
    assert got == removed[a.place] + Shifted(a.execute, clock);
  }

  /** Two output arcs of one transition into one place: the place gets both arcs' tokens, in order. */
  lemma FireTwoArcsIntoOnePlace(v: NetView, m: Marking, id: string, clock: int, a1: ArcView, a2: ArcView)
    requires v.inputArcs == [] && v.outputArcs == [a1, a2]
    requires a1.transition == id && a2.transition == id && a1.place == a2.place < |m|
    ensures Fired(v, m, id, clock).marking[a1.place] ==
      m[a1.place] + Shifted(a1.execute, clock) + Shifted(a2.execute, clock)
  {
    assert v.inputArcs[..0] == [];
    FireStampsDelay(v, m, id, clock, a1.place);
    assert [a1, a2][..1] == [a1] && [a1][..0] == [];
  }

  /** The simplest instance: one output arc creating one token with delay d. */
  lemma FireStampsDelayExample(v: NetView, m: Marking, id: string, clock: int, a: ArcView, d: int)
    requires v.inputArcs == [] && v.outputArcs == [a]
    requires a.transition == id && a.place < |m| && d != 0
    requires a.execute == [TokenAt(Num(1), d)]
    ensures Fired(v, m, id, clock).marking[a.place] == m[a.place] + [TokenAt(Num(1), d + clock)]
  {
    assert v.inputArcs[..0] == [];
    FireStampsDelayDistinct(v, m, id, clock, 0);
    assert Shifted(a.execute, clock) == [TokenAt(Num(1), d + clock)];
  }
}
