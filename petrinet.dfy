/**
 * The net the simulator runs: its places, transitions and arcs, and the two operations that
 * Transition performs on it, enabled(time) and fire(clock). Both are proved against the value
 * firing rule of module Firing, applied to the net's View() and Marking().
 */
module PetriNets {
  import opened Wrappers
  import opened Text
  import opened Tokens
  import opened TokenSets
  import opened Elements
  import opened Firing

  /** The token list of each place, in the order of `ps`. */
  function TokenLists(ps: seq<Place>): (m: Marking)
    reads ps, set p | p in ps :: p.tokens
    ensures |m| == |ps|
    ensures forall i :: 0 <= i < |ps| ==> m[i] == ps[i].tokens.tokens
  {
    if ps == [] then [] else TokenLists(ps[..|ps| - 1]) + [ps[|ps| - 1].tokens.tokens]
  }

  /** The capacity of each place, in the order of `ps`. */
  function Capacities(ps: seq<Place>): (c: seq<int>)
    reads ps
    ensures |c| == |ps|
    ensures forall i :: 0 <= i < |ps| ==> c[i] == ps[i].capacity
  {
    if ps == [] then [] else Capacities(ps[..|ps| - 1]) + [ps[|ps| - 1].capacity]
  }

  /** The position of `p` in `ps`, or |ps| when it is not there. */
  function PlaceIndex(ps: seq<Place>, p: Place): (i: nat)
    ensures i <= |ps|
    ensures i < |ps| ==> ps[i] == p
    ensures p in ps ==> i < |ps|
  {
    if ps == [] then 0 else if ps[0] == p then 0 else 1 + PlaceIndex(ps[1..], p)
  }

  function ArcViewOf(ps: seq<Place>, a: Arc): ArcView
    reads a, a.transition.obj
  {
    ArcView(PlaceIndex(ps, a.place), a.transition.obj.id, a.EvaluateOn, a.ExecuteTokens())
  }

  function ArcViews(ps: seq<Place>, arcs: seq<Arc>): (r: seq<ArcView>)
    reads arcs, set a | a in arcs :: a.transition.obj
    ensures |r| == |arcs|
    ensures forall i :: 0 <= i < |arcs| ==> r[i] == ArcViewOf(ps, arcs[i])
  {
    if arcs == [] then [] else ArcViews(ps, arcs[..|arcs| - 1]) + [ArcViewOf(ps, arcs[|arcs| - 1])]
  }

  function TransitionViewOf(t: Transition): TransitionView
    reads t.obj
  {
    TransitionView(t.obj.id, t.Evaluate)
  }

  function TransitionViews(ts: seq<Transition>): (r: seq<TransitionView>)
    reads set t | t in ts :: t.obj
    ensures |r| == |ts|
    ensures forall i :: 0 <= i < |ts| ==> r[i] == TransitionViewOf(ts[i])
  {
    if ts == [] then [] else TransitionViews(ts[..|ts| - 1]) + [TransitionViewOf(ts[|ts| - 1])]
  }

  class PetriNet {
    const obj: NetObject
    var places: seq<Place>
    var transitions: seq<Transition>
    var inputArcs: seq<Arc>
    var outputArcs: seq<Arc>
    var importText: string
    var implementText: string
    var declarationText: string

    /** An empty net; it takes the next id of the counter like every net object. */
    constructor (counter: IdCounter)
      modifies counter
      ensures fresh(obj) && obj.id == NatToString(old(counter.latest))
      ensures counter.latest == old(counter.latest) + 1
      ensures places == [] && transitions == [] && inputArcs == [] && outputArcs == []
      ensures importText == "" && implementText == "" && declarationText == ""
      ensures Valid()
    {
      obj := new NetObject(counter);
      places, transitions, inputArcs, outputArcs := [], [], [], [];
      importText, implementText, declarationText := "", "", "";
    }

    /**
     * The shape the simulator relies on: each place owns its token set, input arcs are input
     * arcs, output arcs are output arcs, and every arc's place belongs to the net.
     */
    predicate Valid()
      reads this, places, inputArcs, outputArcs
    {
      Distinct()
      && (forall a :: a in inputArcs ==> a.kind == InputArc && a.place in places)
      && (forall a :: a in outputArcs ==> a.kind == OutputArc && a.place in places)
    }

    /** The current marking: the tokens of each place, in the order of `places`. */
    function Marking(): (m: Marking)
      reads this, places, set p | p in places :: p.tokens
      ensures |m| == |places|
      ensures forall i :: 0 <= i < |places| ==> m[i] == places[i].tokens.tokens
    {
      TokenLists(places)
    }

    /** The structure of the net as the firing rule sees it. */
    function View(): (v: NetView)
      reads this, places, inputArcs, outputArcs
      reads set a | a in inputArcs :: a.transition.obj
      reads set a | a in outputArcs :: a.transition.obj
    {
      NetView(Capacities(places), ArcViews(places, inputArcs), ArcViews(places, outputArcs))
    }

    /** Transition.enabled(time) on this net's current marking. */
    method Enabled(t: Transition, time: int) returns (enabled: bool)
      requires Valid()
      ensures enabled == IsEnabled(View(), Marking(), TransitionViewOf(t), time)
    {
      enabled := EnabledIn(View(), Marking(), TransitionViewOf(t), time);
    }

    /**
     * Transition.fire(clock): removes the execute() tokens of each input arc of `t` from its
     * place (stopping at the first exception), then adds the execute() tokens of each output
     * arc of `t`, shifted by the clock, to its place; `t` records the clock.
     */
    method Fire(t: Transition, clock: int) returns (r: Result<()>)
      requires Valid()
      modifies t, set p | p in places :: p.tokens
      ensures Valid()
      ensures t.globalClock == clock && t.guardText == old(t.guardText)
      ensures var f := Fired(old(View()), old(Marking()), old(t.obj.id), clock);
        Holds(f.marking) && r == (if f.thrown then Fail(IllegalState) else Ok(()))
    {
      StampClock(t, clock);
      r := FireArcs(t.obj.id, clock);
    }

    /** The first statement of fire: the transition records the clock; the net is untouched. */
    method StampClock(t: Transition, clock: int)
      requires Valid()
      modifies t
      ensures Valid() && View() == old(View()) && Marking() == old(Marking())
      ensures t.globalClock == clock && t.guardText == old(t.guardText)
    {
      ghost var caps, ins, outs := Capacities(places), ArcViews(places, inputArcs), ArcViews(places, outputArcs);
      ghost var toks := TokenLists(places);
      t.globalClock := clock;
      assert Capacities(places) == caps;
      assert ArcViews(places, inputArcs) == ins;
      assert ArcViews(places, outputArcs) == outs;
      assert TokenLists(places) == toks;
    }

    /** The two arc loops of fire, for the transition with id `id`. */
    method FireArcs(id: string, clock: int) returns (r: Result<()>)
      requires Valid()
      modifies set p | p in places :: p.tokens
      ensures Valid()
      ensures Holds(Fired(old(View()), old(Marking()), id, clock).marking)
      ensures r == (if Fired(old(View()), old(Marking()), id, clock).thrown then Fail(IllegalState) else Ok(()))
    {
      ghost var v := View();
      ghost var m := Marking();
      ShowsView();
      assert ShowsAll(v.outputArcs, outputArcs);
      var thrown := RemoveInputs(v, m, id);
      if thrown {
        r := Fail(IllegalState);
      } else {
        ProduceOutputs(v, RemovePhase(v.inputArcs, m, id).marking, id, clock);
        r := Ok(());
      }
    }

    /** `avs` is what the firing rule sees of `arcs`, arc by arc. */
    ghost predicate ShowsAll(avs: seq<ArcView>, arcs: seq<Arc>)
      reads this, arcs, set a | a in arcs :: a.transition.obj
    {
      |avs| == |arcs| && forall i :: 0 <= i < |arcs| ==> Shows(avs[i], arcs[i])
    }

    /** The first loop of fire. */
    method RemoveInputs(ghost v: NetView, ghost m: Marking, id: string) returns (thrown: bool)
      requires Valid() && Holds(m)
      requires |v.inputArcs| == |inputArcs|
      requires forall i :: 0 <= i < |inputArcs| ==> Shows(v.inputArcs[i], inputArcs[i])
      modifies set p | p in places :: p.tokens
      ensures Valid()
      ensures Holds(RemovePhase(v.inputArcs, m, id).marking)
      ensures thrown == RemovePhase(v.inputArcs, m, id).thrown
    {
      var k := 0;
      thrown := false;
      while k < |inputArcs| && !thrown
        invariant 0 <= k <= |inputArcs|
        invariant Valid()
        invariant Holds(RemovePhase(v.inputArcs[..k], m, id).marking)
        invariant thrown == RemovePhase(v.inputArcs[..k], m, id).thrown
      {
        assert Shows(v.inputArcs[k], inputArcs[k]);
        thrown := RemoveAt(v, m, id, k);
        k := k + 1;
      }
      if thrown {
        RemovePhaseThrowsAt(v.inputArcs, m, id, k - 1);
      } else {
        assert v.inputArcs[..k] == v.inputArcs;
      }
    }

    /** One turn of the first loop of fire: input arc `k`, if it belongs to the transition. */
    method RemoveAt(ghost v: NetView, ghost m: Marking, id: string, k: nat) returns (thrown: bool)
      requires Valid() && k < |inputArcs| == |v.inputArcs|
      requires Shows(v.inputArcs[k], inputArcs[k])
      requires Holds(RemovePhase(v.inputArcs[..k], m, id).marking)
      requires !RemovePhase(v.inputArcs[..k], m, id).thrown
      modifies set p | p in places :: p.tokens
      ensures Valid()
      ensures Holds(RemovePhase(v.inputArcs[..k + 1], m, id).marking)
      ensures thrown == RemovePhase(v.inputArcs[..k + 1], m, id).thrown
    {
      var arc := inputArcs[k];
      assert v.inputArcs[..k + 1][..k] == v.inputArcs[..k];
      thrown := false;
      if arc.transition.obj.id == id {
        var res := RemoveThrough(arc, RemovePhase(v.inputArcs[..k], m, id).marking, v.inputArcs[k].place);
        thrown := res.Fail?;
      }
    }

    /** One input arc: arc.getPlace().removeTokens(arc.execute()). */
    method RemoveThrough(arc: Arc, ghost before: Marking, ghost p: nat) returns (res: Result<()>)
      requires Valid() && Holds(before)
      requires p < |places| && places[p] == arc.place
      modifies arc.place.tokens
      ensures Valid()
      ensures var o := RemoveAllRun(before[p], arc.ExecuteTokens());
        Holds(before[p := o.kept]) && res == (if o.thrown then Fail(IllegalState) else Ok(()))
    {
      var c := arc.Execute();
      res := arc.place.RemoveTokens(c);
      forall i | 0 <= i < |places| && i != p
        ensures places[i].tokens.tokens == before[i]
      {
        assert places[i].tokens != places[p].tokens;
      }
    }

    /** The second loop of fire. */
    method ProduceOutputs(ghost v: NetView, ghost m: Marking, id: string, clock: int)
      requires Valid() && Holds(m)
      requires ShowsAll(v.outputArcs, outputArcs)
      modifies set p | p in places :: p.tokens
      ensures Valid()
      ensures Holds(ProducePhase(v.outputArcs, m, id, clock))
    {
      var k := 0;
      while k < |outputArcs|
        invariant 0 <= k <= |outputArcs|
        invariant Valid()
        invariant Holds(ProducePhase(v.outputArcs[..k], m, id, clock))
      {
        assert Shows(v.outputArcs[k], outputArcs[k]);
        ProduceAt(v, m, id, clock, k);
        k := k + 1;
      }
      assert v.outputArcs[..k] == v.outputArcs;
    }

    /** One turn of the second loop of fire: output arc `k`, if it belongs to the transition. */
    method ProduceAt(ghost v: NetView, ghost m: Marking, id: string, clock: int, k: nat)
      requires Valid() && k < |outputArcs| == |v.outputArcs|
      requires Shows(v.outputArcs[k], outputArcs[k])
      requires Holds(ProducePhase(v.outputArcs[..k], m, id, clock))
      modifies set p | p in places :: p.tokens
      ensures Valid()
      ensures Holds(ProducePhase(v.outputArcs[..k + 1], m, id, clock))
    {
      var arc := outputArcs[k];
      assert v.outputArcs[..k + 1][..k] == v.outputArcs[..k];
      if arc.transition.obj.id == id {
        ProduceThrough(arc, ProducePhase(v.outputArcs[..k], m, id, clock), v.outputArcs[k].place, clock);
      }
    }

    /** One output arc: the execute() tokens, shifted by the clock, added to the arc's place. */
    method ProduceThrough(arc: Arc, ghost before: Marking, ghost p: nat, clock: int)
      requires Valid() && Holds(before)
      requires p < |places| && places[p] == arc.place
      modifies arc.place.tokens
      ensures Valid()
      ensures Holds(before[p := before[p] + Shifted(arc.ExecuteTokens(), clock)])
    {
      var tokenSet := arc.Execute();
      tokenSet.IncrementTime(clock);
      arc.place.AddToken(tokenSet);
      forall i | 0 <= i < |places| && i != p
        ensures places[i].tokens.tokens == before[i]
      {
        assert places[i].tokens != places[p].tokens;
      }
    }

    /** Each place owns its token set. */
    predicate Distinct()
      reads this, places
    {
      forall i, j :: 0 <= i < j < |places| ==> places[i].tokens != places[j].tokens
    }

    /** The places currently hold the token lists of `m`, in order. */
    ghost predicate Holds(m: Marking)
      reads this, places, set p | p in places :: p.tokens
    {
      |m| == |places| && forall i :: 0 <= i < |places| ==> places[i].tokens.tokens == m[i]
    }

    lemma HoldsMarking(m: Marking)
      requires Holds(m)
      ensures Marking() == m
    {
    }

    /** `av` is what the firing rule sees of arc `a` in this net. */
    ghost predicate Shows(av: ArcView, a: Arc)
      reads this, a, a.transition.obj
    {
      av.transition == a.transition.obj.id && av.place < |places| && places[av.place] == a.place
      && av.execute == a.ExecuteTokens()
    }

    lemma ShowsView()
      requires Valid()
      ensures Distinct() && Holds(Marking())
      ensures |View().inputArcs| == |inputArcs| && |View().outputArcs| == |outputArcs|
      ensures forall i :: 0 <= i < |inputArcs| ==> Shows(View().inputArcs[i], inputArcs[i])
      ensures forall i :: 0 <= i < |outputArcs| ==> Shows(View().outputArcs[i], outputArcs[i])
    {
    }

    /** The net is dead when none of its transitions is enabled at time 0. */
    method IsDead() returns (dead: bool)
      requires Valid()
      ensures dead == Dead(View(), Marking(), TransitionViews(transitions))
    {
      dead := DeadIn(View(), Marking(), TransitionViews(transitions));
    }

    /** addPlace: appends `p`, which must bring its own token set. */
    method AddPlace(p: Place)
      requires Valid()
      requires forall q :: q in places ==> q.tokens != p.tokens
      modifies this
      ensures places == old(places) + [p]
      ensures transitions == old(transitions)
      ensures inputArcs == old(inputArcs) && outputArcs == old(outputArcs)
      ensures Valid()
    {
      places := places + [p];
    }

    /** addTransition: appends `t`. */
    method AddTransition(t: Transition)
      modifies this
      ensures transitions == old(transitions) + [t]
      ensures places == old(places)
      ensures inputArcs == old(inputArcs) && outputArcs == old(outputArcs)
    {
      transitions := transitions + [t];
    }

    /** addInputArc: appends `a`, an input arc into one of the net's places. */
    method AddInputArc(a: Arc)
      requires Valid()
      requires a.kind == InputArc && a.place in places
      modifies this
      ensures inputArcs == old(inputArcs) + [a]
      ensures places == old(places) && transitions == old(transitions)
      ensures outputArcs == old(outputArcs)
      ensures Valid()
    {
      inputArcs := inputArcs + [a];
    }

    /** addOutputArc: appends `a`, an output arc into one of the net's places. */
    method AddOutputArc(a: Arc)
      requires Valid()
      requires a.kind == OutputArc && a.place in places
      modifies this
      ensures outputArcs == old(outputArcs) + [a]
      ensures places == old(places) && transitions == old(transitions)
      ensures inputArcs == old(inputArcs)
      ensures Valid()
    {
      outputArcs := outputArcs + [a];
    }
  }
}
