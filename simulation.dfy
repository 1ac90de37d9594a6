/**
 * The simulator: Simulation (untimed, every transition fires at clock 0) and TimedSimulation
 * (a simulation clock that jumps to the earliest token timestamp when nothing is enabled),
 * merged into one class told apart by `timed`. The run loop picks a random enabled transition
 * and fires it until the net is finished or the user stops the run.
 */
module Simulations {
  import opened Wrappers
  import opened Tokens
  import opened TokenSets
  import opened Elements
  import opened Firing
  import opened PetriNets

  /** Long.MAX_VALUE: incrementTime's "no timestamp found" value. */
  const LongMax: int := 0x7FFF_FFFF_FFFF_FFFF

  // ---------------------------------------------------------------------------------------
  // enabledTransitionList

  /** The transitions of `ts` (seen as `tvs`) enabled at `time`, in net order. */
  function EnabledOf(ts: seq<Transition>, tvs: seq<TransitionView>, v: NetView, m: Marking, time: int): (r: seq<Transition>)
    requires |ts| == |tvs|
    ensures |r| <= |ts|
    ensures forall t :: t in r ==> t in ts
  {
    if ts == [] then []
    else
      var n := |ts| - 1;
      EnabledOf(ts[..n], tvs[..n], v, m, time) + (if IsEnabled(v, m, tvs[n], time) then [ts[n]] else [])
  }

  /** A transition is in the list iff it is one of the net's transitions and is enabled. */
  lemma {:induction false} EnabledOfMembers(ts: seq<Transition>, tvs: seq<TransitionView>, v: NetView, m: Marking, time: int, t: Transition)
    requires |ts| == |tvs|
    ensures t in EnabledOf(ts, tvs, v, m, time) <==>
      exists i :: 0 <= i < |ts| && ts[i] == t && IsEnabled(v, m, tvs[i], time)
    decreases |ts|
  {
    if ts != [] {
      var n := |ts| - 1;
      EnabledOfMembers(ts[..n], tvs[..n], v, m, time, t);
      if t in EnabledOf(ts[..n], tvs[..n], v, m, time) {
        var i :| 0 <= i < n && ts[..n][i] == t && IsEnabled(v, m, tvs[..n][i], time);
        assert ts[i] == t && IsEnabled(v, m, tvs[i], time);
      }
      if i :| 0 <= i < |ts| && ts[i] == t && IsEnabled(v, m, tvs[i], time) {
        if i < n {
          assert ts[..n][i] == t && IsEnabled(v, m, tvs[..n][i], time);
        }
      }
    }
  }

  /** The list is empty iff no transition is enabled; at time 0 that is the net being dead. */
  lemma {:induction false} EnabledOfEmpty(ts: seq<Transition>, tvs: seq<TransitionView>, v: NetView, m: Marking, time: int)
    requires |ts| == |tvs|
    ensures EnabledOf(ts, tvs, v, m, time) == [] <==> forall i :: 0 <= i < |tvs| ==> !IsEnabled(v, m, tvs[i], time)
    ensures time == 0 ==> (EnabledOf(ts, tvs, v, m, time) == [] <==> Dead(v, m, tvs))
    decreases |ts|
  {
    if ts != [] {
      var n := |ts| - 1;
      EnabledOfEmpty(ts[..n], tvs[..n], v, m, time);
      assert forall i :: 0 <= i < n ==> tvs[..n][i] == tvs[i];
    }
  }

  /** The loop of enabledTransitionList over the net's transitions. */
  method EnabledAmong(ts: seq<Transition>, tvs: seq<TransitionView>, v: NetView, m: Marking, time: int) returns (r: seq<Transition>)
    requires |ts| == |tvs|
    ensures r == EnabledOf(ts, tvs, v, m, time)
  {
    r := [];
    var k := 0;
    while k < |ts|
      invariant 0 <= k <= |ts|
      invariant r == EnabledOf(ts[..k], tvs[..k], v, m, time)
    {
      var enabled := EnabledIn(v, m, tvs[k], time);
      if enabled {
        r := r + [ts[k]];
      }
      assert ts[..k + 1][..k] == ts[..k] && tvs[..k + 1][..k] == tvs[..k];
      k := k + 1;
    }
    assert ts[..k] == ts && tvs[..k] == tvs;
  }

  // ---------------------------------------------------------------------------------------
  // incrementTime

  /** tokensWithTimestamp: the tokens whose timestamp is positive, in order. */
  function TimedTokens(s: seq<Token>): (r: seq<Token>)
    ensures |r| <= |s|
    ensures forall i :: 0 <= i < |r| ==> r[i].timestamp > 0
  {
    if s == [] then []
    else TimedTokens(s[..|s| - 1]) + (if s[|s| - 1].timestamp > 0 then [s[|s| - 1]] else [])
  }

  lemma {:induction false} TimedTokensMembers(s: seq<Token>, t: Token)
    ensures t in TimedTokens(s) <==> t in s && t.timestamp > 0
    decreases |s|
  {
    if s != [] {
      var n := |s| - 1;
      TimedTokensMembers(s[..n], t);
      assert s == s[..n] + [s[n]];
    }
  }

  method TokensWithTimestamp(s: seq<Token>) returns (r: seq<Token>)
    ensures r == TimedTokens(s)
  {
    r := [];
    var k := 0;
    while k < |s|
      invariant 0 <= k <= |s|
      invariant r == TimedTokens(s[..k])
    {
      if s[k].timestamp > 0 {
        r := r + [s[k]];
      }
      assert s[..k + 1][..k] == s[..k];
      k := k + 1;
    }
    assert s[..k] == s;
  }

  /** The inner loop: the smallest nonzero timestamp of `s` below `acc`, or `acc`. */
  function MinStamp(s: seq<Token>, acc: int): (r: int)
    ensures r <= acc
  {
    if s == [] then acc
    else
      var a := MinStamp(s[..|s| - 1], acc);
      var ts := s[|s| - 1].timestamp;
      if ts != 0 && ts < a then ts else a
  }

  /** The outer loop: MinStamp over the timed tokens of every non-empty place, in order. */
  function Earliest(m: Marking, acc: int): (r: int)
    ensures r <= acc
  {
    if m == [] then acc
    else
      var a := Earliest(m[..|m| - 1], acc);
      if |m[|m| - 1]| > 0 then MinStamp(TimedTokens(m[|m| - 1]), a) else a
  }

  /** incrementTime: the earliest positive timestamp of the marking, if any; else unchanged. */
  function NextTime(m: Marking, time: int): int {
    var e := Earliest(m, LongMax);
    if e != LongMax then e else time
  }

  /** A MinStamp that moved is the nonzero timestamp of one of the tokens. */
  lemma {:induction false} MinStampWitness(s: seq<Token>, acc: int) returns (i: nat)
    requires MinStamp(s, acc) != acc
    ensures i < |s| && s[i].timestamp == MinStamp(s, acc) && s[i].timestamp != 0
    decreases |s|
  {
    var n := |s| - 1;
    if MinStamp(s, acc) == MinStamp(s[..n], acc) {
      i := MinStampWitness(s[..n], acc);
      assert s[i] == s[..n][i];
    } else {
      i := n;
    }
  }

  /** No nonzero timestamp of `s` is below MinStamp. */
  lemma {:induction false} MinStampMinimal(s: seq<Token>, acc: int, i: nat)
    requires i < |s| && s[i].timestamp != 0
    ensures MinStamp(s, acc) <= s[i].timestamp
    decreases |s|
  {
    var n := |s| - 1;
    if i < n {
      MinStampMinimal(s[..n], acc, i);
      assert s[..n][i] == s[i];
    }
  }

  /** The new clock is a positive timestamp that some token of the marking carries. */
  lemma {:induction false} EarliestWitness(m: Marking, acc: int) returns (p: nat, i: nat)
    requires Earliest(m, acc) != acc
    ensures p < |m| && i < |m[p]| && m[p][i].timestamp == Earliest(m, acc) && Earliest(m, acc) > 0
    decreases |m|
  {
    var n := |m| - 1;
    var a := Earliest(m[..n], acc);
    if Earliest(m, acc) == a {
      p, i := EarliestWitness(m[..n], acc);
      assert m[..n][p] == m[p];
    } else {
      var s := TimedTokens(m[n]);
      var j := MinStampWitness(s, a);
      TimedTokensMembers(m[n], s[j]);
      p := n;
      i :| 0 <= i < |m[n]| && m[n][i] == s[j];
    }
  }

  /** No positive timestamp of the marking below `acc` is earlier than the new clock. */
  lemma {:induction false} EarliestMinimal(m: Marking, acc: int, p: nat, i: nat)
    requires p < |m| && i < |m[p]| && 0 < m[p][i].timestamp < acc
    ensures Earliest(m, acc) <= m[p][i].timestamp
    decreases |m|
  {
    var n := |m| - 1;
    var a := Earliest(m[..n], acc);
    var s := TimedTokens(m[n]);
    assert Earliest(m, acc) == if |m[n]| > 0 then MinStamp(s, a) else a;
    if p < n {
      assert m[..n][p] == m[p];
      EarliestMinimal(m[..n], acc, p, i);
    } else {
      var t := m[n][i];
      TimedTokensMembers(m[n], t);
      var j :| 0 <= j < |s| && s[j] == t;
      MinStampMinimal(s, a, j);
    }
  }

  /**
   * incrementTime moves the clock to the smallest timestamp in (0, Long.MAX_VALUE) that a token
   * of the net carries, and leaves it alone when there is none.
   */
  lemma NextTimeIsEarliestStamp(m: Marking, time: int)
    ensures NextTime(m, time) != time ==>
      exists p, i :: 0 <= p < |m| && 0 <= i < |m[p]| && m[p][i].timestamp == NextTime(m, time) && NextTime(m, time) > 0
    ensures forall p, i :: 0 <= p < |m| && 0 <= i < |m[p]| && 0 < m[p][i].timestamp < LongMax ==>
      NextTime(m, time) <= m[p][i].timestamp
    ensures (exists p, i :: 0 <= p < |m| && 0 <= i < |m[p]| && 0 < m[p][i].timestamp < LongMax) ==>
      exists p, i :: 0 <= p < |m| && 0 <= i < |m[p]| && m[p][i].timestamp == NextTime(m, time) && NextTime(m, time) > 0
    ensures (forall p, i :: 0 <= p < |m| && 0 <= i < |m[p]| ==> !(0 < m[p][i].timestamp < LongMax)) ==>
      NextTime(m, time) == time
  {
    forall p, i | 0 <= p < |m| && 0 <= i < |m[p]| && 0 < m[p][i].timestamp < LongMax
      ensures NextTime(m, time) <= m[p][i].timestamp
    {
      EarliestMinimal(m, LongMax, p, i);
    }
    if p, i :| 0 <= p < |m| && 0 <= i < |m[p]| && 0 < m[p][i].timestamp < LongMax {
      EarliestMinimal(m, LongMax, p, i);
    }
    if Earliest(m, LongMax) != LongMax {
      var p, i := EarliestWitness(m, LongMax);
    }
  }

  /** The nested loops of incrementTime, over the marking's places and their timed tokens. */
  method NextTimeIn(m: Marking, time: int) returns (r: int)
    ensures r == NextTime(m, time)
  {
    var minTime := LongMax;
    var k := 0;
    while k < |m|
      invariant 0 <= k <= |m|
      invariant minTime == Earliest(m[..k], LongMax)
    {
      var tokenList := m[k];
      assert m[..k + 1][..k] == m[..k];
      if |tokenList| > 0 {
        var timedTokens := TokensWithTimestamp(tokenList);
        var j := 0;
        ghost var start := minTime;
        while j < |timedTokens|
          invariant 0 <= j <= |timedTokens|
          invariant minTime == MinStamp(timedTokens[..j], start)
        {
          var token := timedTokens[j];
          assert timedTokens[..j + 1][..j] == timedTokens[..j];
          if token.timestamp != 0 && token.timestamp < minTime {
            minTime := token.timestamp;
          }
          j := j + 1;
        }
        assert timedTokens[..j] == timedTokens;
      }
      k := k + 1;
    }
    assert m[..k] == m;
    r := if minTime != LongMax then minTime else time;
  }

  /**
   * The clock can move backwards: with a stale token stamped 5 and a pending one stamped 20,
   * a net at time 10 goes back to 5 instead of forward to 20.
   */
  lemma NextTimeCanGoBack()
    ensures NextTime([[TokenAt(Num(1), 20)], [TokenAt(Num(1), 5)]], 10) == 5
  {
    var m := [[TokenAt(Num(1), 20)], [TokenAt(Num(1), 5)]];
    assert m[..1] == [[TokenAt(Num(1), 20)]] && m[..1][..0] == [];
    assert TimedTokens([TokenAt(Num(1), 20)]) == [TokenAt(Num(1), 20)];
    assert TimedTokens([TokenAt(Num(1), 5)]) == [TokenAt(Num(1), 5)];
    assert MinStamp([TokenAt(Num(1), 20)], LongMax) == 20;
    assert Earliest(m, LongMax) == 5;
  }

  /**
   * The consequence for a timed run: a transition fed by a token stamped 20 is not enabled at
   * 10, and after incrementTime moves the clock back to 5 it is still not enabled, so
   * isFinished reports a deadlock, although the transition would be enabled at 20.
   */
  lemma TimedRunMissesPendingToken()
    ensures var v := NetView([0, 0], [ArcView(0, "t", s => |s| > 0, [TokenOf(Num(1))])], []);
      var m := [[TokenAt(Num(1), 20)], [TokenAt(Num(1), 5)]];
      var t := TransitionView("t", _ => true);
      !IsEnabled(v, m, t, 10) && NextTime(m, 10) == 5 && !IsEnabled(v, m, t, 5) && IsEnabled(v, m, t, 20)
      && Finishes([t], v, m, true, 10) == Check(true, 5)
  {
    var v := NetView([0, 0], [ArcView(0, "t", s => |s| > 0, [TokenOf(Num(1))])], []);
    var m := [[TokenAt(Num(1), 20)], [TokenAt(Num(1), 5)]];
    var t := TransitionView("t", _ => true);
    PendingTokenEnabling();
    NoneEnabledSingle(v, m, t, 10);
    NoneEnabledSingle(v, m, t, 5);
    FinishesAfterJump([t], v, m, 10);
  }

  /** A timed check that finds nothing enabled before and after the jump reports finished. */
  lemma FinishesAfterJump(tvs: seq<TransitionView>, v: NetView, m: Marking, time: int)
    requires NoneEnabled(v, m, tvs, time) && NoneEnabled(v, m, tvs, NextTime(m, time))
    ensures Finishes(tvs, v, m, true, time) == Check(true, NextTime(m, time))
  {
  }

  lemma NoneEnabledSingle(v: NetView, m: Marking, t: TransitionView, time: int)
    requires !IsEnabled(v, m, t, time)
    ensures NoneEnabled(v, m, [t], time)
  {
    assert [t][0] == t;
  }

  /** When the one transition of the pending-token net is enabled. */
  lemma PendingTokenEnabling()
    ensures var v := NetView([0, 0], [ArcView(0, "t", s => |s| > 0, [TokenOf(Num(1))])], []);
      var m := [[TokenAt(Num(1), 20)], [TokenAt(Num(1), 5)]];
      var t := TransitionView("t", _ => true);
      !IsEnabled(v, m, t, 10) && NextTime(m, 10) == 5 && !IsEnabled(v, m, t, 5) && IsEnabled(v, m, t, 20)
  {
    var v := NetView([0, 0], [ArcView(0, "t", s => |s| > 0, [TokenOf(Num(1))])], []);
    var m := [[TokenAt(Num(1), 20)], [TokenAt(Num(1), 5)]];
    var t := TransitionView("t", _ => true);
    NextTimeCanGoBack();
    assert TokensAt(m, 0) == [TokenAt(Num(1), 20)];
    AvailableSingleTimed(TokenAt(Num(1), 20), 10);
    AvailableSingleTimed(TokenAt(Num(1), 20), 5);
    AvailableSingleTimed(TokenAt(Num(1), 20), 20);
    SingleInputEnabling(v, m, t, 10);
    SingleInputEnabling(v, m, t, 5);
    SingleInputEnabling(v, m, t, 20);
  }

  /** A transition whose guard holds, with one input arc and no output arcs, is enabled when that arc is ready. */
  lemma SingleInputEnabling(v: NetView, m: Marking, t: TransitionView, time: int)
    requires |v.inputArcs| == 1 && v.inputArcs[0].transition == t.id && v.outputArcs == [] && t.guard(m)
    ensures IsEnabled(v, m, t, time) <==> InputReady(v.inputArcs[0], m, time)
  {
  }

  /**
   * getRandomTransition over a snapshot of the net: None when nothing is enabled, else the
   * enabled transition at position `choice` (modulo their number).
   */
  function Pick(ts: seq<Transition>, tvs: seq<TransitionView>, v: NetView, m: Marking, time: int, choice: nat): (r: Option<Transition>)
    requires |ts| == |tvs|
    ensures r == None <==> NoneEnabled(v, m, tvs, time)
    ensures r.Some? ==> exists i :: 0 <= i < |ts| && ts[i] == r.value && IsEnabled(v, m, tvs[i], time)
  {
    var enabled := EnabledOf(ts, tvs, v, m, time);
    EnabledOfEmpty(ts, tvs, v, m, time);
    if |enabled| == 0 then None
    else
      var t := enabled[choice % |enabled|];
      EnabledOfMembers(ts, tvs, v, m, time, t);
      Some(t)
  }

  // ---------------------------------------------------------------------------------------
  // isFinished

  /** No transition of `tvs` is enabled at `time`. */
  predicate NoneEnabled(v: NetView, m: Marking, tvs: seq<TransitionView>, time: int) {
    forall i :: 0 <= i < |tvs| ==> !IsEnabled(v, m, tvs[i], time)
  }

  /** The outcome of isFinished: whether the run is over, and the (timed) clock afterwards. */
  datatype Check = Check(finished: bool, time: int)

  /**
   * isFinished over a snapshot of the net: untimed, the net is dead; timed, nothing is enabled
   * at `time` and, once the clock has moved to NextTime, still nothing is.
   */
  function Finishes(tvs: seq<TransitionView>, v: NetView, m: Marking, timed: bool, time: int): (r: Check)
    ensures r.finished ==> NoneEnabled(v, m, tvs, if timed then r.time else 0)
    ensures !timed || !NoneEnabled(v, m, tvs, time) ==> r.time == time
    ensures timed && !NoneEnabled(v, m, tvs, time) ==> !r.finished
    ensures timed && NoneEnabled(v, m, tvs, time) ==> r.time == NextTime(m, time)
  {
    if !timed then Check(Dead(v, m, tvs), time)
    else if !NoneEnabled(v, m, tvs, time) then Check(false, time)
    else
      var next := NextTime(m, time);
      Check(NoneEnabled(v, m, tvs, next), next)
  }

  /**
   * isFinished of Simulation (isDead) and of TimedSimulation (the enabled list, incrementTime,
   * the enabled list again).
   */
  method FinishesIn(ts: seq<Transition>, tvs: seq<TransitionView>, v: NetView, m: Marking, timed: bool, time: int)
    returns (c: Check)
    requires |ts| == |tvs|
    ensures c == Finishes(tvs, v, m, timed, time)
  {
    if !timed {
      var dead := DeadIn(v, m, tvs);
      return Check(dead, time);
    }
    EnabledOfEmpty(ts, tvs, v, m, time);
    var enabledTransitions := EnabledAmong(ts, tvs, v, m, time);
    var isDead := |enabledTransitions| == 0;
    var now := time;
    if isDead {
      now := NextTimeIn(m, time);
      EnabledOfEmpty(ts, tvs, v, m, now);
      enabledTransitions := EnabledAmong(ts, tvs, v, m, now);
      if |enabledTransitions| != 0 {
        isDead := false;
      }
    }
    c := Check(isDead, now);
  }

  // ---------------------------------------------------------------------------------------
  // The simulator

  /** What the simulator observes of the net is unchanged while the net's objects are. */
  twostate lemma SnapshotUnchanged(net: PetriNet)
    requires unchanged(net)
    requires unchanged(net.places, net.inputArcs, net.outputArcs)
    requires unchanged(set p | p in net.places :: p.tokens)
    requires unchanged(set a | a in net.inputArcs :: a.transition.obj)
    requires unchanged(set a | a in net.outputArcs :: a.transition.obj)
    requires unchanged(set t | t in net.transitions :: t.obj)
    ensures net.View() == old(net.View()) && net.Marking() == old(net.Marking())
    ensures TransitionViews(net.transitions) == old(TransitionViews(net.transitions))
    ensures net.Valid() == old(net.Valid())
  {
  }


  /** How a run ends: the two messages of run(), an exception out of fire, or no fuel left. */
  datatype Ending = Stopped | Deadlock | Crashed | OutOfFuel

  class Simulation {
    const net: PetriNet
    /** TimedSimulation rather than Simulation. */
    const timed: bool
    var step: bool
    var paused: bool
    var stop: bool
    /** The simulation clock of a timed run. */
    var time: int

    /**
     * Simulation(step, gui) and TimedSimulation(step, gui): the net's generated source is
     * compiled first, and a compilation failure stops the simulation before it starts.
     */
    constructor (net: PetriNet, timed: bool, step: bool, compiles: bool)
      ensures this.net == net && this.timed == timed && this.step == step
      ensures !paused && stop == !compiles && time == 0
    {
      this.net := net;
      this.timed := timed;
      this.step := step;
      paused := false;
      stop := !compiles;
      time := 0;
    }

    /** The time transitions are tested and fired at: the clock when timed, else 0. */
    function Now(): int
      reads this
    {
      if timed then time else 0
    }

    /** The transitions enabled now, in net order. */
    function EnabledNow(): seq<Transition>
      reads this, net, net.places, net.inputArcs, net.outputArcs
      reads set p | p in net.places :: p.tokens
      reads set a | a in net.inputArcs :: a.transition.obj
      reads set a | a in net.outputArcs :: a.transition.obj
      reads set t | t in net.transitions :: t.obj
    {
      EnabledOf(net.transitions, TransitionViews(net.transitions), net.View(), net.Marking(), Now())
    }

    /** enabledTransitionList: the transitions enabled at Now(). */
    method EnabledTransitionList() returns (r: seq<Transition>)
      requires net.Valid()
      ensures r == EnabledNow()
    {
      r := EnabledAmong(net.transitions, TransitionViews(net.transitions), net.View(), net.Marking(), Now());
    }

    /** A transition is in the enabled list exactly when it belongs to the net and is enabled now. */
    lemma EnabledNowMembers(t: Transition)
      ensures t in EnabledNow() <==> t in net.transitions && IsEnabled(net.View(), net.Marking(), TransitionViewOf(t), Now())
    {
      EnabledOfMembers(net.transitions, TransitionViews(net.transitions), net.View(), net.Marking(), Now(), t);
    }

    /**
     * getRandomTransition: None (null) when nothing is enabled, else the enabled transition at
     * the position the random generator picks; `choice` stands for the generator.
     */
    function RandomTransition(choice: nat): (r: Option<Transition>)
      reads this, net, net.places, net.inputArcs, net.outputArcs
      reads set p | p in net.places :: p.tokens
      reads set a | a in net.inputArcs :: a.transition.obj
      reads set a | a in net.outputArcs :: a.transition.obj
      reads set t | t in net.transitions :: t.obj
      ensures r == None <==> NoneEnabled(net.View(), net.Marking(), TransitionViews(net.transitions), Now())
      ensures r.Some? ==> r.value in net.transitions
      ensures r.Some? ==> IsEnabled(net.View(), net.Marking(), TransitionViewOf(r.value), Now())
    {
      Pick(net.transitions, TransitionViews(net.transitions), net.View(), net.Marking(), Now(), choice)
    }

    /** pauseResumeSimulation: a step-by-step run that was not stopped pauses after each firing. */
    method PauseResumeSimulation()
      modifies this
      ensures paused == (old(paused) || (step && !stop))
      ensures step == old(step) && stop == old(stop) && time == old(time)
      ensures net.Valid() == old(net.Valid()) && net.Marking() == old(net.Marking())
    {
      if step && !stop {
        paused := true;
      }
      SnapshotUnchanged(net);
    }

    /**
     * fireTransition: when some transition is enabled, fires the randomly chosen one at Now()
     * and then pauses or resumes; nothing happens otherwise.
     */
    method FireTransition(choice: nat) returns (r: Result<()>)
      requires net.Valid()
      modifies this, net.transitions, set p | p in net.places :: p.tokens
      ensures net.Valid()
      ensures step == old(step) && stop == old(stop) && time == old(time)
      ensures old(RandomTransition(choice)) == None ==> r == Ok(()) && paused == old(paused) && net.Marking() == old(net.Marking())
      ensures old(RandomTransition(choice)).Some? ==>
        var t := old(RandomTransition(choice)).value;
        var f := old(Fired(net.View(), net.Marking(), t.obj.id, Now()));
        net.Marking() == f.marking && t.globalClock == old(Now())
        && r == (if f.thrown then Fail(IllegalState) else Ok(()))
        && paused == (if f.thrown then old(paused) else old(paused) || (step && !stop))
      ensures forall u :: u in net.transitions ==> u.guardText == old(u.guardText)
      ensures forall u :: u in net.transitions && old(RandomTransition(choice)) != Some(u) ==>
        u.globalClock == old(u.globalClock)
    {
      var chosen := RandomTransition(choice);
      if chosen.Some? {
        r := FireChosen(chosen.value);
      } else {
        r := Ok(());
      }
    }

    /** The firing branch of fireTransition, for the picked transition `t`. */
    method FireChosen(t: Transition) returns (r: Result<()>)
      requires net.Valid()
      modifies this, t, set p | p in net.places :: p.tokens
      ensures net.Valid()
      ensures step == old(step) && stop == old(stop) && time == old(time)
      ensures var f := old(Fired(net.View(), net.Marking(), t.obj.id, Now()));
        net.Marking() == f.marking && t.globalClock == old(Now()) && t.guardText == old(t.guardText)
        && r == (if f.thrown then Fail(IllegalState) else Ok(()))
        && paused == (if f.thrown then old(paused) else old(paused) || (step && !stop))
    {
      ghost var v, m := net.View(), net.Marking();
      r := net.Fire(t, Now());
      net.HoldsMarking(Fired(v, m, t.obj.id, old(Now())).marking);
      if r.Ok? {
        PauseResumeSimulation();
      }
    }

    /** incrementTime: the clock jumps to the earliest positive timestamp in the net, if any. */
    method IncrementTime()
      requires timed
      modifies this
      ensures time == old(NextTime(net.Marking(), time))
      ensures step == old(step) && stop == old(stop) && paused == old(paused)
    {
      time := NextTimeIn(net.Marking(), time);
    }

    /**
     * isFinished: an untimed run is finished when the net is dead; a timed run, when nothing is
     * enabled at the clock and still nothing is enabled after incrementTime has moved it.
     */
    method IsFinished() returns (r: bool)
      requires net.Valid()
      modifies this
      ensures Check(r, time) == old(Finishes(TransitionViews(net.transitions), net.View(), net.Marking(), timed, time))
      ensures r ==> NoneEnabled(net.View(), net.Marking(), TransitionViews(net.transitions), Now())
      ensures net.Valid() == old(net.Valid())
      ensures step == old(step) && stop == old(stop) && paused == old(paused)
    {
      var c := FinishesIn(net.transitions, TransitionViews(net.transitions), net.View(), net.Marking(), timed, time);
      r := c.finished;
      time := c.time;
      SnapshotUnchanged(net);
    }

    /** setStop: asks a running simulation to stop (waking it when paused). */
    method SetStop(s: bool)
      modifies this
      ensures stop == s && step == old(step) && paused == old(paused) && time == old(time)
    {
      stop := s;
    }

    /** setTime: the timed clock is set directly. */
    method SetTime(t: int)
      requires timed
      modifies this
      ensures time == t && Now() == t
      ensures step == old(step) && stop == old(stop) && paused == old(paused)
    {
      time := t;
    }

    /**
     * run: while the simulation is not finished and not stopped, fire a transition; then report
     * "Stopped." or "Deadlock.". `choose(k)` is the random pick of the k-th firing and `fuel`
     * bounds the number of rounds.
     */
    method Run(fuel: nat, choose: nat -> nat) returns (e: Ending)
      requires net.Valid()
      modifies this, net.transitions, set p | p in net.places :: p.tokens
      ensures net.Valid() && stop == old(stop) && step == old(step)
      ensures e == Stopped <==> old(stop) && fuel > 0
      ensures e == Deadlock ==> NoneEnabled(net.View(), net.Marking(), TransitionViews(net.transitions), Now())
    {
      var k := 0;
      while true
        invariant 0 <= k <= fuel
        invariant net.Valid() && stop == old(stop) && step == old(step)
        invariant k > 0 ==> !stop
        decreases fuel - k
      {
        if k == fuel {
          return OutOfFuel;
        }
        var finished := IsFinished();
        if finished || stop {
          break;
        }
        var r := FireTransition(choose(k));
        if r.Fail? {
          return Crashed;
        }
        k := k + 1;
      }
      e := if stop then Stopped else Deadlock;
    }
  }
}
