# Petri-net simulator core in Dafny

A model of the business core of a Java Petri-net simulator (`src/business`). It covers:

- tokens and token sets;
- net objects, places, transitions and input/output arcs;
- the firing rule (`Transition.enabled`, `Transition.fire`);
- untimed and timed simulation;
- the Java source that `NetClass` generates for a net before it is compiled.

| file | module | what it models |
|---|---|---|
| `wrappers.dfy` | `Wrappers` | `Option` for Java's `null` returns; `Result` for the exceptions the core throws |
| `text.dfy` | `Text` | decimal text of numbers, used for ids and timestamps |
| `token.dfy` | `Tokens` | `Token`: payload, timestamp (0 = untimed), initial-marking expression; `equals`, `hashCode`, `toString` |
| `tokenset.dfy` | `TokenSets` | `TokenSet` as a class over a `seq<Token>`. Its loops `containsTime`, `incrementTime` and `removeAll` are methods proved against specification functions. |
| `elements.dfy` | `Elements` | `NetObject` with the shared id counter, `Place`, `Transition`, `Arc` (input and output kinds) |
| `firing.dfy` | `Firing` | the firing rule on values (a `NetView` of the net and a `Marking`): enabledness, firing, deadness |
| `petrinet.dfy` | `PetriNets` | the net's lists of places, transitions and arcs. `Enabled` and `Fire` work on the heap objects, and their results are tied to the value rule. |
| `simulation.dfy` | `Simulations` | `Simulation` and `TimedSimulation` as one class with a `timed` flag: enabled list, random pick, firing, `incrementTime`, `isFinished`, `run` |
| `netclass.dfy` | `NetSources` | `addSlashes`, the `expression@delay` split of output-arc texts, and the generated class text with its header and declaration order |

### Main points

- **The firing rule.** A transition is enabled when three things hold:
  - its guard holds;
  - every input arc of that transition passes the timing gate of `containsTime` and its `evaluate()`;
  - every output arc of that transition with a non-zero place capacity has room.

  Firing first removes each input arc's `execute()` tokens with `removeAll`. It then adds each output arc's tokens, shifted by the clock. Both phases visit the net's global arc lists and skip the arcs of other transitions. `Firing.FireOnlyUsesOwnArcs` and `Firing.EnabledOnlyReadsOwnArcs` prove that the result depends only on the transition's own arcs. `PetriNets.PetriNet.Fire` proves that the in-place update of the places' token sets computes exactly `Firing.Fired`.
- **`TokenSet.removeAll` is modelled as written.** For every token of the receiver, the inner loop removes each equal element of the argument. It calls `it.remove()` on the receiver's iterator each time. A second equal element therefore makes that iterator throw `IllegalStateException`. The model returns the partial result together with that exception. `TokenSets.DoubleMatchThrows` and `TokenSets.ThrowsOnlyOnDoubleMatch` prove that the call throws exactly when some token of the receiver equals two different elements of the argument. `TokenSets.RemoveAllDistinctNeverThrows` proves that an argument with no two equal tokens never throws. When there is no exception, `TokenSets.RemoveAllIsDifference` proves that the call computes the multiset difference in both directions.
- **`TimedSimulation.incrementTime` can move the clock backwards.** It sets the clock to the smallest positive timestamp in the net, even when that timestamp is earlier than the current clock.
  - `Simulations.NextTimeCanGoBack` shows a net at time 10 with tokens stamped 5 and 20: the clock goes back to 5.
  - `Simulations.TimedRunMissesPendingToken` shows the consequence. `isFinished` then reports a deadlock, although a transition would be enabled at time 20.

  The model follows the code here, not a clock that only moves forward.
- **`NetClass.addSlashes` escapes `"` and newlines but not backslashes**, and it returns a blank string unchanged.
  - `NetSources.AddSlashesRoundTrip` proves that escaping can be undone for strings without backslashes.
  - `NetSources.AddSlashesConflates` shows that a newline and the two characters `\n` escape to the same text.

## Model

| member | source | states |
|---|---|---|
| Text.ParseNatToString | src/business/NetObject.java:21-24 | the decimal id text of a counter value reads back as that value |
| Text.NatToStringInjective | src/business/NetObject.java:21-24 | different counter values give different id texts |
| Text.IntToStringInjective | src/business/Token.java:105-108 | different timestamps print differently |
| Tokens.NewToken | src/business/Token.java:55-56 | the no-argument token has a null payload, timestamp 0 and no expression |
| Tokens.TokenOf | src/business/Token.java:28-30 | the one-argument token carries the payload, is untimed and has an empty expression |
| Tokens.TokenAt | src/business/Token.java:38-41 | the two-argument token carries payload and timestamp, with an empty expression |
| Tokens.TokenWithExpression | src/business/Token.java:50-53 | the three-argument token carries payload, timestamp and expression |
| Tokens.EqualsIffSameKey | src/business/Token.java:61-74 | two tokens are equal iff their payloads and timestamps are equal; the expression plays no part |
| Tokens.EqualsIsEquivalence | src/business/Token.java:61-74 | token equality is reflexive, symmetric and transitive |
| Tokens.HashCodeRespectsEquals | src/business/Token.java:81-89 | equal tokens have equal hash codes |
| Tokens.ToString | src/business/Token.java:99-110 | a token with an expression prints the expression; it throws exactly when there is no expression and the payload is null |
| Tokens.ToStringShowsTimestamp | src/business/Token.java:105-109 | without an expression, the text starts with the payload text and equals it iff the token is untimed; otherwise the timestamp follows after one space |
| Tokens.ToStringDistinguishesTimestamps | src/business/Token.java:105-109 | two timed tokens with the same payload print the same iff their timestamps are equal |
| TokenSets.ContainsTimeIn | src/business/TokenSet.java:85-100 | the flag loop answers true iff every token is untimed or some token is due at the given time |
| TokenSets.AvailableMonotone | src/business/TokenSet.java:85-100 | a set available at a time stays available at every later time |
| TokenSets.AvailableSingleTimed | src/business/TokenSet.java:85-100 | a set holding one timed token is available exactly from that token's timestamp on |
| TokenSets.IncrementTimeIn | src/business/TokenSet.java:107-115 | every timed token is shifted by the increment and every untimed one is kept, in the same order |
| TokenSets.ShiftedByZero | src/business/TokenSet.java:107-115 | an increment of 0 changes nothing |
| TokenSets.ShiftedTwice | src/business/TokenSet.java:107-115 | two increments add up unless the first brings a timed token to 0 |
| TokenSets.ShiftedUntimed | src/business/TokenSet.java:107-115 | an untimed list is unchanged by any increment |
| TokenSets.MatchIndex | src/business/TokenSet.java:122-125 | the index found is the first element equal to the token, or the length when none is |
| TokenSets.ScanArgument | src/business/TokenSet.java:122-129 | the inner loop removes the first equal element of the argument and reports whether a second equal one ends it with an exception |
| TokenSets.RemoveAllFrom | src/business/TokenSet.java:117-132 | the nested iterator loops compute the receiver's and the argument's remainders and the exception as specified |
| TokenSets.RemoveAllIsDifference | src/business/TokenSet.java:117-132 | without an exception, the receiver keeps its multiset minus the argument's, and the argument keeps its multiset minus the receiver's |
| TokenSets.RemoveAllKeepsOrder | src/business/TokenSet.java:117-132 | the tokens the receiver keeps are a subsequence of its original tokens, exception or not |
| TokenSets.RemoveAllCounts | src/business/TokenSet.java:117-132 | each removed receiver token consumes exactly one argument element |
| TokenSets.RemoveAllDistinctNeverThrows | src/business/TokenSet.java:117-132 | an argument without two equal tokens never makes the call throw |
| TokenSets.RemoveAllDoubleMatchThrows | src/business/TokenSet.java:123-127 | one token and an argument holding it twice: the call throws with the receiver emptied and one copy left |
| TokenSets.DoubleMatchThrows | src/business/TokenSet.java:117-132 | whenever some receiver token equals two different elements of the argument, the call throws |
| TokenSets.ThrowsOnlyOnDoubleMatch | src/business/TokenSet.java:117-132 | the call throws only when some receiver token equals two different elements of the argument |
| TokenSets.RemoveFirst | src/business/TokenSet.java:74-77 | reports whether an equal token exists; if so, exactly the first equal token is removed and the rest keep their order, otherwise the list is unchanged |
| TokenSets.TokenSet.constructor | src/business/TokenSet.java:16-17 | a new set is empty |
| TokenSets.TokenSet.From | src/business/TokenSet.java:19-27 | a token is stored as is, a set is copied in order, any other object becomes one untimed token |
| TokenSets.TokenSet.FromTimed | src/business/TokenSet.java:29-35 | a set is copied and the time ignored; an object becomes one token with that timestamp |
| TokenSets.TokenSet.WithExpression | src/business/TokenSet.java:37-39 | one untimed token with the expression |
| TokenSets.TokenSet.WithTimestampAndExpression | src/business/TokenSet.java:41-43 | one token with timestamp and expression |
| TokenSets.TokenSet.Size | src/business/TokenSet.java:50-53 | the size is the number of tokens |
| TokenSets.TokenSet.Add | src/business/TokenSet.java:55-58 | the token is appended and true is returned |
| TokenSets.TokenSet.AddAll | src/business/TokenSet.java:60-64 | the other set's tokens are appended in order; the result is true iff there were any |
| TokenSets.TokenSet.Remove | src/business/TokenSet.java:74-77 | the first equal token is removed, and the result says whether there was one |
| TokenSets.TokenSet.Clear | src/business/TokenSet.java:134-137 | the set becomes empty |
| TokenSets.TokenSet.ContainsTime | src/business/TokenSet.java:85-100 | true iff all tokens are untimed or one is due |
| TokenSets.TokenSet.IncrementTime | src/business/TokenSet.java:107-115 | the list becomes its shift by the increment |
| TokenSets.TokenSet.RemoveAll | src/business/TokenSet.java:117-132 | both lists are updated as removeAll computes them; the result is true, or IllegalStateException on a double match |
| Elements.IdCounter.constructor | src/business/NetObject.java:10 | the id counter starts at 0 |
| Elements.NetObject.constructor | src/business/NetObject.java:21-24 | the id is the counter value in decimal, the label is empty, and the counter moves on by one |
| Elements.NetObject.EffectiveLabel | src/business/NetObject.java:50-55 | the label, or the id when no label is set |
| Elements.NetObject.SetId | src/business/NetObject.java:40-42 | the id changes and the label does not |
| Elements.NetObject.GetLabel | src/business/NetObject.java:50-55 | returns the effective label and stores it as the label; it is non-empty unless the id is empty |
| Elements.NetObject.SetLabel | src/business/NetObject.java:62-64 | the label changes and the id does not |
| Elements.GeneratedIdsDiffer | src/business/NetObject.java:21-24 | ids built from different counter values differ, whatever prefix they share |
| Elements.ConsecutiveIds | src/business/NetObject.java:21-24 | two objects created in a row get consecutive, distinct ids |
| Elements.Place.constructor | src/business/Place.java:24-26 | id "p" plus the counter value, no tokens, capacity 0 |
| Elements.Place.WithId | src/business/Place.java:33-35 | the given id, still drawing from the counter; no tokens, capacity 0 |
| Elements.Place.SetTokens | src/business/Place.java:51-53 | the place takes the given set itself |
| Elements.Place.AddToken | src/business/Place.java:60-62 | the given tokens are appended after the existing ones, with no capacity check |
| Elements.Place.RemoveTokens | src/business/Place.java:69-71 | removeAll on the place's set, including its exception |
| Elements.Place.SetCapacity | src/business/Place.java:87-89 | the capacity changes and the tokens do not |
| Elements.Transition.constructor | src/business/Transition.java:16-18 | id "t" plus the counter value, guard text "return true;", no compiled guard, clock 0 |
| Elements.Transition.WithId | src/business/Transition.java:20-27 | the given id and guard text |
| Elements.Transition.Compiled | src/business/NetClass.java:103-107 | the generated subclass: the given id and guard text, with the compiled guard |
| Elements.Transition.Evaluate | src/business/Transition.java:148-150 | the base guard always holds; a compiled guard is evaluated on the marking |
| Elements.Transition.Execute | src/business/Transition.java:157-159 | always fails with UnsupportedOperationException |
| Elements.Transition.SetGuardText | src/business/Transition.java:175-177 | the guard text changes and the clock does not |
| Elements.DefaultExecute | src/business/InputArc.java:92-94 | the base execute() creates one untimed token whose payload is the execute text |
| Elements.FirstDue | src/business/InputArc.java:112-122 | the index of the first token due at the clock, or the length when none is |
| Elements.Arc.Input | src/business/InputArc.java:48-61 | id "i" plus the creation time in milliseconds; default evaluate and execute texts |
| Elements.Arc.InputWithAction | src/business/InputArc.java:71-76 | the given id, and the action as execute text |
| Elements.Arc.CompiledInput | src/business/NetClass.java:117-124 | the generated input arc with compiled evaluate and execute |
| Elements.Arc.Output | src/business/OutputArc.java:18-23 | id "o" plus the counter value; default execute text |
| Elements.Arc.OutputWithAction | src/business/OutputArc.java:33-38 | the given id, and the action as execute text |
| Elements.Arc.CompiledOutput | src/business/NetClass.java:136-151 | the generated output arc with compiled execute |
| Elements.Arc.SetPlace | src/business/Arc.java:42-44 | only the place changes |
| Elements.Arc.SetTransition | src/business/Arc.java:60-62 | only the transition changes |
| Elements.Arc.SetEvaluateText | src/business/InputArc.java:138-140 | only the evaluate text changes |
| Elements.Arc.SetExecuteText | src/business/InputArc.java:156-158 | only the execute text changes |
| Elements.Arc.GetTokenSet | src/business/InputArc.java:101-103 | the connected place's own token set |
| Elements.Arc.EvaluateOn | src/business/InputArc.java:83-85 | by default, true iff the place is not empty; a compiled evaluate decides otherwise |
| Elements.Arc.Evaluate | src/business/OutputArc.java:45-47 | an output arc throws UnsupportedOperationException; an input arc answers, by default "the place is not empty" |
| Elements.Arc.ExecuteTokens | src/business/OutputArc.java:54-56 | by default, one untimed token carrying the execute text |
| Elements.Arc.Execute | src/business/InputArc.java:92-94 | a fresh set holding exactly the execute tokens |
| Elements.Arc.RemoveTimedToken | src/business/InputArc.java:112-122 | removes and returns the first token due at the transition's clock; otherwise null and no change |
| Firing.EnabledIn | src/business/Transition.java:105-141 | the guard-then-input-arcs-then-output-arcs loop answers exactly the enabledness predicate |
| Firing.DeadIn | src/business/Simulation.java:67-69 | the net is dead iff no transition is enabled at time 0 |
| Firing.RemovePhaseStopsAtThrow | src/business/Transition.java:43-50 | once a removal throws, later input arcs change nothing |
| Firing.EnabledOnlyReadsOwnArcs | src/business/Transition.java:114-138 | enabledness is the same when the net is cut down to the transition's own arcs |
| Firing.RemovePhaseOnlyOwnArcs | src/business/Transition.java:43-50 | the removal phase depends only on the transition's own input arcs |
| Firing.ProducePhaseOnlyOwnArcs | src/business/Transition.java:77-87 | the production phase depends only on the transition's own output arcs |
| Firing.FireOnlyUsesOwnArcs | src/business/Transition.java:30-97 | firing depends only on the transition's own arcs |
| Firing.EnabledWithoutArcs | src/business/Transition.java:105-141 | a transition with no arcs is enabled whenever its guard holds |
| Firing.GuardFalseDisables | src/business/Transition.java:111 | a false guard disables the transition |
| Firing.RemovePhaseShrinks | src/business/Transition.java:43-50 | the removal phase never adds tokens to a place |
| Firing.ProducePhaseAppends | src/business/Transition.java:77-87 | in any net, every place ends as its own tokens followed by the shifted tokens of each output arc of the transition into it, in net order; a place no such arc targets is unchanged |
| Firing.ProducePhaseGrowth | src/business/Transition.java:77-87 | when the transition's output arcs target distinct places: untargeted places are unchanged, and a targeted place gets that one arc's tokens, shifted by the clock, after its own |
| Firing.FireKeepsCapacity | src/business/Transition.java:127-138 | with one-token outputs, firing an enabled transition keeps every place within its capacity |
| Firing.ProducePhaseUntimed | src/business/Transition.java:80-82 | untimed output tokens are produced the same at every clock |
| Firing.FireIgnoresClockWhenUntimed | src/business/Transition.java:80-82 | with untimed outputs, the firing clock does not matter |
| Firing.FireStampsDelay | src/business/Transition.java:77-87 | in any net, when no removal throws, every place ends as the tokens left by the removals followed by the shifted tokens of every output arc of the transition into it, in net order |
| Firing.FireStampsDelayDistinct | src/business/Transition.java:77-87 | when the transition's output arcs target distinct places, an output arc's place ends as the tokens left by the removals followed by that arc's tokens, each timed one (delay d) stamped d plus the firing clock |
| Firing.FireTwoArcsIntoOnePlace | src/business/Transition.java:77-87 | two output arcs of one transition into one place: the place gets both arcs' tokens, first arc first |
| Firing.FireStampsDelayExample | src/business/Transition.java:80-82 | one arc producing one token with delay d: the place gains that token stamped d plus the clock |
| PetriNets.PetriNet.Enabled | src/business/Transition.java:105-141 | on a valid heap net, enabled answers the value rule on its view and marking |
| PetriNets.PetriNet.Fire | src/business/Transition.java:30-97 | the places end up holding exactly the fired marking, the transition records the clock and keeps its guard, and the call fails iff a removal threw |
| PetriNets.PetriNet.StampClock | src/business/Transition.java:33 | the transition records the clock before the arc loops; its guard text, the net's view, marking and validity are unchanged |
| PetriNets.PetriNet.FireArcs | src/business/Transition.java:43-87 | the two arc loops turn the marking into the fired marking |
| PetriNets.PetriNet.RemoveInputs | src/business/Transition.java:43-50 | the input loop computes the removal phase and its exception |
| PetriNets.PetriNet.RemoveAt | src/business/Transition.java:44-49 | one input arc step extends the removal phase by that arc |
| PetriNets.PetriNet.RemoveThrough | src/business/Transition.java:46 | one arc's removeTokens updates exactly its place's list |
| PetriNets.PetriNet.ProduceOutputs | src/business/Transition.java:77-87 | the output loop computes the production phase |
| PetriNets.PetriNet.ProduceAt | src/business/Transition.java:78-86 | one output arc step extends the production phase by that arc |
| PetriNets.PetriNet.ProduceThrough | src/business/Transition.java:80-82 | the arc's tokens, shifted by the clock, are appended to exactly its place |
| PetriNets.PetriNet.IsDead | src/business/Simulation.java:67-69 | on a valid net, true iff no transition is enabled at time 0 |
| Simulations.EnabledOfMembers | src/business/Simulation.java:118-131 | a transition is listed iff it is in the net and enabled |
| Simulations.EnabledOfEmpty | src/business/Simulation.java:118-131 | the list is empty iff no transition is enabled; at time 0 that is deadness |
| Simulations.EnabledAmong | src/business/TimedSimulation.java:68-79 | the iterator loop builds exactly the enabled list, in net order |
| Simulations.TimedTokensMembers | src/business/TimedSimulation.java:122-137 | a token is kept iff it is in the set and has a positive timestamp |
| Simulations.TokensWithTimestamp | src/business/TimedSimulation.java:122-137 | the loop keeps exactly the positively stamped tokens, in order |
| Simulations.NextTimeIsEarliestStamp | src/business/TimedSimulation.java:94-113 | when some token has a positive stamp below Long.MAX_VALUE the clock moves to the smallest such stamp (one that exists, none smaller); otherwise it stays |
| Simulations.NextTimeIn | src/business/TimedSimulation.java:94-113 | the nested loops compute that clock |
| Simulations.NextTimeCanGoBack | src/business/TimedSimulation.java:94-113 | tokens stamped 20 and 5 at time 10 move the clock back to 5 |
| Simulations.TimedRunMissesPendingToken | src/business/TimedSimulation.java:44-60 | a transition enabled at 20 is reported finished from time 10: the finishing check returns finished with the clock moved back to 5 |
| Simulations.Pick | src/business/Simulation.java:103-115 | no pick iff nothing is enabled; a pick is an enabled transition of the net |
| Simulations.Finishes | src/business/TimedSimulation.java:44-60 | untimed: dead; timed: nothing enabled now and nothing enabled after the clock moves to the next timestamp |
| Simulations.FinishesIn | src/business/TimedSimulation.java:44-60 | the list/incrementTime/list sequence computes that result |
| Simulations.Simulation.constructor | src/business/Simulation.java:36-49 | not paused, clock 0, and stopped iff the generated source does not compile |
| Simulations.Simulation.EnabledTransitionList | src/business/TimedSimulation.java:68-79 | the transitions enabled at the clock (0 untimed) |
| Simulations.Simulation.EnabledNowMembers | src/business/Simulation.java:118-131 | a transition is in the list iff it belongs to the net and is enabled now |
| Simulations.Simulation.RandomTransition | src/business/Simulation.java:103-115 | null iff nothing is enabled; otherwise a transition of the net that is enabled now |
| Simulations.Simulation.PauseResumeSimulation | src/business/Simulation.java:83-100 | a step-by-step run that is not stopped pauses; nothing else changes |
| Simulations.Simulation.FireTransition | src/business/TimedSimulation.java:82-89 | with nothing enabled, nothing changes; otherwise the picked transition fires at the clock and the run pauses or resumes, unless the firing threw; no guard changes and no other transition's clock changes |
| Simulations.Simulation.FireChosen | src/business/TimedSimulation.java:82-89 | the picked transition fires at the clock: the marking becomes the fired marking, the transition records the clock and keeps its guard, and the run pauses or resumes unless the firing threw |
| Simulations.Simulation.IncrementTime | src/business/TimedSimulation.java:94-113 | the clock becomes the next time of the marking |
| Simulations.Simulation.IsFinished | src/business/TimedSimulation.java:44-60 | the result and the new clock are those of the finishing check; finished implies nothing is enabled now |
| Simulations.Simulation.SetStop | src/business/Simulation.java:171-178 | only the stop flag changes |
| Simulations.Simulation.SetTime | src/business/TimedSimulation.java:153-155 | only the clock changes |
| Simulations.Simulation.Run | src/business/Simulation.java:52-64 | ends "Stopped" iff stop was set on entry; a deadlock ending means nothing is enabled |
| NetSources.AddSlashes | src/business/NetClass.java:214-221 | a blank string comes back unchanged |
| NetSources.AddSlashesPlain | src/business/NetClass.java:214-221 | a string without quotes or newlines comes back unchanged |
| NetSources.ReplaceNewlinesOfQuoted | src/business/NetClass.java:218-219 | the two replace calls together escape each quote and newline in place |
| NetSources.AddSlashesEscapes | src/business/NetClass.java:214-221 | a non-blank string is escaped character by character |
| NetSources.AddSlashesShape | src/business/NetClass.java:214-221 | the result grows by one character per quote and per newline, and holds no newline |
| NetSources.AddSlashesRoundTrip | src/business/NetClass.java:214-221 | for non-blank strings without backslashes, unescaping gives the string back |
| NetSources.AddSlashesConflates | src/business/NetClass.java:214-221 | a newline and the two characters \ n escape to the same text |
| NetSources.SplitOfPlain | src/business/NetClass.java:139 | a non-empty text without '@' is one token |
| NetSources.SplitOfDelayed | src/business/NetClass.java:139-144 | "expression@delay" splits into the expression and the delay |
| NetSources.SplitDelay | src/business/NetClass.java:139-149 | a delay is found only as two non-empty pieces without '@'; otherwise the whole text is the expression |
| NetSources.SplitDelayRoundTrip | src/business/NetClass.java:139-149 | splitting undoes "expression@delay", and a text without '@' has no delay |
| NetSources.ClassLineImplements | src/business/NetClass.java:74-78 | the class line names the net and extends PetriNet; "implements" appears iff there is an interface list, followed by it |
| NetSources.JoinChunks | src/business/NetClass.java:65-206 | the text is the header, then the place, transition, input-arc and output-arc sections with their headings, then the constructor |
| NetSources.DeclarationsInOrder | src/business/NetClass.java:86-153 | every declaration occurs in the text, each before the ones that follow it |
| NetSources.NetClass.constructor | src/business/NetClass.java:34-36 | a new generator holds the net's generated source |
| NetSources.NetClass.GenerateNetSource | src/business/NetClass.java:65-206 | the buffer and the result are the net's generated source |
| NetSources.NetClass.Generate | src/business/NetClass.java:66-203 | the appends build exactly the generated text |
| NetSources.NetClass.GenerateConstructor | src/business/NetClass.java:155-203 | the constructor part and class end are appended |
| NetSources.NetClass.GetNetSource | src/business/NetClass.java:228-231 | regenerates the source and returns it |
| NetSources.NetClass.SetNetSource | src/business/NetClass.java:238-240 | the buffer becomes the given text |

## Left out

- Threads: `Simulation` extends `Thread`. `wait`, `notify` and `sleep` in `pauseResumeSimulation` and `setStop` are not modelled. A pause is the `paused` flag alone, and nothing resumes a paused run.
- The GUI:
  - the highlighting and log messages in `fire` and `run`;
  - the clock display in `incrementTime`;
  - the compilation-error dialog.
- `getLabel` writes the label back the first time it is called. That side effect is modelled in `NetObject.GetLabel`, but not in the calls that `fire` and `generateNetSource` make: they read `EffectiveLabel`.
- Compilation with Janino (`NetClass.compile`, `Simulation` constructor): whether the generated source compiles is the constructor parameter `compiles`. The compiled net replacing the global net is not modelled.
- The generated code: compiled guards and arc code are given as values (`Transition.guard`, `Arc.evaluateCode`, `Arc.executeCode`).
  - An `evaluate()` is a function of the marking or of the place's tokens.
  - An `execute()` is a fixed token list.
  - Code with side effects or exceptions is not modelled.
- `java.util.Random` in `getRandomTransition` is the `choice` parameter (taken modulo the number of enabled transitions); in `run` it is the `choose` function.
- `System.currentTimeMillis` in the `InputArc(place, transition)` id is the `millis` parameter.
- Java's `int` and `long` are unbounded integers, including timestamps, clock shifts and counters. `Token.hashCode` is modelled without its 32-bit wrap-around and without the `>>>` fold of the timestamp. `Tokens.HashCodeRespectsEquals` still holds for the real hash.
- Payloads are null, strings or integers; other Java objects and their `equals` are not modelled.
- Tokens are values. A token shared between two token sets and then re-stamped by one `incrementTime` changes in both sets in Java, but in only one set here.
- `TokenSets.TokenSet.RemoveAll` and `Elements.Place.RemoveTokens` require the argument to be a different set from the receiver. `s.removeAll(s)` is not modelled.
- `PetriNets.PetriNet.Fire`, on the clock seen by arc code: as in the source, the transition's clock is written before the arc loops. Generated arc code can read that clock, for example through `InputArc.removeTimedToken` (src/business/InputArc.java:112-122). In the model an arc's `execute()` is a fixed token list and its `evaluate()` a function of the tokens, so no arc code reads the clock, and removal by timestamp through arc code is not modelled.
- `PetriNets.PetriNet.Fire`, `Enabled` and `IsDead`, and `Simulations.Simulation.EnabledTransitionList`, `IsFinished`, `FireTransition` and `Run`, on the valid net they require: distinct token sets for distinct places, and every arc's place in the net. The net's view reads an arc to a place outside the net as an arc to an empty place, which is not what the source does with such an arc. `Simulations.Simulation.RandomTransition` and `EnabledNow` are stated for any net, and describe the source only on valid nets.
- PetriNet.java is not part of this model. The `PetriNet` class here keeps only what the core reads:
  - the lists of places, transitions and arcs;
  - the import, implement and declaration texts;
  - `isDead`, taken as "no transition enabled at time 0", after its use in `Simulation.isFinished`.
- `PetriNets.PetriNet.AddPlace`, `AddTransition`, `AddInputArc` and `AddOutputArc`: these stand in for PetriNet.java, which is not modelled. They carry no table row.
- `Simulations.Simulation.Run` is bounded by `fuel` rounds and ends `OutOfFuel` when the bound is reached. An exception out of `fire` ends it as `Crashed`. Runs that never end are not modelled.
- `Simulations.Simulation.FireTransition` computes the enabled list once. The source computes it three times over an unchanged net, so the lists are the same.
- Simulation's `setStep`, `setPaused`, `setTransitions`, `isStep`, `isPaused` and `isStop` are plain field accessors.
- TimedSimulation's `getTime` is the `time` field.
- Token getters and setters are fields and datatype updates.
- TokenSet's `iterator`, `get` and `getTokenList` are the `tokens` sequence.
- `EOL` is the platform line separator; here it is `"\n"`.
- The `StringBuffer` is a `string`.
- Each loop of `generateNetSource` appends pieces that are computed by functions of the net's description (`NetText`). The nested loop over a place's tokens is folded into `PlaceSetup`.
- `StringTokenizer(text, "@")` is the function `Split`: maximal runs of characters other than `'@'`, with empty runs dropped.
- `String.trim` is used only through its emptiness test `IsBlank`: every character is at most `' '`.
