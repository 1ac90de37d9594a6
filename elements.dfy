/**
 * The elements of a net: the id counter and the id and label of every net object, places with
 * their token set and capacity, transitions with their guard, and input and output arcs with
 * their inscriptions.
 *
 * There is no inheritance here: a Place, Transition or Arc holds its NetObject part in the
 * constant field `obj`, and one Arc class covers both kinds of arc, told apart by `kind`.
 * The code the net compiler generates (an overriding guard `evaluate`, arc `evaluate` and
 * `execute`) is given to the constructors as an abstract function or token list.
 */
module Elements {
  import opened Wrappers
  import opened Text
  import opened Tokens
  import opened TokenSets

  /** NetObject.LATEST_ID: the source of generated ids, shared by all net objects. */
  class IdCounter {
    var latest: nat

    constructor ()
      ensures latest == 0
    {
      latest := 0;
    }
  }

  class NetObject {
    var id: string
    var labelText: string

    /** NetObject(): the id is the counter's value in decimal, and the counter moves on by one. */
    constructor (counter: IdCounter)
      modifies counter
      ensures id == NatToString(old(counter.latest)) && labelText == ""
      ensures counter.latest == old(counter.latest) + 1
    {
      id := NatToString(counter.latest);
      labelText := "";
      new;
      counter.latest := counter.latest + 1;
    }

    /** The label getLabel reports: the id while no label has been set. */
    function EffectiveLabel(): (l: string)
      reads this
      ensures labelText != "" ==> l == labelText
      ensures labelText == "" ==> l == id
    {
      if labelText == "" then id else labelText
    }

    method SetId(newId: string)
      modifies this
      ensures id == newId && labelText == old(labelText)
    {
      id := newId;
    }

    /**
     * getLabel: an empty label is first overwritten with the id, so that a later setId no
     * longer shows in the label.
     */
    method GetLabel() returns (l: string)
      modifies this
      ensures l == old(EffectiveLabel()) && labelText == l && id == old(id)
      ensures l != "" || old(id) == ""
    {
      if labelText == "" {
        labelText := id;
      }
      l := labelText;
    }

    method SetLabel(newLabel: string)
      modifies this
      ensures labelText == newLabel && id == old(id)
    {
      labelText := newLabel;
    }
  }

  /** Ids generated from two different counter values differ, whatever prefix they share. */
  lemma GeneratedIdsDiffer(prefix: string, a: nat, b: nat)
    requires a != b
    ensures prefix + NatToString(a) != prefix + NatToString(b)
  {
    if prefix + NatToString(a) == prefix + NatToString(b) {
      assert (prefix + NatToString(a))[|prefix|..] == NatToString(a);
      assert (prefix + NatToString(b))[|prefix|..] == NatToString(b);
      NatToStringInjective(a, b);
    }
  }

  /** Two objects created one after the other get the ids "n" and "n+1". */
  method ConsecutiveIds(counter: IdCounter) returns (first: NetObject, second: NetObject)
    modifies counter
    ensures first.id == NatToString(old(counter.latest))
    ensures second.id == NatToString(old(counter.latest) + 1)
    ensures first.id != second.id
    ensures counter.latest == old(counter.latest) + 2
  {
    first := new NetObject(counter);
    second := new NetObject(counter);
    GeneratedIdsDiffer("", old(counter.latest), old(counter.latest) + 1);
    assert "" + first.id == first.id && "" + second.id == second.id;
  }

  class Place {
    const obj: NetObject
    var tokens: TokenSet
    /** Maximum number of tokens; 0 means no limit. */
    var capacity: int

    /** Place(): id "p" followed by the counter value; no tokens, no capacity limit. */
    constructor (counter: IdCounter)
      modifies counter
      ensures fresh(obj) && fresh(tokens)
      ensures obj.id == "p" + NatToString(old(counter.latest)) && obj.labelText == ""
      ensures counter.latest == old(counter.latest) + 1
      ensures tokens.tokens == [] && capacity == 0
    {
      var o := new NetObject(counter);
      o.id := "p" + o.id;
      obj := o;
      tokens := new TokenSet();
      capacity := 0;
    }

    /** Place(id): the given id; the implicit NetObject() still draws from the counter. */
    constructor WithId(counter: IdCounter, id: string)
      modifies counter
      ensures fresh(obj) && fresh(tokens)
      ensures obj.id == id && obj.labelText == ""
      ensures counter.latest == old(counter.latest) + 1
      ensures tokens.tokens == [] && capacity == 0
    {
      var o := new NetObject(counter);
      o.id := id;
      obj := o;
      tokens := new TokenSet();
      capacity := 0;
    }

    /** getTokens: the place's own set, not a copy. */
    function GetTokens(): TokenSet
      reads this
    {
      tokens
    }

    method SetTokens(ts: TokenSet)
      modifies this
      ensures tokens == ts && capacity == old(capacity)
    {
      tokens := ts;
    }

    /** addToken: appends the given tokens after the existing ones; capacity is not checked. */
    method AddToken(ts: TokenSet)
      modifies tokens
      ensures tokens.tokens == old(tokens.tokens) + old(ts.tokens)
    {
      var _ := tokens.AddAll(ts);
    }

    /** removeTokens: TokenSet.removeAll on the place's set, including its exception. */
    method RemoveTokens(ts: TokenSet) returns (r: Result<()>)
      requires ts != tokens
      modifies tokens, ts
      ensures var o := RemoveAllRun(old(tokens.tokens), old(ts.tokens));
        tokens.tokens == o.kept && ts.tokens == o.unused &&
        r == (if o.thrown then Fail(IllegalState) else Ok(()))
    {
      var b := tokens.RemoveAll(ts);
      r := if b.Fail? then Fail(b.error) else Ok(());
    }

    method SetCapacity(c: int)
      modifies this
      ensures capacity == c && tokens == old(tokens)
    {
      capacity := c;
    }
  }

  class Transition {
    const obj: NetObject
    var guardText: string
    /** The clock of the latest firing. */
    var globalClock: int
    /** The overriding evaluate() of a compiled transition; None for the base class. */
    const guard: Option<Marking -> bool>

    /** Transition(): id "t" followed by the counter value, guard "return true;". */
    constructor (counter: IdCounter)
      modifies counter
      ensures fresh(obj)
      ensures obj.id == "t" + NatToString(old(counter.latest)) && obj.labelText == ""
      ensures counter.latest == old(counter.latest) + 1
      ensures guardText == DefaultGuardText && guard == None && globalClock == 0
    {
      var o := new NetObject(counter);
      o.id := "t" + o.id;
      obj := o;
      guardText := DefaultGuardText;
      globalClock := 0;
      guard := None;
    }

    /** Transition(id) and Transition(id, guardText). */
    constructor WithId(counter: IdCounter, id: string, guardText: string)
      modifies counter
      ensures fresh(obj)
      ensures obj.id == id && obj.labelText == ""
      ensures counter.latest == old(counter.latest) + 1
      ensures this.guardText == guardText && guard == None && globalClock == 0
    {
      var o := new NetObject(counter);
      o.id := id;
      obj := o;
      this.guardText := guardText;
      globalClock := 0;
      guard := None;
    }

    /** The generated `new Transition(id, guardText) { evaluate() { guardText } }`. */
    constructor Compiled(counter: IdCounter, id: string, guardText: string, code: Marking -> bool)
      modifies counter
      ensures fresh(obj)
      ensures obj.id == id && obj.labelText == ""
      ensures counter.latest == old(counter.latest) + 1
      ensures this.guardText == guardText && guard == Some(code) && globalClock == 0
    {
      var o := new NetObject(counter);
      o.id := id;
      obj := o;
      this.guardText := guardText;
      globalClock := 0;
      guard := Some(code);
    }

    /** evaluate(): the base guard always holds; a compiled one is evaluated on the marking. */
    function Evaluate(m: Marking): (r: bool)
      ensures guard == None ==> r
      ensures guard.Some? ==> r == guard.value(m)
    {
      match guard
      case None => true
      case Some(code) => code(m)
    }

    /** execute(): not supported on transitions. */
    function Execute(): (r: Result<seq<Token>>)
      ensures r.Fail? && r.error == UnsupportedOperation
    {
      Fail(UnsupportedOperation)
    }

    method SetGuardText(text: string)
      modifies this
      ensures guardText == text && globalClock == old(globalClock)
    {
      guardText := text;
    }
  }

  const DefaultGuardText := "return true;"
  const DefaultEvaluateText := "getTokenSet().size()>0"
  const DefaultExecuteText := "1"

  datatype ArcKind = InputArc | OutputArc

  /** The tokens the base execute() produces: one untimed token whose payload is the text. */
  function DefaultExecute(executeText: string): (r: seq<Token>)
    ensures |r| == 1 && r[0].payload == Str(executeText)
    ensures r[0].timestamp == 0 && r[0].initialMarkingExpression == ""
  {
    [TokenOf(Str(executeText))]
  }

  /** Index of the first token of `s` due at `clock`, or |s| when none is. */
  function FirstDue(s: seq<Token>, clock: int): (i: nat)
    ensures i <= |s|
    ensures i < |s| ==> s[i].timestamp <= clock
    ensures forall k :: 0 <= k < i ==> s[k].timestamp > clock
  {
    if s == [] then 0
    else if s[0].timestamp <= clock then 0
    else 1 + FirstDue(s[1..], clock)
  }

  /**
   * An arc between a place and a transition. Input arcs (place to transition) carry an
   * evaluate and an execute text; output arcs (transition to place) an execute text.
   */
  class Arc {
    const obj: NetObject
    const kind: ArcKind
    var place: Place
    var transition: Transition
    /** Input arcs only. */
    var evaluateText: string
    var executeText: string
    /** The overriding evaluate() of a compiled input arc. */
    const evaluateCode: Option<seq<Token> -> bool>
    /** The tokens the overriding execute() of a compiled arc creates. */
    const executeCode: Option<seq<Token>>

    /** InputArc(place, transition): id "i" followed by the creation time in milliseconds. */
    constructor Input(counter: IdCounter, millis: nat, place: Place, transition: Transition)
      modifies counter
      ensures fresh(obj) && obj.id == "i" + NatToString(millis)
      ensures counter.latest == old(counter.latest) + 1
      ensures kind == InputArc && this.place == place && this.transition == transition
      ensures evaluateText == DefaultEvaluateText && executeText == DefaultExecuteText
      ensures evaluateCode == None && executeCode == None
    {
      var o := new NetObject(counter);
      o.id := "i" + NatToString(millis);
      obj := o;
      kind := InputArc;
      this.place := place;
      this.transition := transition;
      evaluateText := DefaultEvaluateText;
      executeText := DefaultExecuteText;
      evaluateCode := None;
      executeCode := None;
    }

    /** InputArc(id, place, transition, action). */
    constructor InputWithAction(counter: IdCounter, id: string, place: Place, transition: Transition, action: string)
      modifies counter
      ensures fresh(obj) && obj.id == id
      ensures counter.latest == old(counter.latest) + 1
      ensures kind == InputArc && this.place == place && this.transition == transition
      ensures evaluateText == DefaultEvaluateText && executeText == action
      ensures evaluateCode == None && executeCode == None
    {
      var o := new NetObject(counter);
      o.id := id;
      obj := o;
      kind := InputArc;
      this.place := place;
      this.transition := transition;
      evaluateText := DefaultEvaluateText;
      executeText := action;
      evaluateCode := None;
      executeCode := None;
    }

    /** The generated input arc, overriding evaluate() and execute(). */
    constructor CompiledInput(counter: IdCounter, id: string, place: Place, transition: Transition,
                              action: string, evaluate: seq<Token> -> bool, execute: seq<Token>)
      modifies counter
      ensures fresh(obj) && obj.id == id
      ensures counter.latest == old(counter.latest) + 1
      ensures kind == InputArc && this.place == place && this.transition == transition
      ensures evaluateText == DefaultEvaluateText && executeText == action
      ensures evaluateCode == Some(evaluate) && executeCode == Some(execute)
    {
      var o := new NetObject(counter);
      o.id := id;
      obj := o;
      kind := InputArc;
      this.place := place;
      this.transition := transition;
      evaluateText := DefaultEvaluateText;
      executeText := action;
      evaluateCode := Some(evaluate);
      executeCode := Some(execute);
    }

    /** OutputArc(place, transition): id "o" followed by the counter value. */
    constructor Output(counter: IdCounter, place: Place, transition: Transition)
      modifies counter
      ensures fresh(obj) && obj.id == "o" + NatToString(old(counter.latest))
      ensures counter.latest == old(counter.latest) + 1
      ensures kind == OutputArc && this.place == place && this.transition == transition
      ensures executeText == DefaultExecuteText
      ensures evaluateCode == None && executeCode == None
    {
      var o := new NetObject(counter);
      o.id := "o" + o.id;
      obj := o;
      kind := OutputArc;
      this.place := place;
      this.transition := transition;
      evaluateText := "";
      executeText := DefaultExecuteText;
      evaluateCode := None;
      executeCode := None;
    }

    /** OutputArc(id, place, transition, action). */
    constructor OutputWithAction(counter: IdCounter, id: string, place: Place, transition: Transition, action: string)
      modifies counter
      ensures fresh(obj) && obj.id == id
      ensures counter.latest == old(counter.latest) + 1
      ensures kind == OutputArc && this.place == place && this.transition == transition
      ensures executeText == action
      ensures evaluateCode == None && executeCode == None
    {
      var o := new NetObject(counter);
      o.id := id;
      obj := o;
      kind := OutputArc;
      this.place := place;
      this.transition := transition;
      evaluateText := "";
      executeText := action;
      evaluateCode := None;
      executeCode := None;
    }

    /** The generated output arc, overriding execute(). */
    constructor CompiledOutput(counter: IdCounter, id: string, place: Place, transition: Transition,
                               action: string, execute: seq<Token>)
      modifies counter
      ensures fresh(obj) && obj.id == id
      ensures counter.latest == old(counter.latest) + 1
      ensures kind == OutputArc && this.place == place && this.transition == transition
      ensures executeText == action
      ensures evaluateCode == None && executeCode == Some(execute)
    {
      var o := new NetObject(counter);
      o.id := id;
      obj := o;
      kind := OutputArc;
      this.place := place;
      this.transition := transition;
      evaluateText := "";
      executeText := action;
      evaluateCode := None;
      executeCode := Some(execute);
    }

    method SetPlace(p: Place)
      modifies this
      ensures place == p && transition == old(transition)
      ensures evaluateText == old(evaluateText) && executeText == old(executeText)
    {
      place := p;
    }

    method SetTransition(t: Transition)
      modifies this
      ensures transition == t && place == old(place)
      ensures evaluateText == old(evaluateText) && executeText == old(executeText)
    {
      transition := t;
    }

    method SetEvaluateText(text: string)
      modifies this
      ensures evaluateText == text && executeText == old(executeText)
      ensures place == old(place) && transition == old(transition)
    {
      evaluateText := text;
    }

    method SetExecuteText(text: string)
      modifies this
      ensures executeText == text && evaluateText == old(evaluateText)
      ensures place == old(place) && transition == old(transition)
    {
      executeText := text;
    }

    /** getTokenSet: the connected place's own set. */
    function GetTokenSet(): (ts: TokenSet)
      reads this, place
      ensures ts == place.tokens
    {
      place.GetTokens()
    }

    /** What evaluate() of an input arc answers for the tokens of its place. */
    function EvaluateOn(s: seq<Token>): (r: bool)
      ensures evaluateCode == None ==> (r <==> |s| > 0)
      ensures evaluateCode.Some? ==> r == evaluateCode.value(s)
    {
      match evaluateCode
      case None => |s| > 0
      case Some(code) => code(s)
    }

    /**
     * evaluate(): an input arc tests its place's tokens (by default: the place is not empty);
     * an output arc does not support it.
     */
    function Evaluate(): (r: Result<bool>)
      reads this, place, place.tokens
      ensures kind == OutputArc ==> r == Fail(UnsupportedOperation)
      ensures kind == InputArc ==> r.Ok?
      ensures kind == InputArc && evaluateCode == None ==> (r.value <==> |place.tokens.tokens| > 0)
    {
      if kind == OutputArc then Fail(UnsupportedOperation)
      else Ok(EvaluateOn(place.tokens.tokens))
    }

    /** The tokens execute() creates: by default one untimed token carrying the execute text. */
    function ExecuteTokens(): (r: seq<Token>)
      reads this
      ensures executeCode == None ==> r == DefaultExecute(executeText)
      ensures executeCode.Some? ==> r == executeCode.value
    {
      match executeCode
      case None => DefaultExecute(executeText)
      case Some(ts) => ts
    }

    /** execute(): a fresh set holding the tokens of ExecuteTokens. */
    method Execute() returns (ts: TokenSet)
      ensures fresh(ts) && ts.tokens == ExecuteTokens()
    {
      if executeCode.None? {
        ts := new TokenSet.From(Value(Str(executeText)));
      } else {
        ts := new TokenSet();
        ts.tokens := executeCode.value;
      }
    }

    /**
     * removeTimedToken: removes and returns the first token of `ts` due at the transition's
     * recorded clock; None (null) and no change when there is none.
     */
    method RemoveTimedToken(ts: TokenSet) returns (r: Option<Token>)
      modifies ts
      ensures var i := FirstDue(old(ts.tokens), transition.globalClock);
        if i < |old(ts.tokens)| then r == Some(old(ts.tokens)[i]) && ts.tokens == RemoveAt(old(ts.tokens), i)
        else r == None && ts.tokens == old(ts.tokens)
    {
      var clock := transition.globalClock;
      var k := 0;
      while k < |ts.tokens|
        invariant 0 <= k <= |ts.tokens|
        invariant ts.tokens == old(ts.tokens) && clock == transition.globalClock
        invariant forall i :: 0 <= i < k ==> ts.tokens[i].timestamp > clock
      {
        var token := ts.tokens[k];
        if token.timestamp <= clock {
          assert FirstDue(ts.tokens, clock) == k;
          ts.tokens := RemoveAt(ts.tokens, k);
          return Some(token);
        }
        k := k + 1;
      }
      r := None;
    }
  }
}
