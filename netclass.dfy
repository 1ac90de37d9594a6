/**
 * NetClass: the Java source text generated for a net before it is compiled. The text is built
 * from a description of the net (ids, labels, the user's code snippets); `addSlashes` escapes a
 * snippet for use inside a Java string literal, and an output arc's execute text of the form
 * "expression@delay" becomes a two-argument TokenSet constructor.
 */
module NetSources {
  import opened Wrappers
  import opened Text
  import opened Tokens
  import opened TokenSets
  import opened Elements
  import opened PetriNets

  /** The line separator; Java takes it from the platform, here it is a single newline. */
  const EOL: string := "\n"

  // ---------------------------------------------------------------------------------------
  // addSlashes

  /** String.trim() would leave nothing: every character is at most ' '. */
  predicate IsBlank(s: string) {
    forall i :: 0 <= i < |s| ==> s[i] <= ' '
  }

  /** String.replace of one character by a string, at every occurrence, left to right. */
  function Replace(s: string, c: char, rep: string): string
    decreases |s|
  {
    if s == [] then [] else (if s[0] == c then rep else [s[0]]) + Replace(s[1..], c, rep)
  }

  /** addSlashes: a blank string is returned as it is; otherwise quotes, then newlines, are escaped. */
  function AddSlashes(s: string): (r: string)
    ensures IsBlank(s) ==> r == s
  {
    if IsBlank(s) then s else Replace(Replace(s, '"', "\\\""), '\n', "\\n")
  }

  /** Replacing a character that does not occur changes nothing. */
  lemma {:induction false} ReplaceAbsent(s: string, c: char, rep: string)
    requires c !in s
    ensures Replace(s, c, rep) == s
    decreases |s|
  {
    if s != [] {
      assert s == [s[0]] + s[1..];
      ReplaceAbsent(s[1..], c, rep);
    }
  }

  /** A string without quotes and newlines is returned unchanged. */
  lemma AddSlashesPlain(s: string)
    requires '"' !in s && '\n' !in s
    ensures AddSlashes(s) == s
  {
    if !IsBlank(s) {
      ReplaceAbsent(s, '"', "\\\"");
      ReplaceAbsent(s, '\n', "\\n");
    }
  }

  /** The escape of one character inside a Java string literal, as far as addSlashes goes. */
  function EscapeChar(c: char): string {
    if c == '"' then "\\\"" else if c == '\n' then "\\n" else [c]
  }

  /** A single left-to-right pass escaping every character. */
  function Escape(s: string): (r: string)
    ensures |r| >= |s|
  {
    if s == [] then [] else EscapeChar(s[0]) + Escape(s[1..])
  }

  /** How many times `c` occurs in `s`. */
  function Count(s: string, c: char): nat {
    if s == [] then 0 else (if s[0] == c then 1 else 0) + Count(s[1..], c)
  }

  lemma {:induction false} ReplaceNewlinesOfQuoted(s: string)
    ensures Replace(Replace(s, '"', "\\\""), '\n', "\\n") == Escape(s)
    decreases |s|
  {
    if s != [] {
      ReplaceNewlinesOfQuoted(s[1..]);
      var head := if s[0] == '"' then "\\\"" else [s[0]];
      assert Replace(s, '"', "\\\"") == head + Replace(s[1..], '"', "\\\"");
      ReplaceAppend(head, Replace(s[1..], '"', "\\\""), '\n', "\\n");
      if s[0] == '"' {
        assert Replace(head, '\n', "\\n") == head by {
          assert head[1..] == "\"" && head[1..][1..] == [];
        }
      } else {
        assert head[1..] == [];
      }
    }
  }

  lemma {:induction false} ReplaceAppend(a: string, b: string, c: char, rep: string)
    ensures Replace(a + b, c, rep) == Replace(a, c, rep) + Replace(b, c, rep)
    decreases |a|
  {
    if a != [] {
      assert (a + b)[1..] == a[1..] + b;
      ReplaceAppend(a[1..], b, c, rep);
    } else {
      assert a + b == b;
    }
  }

  /** The two replacements of addSlashes make one escaping pass over a non-blank string. */
  lemma AddSlashesEscapes(s: string)
    requires !IsBlank(s)
    ensures AddSlashes(s) == Escape(s)
  {
    ReplaceNewlinesOfQuoted(s);
  }

  lemma {:induction false} EscapeShape(s: string)
    ensures |Escape(s)| == |s| + Count(s, '"') + Count(s, '\n')
    ensures '\n' !in Escape(s)
    decreases |s|
  {
    if s != [] {
      EscapeShape(s[1..]);
    }
  }

  /**
   * A non-blank string comes out without newlines, one character longer for each quote and
   * each newline it had.
   */
  lemma AddSlashesShape(s: string)
    requires !IsBlank(s)
    ensures |AddSlashes(s)| == |s| + Count(s, '"') + Count(s, '\n')
    ensures '\n' !in AddSlashes(s)
  {
    AddSlashesEscapes(s);
    EscapeShape(s);
  }

  /** How the Java compiler reads the body of a string literal back, for the escapes above. */
  function Unescape(s: string): string
    decreases |s|
  {
    if |s| >= 2 && s[0] == '\\' && s[1] == '"' then "\"" + Unescape(s[2..])
    else if |s| >= 2 && s[0] == '\\' && s[1] == 'n' then "\n" + Unescape(s[2..])
    else if s == [] then []
    else [s[0]] + Unescape(s[1..])
  }

  lemma {:induction false} UnescapeEscape(s: string)
    requires '\\' !in s
    ensures Unescape(Escape(s)) == s
    decreases |s|
  {
    if s != [] {
      UnescapeEscape(s[1..]);
      var e := Escape(s);
      assert e == EscapeChar(s[0]) + Escape(s[1..]);
      if s[0] == '"' || s[0] == '\n' {
        assert e[2..] == Escape(s[1..]);
      } else {
        assert e[1..] == Escape(s[1..]);
      }
    }
  }

  /**
   * For a text without backslashes the generated literal reads back as the text itself: the
   * compiled net sees the snippet that was typed.
   */
  lemma AddSlashesRoundTrip(s: string)
    requires !IsBlank(s) && '\\' !in s
    ensures Unescape(AddSlashes(s)) == s
  {
    AddSlashesEscapes(s);
    UnescapeEscape(s);
  }

  /**
   * Backslashes are not escaped, so a text holding a newline and one holding a backslash
   * followed by 'n' give the same literal.
   */
  lemma AddSlashesConflates()
    ensures AddSlashes("a\n") == AddSlashes("a\\n") == "a\\n"
  {
    assert !IsBlank("a\n") by { assert "a\n"[0] == 'a'; }
    AddSlashesEscapes("a\n");
    assert Escape("a\n") == "a" + Escape("\n");
    assert Escape("\n") == "\\n" + Escape("");
  }

  // ---------------------------------------------------------------------------------------
  // The '@' split of an output arc's execute text

  /**
   * StringTokenizer(s, "@"): the maximal runs of characters other than '@', empty ones
   * dropped; `cur` is the run read so far.
   */
  function SplitFrom(s: string, cur: string): seq<string>
    decreases |s|
  {
    if s == [] then (if cur == [] then [] else [cur])
    else if s[0] == '@' then (if cur == [] then [] else [cur]) + SplitFrom(s[1..], [])
    else SplitFrom(s[1..], cur + [s[0]])
  }

  function Split(s: string): seq<string> {
    SplitFrom(s, [])
  }

  /** Every piece is non-empty and holds no '@'. */
  lemma {:induction false} SplitFromWellFormed(s: string, cur: string)
    requires '@' !in cur
    ensures forall i :: 0 <= i < |SplitFrom(s, cur)| ==> SplitFrom(s, cur)[i] != [] && '@' !in SplitFrom(s, cur)[i]
    decreases |s|
  {
    if s != [] {
      if s[0] == '@' {
        SplitFromWellFormed(s[1..], []);
      } else {
        SplitFromWellFormed(s[1..], cur + [s[0]]);
      }
    }
  }

  lemma {:induction false} SplitFromRun(e: string, rest: string, cur: string)
    requires '@' !in e
    ensures SplitFrom(e + rest, cur) == SplitFrom(rest, cur + e)
    decreases |e|
  {
    if e == [] {
      assert e + rest == rest && cur + e == cur;
    } else {
      assert (e + rest)[0] == e[0] && (e + rest)[1..] == e[1..] + rest;
      SplitFromRun(e[1..], rest, cur + [e[0]]);
      assert cur + [e[0]] + e[1..] == cur + e;
    }
  }

  /** A text without '@' is a single piece (or none, when empty). */
  lemma SplitOfPlain(e: string)
    requires '@' !in e && e != []
    ensures Split(e) == [e]
  {
    SplitFromRun(e, [], []);
    assert e + [] == e && [] + e == e;
  }

  /** "expression@delay" splits into the expression and the delay. */
  lemma SplitOfDelayed(e: string, d: string)
    requires '@' !in e && e != [] && '@' !in d && d != []
    ensures Split(e + "@" + d) == [e, d]
  {
    SplitFromRun(e, "@" + d, []);
    assert e + "@" + d == e + ("@" + d);
    assert [] + e == e;
    assert ("@" + d)[1..] == d;
    SplitOfPlain(d);
  }

  /**
   * The split of an output arc's execute text in the generated execute(): exactly two pieces give the expression and
   * the delay; any other text is the expression alone.
   */
  function SplitDelay(text: string): (r: (string, Option<string>))
    ensures r.1.Some? ==> r.0 != [] && '@' !in r.0 && r.1.value != [] && '@' !in r.1.value
    ensures r.1.None? ==> r.0 == text
  {
    var pieces := Split(text);
    SplitFromWellFormed(text, []);
    if |pieces| == 2 then (pieces[0], Some(pieces[1])) else (text, None)
  }

  /** Splitting undoes the "expression@delay" form, and a text with no '@' has no delay. */
  lemma SplitDelayRoundTrip(e: string, d: string)
    requires '@' !in e && e != [] && '@' !in d && d != []
    ensures SplitDelay(e + "@" + d) == (e, Some(d))
    ensures SplitDelay(e) == (e, None)
  {
    SplitOfDelayed(e, d);
    SplitOfPlain(e);
  }

  // ---------------------------------------------------------------------------------------
  // What the generator reads from the net

  datatype PlaceText = PlaceText(id: string, labelText: string, capacity: int, expressions: seq<string>)
  datatype TransitionText = TransitionText(id: string, labelText: string, guardText: string)
  datatype ArcText = ArcText(id: string, placeId: string, transitionId: string, evaluateText: string, executeText: string)
  datatype NetText = NetText(
    id: string, labelText: string, importText: string, implementText: string, declarationText: string,
    places: seq<PlaceText>, transitions: seq<TransitionText>, inputArcs: seq<ArcText>, outputArcs: seq<ArcText>)

  /** The initial-marking expressions of the tokens, in order. */
  function Expressions(ts: seq<Token>): seq<string> {
    seq(|ts|, i requires 0 <= i < |ts| => ts[i].initialMarkingExpression)
  }

  function PlaceTextOf(p: Place): PlaceText
    reads p, p.obj, p.tokens
  {
    PlaceText(p.obj.id, p.obj.EffectiveLabel(), p.capacity, Expressions(p.tokens.tokens))
  }

  function ArcTextOf(a: Arc): ArcText
    reads a, a.obj, a.place, a.place.obj, a.transition, a.transition.obj
  {
    ArcText(a.obj.id, a.place.obj.id, a.transition.obj.id, a.evaluateText, a.executeText)
  }

  // ---------------------------------------------------------------------------------------
  // The generated text, section by section

  /** The class line: "implements" and the interface list only when there is an interface list. */
  function ClassLine(labelText: string, implementText: string): string {
    if implementText != [] then
      "public class " + labelText + " extends PetriNet implements " + implementText + " {" + EOL + EOL
    else
      "public class " + labelText + " extends PetriNet {" + EOL
  }

  /** Comment, imports, class line and the custom declarations. */
  function Preamble(n: NetText): string {
    "/* This is an autogenerated Petri-Netz (PetriNet) Simulator Java file. */" + EOL
    + "import business.*;" + EOL
    + (if n.importText != [] then n.importText + EOL else "")
    + ClassLine(n.labelText, n.implementText)
    + EOL + "  /** Custom declarations. */" + EOL
    + (if n.declarationText != [] then "  " + n.declarationText + EOL else "")
  }

  function PlaceDecl(p: PlaceText): string {
    "  private Place " + p.id + " = new Place(\"" + p.id + "\");" + EOL
  }

  function TransitionDecl(t: TransitionText): string {
    "  private Transition " + t.id + " = new Transition(\"" + t.id + "\",\"" + AddSlashes(t.guardText) + "\") {" + EOL
    + "         public boolean evaluate(){" + EOL
    + "                 " + t.guardText + EOL
    + "         }" + EOL
    + "  };" + EOL
  }

  function InputArcDecl(a: ArcText): string {
    "  private InputArc " + a.id + " = new InputArc(\"" + a.id + "\"," + a.placeId + "," + a.transitionId + ","
    + " \"" + AddSlashes(a.executeText) + "\" " + ") {" + EOL
    + "         public boolean evaluate() {" + EOL
    + "                 return " + AddSlashes(a.evaluateText) + ";" + EOL
    + "         }" + EOL
    + "         public TokenSet execute() {" + EOL
    + "                 return new TokenSet(" + a.executeText + ");" + EOL
    + "         }" + EOL
    + "  };" + EOL
  }

  /** The execute body of an output arc: a delayed TokenSet when the text is "expression@delay". */
  function OutputExecute(executeText: string): string {
    var split := SplitDelay(executeText);
    if split.1.Some? then "                 return new TokenSet(" + split.0 + "," + split.1.value + ");" + EOL
    else "                 return new TokenSet(" + executeText + ");" + EOL
  }

  function OutputArcDecl(a: ArcText): string {
    "  private OutputArc " + a.id + " = new OutputArc(\"" + a.id + "\"," + a.placeId + "," + a.transitionId + ","
    + " \"" + AddSlashes(a.executeText) + "\" " + "){" + EOL
    + "         public TokenSet execute() {" + EOL
    + OutputExecute(a.executeText)
    + "         }" + EOL
    + "  };" + EOL
  }

  /** The concatenation of the pieces, in order. */
  function Join(parts: seq<string>): string {
    if parts == [] then [] else Join(parts[..|parts| - 1]) + parts[|parts| - 1]
  }

  function PlaceDecls(ps: seq<PlaceText>): seq<string> {
    seq(|ps|, i requires 0 <= i < |ps| => PlaceDecl(ps[i]))
  }

  function TransitionDecls(ts: seq<TransitionText>): seq<string> {
    seq(|ts|, i requires 0 <= i < |ts| => TransitionDecl(ts[i]))
  }

  function InputArcDecls(arcs: seq<ArcText>): seq<string> {
    seq(|arcs|, i requires 0 <= i < |arcs| => InputArcDecl(arcs[i]))
  }

  function OutputArcDecls(arcs: seq<ArcText>): seq<string> {
    seq(|arcs|, i requires 0 <= i < |arcs| => OutputArcDecl(arcs[i]))
  }

  /** The comment line that opens a declaration group; an empty group has none. */
  function Heading(title: string, present: bool): string {
    if present then EOL + "  /** " + title + " declaration. */" + EOL else []
  }

  function TokenLine(placeId: string, expression: string): string {
    "     " + placeId + ".addToken(new TokenSet(" + expression + ", \"" + AddSlashes(expression) + "\"));" + EOL
  }

  function TokenLines(p: PlaceText): seq<string> {
    seq(|p.expressions|, i requires 0 <= i < |p.expressions| => TokenLine(p.id, p.expressions[i]))
  }

  /** The constructor lines after a place's tokens: its capacity if positive, its label, its registration. */
  function PlaceTail(p: PlaceText): string {
    (if p.capacity > 0 then "     " + p.id + ".setCapacity(" + IntToString(p.capacity) + ");" + EOL else "")
    + "     " + p.id + ".setLabel(\"" + p.labelText + "\");" + EOL
    + "     addPlace(" + p.id + ");" + EOL
  }

  /** The constructor lines that rebuild one place. */
  function PlaceSetup(p: PlaceText): string {
    Join(TokenLines(p)) + PlaceTail(p)
  }

  function TransitionSetup(t: TransitionText): string {
    "     " + t.id + ".setLabel(\"" + t.labelText + "\");" + EOL
    + "     addTransition(" + t.id + ");" + EOL
  }

  function InputArcSetup(a: ArcText): string {
    "     " + a.id + ".setEvaluateText(\"" + AddSlashes(a.evaluateText) + "\");" + EOL
    + "     " + a.id + ".setExecuteText(\"" + AddSlashes(a.executeText) + "\");" + EOL
    + "     addInputArc(" + a.id + ");" + EOL
  }

  function OutputArcSetup(a: ArcText): string {
    "     addOutputArc(" + a.id + ");" + EOL
  }

  function PlaceSetups(ps: seq<PlaceText>): seq<string> {
    seq(|ps|, i requires 0 <= i < |ps| => PlaceSetup(ps[i]))
  }

  function TransitionSetups(ts: seq<TransitionText>): seq<string> {
    seq(|ts|, i requires 0 <= i < |ts| => TransitionSetup(ts[i]))
  }

  function InputArcSetups(arcs: seq<ArcText>): seq<string> {
    seq(|arcs|, i requires 0 <= i < |arcs| => InputArcSetup(arcs[i]))
  }

  function OutputArcSetups(arcs: seq<ArcText>): seq<string> {
    seq(|arcs|, i requires 0 <= i < |arcs| => OutputArcSetup(arcs[i]))
  }

  /** The constructor header: id, label and the non-empty texts of the net. */
  function ConstructorHead(n: NetText): string {
    "  /** Class " + n.labelText + " constructor. */" + EOL
    + "  public " + n.labelText + "() {" + EOL
    + "     setId(\"" + n.id + "\");" + EOL
    + "     setLabel(\"" + n.labelText + "\");" + EOL
    + (if n.declarationText != [] then "     setDeclarationText(\"" + AddSlashes(n.declarationText) + "\");" + EOL else "")
    + (if n.implementText != [] then "     setImplementText(\"" + AddSlashes(n.implementText) + "\");" + EOL else "")
    + (if n.importText != [] then "     setImportText(\"" + AddSlashes(n.importText) + "\");" + EOL else "")
  }

  const ClassEnd: string := "  }" + EOL + EOL + "}" + EOL

  /** The declarations of the class body: places, transitions, input arcs, output arcs. */
  function AllDecls(n: NetText): seq<string> {
    PlaceDecls(n.places) + TransitionDecls(n.transitions) + InputArcDecls(n.inputArcs) + OutputArcDecls(n.outputArcs)
  }

  /** The generated class as the sequence of pieces appended to the buffer. */
  function Chunks(n: NetText): seq<string> {
    [Preamble(n), Heading("Places", n.places != [])] + PlaceDecls(n.places)
    + [Heading("Transitions", n.transitions != [])] + TransitionDecls(n.transitions)
    + [Heading("Input Arcs", n.inputArcs != [])] + InputArcDecls(n.inputArcs)
    + [Heading("Output Arcs", n.outputArcs != [])] + OutputArcDecls(n.outputArcs)
    + ConstructorPart(n)
  }

  /** The constructor of the generated class and the class end. */
  function ConstructorPart(n: NetText): seq<string> {
    [ConstructorHead(n)] + PlaceSetups(n.places) + TransitionSetups(n.transitions)
    + InputArcSetups(n.inputArcs) + OutputArcSetups(n.outputArcs) + [ClassEnd]
  }

  /** The whole generated class. */
  function NetSource(n: NetText): string {
    Join(Chunks(n))
  }

  // ---------------------------------------------------------------------------------------
  // Properties of the generated text

  /** `w` occurs in `s` at offset `k`. */
  predicate OccursAt(s: string, w: string, k: int) {
    0 <= k && k + |w| <= |s| && s[k..k + |w|] == w
  }

  /** The class line names the interface list exactly when the net has one. */
  lemma ClassLineImplements(labelText: string, implementText: string)
    ensures var head := "public class " + labelText + " extends PetriNet";
      var line := ClassLine(labelText, implementText);
      OccursAt(line, head, 0)
      && (implementText != [] <==> OccursAt(line, " implements ", |head|))
      && (implementText != [] ==> OccursAt(line, implementText, |head| + 12))
  {
    var head := "public class " + labelText + " extends PetriNet";
    var line := ClassLine(labelText, implementText);
    if implementText != [] {
      assert line == head + " implements " + implementText + " {" + EOL + EOL;
    } else {
      assert line == head + " {" + EOL;
      assert line[|head|..][1] == '{';
    }
  }

  lemma JoinSnoc(parts: seq<string>, x: string)
    ensures Join(parts + [x]) == Join(parts) + x
  {
    assert (parts + [x])[..|parts|] == parts;
  }

  lemma {:induction false} JoinAppend(a: seq<string>, b: seq<string>)
    ensures Join(a + b) == Join(a) + Join(b)
    decreases |b|
  {
    if b == [] {
      assert a + b == a;
    } else {
      var c := b[..|b| - 1];
      assert a + b == (a + c) + [b[|b| - 1]];
      JoinSnoc(a + c, b[|b| - 1]);
      JoinAppend(a, c);
    }
  }

  /** The generated class, section by section. */
  lemma JoinChunks(n: NetText)
    ensures NetSource(n)
      == Join([Preamble(n), Heading("Places", n.places != [])]) + Join(PlaceDecls(n.places))
      + Join([Heading("Transitions", n.transitions != [])]) + Join(TransitionDecls(n.transitions))
      + Join([Heading("Input Arcs", n.inputArcs != [])]) + Join(InputArcDecls(n.inputArcs))
      + Join([Heading("Output Arcs", n.outputArcs != [])]) + Join(OutputArcDecls(n.outputArcs))
      + Join(ConstructorPart(n))
  {
    var a0 := [Preamble(n), Heading("Places", n.places != [])];
    var a1 := a0 + PlaceDecls(n.places);
    var a2 := a1 + [Heading("Transitions", n.transitions != [])];
    var a3 := a2 + TransitionDecls(n.transitions);
    var a4 := a3 + [Heading("Input Arcs", n.inputArcs != [])];
    var a5 := a4 + InputArcDecls(n.inputArcs);
    var a6 := a5 + [Heading("Output Arcs", n.outputArcs != [])];
    var a7 := a6 + OutputArcDecls(n.outputArcs);
    JoinAppend(a0, PlaceDecls(n.places));
    JoinAppend(a1, [Heading("Transitions", n.transitions != [])]);
    JoinAppend(a2, TransitionDecls(n.transitions));
    JoinAppend(a3, [Heading("Input Arcs", n.inputArcs != [])]);
    JoinAppend(a4, InputArcDecls(n.inputArcs));
    JoinAppend(a5, [Heading("Output Arcs", n.outputArcs != [])]);
    JoinAppend(a6, OutputArcDecls(n.outputArcs));
    JoinAppend(a7, ConstructorPart(n));
  }

  lemma JoinAfter(s: string, a: seq<string>, b: seq<string>)
    ensures s + Join(a) + Join(b) == s + Join(a + b)
  {
    JoinAppend(a, b);
    assert s + Join(a) + Join(b) == s + (Join(a) + Join(b));
  }

  /** Piece `i` sits in the joined text right after the pieces before it. */
  lemma {:induction false} JoinPlaces(parts: seq<string>, i: nat)
    requires i < |parts|
    ensures OccursAt(Join(parts), parts[i], |Join(parts[..i])|)
    decreases |parts|
  {
    var n := |parts| - 1;
    var a, b := Join(parts[..n]), parts[n];
    assert Join(parts) == a + b;
    if i == n {
      assert parts[..n] == parts[..i];
      assert (a + b)[|a|..|a| + |b|] == b;
    } else {
      JoinPlaces(parts[..n], i);
      assert parts[..n][i] == parts[i] && parts[..n][..i] == parts[..i];
      assert (a + b)[..|a|] == a;
    }
  }

  /** Pieces come out in their order: piece `i` ends before piece `j` starts. */
  lemma {:induction false} JoinOrder(parts: seq<string>, i: nat, j: nat)
    requires i < j <= |parts|
    ensures |Join(parts[..i])| + |parts[i]| <= |Join(parts[..j])|
    decreases j
  {
    assert parts[..i + 1][..i] == parts[..i];
    if j > i + 1 {
      JoinOrder(parts, i, j - 1);
      assert parts[..j][..j - 1] == parts[..j - 1];
    }
  }

  /** In the joined text, piece `i` ends before piece `j` starts. */
  lemma JoinedInOrder(parts: seq<string>, i: nat, j: nat)
    requires i < j < |parts|
    ensures var k1, k2 := |Join(parts[..i])|, |Join(parts[..j])|;
      OccursAt(Join(parts), parts[i], k1) && OccursAt(Join(parts), parts[j], k2) && k1 + |parts[i]| <= k2
  {
    JoinPlaces(parts, i);
    JoinPlaces(parts, j);
    JoinOrder(parts, i, j);
  }

  /**
   * Where item `i` of four groups of sizes p, t, a, ... lands when two pieces precede the first
   * group and one heading precedes each later group.
   */
  function GroupIndex(p: nat, t: nat, a: nat, i: nat): nat {
    if i < p then 2 + i else if i < p + t then 3 + i else if i < p + t + a then 4 + i else 5 + i
  }

  /** The layout of the class, on any pieces: the groups keep their items, in order. */
  lemma GroupsLaidOut(head: seq<string>, g1: seq<string>, h2: string, g2: seq<string>, h3: string, g3: seq<string>,
                      h4: string, g4: seq<string>, tail: seq<string>, i: nat)
    requires |head| == 2 && i < |g1| + |g2| + |g3| + |g4|
    ensures var c := head + g1 + [h2] + g2 + [h3] + g3 + [h4] + g4 + tail;
      var k := GroupIndex(|g1|, |g2|, |g3|, i);
      k < |c| && c[k] == (g1 + g2 + g3 + g4)[i]
  {
    var pre := head + g1 + [h2] + g2 + [h3] + g3 + [h4] + g4;
    var k := GroupIndex(|g1|, |g2|, |g3|, i);
    assert k < |pre|;
    assert (pre + tail)[k] == pre[k];
  }

  /** The layout of the class, on any pieces: two items of the groups come out in their order. */
  lemma GroupsInOrder(head: seq<string>, g1: seq<string>, h2: string, g2: seq<string>, h3: string, g3: seq<string>,
                      h4: string, g4: seq<string>, tail: seq<string>, i: nat, j: nat)
    requires |head| == 2 && i < j < |g1| + |g2| + |g3| + |g4|
    ensures var c, g := head + g1 + [h2] + g2 + [h3] + g3 + [h4] + g4 + tail, g1 + g2 + g3 + g4;
      exists k1, k2 :: OccursAt(Join(c), g[i], k1) && OccursAt(Join(c), g[j], k2) && k1 + |g[i]| <= k2
  {
    var c := head + g1 + [h2] + g2 + [h3] + g3 + [h4] + g4 + tail;
    var fi, fj := GroupIndex(|g1|, |g2|, |g3|, i), GroupIndex(|g1|, |g2|, |g3|, j);
    GroupsLaidOut(head, g1, h2, g2, h3, g3, h4, g4, tail, i);
    GroupsLaidOut(head, g1, h2, g2, h3, g3, h4, g4, tail, j);
    JoinedInOrder(c, fi, fj);
    var k1, k2 := |Join(c[..fi])|, |Join(c[..fj])|;
    assert OccursAt(Join(c), c[fi], k1) && OccursAt(Join(c), c[fj], k2);
  }

  /**
   * The declarations appear in the generated class in the order AllDecls lists them: places,
   * then transitions, then input arcs, then output arcs, each group in registration order.
   */
  lemma DeclarationsInOrder(n: NetText, i: nat, j: nat)
    requires i < j < |AllDecls(n)|
    ensures exists k1, k2 ::
      OccursAt(NetSource(n), AllDecls(n)[i], k1) && OccursAt(NetSource(n), AllDecls(n)[j], k2) && k1 + |AllDecls(n)[i]| <= k2
  {
    var head := [Preamble(n), Heading("Places", n.places != [])];
    var h2, h3, h4 := Heading("Transitions", n.transitions != []), Heading("Input Arcs", n.inputArcs != []),
      Heading("Output Arcs", n.outputArcs != []);
    var g1, g2, g3, g4 := PlaceDecls(n.places), TransitionDecls(n.transitions), InputArcDecls(n.inputArcs),
      OutputArcDecls(n.outputArcs);
    assert NetSource(n) == Join(head + g1 + [h2] + g2 + [h3] + g3 + [h4] + g4 + ConstructorPart(n));
    assert AllDecls(n) == g1 + g2 + g3 + g4;
    GroupsInOrder(head, g1, h2, g2, h3, g3, h4, g4, ConstructorPart(n), i, j);
  }

  // ---------------------------------------------------------------------------------------
  // The generator

  function PlaceTexts(ps: seq<Place>): (r: seq<PlaceText>)
    reads ps, set p | p in ps :: p.obj, set p | p in ps :: p.tokens
    ensures |r| == |ps|
  {
    seq(|ps|, i requires 0 <= i < |ps| reads ps, set p | p in ps :: p.obj, set p | p in ps :: p.tokens
      => PlaceTextOf(ps[i]))
  }

  function TransitionTexts(ts: seq<Transition>): (r: seq<TransitionText>)
    reads ts, set t | t in ts :: t.obj
    ensures |r| == |ts|
  {
    seq(|ts|, i requires 0 <= i < |ts| reads ts, set t | t in ts :: t.obj
      => TransitionText(ts[i].obj.id, ts[i].obj.EffectiveLabel(), ts[i].guardText))
  }

  function ArcTexts(arcs: seq<Arc>): (r: seq<ArcText>)
    reads arcs, set a | a in arcs :: a.obj, set a | a in arcs :: a.place, set a | a in arcs :: a.place.obj
    reads set a | a in arcs :: a.transition, set a | a in arcs :: a.transition.obj
    ensures |r| == |arcs|
  {
    seq(|arcs|, i requires 0 <= i < |arcs|
      reads arcs, set a | a in arcs :: a.obj, set a | a in arcs :: a.place, set a | a in arcs :: a.place.obj
      reads set a | a in arcs :: a.transition, set a | a in arcs :: a.transition.obj
      => ArcTextOf(arcs[i]))
  }

  /** What generateNetSource reads from the net; every label is the one getLabel reports. */
  function NetTextOf(net: PetriNet): NetText
    reads net, net.obj, net.places, net.transitions, net.inputArcs, net.outputArcs
    reads set p | p in net.places :: p.obj, set p | p in net.places :: p.tokens
    reads set t | t in net.transitions :: t.obj
    reads set a | a in net.inputArcs :: a.obj, set a | a in net.inputArcs :: a.place
    reads set a | a in net.inputArcs :: a.place.obj, set a | a in net.inputArcs :: a.transition
    reads set a | a in net.inputArcs :: a.transition.obj
    reads set a | a in net.outputArcs :: a.obj, set a | a in net.outputArcs :: a.place
    reads set a | a in net.outputArcs :: a.place.obj, set a | a in net.outputArcs :: a.transition
    reads set a | a in net.outputArcs :: a.transition.obj
  {
    NetText(net.obj.id, net.obj.EffectiveLabel(), net.importText, net.implementText, net.declarationText,
      PlaceTexts(net.places), TransitionTexts(net.transitions), ArcTexts(net.inputArcs), ArcTexts(net.outputArcs))
  }

  /** NetClass: the buffer the generated source is written into. */
  class NetClass {
    var netSource: string

    /** NetClass(): generates the source of the net at once. */
    constructor (net: PetriNet)
      ensures netSource == old(NetSource(NetTextOf(net)))
    {
      var n := NetTextOf(net);
      netSource := [];
      new;
      Generate(n);
    }

    /** Appends the pieces one after the other, as each loop of generateNetSource does. */
    method AppendAll(parts: seq<string>)
      modifies this
      ensures netSource == old(netSource) + Join(parts)
    {
      for k := 0 to |parts|
        invariant netSource == old(netSource) + Join(parts[..k])
      {
        JoinSnoc(parts[..k], parts[k]);
        assert parts[..k + 1] == parts[..k] + [parts[k]];
        netSource := netSource + parts[k];
      }
      assert parts[..|parts|] == parts;
    }

    /**
     * generateNetSource: a fresh buffer receives the preamble, the four declaration groups and
     * the constructor, which rebuilds the marking, capacities and labels and registers every
     * place, transition and arc.
     */
    method GenerateNetSource(net: PetriNet) returns (s: string)
      modifies this
      ensures netSource == old(NetSource(NetTextOf(net))) && s == netSource
    {
      Generate(NetTextOf(net));
      s := netSource;
    }

    /** The appends of generateNetSource, on what it reads from the net. */
    method Generate(n: NetText)
      modifies this
      ensures netSource == NetSource(n)
    {
      netSource := [];
      AppendAll([Preamble(n), Heading("Places", n.places != [])]);
      assert netSource == Join([Preamble(n), Heading("Places", n.places != [])]);
      AppendAll(PlaceDecls(n.places));
      AppendAll([Heading("Transitions", n.transitions != [])]);
      AppendAll(TransitionDecls(n.transitions));
      AppendAll([Heading("Input Arcs", n.inputArcs != [])]);
      AppendAll(InputArcDecls(n.inputArcs));
      AppendAll([Heading("Output Arcs", n.outputArcs != [])]);
      AppendAll(OutputArcDecls(n.outputArcs));
      GenerateConstructor(n);
      JoinChunks(n);
    }

    /** The constructor of the generated class: it rebuilds the net piece by piece. */
    method GenerateConstructor(n: NetText)
      modifies this
      ensures netSource == old(netSource) + Join(ConstructorPart(n))
    {
      AppendAll([ConstructorHead(n)]);
      ghost var done := [ConstructorHead(n)];
      AppendAll(PlaceSetups(n.places));
      JoinAfter(old(netSource), done, PlaceSetups(n.places));
      done := done + PlaceSetups(n.places);
      AppendAll(TransitionSetups(n.transitions));
      JoinAfter(old(netSource), done, TransitionSetups(n.transitions));
      done := done + TransitionSetups(n.transitions);
      AppendAll(InputArcSetups(n.inputArcs));
      JoinAfter(old(netSource), done, InputArcSetups(n.inputArcs));
      done := done + InputArcSetups(n.inputArcs);
      AppendAll(OutputArcSetups(n.outputArcs));
      JoinAfter(old(netSource), done, OutputArcSetups(n.outputArcs));
      done := done + OutputArcSetups(n.outputArcs);
      AppendAll([ClassEnd]);
      JoinAfter(old(netSource), done, [ClassEnd]);
    }

    /** getNetSource: regenerates the source, then hands out the buffer. */
    method GetNetSource(net: PetriNet) returns (s: string)
      modifies this
      ensures netSource == old(NetSource(NetTextOf(net))) && s == netSource
    {
      var _ := GenerateNetSource(net);
      s := netSource;
    }

    method SetNetSource(s: string)
      modifies this
      ensures netSource == s
    {
      netSource := s;
    }
  }
}
