/**
 * Token sets: an ordered list of tokens with the timing gate (containsTime), the clock shift
 * of timed tokens (incrementTime) and the consuming multiset difference (removeAll).
 *
 * The list algorithms are methods over sequences, each proved against a specification
 * function; the class TokenSet holds the list and delegates to them.
 */
module TokenSets {
  import opened Wrappers
  import opened Tokens

  /** The marking of a net: the token list of each place, in place order. */
  type Marking = seq<seq<Token>>

  // ---------------------------------------------------------------------------------------
  // containsTime

  /** Every token of `s` is untimed (timestamp 0); true of the empty list. */
  predicate AllUntimed(s: seq<Token>) {
    forall i :: 0 <= i < |s| ==> s[i].timestamp == 0
  }

  /** Some token of `s` is due at `time`, i.e. has a timestamp not after it. */
  predicate SomeDue(s: seq<Token>, time: int) {
    exists i :: 0 <= i < |s| && s[i].timestamp <= time
  }

  /** The timing gate of TokenSet.containsTime: all tokens untimed, or one of them is due. */
  predicate Available(s: seq<Token>, time: int) {
    AllUntimed(s) || SomeDue(s, time)
  }

  /** The flag-accumulating loop of TokenSet.containsTime. */
  method ContainsTimeIn(s: seq<Token>, time: int) returns (r: bool)
    ensures r <==> AllUntimed(s) || SomeDue(s, time)
  {
    var found := false;
    var allZero := true;
    var k := 0;
    while k < |s|
      invariant 0 <= k <= |s|
      invariant found <==> SomeDue(s[..k], time)
      invariant allZero <==> AllUntimed(s[..k])
    {
      if s[k].timestamp <= time {
        found := true;
      }
      if s[k].timestamp != 0 {
        allZero := false;
      }
      assert s[..k + 1] == s[..k] + [s[k]];
      k := k + 1;
    }
    assert s[..k] == s;
    r := allZero || found;
  }

  /** The gate only opens as time goes on. */
  lemma AvailableMonotone(s: seq<Token>, time: int, later: int)
    requires Available(s, time) && time <= later
    ensures Available(s, later)
  {
    if !AllUntimed(s) {
      var i :| 0 <= i < |s| && s[i].timestamp <= time;
      assert s[i].timestamp <= later;
    }
  }

  /** A list holding a timed token only is closed before that token's time and open from it on. */
  lemma AvailableSingleTimed(t: Token, time: int)
    requires t.timestamp != 0
    ensures Available([t], time) <==> t.timestamp <= time
  {
    if Available([t], time) {
      assert [t][0].timestamp != 0;
      var i :| 0 <= i < 1 && [t][i].timestamp <= time;
    }
  }

  // ---------------------------------------------------------------------------------------
  // incrementTime

  /** Token.setTimestamp as incrementTime applies it: untimed tokens stay at 0. */
  function Shift(t: Token, d: int): (r: Token)
    ensures r.payload == t.payload && r.initialMarkingExpression == t.initialMarkingExpression
    ensures t.timestamp == 0 ==> r.timestamp == 0
    ensures t.timestamp != 0 ==> r.timestamp == t.timestamp + d
  {
    if t.timestamp != 0 then t.(timestamp := t.timestamp + d) else t
  }

  /** Each token of `s` shifted by `d`, in the same order. */
  function Shifted(s: seq<Token>, d: int): (r: seq<Token>)
    ensures |r| == |s|
    ensures forall i :: 0 <= i < |s| ==> r[i] == Shift(s[i], d)
  {
    if s == [] then [] else Shifted(s[..|s| - 1], d) + [Shift(s[|s| - 1], d)]
  }

  /** The iterator loop of TokenSet.incrementTime, returning the updated list. */
  method IncrementTimeIn(s: seq<Token>, d: int) returns (r: seq<Token>)
    ensures |r| == |s|
    ensures forall i :: 0 <= i < |s| && s[i].timestamp == 0 ==> r[i] == s[i]
    ensures forall i :: 0 <= i < |s| && s[i].timestamp != 0 ==>
      r[i] == s[i].(timestamp := s[i].timestamp + d)
    ensures r == Shifted(s, d)
  {
    r := s;
    var k := 0;
    while k < |r|
      invariant 0 <= k <= |r| == |s|
      invariant forall i :: 0 <= i < k ==> r[i] == Shift(s[i], d)
      invariant forall i :: k <= i < |s| ==> r[i] == s[i]
    {
      var token := r[k];
      if token.timestamp != 0 {
        r := r[k := token.(timestamp := token.timestamp + d)];
      }
      k := k + 1;
    }
  }

  /** Shifting by 0 changes nothing. */
  lemma ShiftedByZero(s: seq<Token>)
    ensures Shifted(s, 0) == s
  {
  }

  /**
   * Two shifts add up, provided the first does not bring a timed token to 0 (which would
   * make it untimed and exempt from the second).
   */
  lemma ShiftedTwice(s: seq<Token>, a: int, b: int)
    requires forall i :: 0 <= i < |s| && s[i].timestamp != 0 ==> s[i].timestamp + a != 0
    ensures Shifted(Shifted(s, a), b) == Shifted(s, a + b)
  {
    var l, r := Shifted(Shifted(s, a), b), Shifted(s, a + b);
    forall i | 0 <= i < |s|
      ensures l[i] == r[i]
    {
      assert Shifted(s, a)[i] == Shift(s[i], a);
    }
  }

  /** Shifting an untimed list leaves it as it is: untimed production ignores the clock. */
  lemma ShiftedUntimed(s: seq<Token>, d: int)
    requires AllUntimed(s)
    ensures Shifted(s, d) == s
  {
  }

  // ---------------------------------------------------------------------------------------
  // removeAll

  /** Index of the first element of `c` equal to `t`, or |c| when there is none. */
  function MatchIndex(c: seq<Token>, t: Token): (m: nat)
    ensures m <= |c|
    ensures m < |c| ==> Equals(c[m], t)
    ensures forall k :: 0 <= k < m ==> !Equals(c[k], t)
  {
    if c == [] then 0
    else if Equals(c[0], t) then 0
    else 1 + MatchIndex(c[1..], t)
  }

  lemma NoMatchIndex(c: seq<Token>, t: Token)
    requires forall i :: 0 <= i < |c| ==> !Equals(c[i], t)
    ensures MatchIndex(c, t) == |c|
  {
  }

  function RemoveAt(c: seq<Token>, m: nat): (r: seq<Token>)
    requires m < |c|
    ensures |r| == |c| - 1
  {
    c[..m] + c[m + 1..]
  }

  /**
   * The effect of removeAll: what is left of the receiver (`kept`), what is left of the
   * argument (`unused`), and whether the call threw IllegalStateException.
   */
  datatype Outcome = Outcome(kept: seq<Token>, unused: seq<Token>, thrown: bool)

  /** Puts the tokens in `front` before the receiver's remaining tokens. */
  function Glue(front: seq<Token>, o: Outcome): Outcome {
    o.(kept := front + o.kept)
  }

  /**
   * TokenSet.removeAll as written. Tokens are visited left to right; a token equal to some
   * remaining element of `c` is removed together with the first such element, and the scan
   * of `c` goes on. A second equal element of `c` for the same token makes the list
   * iterator's remove() throw, leaving the token removed, the first match consumed and every
   * later token in place.
   */
  function RemoveAllRun(s: seq<Token>, c: seq<Token>): (o: Outcome)
    decreases |s|
  {
    if s == [] then Outcome([], c, false)
    else
      var m := MatchIndex(c, s[0]);
      if m == |c| then Glue([s[0]], RemoveAllRun(s[1..], c))
      else if MatchIndex(c[m + 1..], s[0]) < |c| - (m + 1) then Outcome(s[1..], RemoveAt(c, m), true)
      else RemoveAllRun(s[1..], RemoveAt(c, m))
  }

  lemma GlueGlue(a: seq<Token>, b: seq<Token>, o: Outcome)
    ensures Glue(a, Glue(b, o)) == Glue(a + b, o)
  {
    assert a + (b + o.kept) == (a + b) + o.kept;
  }

  lemma RunUnmatched(s: seq<Token>, k: nat, c: seq<Token>)
    requires k < |s| && MatchIndex(c, s[k]) == |c|
    ensures RemoveAllRun(s[k..], c) == Glue([s[k]], RemoveAllRun(s[k + 1..], c))
  {
    assert s[k..][1..] == s[k + 1..];
  }

  lemma RunMatched(s: seq<Token>, k: nat, c: seq<Token>)
    requires k < |s| && MatchIndex(c, s[k]) < |c|
    ensures var m := MatchIndex(c, s[k]);
      RemoveAllRun(s[k..], c) ==
        if MatchIndex(c[m + 1..], s[k]) < |c| - (m + 1) then Outcome(s[k + 1..], RemoveAt(c, m), true)
        else RemoveAllRun(s[k + 1..], RemoveAt(c, m))
  {
    assert s[k..][1..] == s[k + 1..];
  }

  /** What the inner loop of removeAll does with the argument for one token of the receiver. */
  datatype Scan = NoMatch | MatchedOnce | MatchedTwice

  /**
   * The inner iterator loop of TokenSet.removeAll: it removes the first element of `c` equal
   * to `x` and keeps scanning; a second equal element ends the scan (the list iterator throws).
   */
  method ScanArgument(c: seq<Token>, x: Token) returns (scan: Scan, rest: seq<Token>)
    ensures var m := MatchIndex(c, x);
      match scan
      case NoMatch => m == |c| && rest == c
      case MatchedOnce =>
        m < |c| && rest == RemoveAt(c, m) && MatchIndex(c[m + 1..], x) == |c| - (m + 1)
      case MatchedTwice =>
        m < |c| && rest == RemoveAt(c, m) && MatchIndex(c[m + 1..], x) < |c| - (m + 1)
  {
    ghost var m := MatchIndex(c, x);
    rest := c;
    var removed := false;
    var j := 0;
    while j < |rest|
      invariant 0 <= j <= |rest|
      invariant !removed ==> rest == c && j <= m
      invariant removed ==> m < |c| && rest == RemoveAt(c, m) && m <= j
      invariant removed ==> forall i :: m <= i < j ==> !Equals(rest[i], x)
    {
      if Equals(rest[j], x) {
        if removed {
          assert c[m + 1..][j - m] == rest[j];
          return MatchedTwice, rest;
        }
        rest := rest[..j] + rest[j + 1..];
        removed := true;
      } else {
        j := j + 1;
      }
    }
    if removed {
      var after := c[m + 1..];
      forall i | 0 <= i < |after|
        ensures !Equals(after[i], x)
      {
        assert after[i] == rest[m + i];
      }
      NoMatchIndex(after, x);
      scan := MatchedOnce;
    } else {
      scan := NoMatch;
    }
  }

  /** The outer iterator loop of TokenSet.removeAll. */
  method RemoveAllFrom(s: seq<Token>, c: seq<Token>) returns (o: Outcome)
    ensures o == RemoveAllRun(s, c)
  {
    var kept: seq<Token> := [];
    var rest := c;
    var k := 0;
    while k < |s|
      invariant 0 <= k <= |s|
      invariant Glue(kept, RemoveAllRun(s[k..], rest)) == RemoveAllRun(s, c)
    {
      var scan, rest' := ScanArgument(rest, s[k]);
      if scan == NoMatch {
        RunUnmatched(s, k, rest);
        GlueGlue(kept, [s[k]], RemoveAllRun(s[k + 1..], rest));
        kept := kept + [s[k]];
      } else {
        RunMatched(s, k, rest);
        if scan == MatchedTwice {
          return Outcome(kept + s[k + 1..], rest', true);
        }
      }
      rest := rest';
      k := k + 1;
    }
    assert s[k..] == [];
    o := Outcome(kept, rest, false);
  }

  /** The keys Token.equals compares, in list order. */
  function Keys(s: seq<Token>): (r: seq<(Payload, int)>)
    ensures |r| == |s|
  {
    seq(|s|, i requires 0 <= i < |s| => Key(s[i]))
  }

  lemma KeysAppend(a: seq<Token>, b: seq<Token>)
    ensures Keys(a + b) == Keys(a) + Keys(b)
  {
    assert Keys(a + b) == Keys(a) + Keys(b);
  }

  lemma KeysRemoveAt(c: seq<Token>, m: nat)
    requires m < |c|
    ensures Key(c[m]) in multiset(Keys(c))
    ensures multiset(Keys(RemoveAt(c, m))) == multiset(Keys(c)) - multiset{Key(c[m])}
  {
    assert c == c[..m] + [c[m]] + c[m + 1..];
    KeysAppend(c[..m] + [c[m]], c[m + 1..]);
    KeysAppend(c[..m], [c[m]]);
    KeysAppend(c[..m], c[m + 1..]);
    assert Keys([c[m]]) == [Key(c[m])];
    assert Keys(c)[m] == Key(c[m]);
  }

  lemma NoKeyInKeys(c: seq<Token>, t: Token)
    requires MatchIndex(c, t) == |c|
    ensures Key(t) !in multiset(Keys(c))
  {
    if Key(t) in multiset(Keys(c)) {
      var i :| 0 <= i < |c| && Keys(c)[i] == Key(t);
      EqualsIffSameKey(c[i], t);
    }
  }

  lemma DifferenceAbsent<T>(x: T, a: multiset<T>, c: multiset<T>)
    requires x !in c
    ensures multiset{x} + (a - c) == (multiset{x} + a) - c
    ensures c - a == c - (multiset{x} + a)
  {
  }

  lemma DifferencePresent<T>(x: T, a: multiset<T>, c: multiset<T>)
    requires x in c
    ensures a - (c - multiset{x}) == (multiset{x} + a) - c
    ensures (c - multiset{x}) - a == c - (multiset{x} + a)
  {
  }

  /**
   * When removeAll returns normally it computes the multiset difference on tokens as
   * Token.equals sees them, in both directions: what stays of the receiver is the receiver
   * minus the argument, and what stays of the argument is the argument minus the receiver.
   */
  lemma {:induction false} RemoveAllIsDifference(s: seq<Token>, c: seq<Token>)
    requires !RemoveAllRun(s, c).thrown
    ensures multiset(Keys(RemoveAllRun(s, c).kept)) == multiset(Keys(s)) - multiset(Keys(c))
    ensures multiset(Keys(RemoveAllRun(s, c).unused)) == multiset(Keys(c)) - multiset(Keys(s))
    decreases |s|
  {
    if s != [] {
      var x := s[0];
      assert s == [x] + s[1..];
      KeysAppend([x], s[1..]);
      assert Keys([x]) == [Key(x)];
      var m := MatchIndex(c, x);
      if m == |c| {
        RemoveAllIsDifference(s[1..], c);
        NoKeyInKeys(c, x);
        var o := RemoveAllRun(s[1..], c);
        KeysAppend([x], o.kept);
        DifferenceAbsent(Key(x), multiset(Keys(s[1..])), multiset(Keys(c)));
      } else {
        RemoveAllIsDifference(s[1..], RemoveAt(c, m));
        KeysRemoveAt(c, m);
        EqualsIffSameKey(c[m], x);
        DifferencePresent(Key(x), multiset(Keys(s[1..])), multiset(Keys(c)));
      }
    }
  }

  /** The tokens removeAll keeps stay in their original relative order. */
  predicate IsSubsequence(a: seq<Token>, b: seq<Token>)
    decreases |b|
  {
    if a == [] then true
    else if b == [] then false
    else (a[0] == b[0] && IsSubsequence(a[1..], b[1..])) || IsSubsequence(a, b[1..])
  }

  lemma {:induction false} SubsequenceOfItself(a: seq<Token>)
    ensures IsSubsequence(a, a)
    decreases |a|
  {
    if a != [] {
      SubsequenceOfItself(a[1..]);
    }
  }

  /** What removeAll leaves of the receiver is a subsequence of it, thrown or not. */
  lemma {:induction false} RemoveAllKeepsOrder(s: seq<Token>, c: seq<Token>)
    ensures IsSubsequence(RemoveAllRun(s, c).kept, s)
    ensures |RemoveAllRun(s, c).kept| <= |s|
    decreases |s|
  {
    if s != [] {
      var m := MatchIndex(c, s[0]);
      if m == |c| {
        RemoveAllKeepsOrder(s[1..], c);
        var o := RemoveAllRun(s[1..], c);
        assert ([s[0]] + o.kept)[1..] == o.kept;
      } else if MatchIndex(c[m + 1..], s[0]) < |c| - (m + 1) {
        SubsequenceOfItself(s[1..]);
      } else {
        RemoveAllKeepsOrder(s[1..], RemoveAt(c, m));
      }
    }
  }

  /** Each removed token consumes exactly one element of the argument. */
  lemma {:induction false} RemoveAllCounts(s: seq<Token>, c: seq<Token>)
    requires !RemoveAllRun(s, c).thrown
    ensures |s| - |RemoveAllRun(s, c).kept| == |c| - |RemoveAllRun(s, c).unused|
    decreases |s|
  {
    if s != [] {
      var m := MatchIndex(c, s[0]);
      if m == |c| {
        RemoveAllCounts(s[1..], c);
      } else {
        RemoveAllCounts(s[1..], RemoveAt(c, m));
      }
    }
  }

  /** No two elements of `c` are equal as Token.equals sees them. */
  predicate Distinct(c: seq<Token>) {
    forall i, j :: 0 <= i < j < |c| ==> !Equals(c[i], c[j])
  }

  lemma DistinctRemoveAt(c: seq<Token>, m: nat)
    requires Distinct(c) && m < |c|
    ensures Distinct(RemoveAt(c, m))
  {
    var r := RemoveAt(c, m);
    forall i, j | 0 <= i < j < |r|
      ensures !Equals(r[i], r[j])
    {
      var i' := if i < m then i else i + 1;
      var j' := if j < m then j else j + 1;
      assert r[i] == c[i'] && r[j] == c[j'];
    }
  }

  /** An argument without two equal tokens never makes removeAll throw. */
  lemma {:induction false} RemoveAllDistinctNeverThrows(s: seq<Token>, c: seq<Token>)
    requires Distinct(c)
    ensures !RemoveAllRun(s, c).thrown
    decreases |s|
  {
    if s != [] {
      var x := s[0];
      var m := MatchIndex(c, x);
      if m == |c| {
        RemoveAllDistinctNeverThrows(s[1..], c);
      } else {
        var n := MatchIndex(c[m + 1..], x);
        if n < |c| - (m + 1) {
          assert c[m + 1..][n] == c[m + 1 + n];
          EqualsIsEquivalence(c[m], x, c[m + 1 + n]);
          assert false;
        }
        DistinctRemoveAt(c, m);
        RemoveAllDistinctNeverThrows(s[1..], RemoveAt(c, m));
      }
    }
  }

  /** Two equal tokens in the argument for one token of the receiver make removeAll throw. */
  lemma RemoveAllDoubleMatchThrows(t: Token)
    ensures RemoveAllRun([t], [t, t]) == Outcome([], [t], true)
  {
    assert MatchIndex([t, t], t) == 0;
    assert [t, t][1..] == [t];
    assert MatchIndex([t], t) == 0;
  }

  /** Some token of `s` equals two different elements of `c`. */
  predicate DoubleMatch(s: seq<Token>, c: seq<Token>) {
    exists k, i, j :: 0 <= k < |s| && 0 <= i < j < |c| && Equals(c[i], s[k]) && Equals(c[j], s[k])
  }

  /** How one round of removeAll ends, for the first token `s[0]`. */
  lemma RunFirst(s: seq<Token>, c: seq<Token>)
    requires s != []
    ensures var m := MatchIndex(c, s[0]);
      RemoveAllRun(s, c).thrown ==
        if m == |c| then RemoveAllRun(s[1..], c).thrown
        else MatchIndex(c[m + 1..], s[0]) < |c| - (m + 1) || RemoveAllRun(s[1..], RemoveAt(c, m)).thrown
  {
    assert s[0..] == s;
    if MatchIndex(c, s[0]) == |c| {
      RunUnmatched(s, 0, c);
    } else {
      RunMatched(s, 0, c);
    }
  }

  /** `a` equals `c` exactly when it equals something equal to `c`. */
  lemma EqualsThrough(a: Token, b: Token, c: Token)
    requires Equals(a, b) && Equals(c, b)
    ensures Equals(a, c)
  {
  }

  /** Something equal to `b` differs from whatever `b` differs from. */
  lemma UnequalThrough(a: Token, b: Token, c: Token)
    requires Equals(a, b) && !Equals(b, c)
    ensures !Equals(a, c)
  {
  }

  /** Two elements of `c` equal to `x` give `x` a first match and a second one after it. */
  lemma SecondMatch(c: seq<Token>, x: Token, i: nat, j: nat)
    requires i < j < |c| && Equals(c[i], x) && Equals(c[j], x)
    ensures var m := MatchIndex(c, x); m <= i && MatchIndex(c[m + 1..], x) < |c| - (m + 1)
  {
    var m := MatchIndex(c, x);
    assert c[m + 1..][j - (m + 1)] == c[j];
  }

  /** A double match of a later token is one of the whole receiver. */
  lemma DoubleMatchTail(s: seq<Token>, c: seq<Token>)
    requires s != [] && DoubleMatch(s[1..], c)
    ensures DoubleMatch(s, c)
  {
    var k, i, j :| 0 <= k < |s[1..]| && 0 <= i < j < |c| && Equals(c[i], s[1..][k]) && Equals(c[j], s[1..][k]);
    assert s[1..][k] == s[k + 1];
  }

  /** A double match left after removing one element was there before. */
  lemma DoubleMatchBeforeRemoval(s: seq<Token>, c: seq<Token>, m: nat)
    requires m < |c| && DoubleMatch(s, RemoveAt(c, m))
    ensures DoubleMatch(s, c)
  {
    var r := RemoveAt(c, m);
    var k, i, j :| 0 <= k < |s| && 0 <= i < j < |r| && Equals(r[i], s[k]) && Equals(r[j], s[k]);
    var i', j' := if i < m then i else i + 1, if j < m then j else j + 1;
    assert r[i] == c[i'] && r[j] == c[j'];
  }

  /**
   * A double match of a token not equal to the element removed survives the removal and
   * passes to the rest of the receiver.
   */
  lemma DoubleMatchAfterRemoval(s: seq<Token>, c: seq<Token>, m: nat, k: nat, i: nat, j: nat)
    requires 0 < k < |s| && m < |c| && i < j < |c| && Equals(c[i], s[k]) && Equals(c[j], s[k])
    requires !Equals(c[m], s[k])
    ensures DoubleMatch(s[1..], RemoveAt(c, m))
  {
    var r := RemoveAt(c, m);
    var i', j' := if i < m then i else i - 1, if j < m then j else j - 1;
    assert r[i'] == c[i] && r[j'] == c[j];
    assert s[1..][k - 1] == s[k];
  }

  /**
   * removeAll throws whenever some token of the receiver has two equal elements in the
   * argument: tokens of other values never consume those elements, so the first token of that
   * value still sees both.
   */
  lemma {:induction false} DoubleMatchThrows(s: seq<Token>, c: seq<Token>)
    requires DoubleMatch(s, c)
    ensures RemoveAllRun(s, c).thrown
    decreases |s|
  {
    var k, i, j :| 0 <= k < |s| && 0 <= i < j < |c| && Equals(c[i], s[k]) && Equals(c[j], s[k]);
    var x := s[0];
    var m := MatchIndex(c, x);
    RunFirst(s, c);
    if Equals(x, s[k]) {
      EqualsThrough(c[i], s[k], x);
      EqualsThrough(c[j], s[k], x);
      SecondMatch(c, x, i, j);
    } else if m == |c| {
      assert s[1..][k - 1] == s[k];
      DoubleMatchAt(s[1..], c, k - 1, i, j);
      DoubleMatchThrows(s[1..], c);
    } else if MatchIndex(c[m + 1..], x) == |c| - (m + 1) {
      UnequalThrough(c[m], x, s[k]);
      DoubleMatchAfterRemoval(s, c, m, k, i, j);
      DoubleMatchThrows(s[1..], RemoveAt(c, m));
    }
  }

  /** ... and that is the only way it throws. */
  lemma {:induction false} ThrowsOnlyOnDoubleMatch(s: seq<Token>, c: seq<Token>)
    requires RemoveAllRun(s, c).thrown
    ensures DoubleMatch(s, c)
    decreases |s|
  {
    var x := s[0];
    var m := MatchIndex(c, x);
    RunFirst(s, c);
    if m == |c| {
      ThrowsOnlyOnDoubleMatch(s[1..], c);
      DoubleMatchTail(s, c);
    } else if MatchIndex(c[m + 1..], x) < |c| - (m + 1) {
      var n := MatchIndex(c[m + 1..], x);
      assert c[m + 1..][n] == c[m + 1 + n];
      DoubleMatchAt(s, c, 0, m, m + 1 + n);
    } else {
      ThrowsOnlyOnDoubleMatch(s[1..], RemoveAt(c, m));
      DoubleMatchTail(s, RemoveAt(c, m));
      DoubleMatchBeforeRemoval(s, c, m);
    }
  }

  lemma DoubleMatchAt(s: seq<Token>, c: seq<Token>, k: nat, i: nat, j: nat)
    requires k < |s| && i < j < |c| && Equals(c[i], s[k]) && Equals(c[j], s[k])
    ensures DoubleMatch(s, c)
  {
  }

  // ---------------------------------------------------------------------------------------
  // remove(Object): ArrayList.remove, the first equal element

  /** Whether `s` holds a token equal to `t`, and `s` without the first such token. */
  function RemoveFirst(s: seq<Token>, t: Token): (r: (bool, seq<Token>))
    ensures r.0 <==> exists i :: 0 <= i < |s| && Equals(s[i], t)
    ensures r.0 ==> |r.1| == |s| - 1
    ensures r.0 ==>
      exists i :: 0 <= i < |s| && Equals(s[i], t) && (forall j :: 0 <= j < i ==> !Equals(s[j], t))
        && r.1 == s[..i] + s[i + 1..]
    ensures !r.0 ==> r.1 == s
  {
    var m := MatchIndex(s, t);
    if m < |s| then (true, RemoveAt(s, m)) else (false, s)
  }

  // ---------------------------------------------------------------------------------------
  // The class

  /** What TokenSet(Object) may be given: a token, another set, or a payload object. */
  datatype Source = OneToken(token: Token) | AllOf(set_: TokenSet) | Value(obj: Payload)

  /** What TokenSet(Object, long) may be given: another set, or a payload object. */
  datatype TimedSource = TimedAllOf(set_: TokenSet) | TimedValue(obj: Payload)

  class TokenSet {
    /** tokenList */
    var tokens: seq<Token>

    /** TokenSet(): an empty set. */
    constructor ()
      ensures tokens == []
    {
      tokens := [];
    }

    /**
     * TokenSet(Object): a token is stored as it is, a set is copied in order, any other
     * object becomes one untimed token carrying it.
     */
    constructor From(source: Source)
      ensures source.OneToken? ==> tokens == [source.token]
      ensures source.AllOf? ==> tokens == source.set_.tokens
      ensures source.Value? ==> tokens == [TokenOf(source.obj)]
    {
      match source
      case OneToken(t) => tokens := [t];
      case AllOf(other) => tokens := other.tokens;
      case Value(obj) => tokens := [TokenOf(obj)];
    }

    /** TokenSet(Object, long): a set is copied and the time ignored; an object gets the time. */
    constructor FromTimed(source: TimedSource, time: int)
      ensures source.TimedAllOf? ==> tokens == source.set_.tokens
      ensures source.TimedValue? ==> tokens == [TokenAt(source.obj, time)]
    {
      match source
      case TimedAllOf(other) => tokens := other.tokens;
      case TimedValue(obj) => tokens := [TokenAt(obj, time)];
    }

    /** TokenSet(Object, String): one untimed token with its initial-marking expression. */
    constructor WithExpression(obj: Payload, expr: string)
      ensures tokens == [TokenWithExpression(obj, 0, expr)]
    {
      tokens := [TokenWithExpression(obj, 0, expr)];
    }

    /** TokenSet(Object, long, String): one token with timestamp and expression. */
    constructor WithTimestampAndExpression(obj: Payload, timestamp: int, expr: string)
      ensures tokens == [TokenWithExpression(obj, timestamp, expr)]
    {
      tokens := [TokenWithExpression(obj, timestamp, expr)];
    }

    function Size(): (n: nat)
      reads this
      ensures n == |tokens|
    {
      |tokens|
    }

    /** add: appends one token and reports true. */
    method Add(t: Token) returns (r: bool)
      modifies this
      ensures tokens == old(tokens) + [t]
      ensures r
    {
      tokens := tokens + [t];
      r := true;
    }

    /** addAll: appends the other set's tokens in order; true iff something was added. */
    method AddAll(other: TokenSet) returns (r: bool)
      modifies this
      ensures tokens == old(tokens) + old(other.tokens)
      ensures r <==> |old(other.tokens)| > 0
    {
      r := |other.tokens| > 0;
      tokens := tokens + other.tokens;
    }

    /** remove: drops the first token equal to `t`, reporting whether there was one. */
    method Remove(t: Token) returns (r: bool)
      modifies this
      ensures (r, tokens) == RemoveFirst(old(tokens), t)
    {
      var m := MatchIndex(tokens, t);
      if m < |tokens| {
        tokens := RemoveAt(tokens, m);
        r := true;
      } else {
        r := false;
      }
    }

    method Clear()
      modifies this
      ensures tokens == []
    {
      tokens := [];
    }

    method ContainsTime(time: int) returns (r: bool)
      ensures r <==> Available(tokens, time)
    {
      r := ContainsTimeIn(tokens, time);
    }

    method IncrementTime(d: int)
      modifies this
      ensures tokens == Shifted(old(tokens), d)
    {
      tokens := IncrementTimeIn(tokens, d);
    }

    /**
     * removeAll: removes from both lists as RemoveAllRun describes; returns true, or fails
     * with IllegalStateException when a token meets two equal elements of `c`.
     */
    method RemoveAll(c: TokenSet) returns (r: Result<bool>)
      requires c != this
      modifies this, c
      ensures var o := RemoveAllRun(old(tokens), old(c.tokens));
        tokens == o.kept && c.tokens == o.unused &&
        r == (if o.thrown then Fail(IllegalState) else Ok(true))
    {
      var o := RemoveAllFrom(tokens, c.tokens);
      tokens := o.kept;
      c.tokens := o.unused;
      r := if o.thrown then Fail(IllegalState) else Ok(true);
    }
  }
}
