/**
 * Tokens: a payload ("colour") with a timestamp (0 = untimed) and the initial-marking
 * expression used to regenerate the token in source form.
 */
module Tokens {
  import opened Wrappers
  import opened Text

  /** The payload objects that nets put into tokens: null, a string, or a boxed integer. */
  datatype Payload = Null | Str(s: string) | Num(n: int)

  /**
   * A token. Getters are the fields; setters are the update expression
   * `t.(timestamp := v)`, which is what TokenSet.incrementTime uses.
   */
  datatype Token = Token(payload: Payload, timestamp: int, initialMarkingExpression: string)

  /** Token(): null payload, untimed, no expression. */
  function NewToken(): (t: Token)
    ensures t.timestamp == 0 && t.initialMarkingExpression == "" && t.payload == Null
  {
    Token(Null, 0, "")
  }

  /** Token(object): the payload alone; the timestamp stays 0 and the expression empty. */
  function TokenOf(obj: Payload): (t: Token)
    ensures t.payload == obj && t.timestamp == 0 && t.initialMarkingExpression == ""
  {
    Token(obj, 0, "")
  }

  /** Token(object, timestamp): built on Token(object), then the timestamp is set. */
  function TokenAt(obj: Payload, timestamp: int): (t: Token)
    ensures t.payload == obj && t.timestamp == timestamp && t.initialMarkingExpression == ""
  {
    TokenOf(obj).(timestamp := timestamp)
  }

  /** Token(object, timestamp, expression): built on Token(object, timestamp). */
  function TokenWithExpression(obj: Payload, timestamp: int, expr: string): (t: Token)
    ensures t.payload == obj && t.timestamp == timestamp && t.initialMarkingExpression == expr
  {
    TokenAt(obj, timestamp).(initialMarkingExpression := expr)
  }

  /** The null-safe payload comparison of Token.equals: a null payload equals only null. */
  predicate PayloadEquals(p: Payload, q: Payload) {
    match p
    case Null => q == Null
    case Str(s) => q.Str? && q.s == s
    case Num(n) => q.Num? && q.n == n
  }

  /** Token.equals: same timestamp and equal payloads; the expression plays no part. */
  predicate Equals(a: Token, b: Token) {
    a.timestamp == b.timestamp && PayloadEquals(a.payload, b.payload)
  }

  /** What Token.equals and Token.hashCode look at. */
  function Key(t: Token): (Payload, int) {
    (t.payload, t.timestamp)
  }

  lemma EqualsIffSameKey(a: Token, b: Token)
    ensures Equals(a, b) <==> Key(a) == Key(b)
    ensures Equals(a, b) <==> a.payload == b.payload && a.timestamp == b.timestamp
  {
  }

  lemma EqualsIsEquivalence(a: Token, b: Token, c: Token)
    ensures Equals(a, a)
    ensures Equals(a, b) ==> Equals(b, a)
    ensures Equals(a, b) && Equals(b, c) ==> Equals(a, c)
  {
  }

  /** Java's String.hashCode polynomial, without the 32-bit wrap-around. */
  function StringHash(s: string): int {
    if s == [] then 0 else 31 * StringHash(s[..|s| - 1]) + s[|s| - 1] as int
  }

  function PayloadHash(p: Payload): int {
    match p
    case Null => 0
    case Str(s) => StringHash(s)
    case Num(n) => n
  }

  /** Token.hashCode: 17, then payload hash, then timestamp, each step multiplying by 31. */
  function HashCode(t: Token): int {
    31 * (31 * 17 + PayloadHash(t.payload)) + t.timestamp
  }

  /** Equal tokens have equal hash codes (the hash reads only payload and timestamp). */
  lemma HashCodeRespectsEquals(a: Token, b: Token)
    requires Equals(a, b)
    ensures HashCode(a) == HashCode(b)
  {
  }

  /** Object.toString of a non-null payload. */
  function PayloadText(p: Payload): string
    requires p != Null
  {
    match p
    case Str(s) => s
    case Num(n) => IntToString(n)
  }

  /**
   * Token.toString: the initial-marking expression when there is one; otherwise the payload's
   * text, followed by a space and the timestamp when the token is timed. A null payload
   * without an expression throws.
   */
  function ToString(t: Token): (r: Result<string>)
    ensures t.initialMarkingExpression != "" ==> r == Ok(t.initialMarkingExpression)
    ensures r.Fail? <==> t.initialMarkingExpression == "" && t.payload == Null
  {
    if t.initialMarkingExpression != "" then Ok(t.initialMarkingExpression)
    else if t.payload == Null then Fail(NullPointer)
    else
      var s := PayloadText(t.payload);
      Ok(if t.timestamp != 0 then s + " " + IntToString(t.timestamp) else s)
  }

  /**
   * Without an expression, the text starts with the payload's text and is exactly that text
   * iff the token is untimed; a timed token shows its timestamp after one space.
   */
  lemma ToStringShowsTimestamp(t: Token)
    requires t.initialMarkingExpression == "" && t.payload != Null
    ensures ToString(t).Ok?
    ensures PayloadText(t.payload) <= ToString(t).value
    ensures ToString(t).value == PayloadText(t.payload) <==> t.timestamp == 0
    ensures t.timestamp != 0 ==>
      ToString(t).value[|PayloadText(t.payload)|..] == " " + IntToString(t.timestamp)
  {
    var s := PayloadText(t.payload);
    if t.timestamp != 0 {
      assert ToString(t).value == s + (" " + IntToString(t.timestamp));
    }
  }

  /** Two timed tokens with the same payload print differently iff their timestamps differ. */
  lemma ToStringDistinguishesTimestamps(a: Token, b: Token)
    requires a.initialMarkingExpression == "" && b.initialMarkingExpression == ""
    requires a.payload == b.payload && a.payload != Null
    requires a.timestamp != 0 && b.timestamp != 0
    ensures ToString(a) == ToString(b) <==> a.timestamp == b.timestamp
  {
    if ToString(a) == ToString(b) {
      ToStringShowsTimestamp(a);
      ToStringShowsTimestamp(b);
      var n := |PayloadText(a.payload)|;
      assert (" " + IntToString(a.timestamp))[1..] == IntToString(a.timestamp);
      assert (" " + IntToString(b.timestamp))[1..] == IntToString(b.timestamp);
      IntToStringInjective(a.timestamp, b.timestamp);
    }
  }
}
