/**
 * The pieces of java.lang.String the game relies on: Integer.toString for
 * non-negative numbers, String.split(" ") and String.join(" ", ...).
 */
module Text {

  /** The character of a decimal digit. */
  function Digit(d: nat): (c: char)
    requires d < 10
    ensures '0' <= c <= '9' && c as int - 48 == d
  {
    (48 + d) as char
  }

  /** Integer.toString(n) for n >= 0: no sign, no leading zero. */
  function DecimalString(n: nat): (s: string)
    ensures |s| >= 1
    ensures forall k :: 0 <= k < |s| ==> '0' <= s[k] <= '9'
    ensures n < 10 <==> |s| == 1
    ensures n < 100 <==> |s| <= 2
  {
    if n < 10 then [Digit(n)] else DecimalString(n / 10) + [Digit(n % 10)]
  }

  /** The number denoted by a string of decimal digits. */
  function DecimalValue(s: string): nat
    requires forall k :: 0 <= k < |s| ==> '0' <= s[k] <= '9'
  {
    if s == [] then 0 else DecimalValue(s[..|s| - 1]) * 10 + (s[|s| - 1] as int - 48)
  }

  /** Reading back what DecimalString writes gives the number again. */
  lemma {:induction false} DecimalRoundTrip(n: nat)
    ensures DecimalValue(DecimalString(n)) == n
  {
    if n >= 10 {
      DecimalRoundTrip(n / 10);
      var s := DecimalString(n);
      assert s[..|s| - 1] == DecimalString(n / 10);
    }
  }

  lemma OneDigit(n: nat)
    requires n < 10
    ensures DecimalString(n) == [Digit(n)]
  {
  }

  lemma TwoDigits(n: nat)
    requires 10 <= n < 100
    ensures DecimalString(n) == [Digit(n / 10), Digit(n % 10)]
  {
    OneDigit(n / 10);
  }

  /**
   * The substrings between single spaces, empty ones included: always one
   * more piece than there are spaces.
   */
  function Fields(s: string): (r: seq<string>)
    ensures |r| >= 1
    ensures forall k :: 0 <= k < |r| ==> ' ' !in r[k]
  {
    if s == [] then [[]]
    else if s[0] == ' ' then [[]] + Fields(s[1..])
    else var rest := Fields(s[1..]); [[s[0]] + rest[0]] + rest[1..]
  }

  /** Splitting with limit 0 removes every trailing empty substring. */
  function DropTrailingEmpty(r: seq<string>): (t: seq<string>)
    ensures |t| <= |r| && t == r[..|t|]
    ensures t != [] ==> t[|t| - 1] != []
    ensures forall k :: |t| <= k < |r| ==> r[k] == []
  {
    if r != [] && r[|r| - 1] == [] then DropTrailingEmpty(r[..|r| - 1]) else r
  }

  /**
   * String.split(" "): a string without a space comes back as the only piece
   * (even the empty string); otherwise the pieces between the spaces, minus
   * the trailing empty ones (so " " gives no piece at all).
   */
  function SplitSpaces(s: string): (r: seq<string>)
    ensures forall k :: 0 <= k < |r| ==> SpaceFree(r[k])
    ensures ' ' in s && r != [] ==> r[|r| - 1] != []
    ensures ' ' !in s ==> r == [s]
  {
    if ' ' !in s then [s] else DropTrailingEmpty(Fields(s))
  }

  /** String.join(" ", parts). */
  function JoinSpaces(parts: seq<string>): (s: string)
    ensures |parts| >= 1 ==> |parts[0]| <= |s| && s[..|parts[0]|] == parts[0]
    ensures |parts| >= 2 ==> |s| > |parts[0]| && s[|parts[0]|] == ' '
    ensures forall c :: c != ' ' && (forall k :: 0 <= k < |parts| ==> c !in parts[k]) ==> c !in s
  {
    if |parts| == 0 then []
    else if |parts| == 1 then parts[0]
    else parts[0] + " " + JoinSpaces(parts[1..])
  }

  predicate SpaceFree(s: string) { ' ' !in s }

  lemma {:induction false} FieldsOfWord(a: string)
    requires SpaceFree(a)
    ensures Fields(a) == [a]
  {
    if a != [] {
      FieldsOfWord(a[1..]);
      assert a[0] != ' ';
      assert [a[0]] + a[1..] == a;
    }
  }

  /** A space-free prefix followed by a space becomes the first field. */
  lemma {:induction false} FieldsAfterWord(a: string, rest: string)
    requires SpaceFree(a)
    ensures Fields(a + " " + rest) == [a] + Fields(rest)
  {
    var s := a + " " + rest;
    if a == [] {
      assert s[0] == ' ' && s[1..] == rest;
    } else {
      assert s[1..] == a[1..] + " " + rest;
      FieldsAfterWord(a[1..], rest);
      assert [a[0]] + a[1..] == a;
    }
  }

  /** Splitting the join of space-free parts gives the parts back. */
  lemma {:induction false} FieldsOfJoin(parts: seq<string>)
    requires |parts| >= 1
    requires forall k :: 0 <= k < |parts| ==> SpaceFree(parts[k])
    ensures Fields(JoinSpaces(parts)) == parts
  {
    if |parts| == 1 {
      FieldsOfWord(parts[0]);
    } else {
      FieldsOfJoin(parts[1..]);
      FieldsAfterWord(parts[0], JoinSpaces(parts[1..]));
    }
  }

  /**
   * split(" ") undoes join(" ", ...) for two or more non-empty space-free
   * parts.
   */
  lemma SplitJoin(parts: seq<string>)
    requires |parts| >= 2
    requires forall k :: 0 <= k < |parts| ==> parts[k] != [] && SpaceFree(parts[k])
    ensures SplitSpaces(JoinSpaces(parts)) == parts
  {
    FieldsOfJoin(parts);
    var s := JoinSpaces(parts);
    assert s == parts[0] + " " + JoinSpaces(parts[1..]);
    assert s[|parts[0]|] == ' ';
  }
}
