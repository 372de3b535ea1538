/**
 * What an action or a loader hands back to the router, and the text of the numbers that go
 * into redirect paths.
 */
module Responses {
  import opened Wrappers

  /**
   * The outcome of an action: a redirect, a `Response` that is thrown (the route's error
   * page shows it) or returned (the page receives it as action data), or some other thrown
   * error.
   */
  datatype Reply =
    | Redirect(path: string)
    | Thrown(status: int)
    | Returned(status: int)
    | Crashed

  /** The outcome of a loader: its data, or a thrown `Response` with a status. */
  datatype Loaded<T> = Loaded(value: T) | Rejected(status: int)

  /** A `Response` built without a status option carries status 200. */
  const DefaultStatus := 200

  function DigitChar(d: nat): char
    requires d < 10
  {
    "0123456789"[d]
  }

  function DigitValue(c: char): nat
  {
    if '0' <= c <= '9' then (c as int - '0' as int) as nat else 0
  }

  predicate IsDigits(s: string)
  {
    |s| > 0 && forall i :: 0 <= i < |s| ==> '0' <= s[i] <= '9'
  }

  /** The decimal digits of `n`, most significant first, with no leading zeros. */
  function NatText(n: nat): (s: string)
    ensures IsDigits(s)
    decreases n
  {
    if n < 10 then [DigitChar(n)] else NatText(n / 10) + [DigitChar(n % 10)]
  }

  /** How an integer is written in a template string. */
  function IntText(n: int): (s: string)
    ensures |s| > 0
    ensures n < 0 <==> s[0] == '-'
  {
    if n < 0 then "-" + NatText(-n) else NatText(n)
  }

  function ParseNat(s: string): nat
    decreases |s|
  {
    if s == [] then 0 else ParseNat(s[..|s| - 1]) * 10 + DigitValue(s[|s| - 1])
  }

  function ParseInt(s: string): int
  {
    if |s| > 0 && s[0] == '-' then -(ParseNat(s[1..]) as int) else ParseNat(s) as int
  }

  lemma {:induction false} NatTextRoundTrip(n: nat)
    ensures ParseNat(NatText(n)) == n
    decreases n
  {
    if n >= 10 {
      var s := NatText(n);
      assert s[..|s| - 1] == NatText(n / 10);
      NatTextRoundTrip(n / 10);
    }
  }

  /** Reading the text back gives the number. */
  lemma {:induction false} IntTextRoundTrip(n: int)
    ensures ParseInt(IntText(n)) == n
  {
    if n < 0 {
      NegativeTextRoundTrip(n);
    } else {
      NaturalTextRoundTrip(n);
    }
  }

  lemma NegativeTextRoundTrip(n: int)
    requires n < 0
    ensures ParseInt(IntText(n)) == n
  {
    var m: nat := -n;
    assert IntText(n) == "-" + NatText(m);
    ParseSigned(NatText(m));
    NatTextRoundTrip(m);
  }

  /** A leading minus sign negates what follows. */
  lemma ParseSigned(t: string)
    ensures ParseInt("-" + t) == -(ParseNat(t) as int)
  {
    assert ("-" + t)[1..] == t;
  }

  lemma NaturalTextRoundTrip(n: int)
    requires n >= 0
    ensures ParseInt(IntText(n)) == n
  {
    var t := NatText(n);
    assert IntText(n) == t;
    assert '0' <= t[0] <= '9';
    NatTextRoundTrip(n);
  }

  /** `${prefix}${n}`: a path ending in a key. */
  function PathTo(prefix: string, n: int): (p: string)
    ensures |p| > |prefix| && p[..|prefix|] == prefix
    ensures ParseInt(p[|prefix|..]) == n
  {
    IntTextRoundTrip(n);
    assert (prefix + IntText(n))[|prefix|..] == IntText(n);
    prefix + IntText(n)
  }

  /** Different keys give different paths. */
  lemma PathToInjective(prefix: string, a: int, b: int)
    requires PathTo(prefix, a) == PathTo(prefix, b)
    ensures a == b
  {
    assert IntText(a) == PathTo(prefix, a)[|prefix|..];
    assert IntText(b) == PathTo(prefix, b)[|prefix|..];
    IntTextRoundTrip(a);
    IntTextRoundTrip(b);
  }
}
