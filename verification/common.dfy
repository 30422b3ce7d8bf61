/** Small building blocks shared by the model of the sprinter tool: an optional
    value (TypeScript's `undefined`), JavaScript's `Array.prototype.join`,
    `String.prototype.includes`, and the decimal rendering `String(n)` of an
    integer together with the parser that inverts it. */
module Common {

  /** A value that may be absent, as an optional TypeScript property. */
  datatype Option<+T> = None | Some(value: T) {

    /** The `??` operator: the value if present, else the default. */
    function GetOr(default: T): T {
      match this
      case Some(v) => v
      case None => default
    }
  }

  /** `xs.join(sep)`: the elements separated by `sep`, "" for no elements. */
  function Join(xs: seq<string>, sep: string): string
    decreases |xs|
  {
    if |xs| == 0 then ""
    else if |xs| == 1 then xs[0]
    else xs[0] + sep + Join(xs[1..], sep)
  }

  predicate StartsWith(s: string, prefix: string) {
    |prefix| <= |s| && s[..|prefix|] == prefix
  }

  /** `s.includes(sub)`: some suffix of `s` starts with `sub`. */
  predicate Contains(s: string, sub: string)
    decreases |s|
  {
    StartsWith(s, sub) || (|s| > 0 && Contains(s[1..], sub))
  }

  lemma {:induction false} ContainsExtendRight(s: string, sub: string, tail: string)
    requires Contains(s, sub)
    ensures Contains(s + tail, sub)
    decreases |s|
  {
    if StartsWith(s, sub) {
      assert (s + tail)[..|sub|] == s[..|sub|];
    } else {
      assert (s + tail)[1..] == s[1..] + tail;
      ContainsExtendRight(s[1..], sub, tail);
    }
  }

  lemma {:induction false} ContainsExtendLeft(head: string, s: string, sub: string)
    requires Contains(s, sub)
    ensures Contains(head + s, sub)
    decreases |head|
  {
    if |head| > 0 {
      assert (head + s)[1..] == head[1..] + s;
      ContainsExtendLeft(head[1..], s, sub);
    } else {
      assert head + s == s;
    }
  }

  /** A string occurs in any string built around it. */
  lemma ContainsInfix(head: string, sub: string, tail: string)
    ensures Contains(head + sub + tail, sub)
  {
    assert StartsWith(sub + tail, sub) by {
      assert (sub + tail)[..|sub|] == sub;
    }
    ContainsExtendLeft(head, sub + tail, sub);
    assert head + sub + tail == head + (sub + tail);
  }

  /** A string lacking the first character of `sub` does not contain `sub`. */
  lemma {:induction false} MissingCharNotContained(s: string, sub: string)
    requires |sub| > 0
    requires forall i :: 0 <= i < |s| ==> s[i] != sub[0]
    ensures !Contains(s, sub)
    decreases |s|
  {
    if |s| > 0 {
      assert !StartsWith(s, sub) by {
        if |sub| <= |s| {
          assert s[..|sub|][0] == s[0];
        }
      }
      MissingCharNotContained(s[1..], sub);
    }
  }

  /** Every element of a joined list occurs in the joined string. */
  lemma {:induction false} JoinContainsElement(xs: seq<string>, sep: string, i: nat)
    requires i < |xs|
    ensures Contains(Join(xs, sep), xs[i])
    decreases |xs|
  {
    if |xs| == 1 {
      ContainsInfix("", xs[0], "");
      assert "" + xs[0] + "" == xs[0];
    } else if i == 0 {
      ContainsInfix("", xs[0], sep + Join(xs[1..], sep));
      assert "" + xs[0] + (sep + Join(xs[1..], sep)) == Join(xs, sep);
    } else {
      JoinContainsElement(xs[1..], sep, i - 1);
      ContainsExtendLeft(xs[0] + sep, Join(xs[1..], sep), xs[i]);
      assert xs[0] + sep + Join(xs[1..], sep) == Join(xs, sep);
    }
  }

  predicate IsDigit(c: char) {
    '0' <= c <= '9'
  }

  /** One or more decimal digits and nothing else. */
  predicate IsNumeral(s: string) {
    |s| > 0 && forall i :: 0 <= i < |s| ==> IsDigit(s[i])
  }

  function DigitChar(d: nat): (c: char)
    requires d < 10
    ensures IsDigit(c)
  {
    "0123456789"[d]
  }

  function DigitValue(c: char): nat
    requires IsDigit(c)
  {
    (c as int - '0' as int) as nat
  }

  lemma DigitRoundTrip(d: nat)
    requires d < 10
    ensures DigitValue(DigitChar(d)) == d
  {
  }

  /** The number a string of decimal digits denotes, most significant first. */
  function DigitsValue(s: string): nat
    requires forall i :: 0 <= i < |s| ==> IsDigit(s[i])
    decreases |s|
  {
    if |s| == 0 then 0 else DigitsValue(s[..|s| - 1]) * 10 + DigitValue(s[|s| - 1])
  }

  /** `String(n)` for a non-negative integer: shortest decimal digits. */
  function NatToString(n: nat): (s: string)
    ensures IsNumeral(s)
    ensures |s| > 1 ==> s[0] != '0'
    decreases n
  {
    if n < 10 then [DigitChar(n)] else NatToString(n / 10) + [DigitChar(n % 10)]
  }

  /** `String(n)` for an integer: a minus sign before the digits of |n|.
      Integers are unbounded here; JavaScript numbers switch to exponent
      form from 10^21 on, which this does not model. */
  function IntToString(n: int): (s: string)
    ensures |s| > 0
    ensures s[0] == '-' <==> n < 0
  {
    if n < 0 then "-" + NatToString(-n) else NatToString(n)
  }

  /** Reads back an optional minus sign followed by decimal digits. */
  function ParseInt(s: string): Option<int> {
    if |s| > 0 && s[0] == '-' then
      if IsNumeral(s[1..]) then Some(0 - DigitsValue(s[1..]) as int) else None
    else if IsNumeral(s) then Some(DigitsValue(s))
    else None
  }

  lemma {:induction false} NatToStringRoundTrip(n: nat)
    ensures DigitsValue(NatToString(n)) == n
    decreases n
  {
    if n < 10 {
      DigitRoundTrip(n);
    } else {
      var s := NatToString(n);
      NatToStringRoundTrip(n / 10);
      assert s[..|s| - 1] == NatToString(n / 10);
      DigitRoundTrip(n % 10);
    }
  }

  /** A minus sign followed by digits reads back as the negated digits. */
  lemma ParseNegative(digits: string)
    requires IsNumeral(digits)
    ensures ParseInt("-" + digits) == Some(0 - DigitsValue(digits) as int)
  {
    assert ("-" + digits)[1..] == digits;
  }

  /** A negative integer reads back through its minus sign. */
  lemma NegativeRoundTrip(n: int)
    requires n < 0
    ensures ParseInt(IntToString(n)) == Some(n)
  {
    var m: nat := -n;
    var digits := NatToString(m);
    assert IntToString(n) == "-" + digits;
    ParseNegative(digits);
    NatToStringRoundTrip(m);
    assert DigitsValue(digits) == m;
  }

  /** Rendering an integer in decimal and reading it back gives it again. */
  lemma IntToStringRoundTrip(n: int)
    ensures ParseInt(IntToString(n)) == Some(n)
  {
    if n < 0 {
      NegativeRoundTrip(n);
    } else {
      NatToStringRoundTrip(n);
    }
  }
}
