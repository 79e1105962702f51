/** Position keys. The engine stores objects, flags, messages and pickup
    tallies in dictionaries keyed by the text `"x,y"` (the two coordinates
    written in decimal, joined by a comma), and the configuration parser
    turns such keys back into integers with `str.split(",")` and `int()`.
    This module models both directions and proves that they are inverse,
    so that two positions share a key exactly when they are equal. */
module Keys {
  import opened Common

  predicate IsDigit(c: char) { '0' <= c <= '9' }

  predicate AllDigits(s: string) { forall i :: 0 <= i < |s| ==> IsDigit(s[i]) }

  function DigitChar(d: nat): (c: char)
    requires d < 10
    ensures IsDigit(c)
  {
    ['0', '1', '2', '3', '4', '5', '6', '7', '8', '9'][d]
  }

  function DigitValue(c: char): (d: nat)
    requires IsDigit(c)
    ensures d < 10 && DigitChar(d) == c
  {
    if c == '0' then 0 else if c == '1' then 1 else if c == '2' then 2
    else if c == '3' then 3 else if c == '4' then 4 else if c == '5' then 5
    else if c == '6' then 6 else if c == '7' then 7 else if c == '8' then 8
    else 9
  }

  /** Decimal digits of a natural number, most significant first, without
      leading zeros (as Python's `str` writes them). */
  function NatDigits(n: nat): (s: string)
    ensures |s| > 0 && AllDigits(s)
    ensures n < 10 <==> |s| == 1
  {
    if n < 10 then [DigitChar(n)] else NatDigits(n / 10) + [DigitChar(n % 10)]
  }

  /** The number a non-empty run of decimal digits denotes. */
  function DigitsValue(s: string): nat
    requires AllDigits(s)
  {
    if |s| == 0 then 0
    else DigitsValue(s[..|s| - 1]) * 10 + DigitValue(s[|s| - 1])
  }

  lemma {:induction false} DigitsRoundTrip(n: nat)
    ensures DigitsValue(NatDigits(n)) == n
  {
    if n >= 10 {
      var s := NatDigits(n);
      assert s[..|s| - 1] == NatDigits(n / 10);
      DigitsRoundTrip(n / 10);
    }
  }

  /** Python's `str(n)` for an integer. */
  function IntToString(n: int): (s: string)
    ensures |s| > 0 && ',' !in s
    ensures n >= 0 <==> AllDigits(s)
    ensures n < 0 <==> s[0] == '-'
  {
    if n < 0 then
      var s := "-" + NatDigits(-n);
      assert !IsDigit(s[0]);
      s
    else NatDigits(n)
  }

  /** Python's `int(text)` for a text made of an optional sign followed by
      decimal digits; anything else raises ValueError. */
  function ParseInt(s: string): (r: Result<int>)
    ensures r.Success? ==> |s| > 0
    ensures AllDigits(s) && |s| > 0 ==> r == Success(DigitsValue(s))
  {
    if |s| > 0 && AllDigits(s) then Success(DigitsValue(s))
    else if |s| > 1 && s[0] == '-' && AllDigits(s[1..]) then
      var v: int := DigitsValue(s[1..]);
      Success(-v)
    else if |s| > 1 && s[0] == '+' && AllDigits(s[1..]) then Success(DigitsValue(s[1..]))
    else Failure(ValueError)
  }

  lemma {:induction false} IntRoundTrip(n: int)
    ensures ParseInt(IntToString(n)) == Success(n)
  {
    var s := IntToString(n);
    if n < 0 {
      var d := NatDigits(-n);
      assert s == "-" + d && s[1..] == d;
      assert !AllDigits(s) && |s| > 1 && s[0] == '-' && AllDigits(s[1..]);
      DigitsRoundTrip(-n);
      assert ParseInt(s) == Success(n);
    } else {
      DigitsRoundTrip(n);
    }
  }

  /** Python's `s.split(sep)` for a one-character separator: the pieces
      between separators, always at least one. */
  function Split(s: string, sep: char): (parts: seq<string>)
    ensures |parts| >= 1
    ensures sep !in s ==> parts == [s]
  {
    if |s| == 0 then [""]
    else if s[0] == sep then [""] + Split(s[1..], sep)
    else
      var rest := Split(s[1..], sep);
      assert sep !in s ==> [s[0]] + s[1..] == s;
      [[s[0]] + rest[0]] + rest[1..]
  }

  lemma {:induction false} SplitAtFirst(a: string, sep: char, b: string)
    requires sep !in a
    ensures Split(a + [sep] + b, sep) == [a] + Split(b, sep)
  {
    if |a| > 0 {
      assert (a + [sep] + b)[1..] == a[1..] + [sep] + b;
      SplitAtFirst(a[1..], sep, b);
      assert [a[0]] + a[1..] == a;
    } else {
      assert (a + [sep] + b)[1..] == b;
    }
  }

  /** The dictionary key `"{},{}".format(x, y)`. */
  function PosKey(x: int, y: int): string
  {
    IntToString(x) + "," + IntToString(y)
  }

  /** `[x, y] = map(int, key.split(","))`: exactly two comma-separated
      integers, or ValueError. */
  function ParseKey(key: string): (r: Result<(int, int)>)
    ensures r.Success? <==>
      var parts := Split(key, ',');
      |parts| == 2 && ParseInt(parts[0]).Success? && ParseInt(parts[1]).Success?
    ensures r.Success? ==>
      var parts := Split(key, ',');
      r.value == (ParseInt(parts[0]).value, ParseInt(parts[1]).value)
    ensures r.Failure? ==> r.error == ValueError
  {
    var parts := Split(key, ',');
    if |parts| != 2 then Failure(ValueError)
    else match (ParseInt(parts[0]), ParseInt(parts[1]))
      case (Success(x), Success(y)) => Success((x, y))
      case _ => Failure(ValueError)
  }

  /** Reading a key back gives the coordinates it was written from. */
  lemma KeyRoundTrip(x: int, y: int)
    ensures ParseKey(PosKey(x, y)) == Success((x, y))
  {
    SplitAtFirst(IntToString(x), ',', IntToString(y));
    assert PosKey(x, y) == IntToString(x) + [','] + IntToString(y);
    IntRoundTrip(x);
    IntRoundTrip(y);
  }

  /** Two positions share a dictionary key exactly when they are equal. */
  lemma KeyInjective(x1: int, y1: int, x2: int, y2: int)
    ensures PosKey(x1, y1) == PosKey(x2, y2) <==> x1 == x2 && y1 == y2
  {
    KeyRoundTrip(x1, y1);
    KeyRoundTrip(x2, y2);
  }
}
