/** The pieces of java.lang the record parsers rely on: `String.substring`,
    `String.replaceAll("\\s+", "")` and `Integer.parseInt`. */
module JavaText {
  import opened Results

  /** The two unchecked exceptions a record parser can raise:
      StringIndexOutOfBoundsException and NumberFormatException. */
  datatype ParseError = IndexOutOfBounds | NumberFormat

  /** A character of the regular-expression class `\s`: [ \t\n\x0B\f\r]. */
  predicate IsSpace(c: char) {
    c == ' ' || c == '\t' || c == '\n' || c == '\U{000B}' || c == '\U{000C}' || c == '\r'
  }

  predicate NoSpace(s: string) {
    forall i :: 0 <= i < |s| ==> !IsSpace(s[i])
  }

  /** `s.replaceAll("\\s+", "")`: every whitespace character removed, the rest
      kept in order. */
  function StripSpace(s: string): (r: string)
    ensures |r| <= |s|
    ensures NoSpace(r)
    ensures NoSpace(s) ==> r == s
    ensures forall i :: 0 <= i < |r| ==> r[i] in s
  {
    if s == [] then []
    else (if IsSpace(s[0]) then [] else [s[0]]) + StripSpace(s[1..])
  }

  lemma {:induction false} StripSpaceConcat(a: string, b: string)
    ensures StripSpace(a + b) == StripSpace(a) + StripSpace(b)
  {
    if a == [] {
      assert a + b == b;
    } else {
      assert (a + b)[1..] == a[1..] + b;
      StripSpaceConcat(a[1..], b);
    }
  }

  /** `s.substring(lo, hi)` for the constant column bounds the parsers use
      (always 0 <= lo <= hi): it throws exactly when the line is shorter than hi. */
  function Substring(s: string, lo: nat, hi: nat): (r: Result<string, ParseError>)
    requires lo <= hi
    ensures r.Ok? <==> hi <= |s|
    ensures r.Ok? ==> |r.value| == hi - lo && r.value == s[lo..hi]
  {
    if hi <= |s| then Ok(s[lo..hi]) else Fail(IndexOutOfBounds)
  }

  predicate IsDigit(c: char) {
    '0' <= c <= '9'
  }

  predicate AllDigits(s: string) {
    forall i :: 0 <= i < |s| ==> IsDigit(s[i])
  }

  function DigitValue(c: char): nat
    requires IsDigit(c)
  {
    (c as int) - ('0' as int)
  }

  /** The value of a string of decimal digits, most significant first. */
  function DigitsValue(s: string): nat
    requires AllDigits(s)
  {
    if s == [] then 0 else DigitsValue(s[..|s| - 1]) * 10 + DigitValue(s[|s| - 1])
  }

  const IntMin: int := -0x8000_0000
  const IntMax: int := 0x7FFF_FFFF

  /** `Integer.parseInt(s)`: an optional '+' or '-' followed by at least one
      decimal digit, whose value fits in 32 bits; anything else (the empty
      string, a lone sign, a space, a letter, an overflow) is a
      NumberFormatException, here `None`. */
  function ParseInt(s: string): (r: Option<int>)
    ensures r.Some? ==> IntMin <= r.value <= IntMax
    ensures r.Some? ==> NoSpace(s) && |s| > 0
    ensures r.Some? ==> forall i :: 0 < i < |s| ==> IsDigit(s[i])
    ensures |s| == 0 || !(IsDigit(s[0]) || s[0] == '+' || s[0] == '-') ==> r.None?
    ensures |s| > 0 && IsDigit(s[0]) ==>
      (r.Some? <==> AllDigits(s) && DigitsValue(s) <= IntMax) &&
      (r.Some? ==> r.value == DigitsValue(s))
    ensures |s| > 0 && s[0] == '+' ==>
      (r.Some? <==> |s| > 1 && AllDigits(s[1..]) && DigitsValue(s[1..]) <= IntMax) &&
      (r.Some? ==> r.value == DigitsValue(s[1..]))
    ensures |s| > 0 && s[0] == '-' ==>
      (r.Some? <==> |s| > 1 && AllDigits(s[1..]) && DigitsValue(s[1..]) <= -IntMin) &&
      (r.Some? ==> r.value == -(DigitsValue(s[1..]) as int))
  {
    if s == [] then None
    else
      var digits := if s[0] == '-' || s[0] == '+' then s[1..] else s;
      if digits == [] || !AllDigits(digits) then None
      else
        var n: int := DigitsValue(digits);
        var v := if s[0] == '-' then -n else n;
        if IntMin <= v <= IntMax then Some(v) else None
  }

  /** `Integer.toString(n)` for a natural number: its decimal digits without
      leading zeros. */
  function Decimal(n: nat): (r: string)
    ensures |r| > 0 && AllDigits(r)
  {
    if n < 10 then [('0' as int + n) as char]
    else Decimal(n / 10) + [('0' as int + n % 10) as char]
  }

  lemma {:induction false} DigitsValueOfDecimal(n: nat)
    ensures DigitsValue(Decimal(n)) == n
  {
    var d := Decimal(n);
    if n >= 10 {
      assert d[..|d| - 1] == Decimal(n / 10);
      DigitsValueOfDecimal(n / 10);
    }
  }

  /** Integer.parseInt inverts Integer.toString on the whole 32-bit range. */
  lemma ParseIntDecimal(v: int)
    requires IntMin <= v <= IntMax
    ensures v >= 0 ==> ParseInt(Decimal(v)) == Some(v)
    ensures v < 0 ==> ParseInt("-" + Decimal(-v)) == Some(v)
  {
    if v >= 0 {
      DigitsValueOfDecimal(v);
    } else {
      DigitsValueOfDecimal(-v);
      assert ("-" + Decimal(-v))[1..] == Decimal(-v);
    }
  }

  /** The integer field in columns [lo, hi): the substring, whitespace
      removed, parsed by Integer.parseInt. */
  function IntField(s: string, lo: nat, hi: nat): (r: Result<int, ParseError>)
    requires lo <= hi
    ensures r.Ok? <==> hi <= |s| && ParseInt(StripSpace(s[lo..hi])).Some?
    ensures r.Ok? ==> Some(r.value) == ParseInt(StripSpace(s[lo..hi]))
  {
    var t :- Substring(s, lo, hi);
    match ParseInt(StripSpace(t))
    case Some(v) => Ok(v)
    case None => Fail(NumberFormat)
  }

  /** The text field in columns [lo, hi) with its whitespace removed. */
  function TextField(s: string, lo: nat, hi: nat): (r: Result<string, ParseError>)
    requires lo <= hi
    ensures r.Ok? <==> hi <= |s|
    ensures r.Ok? ==> r.value == StripSpace(s[lo..hi])
  {
    var t :- Substring(s, lo, hi);
    Ok(StripSpace(t))
  }
}
