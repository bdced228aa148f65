/**
 * Decimal text for integers: Go's strconv.Itoa and strconv.Atoi
 * (ParseInt in base 10 for a 64-bit int), used by the shard configuration
 * parser and by the JSON bodies the control plane writes.
 */
module Decimal {
  import opened Common

  const MinInt64: int := -0x8000_0000_0000_0000
  const MaxInt64: int := 0x7fff_ffff_ffff_ffff

  predicate IsDigit(c: char)
  {
    '0' <= c <= '9'
  }

  predicate AllDigits(s: string)
  {
    forall k :: 0 <= k < |s| ==> IsDigit(s[k])
  }

  function DigitChar(d: nat): (c: char)
    requires d < 10
    ensures IsDigit(c)
  {
    (('0' as int) + d) as char
  }

  /** The number a non-empty run of decimal digits denotes, read left to right. */
  function Value(s: string): nat
    requires AllDigits(s)
  {
    if |s| == 0 then 0
    else Value(s[..|s| - 1]) * 10 + ((s[|s| - 1] as int) - ('0' as int))
  }

  /** The shortest decimal text of a natural number (no leading zeros). */
  function NatToString(n: nat): (s: string)
    ensures 1 <= |s| && AllDigits(s) && IsAscii(s)
  {
    if n < 10 then [DigitChar(n)] else NatToString(n / 10) + [DigitChar(n % 10)]
  }

  /** strconv.Itoa: a minus sign for negative numbers, then the digits. */
  function IntToString(i: int): (s: string)
    ensures IsAscii(s)
  {
    if i < 0 then "-" + NatToString(-i) else NatToString(i)
  }

  /**
   * strconv.Atoi: an optional '+' or '-', then one or more decimal digits
   * and nothing else; the value must fit in a 64-bit int. Any other text
   * (the empty string of an unset environment variable included) is an error.
   */
  function Atoi(s: string): (r: Option<int>)
    ensures r.Some? ==> MinInt64 <= r.value <= MaxInt64
    ensures r.Some? ==> (0 < |s| &&
                         var digits := if s[0] == '+' || s[0] == '-' then s[1..] else s;
                         0 < |digits| && AllDigits(digits) &&
                         r.value == (if s[0] == '-' then 0 - (Value(digits) as int) else Value(digits)))
    ensures AllDigits(s) && 0 < |s| && Value(s) <= MaxInt64 ==> r == Some(Value(s))
    ensures 1 < |s| && s[0] == '-' && AllDigits(s[1..]) && Value(s[1..]) <= -MinInt64 ==> r == Some(0 - (Value(s[1..]) as int))
  {
    if |s| == 0 then None
    else
      var signed := s[0] == '+' || s[0] == '-';
      var digits := if signed then s[1..] else s;
      if |digits| == 0 || !AllDigits(digits) then None
      else
        var v: int := if s[0] == '-' then 0 - (Value(digits) as int) else Value(digits);
        if MinInt64 <= v <= MaxInt64 then Some(v) else None
  }

  lemma {:induction false} ValueOfNatToString(n: nat)
    ensures Value(NatToString(n)) == n
  {
    var s := NatToString(n);
    if n >= 10 {
      ValueOfNatToString(n / 10);
      assert s[..|s| - 1] == NatToString(n / 10);
    }
  }

  /** Atoi accepts exactly what Itoa prints, for every 64-bit value. */
  lemma AtoiOfIntToString(i: int)
    requires MinInt64 <= i <= MaxInt64
    ensures Atoi(IntToString(i)) == Some(i)
  {
    var s := IntToString(i);
    if i < 0 {
      var digits := NatToString(-i);
      ValueOfNatToString(-i);
      assert s == "-" + digits && s[1..] == digits;
      assert 1 < |s| && s[0] == '-' && AllDigits(s[1..]) && Value(s[1..]) == -i;
    } else {
      ValueOfNatToString(i);
      assert s == NatToString(i) && AllDigits(s) && 0 < |s| && Value(s) == i;
    }
  }
}
