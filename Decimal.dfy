/**
  The temperature payload read after the `t=` marker. The sensor driver
  writes an optionally signed decimal integer of milli-degrees Celsius;
  the script hands it to Python's `float()`. This module models that
  conversion on exactly this grammar: an optional `+` or `-` followed by
  one or more ASCII digits. Every other text is rejected (the `ValueError`
  branch).
 */
module Decimal {
  import opened Wrappers

  predicate IsDigit(c: char)
  {
    '0' <= c <= '9'
  }

  predicate AllDigits(s: string)
  {
    forall i :: 0 <= i < |s| ==> IsDigit(s[i])
  }

  predicate IsSign(c: char)
  {
    c == '+' || c == '-'
  }

  /** The payload grammar: an optional sign, then one or more digits. */
  predicate IsSignedInteger(s: string)
  {
    |s| >= 1 && if IsSign(s[0]) then |s| >= 2 && AllDigits(s[1..]) else AllDigits(s)
  }

  predicate AllZeros(z: string)
  {
    forall i :: 0 <= i < |z| ==> z[i] == '0'
  }

  /** Value of a digit string, most significant digit first. */
  function DigitsValue(ds: string): nat
    requires AllDigits(ds)
  {
    if ds == [] then 0
    else DigitsValue(ds[..|ds| - 1]) * 10 + (ds[|ds| - 1] as int - '0' as int)
  }

  /** An unsigned, non-empty run of digits, or nothing. */
  function ParseDigits(ds: string): Option<nat>
  {
    if |ds| > 0 && AllDigits(ds) then Some(DigitsValue(ds)) else None
  }

  /** The payload as `float()` reads it, restricted to signed integers. */
  function ParseInteger(s: string): (r: Option<int>)
    ensures r.Some? <==> IsSignedInteger(s)
    ensures r.Some? ==> (r.value < 0 ==> s[0] == '-')
  {
    if |s| > 0 && s[0] == '-' then
      match ParseDigits(s[1..])
      case None => None
      case Some(n) => Some(-(n as int))
    else if |s| > 0 && s[0] == '+' then
      match ParseDigits(s[1..])
      case None => None
      case Some(n) => Some(n)
    else
      match ParseDigits(s)
      case None => None
      case Some(n) => Some(n)
  }

  /** Decimal rendering of a natural number, without leading zeros. */
  function NatToDigits(n: nat): (r: string)
    ensures |r| >= 1 && AllDigits(r)
  {
    if n < 10 then ['0' + n as char]
    else NatToDigits(n / 10) + ['0' + (n % 10) as char]
  }

  /** Decimal rendering of an integer, as the driver writes it. */
  function IntToString(n: int): string
  {
    if n < 0 then "-" + NatToDigits(-n) else NatToDigits(n)
  }

  lemma {:induction false} DigitsRoundTrip(n: nat)
    ensures DigitsValue(NatToDigits(n)) == n
  {
    if n >= 10 {
      var r := NatToDigits(n);
      assert r[..|r| - 1] == NatToDigits(n / 10);
      DigitsRoundTrip(n / 10);
    }
  }

  lemma ParseDigitsRoundTrip(n: nat)
    ensures ParseDigits(NatToDigits(n)) == Some(n)
  {
    DigitsRoundTrip(n);
  }

  /** Leading zeros do not change the value of a digit string. */
  lemma {:induction false} LeadingZerosValue(z: string, ds: string)
    requires AllZeros(z) && AllDigits(ds)
    ensures AllDigits(z + ds) && DigitsValue(z + ds) == DigitsValue(ds)
  {
    if ds == [] {
      assert z + ds == z;
      ZerosValue(z);
    } else {
      var init := ds[..|ds| - 1];
      assert (z + ds)[..|z + ds| - 1] == z + init;
      assert (z + ds)[|z + ds| - 1] == ds[|ds| - 1];
      LeadingZerosValue(z, init);
    }
  }

  lemma {:induction false} ZerosValue(z: string)
    requires AllZeros(z)
    ensures AllDigits(z) && DigitsValue(z) == 0
  {
    if z != [] {
      ZerosValue(z[..|z| - 1]);
    }
  }

  /**
    The value of every accepted payload: any number of leading zeros, then
    the digits of `n`, unsigned, with `+` or with `-`.
   */
  lemma ParseEveryForm(z: string, n: nat)
    requires AllZeros(z)
    ensures ParseInteger(z + NatToDigits(n)) == Some(n)
    ensures ParseInteger("+" + z + NatToDigits(n)) == Some(n)
    ensures ParseInteger("-" + z + NatToDigits(n)) == Some(-(n as int))
  {
    var ds := NatToDigits(n);
    DigitsRoundTrip(n);
    LeadingZerosValue(z, ds);
    var u := z + ds;
    assert "+" + z + ds == "+" + u;
    assert "-" + z + ds == "-" + u;
    ParseDigitRun(u);
  }

  /** A run of digits is read as its value, with or without a sign. */
  lemma ParseDigitRun(u: string)
    requires |u| >= 1 && AllDigits(u)
    ensures ParseInteger(u) == Some(DigitsValue(u))
    ensures ParseInteger("+" + u) == Some(DigitsValue(u))
    ensures ParseInteger("-" + u) == Some(-(DigitsValue(u) as int))
  {
    assert !IsSign(u[0]);
    assert ("+" + u)[1..] == u;
    assert ("-" + u)[1..] == u;
  }

  /** Every integer the driver can write is read back as itself. */
  lemma ParseRoundTrip(n: int)
    ensures ParseInteger(IntToString(n)) == Some(n)
  {
    if n < 0 {
      ParseDigitsRoundTrip(-n);
      assert IntToString(n)[1..] == NatToDigits(-n);
    } else {
      ParseDigitsRoundTrip(n);
      assert IntToString(n)[0] != '-' && IntToString(n)[0] != '+';
    }
  }
}
