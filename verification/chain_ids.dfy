/** Chain identifiers: unsigned 64-bit integers parsed from the registry's
    textual keys (`ulong.Parse(rpc.Name)` in `ScanRpcs`). */
module ChainIds {
  import opened Wrappers

  /** 2^64, one past the largest `ulong`. */
  const U64_LIMIT: int := 0x1_0000_0000_0000_0000

  newtype u64 = x: int | 0 <= x < 0x1_0000_0000_0000_0000

  predicate IsDigit(c: char) {
    '0' <= c <= '9'
  }

  function DigitValue(c: char): (d: nat)
    requires IsDigit(c)
    ensures d < 10
  {
    (c as int) - ('0' as int)
  }

  function DigitChar(d: nat): (c: char)
    requires d < 10
    ensures IsDigit(c) && DigitValue(c) == d
  {
    (('0' as int) + d) as char
  }

  predicate AllDigits(s: string) {
    forall i :: 0 <= i < |s| ==> IsDigit(s[i])
  }

  /** The number a string of decimal digits denotes, most significant digit
      first; leading zeros are allowed. */
  function DecimalValue(s: string): nat
    requires AllDigits(s)
    decreases |s|
  {
    if |s| == 0 then 0
    else DecimalValue(s[..|s| - 1]) * 10 + DigitValue(s[|s| - 1])
  }

  /** Appending digits never makes the value smaller. */
  lemma {:induction false} PrefixValueBounded(s: string, k: nat)
    requires AllDigits(s) && k <= |s|
    ensures AllDigits(s[..k])
    ensures DecimalValue(s[..k]) <= DecimalValue(s)
    decreases |s| - k
  {
    if k < |s| {
      var t := s[..|s| - 1];
      assert t[..k] == s[..k];
      PrefixValueBounded(t, k);
      assert DecimalValue(t) <= DecimalValue(s);
    } else {
      assert s[..k] == s;
    }
  }

  /** One step of the digit-by-digit parser: the value of the next prefix. */
  lemma NextPrefixValue(s: string, i: nat)
    requires i < |s| && AllDigits(s[..i]) && IsDigit(s[i])
    ensures AllDigits(s[..i + 1])
    ensures DecimalValue(s[..i + 1]) == DecimalValue(s[..i]) * 10 + DigitValue(s[i])
  {
    assert s[..i + 1][..i] == s[..i];
  }

  /** Parses the digits of `s` from position `i` on, `acc` holding the value
      of the digits already read; fails on a non-digit and when the running
      value leaves the `ulong` range. */
  function ParseFrom(s: string, i: nat, acc: u64): (r: Option<u64>)
    requires i <= |s| && AllDigits(s[..i]) && acc as int == DecimalValue(s[..i])
    ensures r.Some? <==> AllDigits(s) && DecimalValue(s) < U64_LIMIT
    ensures r.Some? ==> AllDigits(s) && r.value as int == DecimalValue(s)
    decreases |s| - i
  {
    if i == |s| then
      assert s[..i] == s;
      Some(acc)
    else if !IsDigit(s[i]) then
      None
    else
      NextPrefixValue(s, i);
      var next := acc as int * 10 + DigitValue(s[i]);
      if next >= U64_LIMIT then
        (if AllDigits(s) then PrefixValueBounded(s, i + 1); None else None)
      else
        ParseFrom(s, i + 1, next as u64)
  }

  /** `ulong.Parse` restricted to plain decimal digits: succeeds exactly on a
      non-empty digit string whose value fits in 64 bits, and yields that
      value. */
  function ParseU64(s: string): (r: Option<u64>)
    ensures r.Some? <==> |s| > 0 && AllDigits(s) && DecimalValue(s) < U64_LIMIT
    ensures r.Some? ==> AllDigits(s) && r.value as int == DecimalValue(s)
  {
    if |s| == 0 then None
    else
      assert s[..0] == [];
      ParseFrom(s, 0, 0)
  }

  /** Canonical decimal rendering of a chain identifier (no leading zeros). */
  function Format(n: nat): (s: string)
    ensures |s| > 0 && AllDigits(s)
    decreases n
  {
    if n < 10 then [DigitChar(n)] else Format(n / 10) + [DigitChar(n % 10)]
  }

  lemma {:induction false} FormatValue(n: nat)
    ensures DecimalValue(Format(n)) == n
    decreases n
  {
    if n >= 10 {
      var s := Format(n);
      assert s[..|s| - 1] == Format(n / 10);
      FormatValue(n / 10);
    }
  }

  /** Every chain identifier is recovered by parsing its decimal rendering. */
  lemma ParseFormatRoundTrip(n: u64)
    ensures ParseU64(Format(n as nat)) == Some(n)
  {
    FormatValue(n as nat);
  }
}
