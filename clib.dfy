/**
 * The C and C++ library conversions Pixi's parsers lean on: `std::isspace`
 * in the "C" locale, `std::stoi(s, nullptr, 16)`, the `%x`/`%hhx`
 * conversions of `sscanf` and `atoi`, and `std::to_string` of a small
 * non-negative number. They are modelled after glibc.
 */
module CLib {
  import opened Types

  /** `std::isspace` in the "C" locale: space, \t, \n, \v, \f and \r. */
  predicate IsSpace(c: char) {
    c == ' ' || c == '\t' || c == '\n' || c == '\r' || c == 11 as char || c == 12 as char
  }

  predicate IsHexDigit(c: char) {
    '0' <= c <= '9' || 'a' <= c <= 'f' || 'A' <= c <= 'F'
  }

  predicate IsDecDigit(c: char) {
    '0' <= c <= '9'
  }

  function HexDigitValue(c: char): (v: nat)
    requires IsHexDigit(c)
    ensures v < 16
  {
    if '0' <= c <= '9' then c as int - '0' as int
    else if 'a' <= c <= 'f' then c as int - 'a' as int + 10
    else c as int - 'A' as int + 10
  }

  /** The value of a run of hexadecimal digits, most significant first. */
  function HexValue(d: string): (v: nat)
    requires forall i :: 0 <= i < |d| ==> IsHexDigit(d[i])
    ensures |d| == 0 ==> v == 0
  {
    if |d| == 0 then 0 else 16 * HexValue(d[..|d| - 1]) + HexDigitValue(d[|d| - 1])
  }

  /** The value of a run of decimal digits, most significant first. */
  function DecValue(d: string): (v: nat)
    requires forall i :: 0 <= i < |d| ==> IsDecDigit(d[i])
  {
    if |d| == 0 then 0 else 10 * DecValue(d[..|d| - 1]) + DecDigitValue(d[|d| - 1])
  }

  function DecDigitValue(c: char): (v: nat)
    requires IsDecDigit(c)
    ensures v < 10
  {
    c as int - '0' as int
  }

  /** The first position at or after `i` that does not hold white space. */
  function SkipSpaces(s: string, i: nat): (j: nat)
    requires i <= |s|
    ensures i <= j <= |s|
    ensures forall k :: i <= k < j ==> IsSpace(s[k])
    ensures j < |s| ==> !IsSpace(s[j])
    decreases |s| - i
  {
    if i < |s| && IsSpace(s[i]) then SkipSpaces(s, i + 1) else i
  }

  /** The end of the maximal run of hexadecimal digits that starts at `i`. */
  function HexRunEnd(s: string, i: nat): (j: nat)
    requires i <= |s|
    ensures i <= j <= |s|
    ensures forall k :: i <= k < j ==> IsHexDigit(s[k])
    ensures j < |s| ==> !IsHexDigit(s[j])
    decreases |s| - i
  {
    if i < |s| && IsHexDigit(s[i]) then HexRunEnd(s, i + 1) else i
  }

  /** The end of the maximal run of decimal digits that starts at `i`. */
  function DecRunEnd(s: string, i: nat): (j: nat)
    requires i <= |s|
    ensures i <= j <= |s|
    ensures forall k :: i <= k < j ==> IsDecDigit(s[k])
    ensures j < |s| ==> !IsDecDigit(s[j])
    decreases |s| - i
  {
    if i < |s| && IsDecDigit(s[i]) then DecRunEnd(s, i + 1) else i
  }

  /** A numeral as `strtol`/`strtoul` in base 16 read it: sign, magnitude, and where it ended. */
  datatype Numeral = Numeral(negative: bool, magnitude: nat, end: nat)

  /**
   * Base-16 numeral starting at `i`: leading white space, an optional sign,
   * an optional "0x"/"0X" (taken only when a hex digit follows it), then at
   * least one hex digit. `None` when no digit can be read.
   */
  function ScanHexNumeral(s: string, i: nat): (r: Option<Numeral>)
    requires i <= |s|
    ensures r.Some? ==> i < r.value.end <= |s| && IsHexDigit(s[r.value.end - 1])
    ensures r.Some? ==> r.value.end < |s| ==> !IsHexDigit(s[r.value.end])
  {
    var j := SkipSpaces(s, i);
    var negative := j < |s| && s[j] == '-';
    var k := if j < |s| && (s[j] == '-' || s[j] == '+') then j + 1 else j;
    var d := if k + 2 < |s| && s[k] == '0' && (s[k + 1] == 'x' || s[k + 1] == 'X') && IsHexDigit(s[k + 2])
             then k + 2 else k;
    var e := HexRunEnd(s, d);
    if e == d then None
    else
      assert forall t :: 0 <= t < e - d ==> IsHexDigit(s[d..e][t]);
      Some(Numeral(negative, HexValue(s[d..e]), e))
  }

  /** Outcome of `std::stoi`. */
  datatype IntParse = Parsed(value: int) | InvalidArgument | OutOfIntRange

  /**
   * `std::stoi(s, nullptr, 16)`: `invalid_argument` when no digit can be
   * read, `out_of_range` when the value does not fit in an `int`.
   */
  function StoiHex(s: string): (r: IntParse)
    ensures r.Parsed? ==> INT_MIN <= r.value <= INT_MAX
    ensures r == InvalidArgument <==> ScanHexNumeral(s, 0).None?
  {
    match ScanHexNumeral(s, 0)
    case None => InvalidArgument
    case Some(n) =>
      var v: int := if n.negative then 0 - n.magnitude else n.magnitude;
      if v < INT_MIN || v > INT_MAX then OutOfIntRange else Parsed(v)
  }

  /** 2^64: one more than `ULONG_MAX`. */
  const U64: nat := 0x1_0000_0000_0000_0000

  /** A "0x" or "0X" at `k` with no hex digit after it. */
  predicate BareHexPrefix(s: string, k: nat) {
    k + 1 < |s| && s[k] == '0' && (s[k + 1] == 'x' || s[k + 1] == 'X') && (k + 2 == |s| || !IsHexDigit(s[k + 2]))
  }

  /** Where the magnitude of a numeral starts: after the white space and the optional sign at `i`. */
  function MagnitudeStart(s: string, i: nat): (k: nat)
    requires i <= |s|
    ensures i <= k <= |s|
  {
    var j := SkipSpaces(s, i);
    if j < |s| && (s[j] == '-' || s[j] == '+') then j + 1 else j
  }

  /**
   * Base-16 numeral as glibc's `scanf` reads it for `%x`: like
   * `ScanHexNumeral`, but a "0x"/"0X" after a '0' is consumed whatever
   * follows it, and when no hex digit follows the numeral is the '0' alone
   * with value 0 and ends after the 'x'.
   */
  function ScanfHexNumeral(s: string, i: nat): (r: Option<Numeral>)
    requires i <= |s|
    ensures r.Some? ==> i < r.value.end <= |s|
    ensures BareHexPrefix(s, MagnitudeStart(s, i)) <==> r.Some? && r.value.magnitude == 0 && r.value.end == MagnitudeStart(s, i) + 2 && !IsHexDigit(s[r.value.end - 1])
    ensures !BareHexPrefix(s, MagnitudeStart(s, i)) ==> r == ScanHexNumeral(s, i)
  {
    var k := MagnitudeStart(s, i);
    if BareHexPrefix(s, k) then
      Some(Numeral(SkipSpaces(s, i) < |s| && s[SkipSpaces(s, i)] == '-', 0, k + 2))
    else ScanHexNumeral(s, i)
  }

  /**
   * The value `strtoul` hands to a `%x`-family conversion, stored into an
   * unsigned integer `modulus` wide: a negative numeral is negated modulo
   * 2^64, and a magnitude beyond `unsigned long` saturates to its maximum.
   */
  function UnsignedValue(n: Numeral, modulus: nat): (v: nat)
    requires modulus > 0
    ensures v < modulus
    ensures !n.negative && n.magnitude < modulus && modulus <= U64 ==> v == n.magnitude
  {
    var u := if n.magnitude >= U64 then U64 - 1
             else if n.negative then (U64 - n.magnitude) % U64
             else n.magnitude;
    u % modulus
  }

  /**
   * A `%x` (modulus 2^32) or `%hhx` (modulus 256) conversion at `i`: the
   * stored value and the position after the numeral. It agrees with
   * `strtoul`'s numeral except on a bare "0x", which it consumes whole and
   * reads as 0, where `strtoul` stops after the '0'.
   */
  function ScanHex(s: string, i: nat, modulus: nat): (r: Option<(nat, nat)>)
    requires i <= |s|
    requires modulus > 0
    ensures r.Some? ==> r.value.0 < modulus && i < r.value.1 <= |s|
    ensures r.Some? <==> ScanfHexNumeral(s, i).Some?
    ensures BareHexPrefix(s, MagnitudeStart(s, i)) ==> r.Some? && r.value == (0, MagnitudeStart(s, i) + 2)
    ensures !BareHexPrefix(s, MagnitudeStart(s, i)) ==>
      (r.Some? <==> ScanHexNumeral(s, i).Some?) &&
      (r.Some? ==> r.value == (UnsignedValue(ScanHexNumeral(s, i).value, modulus), ScanHexNumeral(s, i).value.end))
  {
    match ScanfHexNumeral(s, i)
    case None => None
    case Some(n) => Some((UnsignedValue(n, modulus), n.end))
  }

  /**
   * `sscanf(s, "%hhx %hhx ... %hhx", ...)` with `n` conversions: the values
   * of the conversions that succeed, in order, up to the first failure
   * (white space between the directives matches any amount, including none).
   */
  function ScanHexBytes(s: string, i: nat, n: nat): (r: seq<byte>)
    requires i <= |s|
    ensures |r| <= n
    ensures n > 0 && ScanHex(s, i, 256).None? ==> r == []
    decreases n
  {
    if n == 0 then []
    else match ScanHex(s, i, 256)
      case None => []
      case Some((v, e)) => [ToU8(v)] + ScanHexBytes(s, SkipSpaces(s, e), n - 1)
  }

  /**
   * The two readings of "0x 5": `strtoul`'s numeral is the '0' alone, while
   * `sscanf("%hhx %hhx")` consumes "0x" as 0 and goes on to read the 5.
   */
  lemma BareHexPrefixScans()
    ensures ScanHexNumeral("0x 5", 0) == Some(Numeral(false, 0, 1))
    ensures ScanHexBytes("0x 5", 0, 2) == [0, 5]
  {
    var s := "0x 5";
    assert SkipSpaces(s, 0) == 0 && MagnitudeStart(s, 0) == 0;
    assert BareHexPrefix(s, 0);
    assert HexRunEnd(s, 0) == 1;
    assert s[0..1] == "0";
    assert HexValue("0") == 0 by { assert "0"[..0] == []; }
    assert ScanHex(s, 0, 256) == Some((0, 2));
    assert SkipSpaces(s, 2) == 3 && MagnitudeStart(s, 3) == 3;
    assert !BareHexPrefix(s, 3);
    assert HexRunEnd(s, 3) == 4;
    assert s[3..4] == "5";
    assert HexValue("5") == 5 by { assert "5"[..0] == []; }
    assert ScanHex(s, 3, 256) == Some((5, 4));
  }

  /** `atoi`: optional white space and sign, then decimal digits; no digit gives 0. */
  function Atoi(s: string): (v: int)
    ensures (forall i :: 0 <= i < |s| ==> !IsDecDigit(s[i])) ==> v == 0
  {
    var j := SkipSpaces(s, 0);
    var k := if j < |s| && (s[j] == '-' || s[j] == '+') then j + 1 else j;
    var e := DecRunEnd(s, k);
    assert forall t :: 0 <= t < e - k ==> IsDecDigit(s[k..e][t]);
    var m: int := DecValue(s[k..e]);
    if j < |s| && s[j] == '-' then 0 - m else m
  }

  /** `std::to_string` of a non-negative number. */
  function DecimalString(n: nat): (s: string)
    ensures |s| >= 1 && forall i :: 0 <= i < |s| ==> IsDecDigit(s[i])
    ensures DecValue(s) == n
  {
    if n < 10 then [('0' as int + n) as char]
    else DecimalString(n / 10) + [('0' as int + n % 10) as char]
  }
  /** An uppercase hexadecimal digit. */
  function HexDigitChar(d: nat): (c: char)
    requires d < 16
    ensures IsHexDigit(c) && HexDigitValue(c) == d && !('a' <= c <= 'f')
  {
    if d < 10 then ('0' as int + d) as char else ('A' as int + d - 10) as char
  }

  /** `{:X}` of a non-negative number: uppercase hexadecimal without leading zeros. */
  function HexString(n: nat): string {
    if n < 16 then [HexDigitChar(n)] else HexString(n / 16) + [HexDigitChar(n % 16)]
  }

  /** The numeral is made of uppercase hexadecimal digits and reads back as `n`. */
  lemma {:induction false} HexStringValue(n: nat)
    ensures var s := HexString(n);
      |s| >= 1 && (forall i :: 0 <= i < |s| ==> IsHexDigit(s[i]) && !('a' <= s[i] <= 'f')) && HexValue(s) == n
  {
    if n >= 16 {
      HexStringValue(n / 16);
      var s := HexString(n);
      assert s[..|s| - 1] == HexString(n / 16);
    }
  }

  /** `{:0wX}`: the same digits, padded on the left with '0' to at least `w` characters. */
  function HexPadded(n: nat, w: nat): string {
    var h := HexString(n);
    if |h| >= w then h else seq(w - |h|, _ => '0') + h
  }

  /** The padded numeral is at least `w` wide and ends with the plain numeral, behind '0's only. */
  lemma HexPaddedDigits(n: nat, w: nat)
    ensures var s := HexPadded(n, w);
      |s| >= w && |s| >= |HexString(n)| && s[|s| - |HexString(n)|..] == HexString(n) &&
      forall i :: 0 <= i < |s| - |HexString(n)| ==> s[i] == '0'
  { }
}
