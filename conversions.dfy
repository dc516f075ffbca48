/**
 * Wire conversions shared by the topology builder and the vehicle tracker:
 * the decimal rendering of integer lane ids (C++ `std::to_string`), and the
 * two unit conversions applied at ingestion (miles/hour to meters/second,
 * milliseconds to seconds).
 */
module Conversions {

  /** Factor from miles per hour to meters per second. */
  const MphToMpsFactor: real := 0.44704

  function MphToMps(mph: real): (mps: real)
    ensures mph >= 0.0 ==> 0.0 <= mps <= mph
  {
    mph * MphToMpsFactor
  }

  function MsToSeconds(ms: nat): (s: real)
    ensures s >= 0.0
    ensures s * 1000.0 == ms as real
  {
    ms as real / 1000.0
  }

  predicate IsDigit(c: char) {
    '0' <= c <= '9'
  }

  function DigitChar(d: nat): (c: char)
    requires d < 10
    ensures IsDigit(c) && c as int - '0' as int == d
  {
    ('0' as int + d) as char
  }

  /** Decimal digits of a natural number, most significant first, no leading zeros. */
  function NatString(n: nat): (s: string)
    ensures |s| > 0
    decreases n
  {
    if n < 10 then [DigitChar(n)] else NatString(n / 10) + [DigitChar(n % 10)]
  }

  /** The rendering of a natural number consists of decimal digits only. */
  lemma {:induction false} NatStringDigits(n: nat)
    ensures forall k :: 0 <= k < |NatString(n)| ==> IsDigit(NatString(n)[k])
    decreases n
  {
    if n >= 10 {
      NatStringDigits(n / 10);
    }
  }

  /** The string `std::to_string` produces for an integer. */
  function IdString(n: int): (s: string)
    ensures |s| > 0
    ensures s[0] == '-' <==> n < 0
    ensures forall k :: 0 < k < |s| ==> IsDigit(s[k])
  {
    if n < 0 then
      NatStringDigits(-n);
      "-" + NatString(-n)
    else
      NatStringDigits(n);
      NatString(n)
  }

  /** Value of a string of decimal digits, read most significant first. */
  function ParseDigits(s: string): int {
    if s == [] then 0
    else ParseDigits(s[..|s| - 1]) * 10 + (s[|s| - 1] as int - '0' as int)
  }

  /** Inverse of `IdString`: an optional minus sign followed by digits. */
  function ParseId(s: string): int {
    if |s| > 0 && s[0] == '-' then -ParseDigits(s[1..]) else ParseDigits(s)
  }

  lemma {:induction false} ParseNatString(n: nat)
    ensures ParseDigits(NatString(n)) == n
    decreases n
  {
    if n >= 10 {
      var s := NatString(n);
      assert s[..|s| - 1] == NatString(n / 10);
      ParseNatString(n / 10);
    }
  }

  /** Reading back the decimal rendering gives the integer again. */
  lemma ParseIdString(n: int)
    ensures ParseId(IdString(n)) == n
  {
    if n < 0 {
      assert IdString(n)[1..] == NatString(-n);
      ParseNatString(-n);
    } else {
      NatStringDigits(n);
      assert IsDigit(NatString(n)[0]);
      ParseNatString(n);
    }
  }

  /** Two ids are rendered alike exactly when they are equal. */
  lemma IdStringInjective(a: int, b: int)
    ensures IdString(a) == IdString(b) <==> a == b
  {
    ParseIdString(a);
    ParseIdString(b);
  }

  /** The renderings of a list of ids, in the list's order. */
  function IdStrings(ids: seq<int>): (r: seq<string>)
    ensures |r| == |ids|
    ensures forall k :: 0 <= k < |ids| ==> r[k] == IdString(ids[k])
  {
    seq(|ids|, k requires 0 <= k < |ids| => IdString(ids[k]))
  }

  /** A rendered id occurs among the rendered list exactly when the id occurs in the list. */
  lemma InIdStrings(x: int, ids: seq<int>)
    ensures IdString(x) in IdStrings(ids) <==> x in ids
  {
    if IdString(x) in IdStrings(ids) {
      var k :| 0 <= k < |ids| && IdStrings(ids)[k] == IdString(x);
      IdStringInjective(x, ids[k]);
    }
    if x in ids {
      var k :| 0 <= k < |ids| && ids[k] == x;
      assert IdStrings(ids)[k] == IdString(x);
    }
  }
}
