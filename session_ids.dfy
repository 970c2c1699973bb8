/** Session identifiers: `session_` followed by the session's 1-based number
    written in decimal and zero-padded to at least four digits. */
module SessionIds {

  const Prefix: string := "session_"

  predicate IsDigit(c: char) {
    '0' <= c <= '9'
  }

  function DigitChar(d: nat): (c: char)
    requires d < 10
    ensures IsDigit(c) && c as int - '0' as int == d
  {
    ('0' as int + d) as char
  }

  /** The decimal numeral of `n`, without leading zeros. */
  function Decimal(n: nat): string
    decreases n
  {
    if n < 10 then [DigitChar(n)] else Decimal(n / 10) + [DigitChar(n % 10)]
  }

  /** The numeral of `n` is a non-empty string of digits with one digit
      per power of ten up to `n`, and it starts with a zero only for 0. */
  lemma {:induction false} DecimalShape(n: nat)
    ensures 1 <= |Decimal(n)|
    ensures forall i :: 0 <= i < |Decimal(n)| ==> IsDigit(Decimal(n)[i])
    ensures n < 10 <==> |Decimal(n)| == 1
    ensures n < 100 <==> |Decimal(n)| <= 2
    ensures n < 1000 <==> |Decimal(n)| <= 3
    ensures n < 10000 <==> |Decimal(n)| <= 4
    ensures n > 0 ==> Decimal(n)[0] != '0'
    decreases n
  {
    if n >= 10 {
      DecimalShape(n / 10);
      var s := Decimal(n);
      assert s[0] == Decimal(n / 10)[0];
      forall i | 0 <= i < |s| ensures IsDigit(s[i]) {
        if i < |s| - 1 {
          assert s[i] == Decimal(n / 10)[i];
        }
      }
    }
  }

  /** `s` preceded by as many '0' characters as it takes to reach `width`. */
  function ZeroPad(s: string, width: nat): (r: string)
    ensures |r| == if |s| < width then width else |s|
    ensures forall i :: 0 <= i < |r| - |s| ==> r[i] == '0'
  {
    if |s| < width then seq(width - |s|, _ => '0') + s else s
  }

  /** Padding only adds characters in front: the padded string ends with
      the original one. */
  lemma ZeroPadEndsWith(s: string, width: nat)
    ensures var r := ZeroPad(s, width); r[|r| - |s|..] == s
  {
  }

  /** The identifier of the `n`-th session. */
  function SessionId(n: nat): string {
    Prefix + ZeroPad(Decimal(n), 4)
  }

  /** A session id has at least four digits after the prefix, and exactly
      four for the first 9999 sessions. */
  lemma SessionIdLength(n: nat)
    ensures |SessionId(n)| >= |Prefix| + 4
    ensures n < 10000 <==> |SessionId(n)| == |Prefix| + 4
  {
    DecimalShape(n);
  }

  /** Every session id starts with the prefix, followed by digits only. */
  lemma SessionIdShape(n: nat)
    ensures SessionId(n)[..|Prefix|] == Prefix
    ensures forall i :: |Prefix| <= i < |SessionId(n)| ==> IsDigit(SessionId(n)[i])
  {
    var id, d := SessionId(n), Decimal(n);
    var padded := ZeroPad(d, 4);
    DecimalShape(n);
    ZeroPadEndsWith(d, 4);
    forall i | |Prefix| <= i < |id| ensures IsDigit(id[i]) {
      var k := i - |Prefix|;
      assert id[i] == padded[k];
      if k >= |padded| - |d| {
        assert padded[k] == padded[|padded| - |d|..][k - (|padded| - |d|)];
      }
    }
  }

  /** The number a string of decimal digits denotes. */
  function DigitsValue(s: string): int {
    if s == [] then 0 else DigitsValue(s[..|s| - 1]) * 10 + (s[|s| - 1] as int - '0' as int)
  }

  /** Reading back the numeral of `n` gives `n`. */
  lemma {:induction false} DecimalRoundTrip(n: nat)
    ensures DigitsValue(Decimal(n)) == n
    decreases n
  {
    if n >= 10 {
      var s := Decimal(n);
      DecimalShape(n / 10);
      assert s[..|s| - 1] == Decimal(n / 10);
      DecimalRoundTrip(n / 10);
    }
  }

  /** Leading zeros do not change the number a numeral denotes. */
  lemma {:induction false} LeadingZeros(k: nat, s: string)
    ensures DigitsValue(seq(k, _ => '0') + s) == DigitsValue(s)
    decreases |s|
  {
    var z: string := seq(k, _ => '0');
    if s == [] {
      assert z + s == z;
      ZerosValue(k);
    } else {
      var t := z + s;
      assert t[..|t| - 1] == z + s[..|s| - 1];
      LeadingZeros(k, s[..|s| - 1]);
    }
  }

  lemma {:induction false} ZerosValue(k: nat)
    ensures DigitsValue(seq(k, _ => '0')) == 0
  {
    if k > 0 {
      var z: string := seq(k, _ => '0');
      assert z[..k - 1] == seq(k - 1, _ => '0');
      ZerosValue(k - 1);
    }
  }

  /** The digits after the prefix of a session id read back as the session's
      number, however many zeros pad them. */
  lemma SessionNumberRoundTrip(n: nat)
    ensures DigitsValue(SessionId(n)[|Prefix|..]) == n
  {
    var d := Decimal(n);
    var id := SessionId(n);
    assert id[|Prefix|..] == ZeroPad(d, 4);
    if |d| < 4 {
      LeadingZeros(4 - |d|, d);
    }
    DecimalRoundTrip(n);
  }

  /** Distinct session numbers give distinct session ids. */
  lemma SessionIdInjective(a: nat, b: nat)
    requires a != b
    ensures SessionId(a) != SessionId(b)
  {
    SessionNumberRoundTrip(a);
    SessionNumberRoundTrip(b);
  }
}
