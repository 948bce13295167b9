/**
 * formatDuration: a number of seconds as "MM:SS", minutes zero-padded to at
 * least two digits, seconds to exactly two; a missing or negative input
 * shows as "00:00".
 */
module Format {
  import opened Types

  predicate IsDigit(c: char) { '0' <= c <= '9' }

  function DigitChar(d: nat): (c: char)
    requires d < 10
    ensures IsDigit(c) && (c as int) - ('0' as int) == d
  {
    ['0', '1', '2', '3', '4', '5', '6', '7', '8', '9'][d]
  }

  function DigitValue(c: char): (d: nat)
    requires IsDigit(c)
    ensures d < 10
  {
    (c as int) - ('0' as int)
  }

  /** The decimal numeral of n, without leading zeros (String(n)). */
  function Decimal(n: nat): (s: string)
    ensures |s| >= 1
    ensures forall i :: 0 <= i < |s| ==> IsDigit(s[i])
    ensures |s| == 1 <==> n < 10
    ensures n > 0 ==> s[0] != '0'
  {
    if n < 10 then [DigitChar(n)] else Decimal(n / 10) + [DigitChar(n % 10)]
  }

  /** The value of a string of decimal digits; leading zeros are harmless. */
  function ValueOf(s: string): nat
    requires forall i :: 0 <= i < |s| ==> IsDigit(s[i])
  {
    if s == [] then 0
    else ValueOf(s[..|s| - 1]) * 10 + DigitValue(s[|s| - 1])
  }

  lemma {:induction false} DecimalRoundTrip(n: nat)
    ensures ValueOf(Decimal(n)) == n
  {
    if n >= 10 {
      var s := Decimal(n);
      assert s[..|s| - 1] == Decimal(n / 10);
      DecimalRoundTrip(n / 10);
    } else {
      assert Decimal(n)[..0] == [];
    }
  }

  /** padStart(2, '0'). */
  function PadTwo(s: string): (r: string)
    requires |s| >= 1
    ensures |r| == if |s| == 1 then 2 else |s|
    ensures |s| == 1 ==> r == ['0'] + s
    ensures |s| >= 2 ==> r == s
  {
    if |s| == 1 then ['0'] + s else s
  }

  lemma PadTwoValue(s: string)
    requires |s| >= 1 && forall i :: 0 <= i < |s| ==> IsDigit(s[i])
    ensures forall i :: 0 <= i < |PadTwo(s)| ==> IsDigit(PadTwo(s)[i])
    ensures ValueOf(PadTwo(s)) == ValueOf(s)
  {
    if |s| == 1 {
      var r := PadTwo(s);
      assert r[..1] == ['0'] && r[..1][..0] == [] && s[..0] == [];
    }
  }

  /** The minutes field: at least two digits that read back as n. */
  lemma MinutesField(n: nat)
    ensures var f := PadTwo(Decimal(n));
      && |f| >= 2 && (forall i :: 0 <= i < |f| ==> IsDigit(f[i])) && ValueOf(f) == n
      && (|f| > 2 ==> f[0] != '0')
  {
    DecimalRoundTrip(n);
    PadTwoValue(Decimal(n));
  }

  /** The seconds field: exactly two digits that read back as n. */
  lemma SecondsField(n: nat)
    requires n < 60
    ensures var f := PadTwo(Decimal(n));
      |f| == 2 && (forall i :: 0 <= i < |f| ==> IsDigit(f[i])) && ValueOf(f) == n
  {
    if n >= 10 { assert |Decimal(n / 10)| == 1; }
    MinutesField(n);
  }

  predicate AllDigits(s: string)
  {
    forall i :: 0 <= i < |s| ==> IsDigit(s[i])
  }

  /** `r` is a minutes field of at least two digits, with no leading zero
      beyond the padding, a colon and a seconds field of two digits under 60,
      and reading both fields back gives v. */
  predicate ReadsBack(r: string, v: int)
  {
    && |r| >= 5 && r[|r| - 3] == ':'
    && AllDigits(r[..|r| - 3]) && AllDigits(r[|r| - 2..])
    && ValueOf(r[|r| - 2..]) < 60
    && ValueOf(r[..|r| - 3]) * 60 + ValueOf(r[|r| - 2..]) == v
    && (|r| > 5 ==> r[0] != '0')
  }

  /** Joining a minutes and a seconds field at a colon. */
  lemma JoinFields(m: string, sec: string)
    requires |m| >= 2 && AllDigits(m) && (|m| > 2 ==> m[0] != '0')
    requires |sec| == 2 && AllDigits(sec) && ValueOf(sec) < 60
    ensures ReadsBack(m + ":" + sec, ValueOf(m) * 60 + ValueOf(sec))
  {
    var r := m + ":" + sec;
    assert r[..|r| - 3] == m && r[|r| - 2..] == sec;
    assert r[0] == m[0] && r[|r| - 3] == ':';
  }

  /** formatDuration. The text splits at its colon into a minutes part of at
      least two digits, without leading zeros beyond the padding, and a
      seconds part of exactly two, and reading both back gives the input; a
      missing or negative input shows as "00:00", which reads as zero. */
  function FormatDuration(totalSeconds: Option<int>): (r: string)
    ensures ReadsBack(r, if totalSeconds.None? || totalSeconds.value < 0 then 0 else totalSeconds.value)
    ensures totalSeconds.None? || totalSeconds.value < 0 ==> r == "00:00"
  {
    if totalSeconds.None? || totalSeconds.value < 0 then
      assert ValueOf("00") == 0 by { assert "00"[..1] == "0" && "0"[..0] == []; }
      JoinFields("00", "00");
      assert "00" + ":" + "00" == "00:00";
      "00:00"
    else
      var t := totalSeconds.value;
      MinutesField(t / 60);
      SecondsField(t % 60);
      JoinFields(PadTwo(Decimal(t / 60)), PadTwo(Decimal(t % 60)));
      PadTwo(Decimal(t / 60)) + ":" + PadTwo(Decimal(t % 60))
  }
}
