/** The MM:SS text the App component renders from timeLeft: minutes by
    Math.floor(timeLeft / 60), seconds by the truncating remainder
    timeLeft % 60, each turned into a decimal string by Number toString
    and left-padded with '0' to two characters by padStart.
 */
module ClockDisplay {

  /** Math.floor(t / 60). Dafny's division by a positive divisor rounds
      down, as Math.floor does. */
  function Minutes(t: int): (m: int)
    ensures m * 60 <= t < m * 60 + 60
  {
    t / 60
  }

  /** t % 60 with the sign of t, as the remainder operator of JavaScript
      computes it. */
  function Seconds(t: int): (r: int)
    ensures t >= 0 ==> 0 <= r < 60 && Minutes(t) * 60 + r == t
    ensures t < 0 ==> -60 < r <= 0
    ensures (t - r) % 60 == 0
  {
    if t >= 0 then t % 60 else -((-t) % 60)
  }

  predicate IsDigit(c: char)
  {
    '0' <= c <= '9'
  }

  predicate AllDigits(s: string)
  {
    forall i :: 0 <= i < |s| ==> IsDigit(s[i])
  }

  function DigitChar(d: nat): (c: char)
    requires d < 10
    ensures IsDigit(c)
  {
    ('0' as int + d) as char
  }

  function DigitValue(c: char): (d: nat)
    requires IsDigit(c)
    ensures d < 10 && DigitChar(d) == c
  {
    c as int - '0' as int
  }

  /** Number.prototype.toString for a non-negative integer below 10^21
      (from there on JavaScript switches to exponent form): its decimal
      digits, most significant first, without leading zeros. */
  function NatToString(n: nat): string
    decreases n
  {
    if n < 10 then [DigitChar(n)] else NatToString(n / 10) + [DigitChar(n % 10)]
  }

  /** Number.prototype.toString for an integer of magnitude below 10^21:
      a minus sign before the digits of a negative number. */
  function IntToString(i: int): string
  {
    if i < 0 then "-" + NatToString(-i) else NatToString(i)
  }

  /** The value of a string of decimal digits, read most significant first. */
  function DecimalValue(s: string): nat
    requires AllDigits(s)
    decreases |s|
  {
    if s == [] then 0 else 10 * DecimalValue(s[..|s| - 1]) + DigitValue(s[|s| - 1])
  }

  /** String.prototype.padStart(width, fill) with a one-character fill. */
  function PadStart(s: string, width: nat, fill: char): (r: string)
    ensures |r| == if |s| >= width then |s| else width
    ensures r[|r| - |s|..] == s
    ensures forall i :: 0 <= i < |r| - |s| ==> r[i] == fill
  {
    if |s| >= width then s else seq(width - |s|, _ => fill) + s
  }

  /** One field of the clock: `n.toString().padStart(2, '0')`. */
  function Field(n: int): string
  {
    PadStart(IntToString(n), 2, '0')
  }

  /** The rendered `MM:SS` text for a number of seconds. */
  function ClockText(t: int): string
  {
    Field(Minutes(t)) + ":" + Field(Seconds(t))
  }

  /** Reads a two-digit field of the clock text back. */
  function TwoDigitValue(a: char, b: char): nat
    requires IsDigit(a) && IsDigit(b)
  {
    10 * DigitValue(a) + DigitValue(b)
  }

  /** toString produces digits only, reads back as the number, has no
      leading zero, and has one digit below 10 and two below 100. */
  lemma {:induction false} NatToStringRoundTrip(n: nat)
    ensures AllDigits(NatToString(n)) && DecimalValue(NatToString(n)) == n
    ensures |NatToString(n)| >= 1 && (NatToString(n)[0] == '0' ==> n == 0)
    ensures n < 10 <==> |NatToString(n)| == 1
    ensures 10 <= n < 100 <==> |NatToString(n)| == 2
    decreases n
  {
    var s := NatToString(n);
    if n >= 10 {
      NatToStringRoundTrip(n / 10);
      assert s[..|s| - 1] == NatToString(n / 10);
      assert s[|s| - 1] == DigitChar(n % 10);
    }
  }

  /** A number below 100, padded to two characters, is two digits that read
      back as the number. */
  lemma PaddedTwoDigits(n: nat)
    requires n < 100
    ensures |Field(n)| == 2 && AllDigits(Field(n))
    ensures TwoDigitValue(Field(n)[0], Field(n)[1]) == n
  {
    NatToStringRoundTrip(n);
    var s := NatToString(n);
    var p := PadStart(s, 2, '0');
    if n < 10 {
      assert p == ['0'] + s;
      assert DecimalValue(s) == DigitValue(s[0]) by {
        assert s[..0] == [];
      }
    } else {
      assert p == s;
      assert DecimalValue(s) == 10 * DecimalValue(s[..1]) + DigitValue(s[1]);
      assert DecimalValue(s[..1]) == DigitValue(s[0]) by {
        assert s[..1][..0] == [];
      }
    }
  }

  /** Below 100 minutes the clock text is exactly five characters, two
      digits of minutes, a colon and two digits of seconds, and it reads
      back as the number of seconds it shows. */
  lemma {:induction false} ClockTextRoundTrip(t: int)
    requires 0 <= t < 100 * 60
    ensures |ClockText(t)| == 5 && ClockText(t)[2] == ':'
    ensures IsDigit(ClockText(t)[0]) && IsDigit(ClockText(t)[1])
    ensures IsDigit(ClockText(t)[3]) && IsDigit(ClockText(t)[4])
    ensures TwoDigitValue(ClockText(t)[0], ClockText(t)[1]) == Minutes(t)
    ensures TwoDigitValue(ClockText(t)[3], ClockText(t)[4]) == Seconds(t)
    ensures TwoDigitValue(ClockText(t)[0], ClockText(t)[1]) * 60 +
            TwoDigitValue(ClockText(t)[3], ClockText(t)[4]) == t
  {
    var m, sec := Minutes(t), Seconds(t);
    assert 0 <= m < 100 && 0 <= sec < 100;
    PaddedTwoDigits(m);
    PaddedTwoDigits(sec);
    JoinFields(Field(m), Field(sec));
  }

  /** Two two-character fields around a colon: where each character lands. */
  lemma JoinFields(mm: string, ss: string)
    requires |mm| == 2 && |ss| == 2
    ensures |mm + ":" + ss| == 5 && (mm + ":" + ss)[2] == ':'
    ensures (mm + ":" + ss)[0] == mm[0] && (mm + ":" + ss)[1] == mm[1]
    ensures (mm + ":" + ss)[3] == ss[0] && (mm + ":" + ss)[4] == ss[1]
  {
  }

  /** Within a work or break period the minutes stay at most 25 and the
      seconds below 60. */
  lemma PeriodFields(t: int)
    requires 0 <= t <= 25 * 60
    ensures 0 <= Minutes(t) <= 25 && 0 <= Seconds(t) < 60
    ensures Minutes(t) * 60 + Seconds(t) == t
    ensures Minutes(t) == 25 ==> Seconds(t) == 0
  {
  }
}
