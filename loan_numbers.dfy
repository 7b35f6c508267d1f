/** `generateLoanNumber` (src/controllers/loanController.ts:1652-1664):
    "LN-" followed by the two-digit day of month, month, hour and minute of
    the current local time, a dash, and a random suffix
    `Math.floor(1000 + Math.random() * 9000)`.

    The clock fields and the value drawn from Math.random are parameters. */
module LoanNumbers {
  import opened Common

  /** The local-time fields `getDate()`, `getMonth()` (zero-based),
      `getHours()` and `getMinutes()` of the current time. */
  datatype Clock = Clock(day: nat, month0: nat, hour: nat, minute: nat)

  predicate ValidClock(c: Clock) {
    1 <= c.day <= 31 && c.month0 <= 11 && c.hour <= 23 && c.minute <= 59
  }

  /** `n.toString().padStart(2, '0')`. */
  function Pad2(n: nat): string {
    PadStart2(NatToString(n))
  }

  /** `Math.floor(1000 + draw * 9000)` where `draw` is a value Math.random
      returned, so it lies in [0, 1). */
  function Suffix(draw: real): (r: int)
    requires 0.0 <= draw < 1.0
    ensures 1000 <= r <= 9999
  {
    (1000.0 + draw * 9000.0).Floor
  }

  /** For a clock of real local-time fields, a loan number is 16
      characters, so it fits the 20-character column. */
  function LoanNumber(c: Clock, draw: real): (n: string)
    requires 0.0 <= draw < 1.0
    ensures ValidClock(c) ==> |n| == 16 <= 20
  {
    LayoutRoundTrip(c, draw);
    "LN-" + Pad2(c.day) + Pad2(c.month0 + 1) + Pad2(c.hour) + Pad2(c.minute)
      + "-" + NatToString(Suffix(draw))
  }

  /** The shape `LN-` eight digits `-` four digits, anchored at both ends. */
  predicate LoanNumberShape(s: string) {
    && |s| == 16
    && s[..3] == "LN-"
    && AllDigits(s[3..5]) && AllDigits(s[5..7]) && AllDigits(s[7..9]) && AllDigits(s[9..11])
    && s[11] == '-'
    && AllDigits(s[12..])
  }

  datatype LoanNumberParts = LoanNumberParts(day: nat, month: nat, hour: nat, minute: nat, suffix: nat)

  /** Reads the fields back out of a loan number. */
  function ParseLoanNumber(s: string): (r: Option<LoanNumberParts>)
    ensures r.Some? <==> LoanNumberShape(s)
  {
    if LoanNumberShape(s) then
      Some(LoanNumberParts(DigitsValue(s[3..5]), DigitsValue(s[5..7]), DigitsValue(s[7..9]),
                           DigitsValue(s[9..11]), DigitsValue(s[12..])))
    else None
  }

  lemma TwoDigits(n: nat)
    requires n < 100
    ensures |Pad2(n)| == 2 && AllDigits(Pad2(n)) && DigitsValue(Pad2(n)) == n
  {
    Pad2Digits(n);
    var p := Pad2(n);
    var hi, lo := DigitChar(n / 10), DigitChar(n % 10);
    assert p == [hi, lo];
    assert p[..1] == [hi];
    assert [hi][..0] == [];
    assert DigitsValue([hi]) == n / 10;
    assert DigitsValue(p) == 10 * (n / 10) + n % 10;
  }

  /** Where each field sits in a loan number. */
  lemma Slices(a: string, b: string, h: string, m: string, e: string)
    requires |a| == 2 && |b| == 2 && |h| == 2 && |m| == 2 && |e| == 4
    ensures var s := "LN-" + a + b + h + m + "-" + e;
            && |s| == 16 && s[..3] == "LN-" && s[3..5] == a && s[5..7] == b && s[7..9] == h
            && s[9..11] == m && s[11] == '-' && s[12..] == e
  {
    var s := "LN-" + a + b + h + m + "-" + e;
    assert s == "LN-" + (a + (b + (h + (m + ("-" + e)))));
  }


  /** A loan number has the shape below, and its fields read back as the
      day, month (one-based), hour, minute and suffix it was made from. */
  lemma LoanNumberRoundTrip(c: Clock, draw: real)
    requires ValidClock(c) && 0.0 <= draw < 1.0
    ensures ParseLoanNumber(LoanNumber(c, draw))
            == Some(LoanNumberParts(c.day, c.month0 + 1, c.hour, c.minute, Suffix(draw)))
  {
    LayoutRoundTrip(c, draw);
  }

  /** The fields of a clock laid out as a loan number parse back. */
  lemma LayoutRoundTrip(c: Clock, draw: real)
    requires 0.0 <= draw < 1.0
    ensures var s := "LN-" + Pad2(c.day) + Pad2(c.month0 + 1) + Pad2(c.hour) + Pad2(c.minute)
                     + "-" + NatToString(Suffix(draw));
            ValidClock(c) ==> |s| == 16 && ParseLoanNumber(s) == Some(LoanNumberParts(c.day, c.month0 + 1, c.hour, c.minute, Suffix(draw)))
  {
    if ValidClock(c) {
      var k := Suffix(draw);
      TwoDigits(c.day);
      TwoDigits(c.month0 + 1);
      TwoDigits(c.hour);
      TwoDigits(c.minute);
      FourDigits(k);
      NatToStringValue(k);
      Slices(Pad2(c.day), Pad2(c.month0 + 1), Pad2(c.hour), Pad2(c.minute), NatToString(k));
    }
  }
}
