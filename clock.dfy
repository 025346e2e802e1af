/**
 * `formatSeconds` from app/src/App.jsx: a whole number of seconds shown as
 * minutes and seconds, `MM:SS`, each part zero-padded to two digits (the
 * minutes may grow beyond two digits).
 */
module Clock {
  import opened Wrappers
  import Text

  predicate IsDigit(c: char) {
    '0' <= c <= '9'
  }

  predicate AllDigits(d: string) {
    forall i :: 0 <= i < |d| ==> IsDigit(d[i])
  }

  function DigitChar(d: nat): (c: char)
    requires d < 10
    ensures IsDigit(c)
  {
    ('0' as int + d) as char
  }

  /** `n.toString()` for a non-negative integer. */
  function Decimal(n: nat): (r: string)
    ensures |r| >= 1 && AllDigits(r)
    ensures n < 10 ==> |r| == 1
    ensures n < 100 ==> |r| <= 2
  {
    if n < 10 then [DigitChar(n)] else Decimal(n / 10) + [DigitChar(n % 10)]
  }

  /** `padStart(2, "0")`. */
  function PadStart2(s: string): string {
    if |s| >= 2 then s else seq(2 - |s|, _ => '0') + s
  }

  /** The value of a string of decimal digits, read most significant first. */
  function Value(d: string): nat
    requires AllDigits(d)
  {
    if d == [] then 0 else Value(d[..|d| - 1]) * 10 + (d[|d| - 1] as int - '0' as int)
  }

  /** `formatSeconds(s)`. */
  function FormatSeconds(s: nat): string {
    var m := s / 60;
    var sec := s % 60;
    PadStart2(Decimal(m)) + ":" + PadStart2(Decimal(sec))
  }

  /** Reads back a `MM:SS` display: exactly one colon, digits on both sides,
      two digits of seconds below sixty. */
  function ParseClock(text: string): Option<nat> {
    var parts := Text.Split(text, ':');
    if |parts| == 2 && |parts[0]| >= 1 && AllDigits(parts[0]) && |parts[1]| == 2 && AllDigits(parts[1])
       && Value(parts[1]) < 60
    then Some(Value(parts[0]) * 60 + Value(parts[1]))
    else None
  }

  lemma {:induction false} DecimalValue(n: nat)
    ensures Value(Decimal(n)) == n
  {
    if n >= 10 {
      var d := Decimal(n);
      assert d[..|d| - 1] == Decimal(n / 10);
      DecimalValue(n / 10);
    }
  }

  lemma {:induction false} LeadingZeroValue(d: string)
    requires AllDigits(d)
    ensures AllDigits("0" + d) && Value("0" + d) == Value(d)
    decreases |d|
  {
    if d != [] {
      var z := "0" + d;
      assert z[..|z| - 1] == "0" + d[..|d| - 1];
      LeadingZeroValue(d[..|d| - 1]);
    }
  }

  lemma PadStart2Value(d: string)
    requires |d| >= 1 && AllDigits(d)
    ensures var p := PadStart2(d); AllDigits(p) && |p| >= 2 && Value(p) == Value(d)
    ensures |d| <= 2 ==> |PadStart2(d)| == 2
  {
    if |d| < 2 {
      assert PadStart2(d) == "0" + d;
      LeadingZeroValue(d);
    }
  }

  /** The display is the padded minutes, a colon, and exactly two digits of
      seconds; the minutes are `s / 60` and the seconds `s % 60`, below 60. */
  lemma FormatSecondsParts(s: nat)
    ensures var mm, ss := PadStart2(Decimal(s / 60)), PadStart2(Decimal(s % 60));
      && FormatSeconds(s) == mm + ":" + ss
      && |mm| >= 2 && AllDigits(mm) && Value(mm) == s / 60
      && |ss| == 2 && AllDigits(ss) && Value(ss) == s % 60 && Value(ss) < 60
  {
    PadStart2Value(Decimal(s / 60));
    PadStart2Value(Decimal(s % 60));
    DecimalValue(s / 60);
    DecimalValue(s % 60);
  }

  lemma NoColonInDigits(d: string)
    requires AllDigits(d)
    ensures ':' !in d
  {
  }

  /** Reading the display back as minutes * 60 + seconds gives `s` again. */
  lemma FormatSecondsRoundTrip(s: nat)
    ensures ParseClock(FormatSeconds(s)) == Some(s)
  {
    FormatSecondsParts(s);
    var mm, ss := PadStart2(Decimal(s / 60)), PadStart2(Decimal(s % 60));
    NoColonInDigits(mm);
    NoColonInDigits(ss);
    Text.SplitAtSep(mm, ss, ':');
    Text.SplitWithoutSep(ss, ':');
    assert mm + ":" + ss == mm + [':'] + ss;
  }

  /** Different durations never share a display. */
  lemma FormatSecondsInjective(a: nat, b: nat)
    requires FormatSeconds(a) == FormatSeconds(b)
    ensures a == b
  {
    FormatSecondsRoundTrip(a);
    FormatSecondsRoundTrip(b);
  }
}
