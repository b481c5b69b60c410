/**
 * Time arithmetic of the session shell: the elapsed seconds recorded when a game
 * completes and the `m:ss` rendering of a number of seconds.
 */
module Clock {
  import opened Wrappers
  import opened Text

  /** JavaScript's `%` with a positive divisor: the remainder takes the sign of the dividend. */
  function JsRem(a: int, b: int): (r: int)
    requires b > 0
    ensures a >= 0 ==> 0 <= r < b
    ensures a < 0 ==> -b < r <= 0
    ensures a >= 0 ==> a == b * (a / b) + r
    ensures a < 0 ==> -a == b * ((-a) / b) - r
  {
    if a >= 0 then a % b else -((-a) % b)
  }

  /** `startTime || endTime`: a missing or zero start counts as "started just now". */
  predicate Started(start: Option<int>)
  {
    start.Some? && start.value != 0
  }

  /**
   * `Math.floor((endTime - (startTime || endTime)) / 1000)`: whole seconds between
   * the start and `end` (milliseconds), rounded down; no start gives 0.
   */
  function ElapsedSeconds(start: Option<int>, end: int): (r: int)
    ensures !Started(start) ==> r == 0
    ensures Started(start) ==> r * 1000 <= end - start.value < r * 1000 + 1000
    ensures Started(start) && start.value <= end ==> r >= 0
  {
    var s := if Started(start) then start.value else end;
    (end - s) / 1000
  }

  /** Two decimal digits, tens first. */
  function TwoDigits(n: nat): (s: string)
    requires n < 100
    ensures |s| == 2 && AllDigits(s)
  {
    [Digit(n / 10), Digit(n % 10)]
  }

  /**
   * `formatTime(seconds)`: `${Math.floor(seconds / 60)}:${(seconds % 60).toString().padStart(2, '0')}`.
   * Dafny's `/` rounds down for a positive divisor, as `Math.floor` does; `%` is
   * JavaScript's truncating remainder.
   */
  function FormatTime(seconds: int): (t: string)
    ensures |t| >= 4
    ensures 0 <= seconds ==> t[|t| - 3] == ':' && t[|t| - 2..] == TwoDigits(seconds % 60)
  {
    PadTwoDigitsNonneg(seconds);
    IntString(seconds / 60) + ":" + PadStart(IntString(JsRem(seconds, 60)), 2, '0')
  }

  /** The seconds part of a non-negative count pads to its two digits. */
  lemma PadTwoDigitsNonneg(seconds: int)
    ensures 0 <= seconds ==> PadStart(IntString(JsRem(seconds, 60)), 2, '0') == TwoDigits(seconds % 60)
  {
    if 0 <= seconds {
      PadTwoDigits(seconds % 60);
    }
  }

  /** Padding a number below 100 to two places gives its two digits. */
  lemma PadTwoDigits(n: nat)
    requires n < 100
    ensures PadStart(Decimal(n), 2, '0') == TwoDigits(n)
  {
    var d := Decimal(n);
    if n < 10 {
      assert d == [Digit(n)];
      assert Digit(0) == '0';
    } else {
      assert d == Decimal(n / 10) + [Digit(n % 10)];
      assert Decimal(n / 10) == [Digit(n / 10)];
    }
  }

  /** Two digits read back as the number they were made from. */
  lemma TwoDigitsValue(n: nat)
    requires n < 100
    ensures ParseDecimal(TwoDigits(n)) == n
  {
    var d := TwoDigits(n);
    assert d[..1] == [Digit(n / 10)];
    assert d[..1][..0] == [];
    assert ParseDecimal(d[..1]) == n / 10;
    assert DigitValue(d[1]) == n % 10;
  }

  /** For a non-negative count the display is the minutes, a colon and two digits of seconds. */
  lemma FormatTimeParts(seconds: nat)
    ensures FormatTime(seconds) == Decimal(seconds / 60) + ":" + TwoDigits(seconds % 60)
  {
    PadTwoDigits(seconds % 60);
  }

  /**
   * Reading the display back: the part before the colon is the minutes, the last two
   * characters are the seconds below 60, and together they give the count again.
   */
  lemma FormatTimeRoundTrip(seconds: nat)
    ensures var t := FormatTime(seconds);
      && |t| >= 4 && t[|t| - 3] == ':'
      && AllDigits(t[..|t| - 3]) && AllDigits(t[|t| - 2..])
      && ParseDecimal(t[|t| - 2..]) < 60
      && ParseDecimal(t[..|t| - 3]) * 60 + ParseDecimal(t[|t| - 2..]) == seconds
  {
    FormatTimeParts(seconds);
    var m := Decimal(seconds / 60);
    var d := TwoDigits(seconds % 60);
    var t := m + ":" + d;
    assert t[..|t| - 3] == m;
    assert t[|t| - 2..] == d;
    DecimalRoundTrip(seconds / 60);
    TwoDigitsValue(seconds % 60);
  }
}
