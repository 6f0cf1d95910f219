// The millisecond time value of the player (MediaPlayer/VTime.cpp): a signed
// count of milliseconds with ordering, addition, subtraction, truncated
// seconds and the "hh:mm:ss.mmm" text form.

module VTime {
  import Decimal

  const MsPerHour: int := 3600000
  const MsPerMinute: int := 60000
  const MsPerSecond: int := 1000

  /** A VTime holds one count of milliseconds; a default VTime holds 0. */
  datatype VTime = VTime(ms: int)

  /** hours, minutes, seconds and milliseconds as the text form prints them */
  datatype Hms = Hms(hours: int, minutes: int, seconds: int, millis: int)

  predicate InRange(c: Hms) {
    0 <= c.hours && 0 <= c.minutes < 60 && 0 <= c.seconds < 60 && 0 <= c.millis < 1000
  }

  function GetMilliseconds(hour: int, minute: int, seconds: int, milliseconds: int): int {
    hour * MsPerHour + minute * MsPerMinute + seconds * MsPerSecond + milliseconds
  }

  /** VTime(hour, minute, seconds, milliseconds) */
  function FromHms(hour: int, minute: int, seconds: int, milliseconds: int): VTime {
    VTime(GetMilliseconds(hour, minute, seconds, milliseconds))
  }

  // Comparison operators: each compares the two stored counts.
  predicate Eq(a: VTime, b: VTime) { a.ms == b.ms }
  predicate Ne(a: VTime, b: VTime) { a.ms != b.ms }
  predicate Lt(a: VTime, b: VTime) { a.ms < b.ms }
  predicate Le(a: VTime, b: VTime) { a.ms <= b.ms }
  predicate Gt(a: VTime, b: VTime) { a.ms > b.ms }
  predicate Ge(a: VTime, b: VTime) { a.ms >= b.ms }

  function Plus(a: VTime, b: VTime): VTime { VTime(a.ms + b.ms) }
  function Minus(a: VTime, b: VTime): VTime { VTime(a.ms - b.ms) }

  /** Division truncating toward zero, as C++ `/` on qint64 does. */
  function TruncDiv(a: int, b: int): int
    requires b > 0
  {
    if a >= 0 then a / b else -((-a) / b)
  }

  /** seconds(): the count divided by 1000, truncated toward zero. */
  function Seconds(t: VTime): (r: int)
    ensures 0 <= t.ms ==> 0 <= r * MsPerSecond <= t.ms < (r + 1) * MsPerSecond
    ensures t.ms < 0 ==> (r - 1) * MsPerSecond < t.ms <= r * MsPerSecond <= 0
  {
    TruncDiv(t.ms, MsPerSecond)
  }

  /**
   * The four fields toString prints: whole hours, then the minutes, seconds
   * and milliseconds left over.
   */
  function Components(t: VTime): Hms
    requires 0 <= t.ms
  {
    Hms(t.ms / 3600000, t.ms % 3600000 / 60000, t.ms % 60000 / 1000, t.ms % 1000)
  }

  /** The fields exactly as toString computes them, by repeated subtraction. */
  function ComponentsAsWritten(t: VTime): Hms {
    var h := TruncDiv(t.ms, MsPerHour);
    var m := TruncDiv(t.ms - h * MsPerHour, MsPerMinute);
    var s := TruncDiv(t.ms - h * MsPerHour - m * MsPerMinute, MsPerSecond);
    var ms := t.ms - h * MsPerHour - m * MsPerMinute - s * MsPerSecond;
    Hms(h, m, s, ms)
  }

  /**
   * For a non-negative count the fields are in range, recombine through
   * getMilliseconds to the count, and agree with toString's own arithmetic.
   */
  lemma ComponentsSplitCount(t: VTime)
    requires 0 <= t.ms
    ensures InRange(Components(t))
    ensures GetMilliseconds(Components(t).hours, Components(t).minutes,
                            Components(t).seconds, Components(t).millis) == t.ms
    ensures ComponentsAsWritten(t) == Components(t)
  {
    var x := t.ms;
    var h := x / 3600000;
    var r := x % 3600000;
    assert x == h * 3600000 + r;
    assert r % 60000 == x % 60000 by {
      assert 3600000 == 60 * 60000;
    }
    assert r == r / 60000 * 60000 + x % 60000;
    assert x % 60000 == x % 60000 / 1000 * 1000 + x % 1000 by {
      assert 60000 == 60 * 1000;
    }
    assert r / 60000 < 60;
  }

  /**
   * toString(sep): "hh" sep "mm" sep "ss" "." "mmm", each field zero-padded.
   * Minutes, seconds and milliseconds have fixed widths, so the separators
   * sit at fixed distances from the end.
   */
  function ToString(t: VTime, sep: char): (r: string)
    requires 0 <= t.ms
    ensures 12 <= |r| && r[|r| - 10] == sep && r[|r| - 7] == sep && r[|r| - 4] == '.'
  {
    var c := Components(t);
    ComponentsSplitCount(t);
    Decimal.DigitsShort(c.minutes);
    Decimal.DigitsShort(c.seconds);
    Decimal.DigitsShort(c.millis);
    FieldSlices(Decimal.Padded(c.hours, 2), Decimal.Padded(c.minutes, 2),
                Decimal.Padded(c.seconds, 2), Decimal.Padded(c.millis, 3), sep);
    Decimal.Padded(c.hours, 2) + [sep] +
    Decimal.Padded(c.minutes, 2) + [sep] +
    Decimal.Padded(c.seconds, 2) + ['.'] +
    Decimal.Padded(c.millis, 3)
  }

  /** toString() with its default separator. */
  function Text(t: VTime): string
    requires 0 <= t.ms
  {
    ToString(t, ':')
  }

  /** A string laid out as ToString lays it out: digits, sep, 2 digits, sep, 2 digits, '.', 3 digits. */
  predicate IsTimeText(s: string) {
    12 <= |s| &&
    Decimal.AllDigits(s[..|s| - 10]) && Decimal.AllDigits(s[|s| - 9..|s| - 7]) &&
    Decimal.AllDigits(s[|s| - 6..|s| - 4]) && Decimal.AllDigits(s[|s| - 3..])
  }

  /** Reads the four fields back out of a time text. */
  function ReadFields(s: string): Hms
    requires IsTimeText(s)
  {
    var n := |s|;
    Hms(Decimal.Value(s[..n - 10]), Decimal.Value(s[n - 9..n - 7]),
        Decimal.Value(s[n - 6..n - 4]), Decimal.Value(s[n - 3..]))
  }

  /** The millisecond count a time text denotes. */
  function TextValue(s: string): int
    requires IsTimeText(s)
  {
    var c := ReadFields(s);
    GetMilliseconds(c.hours, c.minutes, c.seconds, c.millis)
  }

  /** getMilliseconds and Components are inverse on in-range fields. */
  lemma ComponentsOfGetMilliseconds(c: Hms)
    requires InRange(c)
    ensures 0 <= GetMilliseconds(c.hours, c.minutes, c.seconds, c.millis)
    ensures Components(FromHms(c.hours, c.minutes, c.seconds, c.millis)) == c
  {
    var t := GetMilliseconds(c.hours, c.minutes, c.seconds, c.millis);
    var rest := c.minutes * 60000 + c.seconds * 1000 + c.millis;
    var rest2 := c.seconds * 1000 + c.millis;
    DivModOf(t, c.hours, rest, 3600000);
    DivModOf(rest, c.minutes, rest2, 60000);
    DivModOf(t, c.hours * 60 + c.minutes, rest2, 60000);
    DivModOf(rest2, c.seconds, c.millis, 1000);
    DivModOf(t, (c.hours * 60 + c.minutes) * 60 + c.seconds, c.millis, 1000);
  }

  /** Euclidean division is determined by quotient and remainder. */
  lemma DivModOf(x: int, q: int, r: int, d: int)
    requires 0 < d && 0 <= r < d && x == q * d + r
    ensures x / d == q && x % d == r
  {
    var q' := x / d;
    var r' := x % d;
    var k := q - q';
    assert k * d == q * d - q' * d;
    assert k * d == r' - r;
    if k >= 1 {
      MulAtLeast(k, d);
    } else if k <= -1 {
      MulAtLeast(-k, d);
    }
  }

  lemma MulAtLeast(k: int, d: int)
    requires 1 <= k && 0 < d
    ensures d <= k * d
  {
    assert k * d == (k - 1) * d + d;
    assert 0 <= (k - 1) * d;
  }

  /**
   * The text toString produces has the separators at fixed distances from
   * its end, and its digit fields recombine to the original count.
   */
  lemma ToStringLayout(t: VTime, sep: char)
    requires 0 <= t.ms
    ensures var s := ToString(t, sep);
      IsTimeText(s) && s[|s| - 10] == sep && s[|s| - 7] == sep && s[|s| - 4] == '.' &&
      ReadFields(s) == Components(t) && TextValue(s) == t.ms
  {
    var c := Components(t);
    ComponentsSplitCount(t);
    Decimal.DigitsShort(c.minutes);
    Decimal.DigitsShort(c.seconds);
    Decimal.DigitsShort(c.millis);
    FieldSlices(Decimal.Padded(c.hours, 2), Decimal.Padded(c.minutes, 2),
                Decimal.Padded(c.seconds, 2), Decimal.Padded(c.millis, 3), sep);
    Decimal.ValueOfPadded(c.hours, 2);
    Decimal.ValueOfPadded(c.minutes, 2);
    Decimal.ValueOfPadded(c.seconds, 2);
    Decimal.ValueOfPadded(c.millis, 3);
  }

  /** The default text form decodes back to the count it was made from. */
  lemma TextDecodes(t: VTime)
    requires 0 <= t.ms
    ensures IsTimeText(Text(t)) && TextValue(Text(t)) == t.ms
  {
    ToStringLayout(t, ':');
  }

  lemma FieldSlices(hs: string, ms: string, ss: string, xs: string, sep: char)
    requires 2 <= |hs| && |ms| == 2 && |ss| == 2 && |xs| == 3
    ensures var s := hs + [sep] + ms + [sep] + ss + ['.'] + xs;
      var n := |s|;
      n == |hs| + 10 && s[..n - 10] == hs && s[n - 10] == sep && s[n - 9..n - 7] == ms &&
      s[n - 7] == sep && s[n - 6..n - 4] == ss && s[n - 4] == '.' && s[n - 3..] == xs
  {
  }

  /** Two counts with the same text are the same count. */
  lemma ToStringInjective(a: VTime, b: VTime, sep: char)
    requires 0 <= a.ms && 0 <= b.ms
    requires ToString(a, sep) == ToString(b, sep)
    ensures a == b
  {
    ToStringLayout(a, sep);
    ToStringLayout(b, sep);
  }

  /** The six comparisons are those of the stored counts, so ordering is total. */
  lemma ComparisonsAgree(a: VTime, b: VTime)
    ensures Eq(a, b) <==> a == b
    ensures Ne(a, b) <==> !Eq(a, b)
    ensures Le(a, b) <==> Lt(a, b) || Eq(a, b)
    ensures Gt(a, b) <==> Lt(b, a)
    ensures Ge(a, b) <==> Le(b, a)
    ensures Lt(a, b) || Eq(a, b) || Gt(a, b)
    ensures !(Lt(a, b) && Gt(a, b))
  {
  }

  /** Subtracting what was added gives back the original value. */
  lemma PlusMinusInverse(a: VTime, b: VTime)
    ensures Minus(Plus(a, b), b) == a
    ensures Plus(Minus(a, b), b) == a
  {
  }

  /**
   * A VTime variable: the target of `=`, `+=` and `-=`, which update the
   * stored count in place.
   */
  class TimeVar {
    var value: VTime

    /** VTime(const VTime&): the copy holds the same count. */
    constructor (init: VTime)
      ensures value == init
    {
      value := init;
    }

    /** operator=: afterwards the variable equals the source. */
    method Assign(t: VTime)
      modifies this
      ensures value == t
    {
      value := t;
    }

    /** operator+=: leaves the variable equal to old value + t. */
    method AddAssign(t: VTime)
      modifies this
      ensures value == Plus(old(value), t)
    {
      value := VTime(value.ms + t.ms);
    }

    /** operator-=: leaves the variable equal to old value - t. */
    method SubAssign(t: VTime)
      modifies this
      ensures value == Minus(old(value), t)
    {
      value := VTime(value.ms - t.ms);
    }
  }
}
