/** Bars and bar periods. A time is a number of microseconds since the UNIX epoch. */
module Bars {
  const SECOND := 1_000_000
  const DAY := 86_400 * SECOND

  datatype BarPeriod = OneMinute | FiveMinutes | FifteenMinutes | ThirtyMinutes | OneHour | OneDay {
    function Seconds(): nat {
      match this
      case OneMinute => 60
      case FiveMinutes => 300
      case FifteenMinutes => 900
      case ThirtyMinutes => 1800
      case OneHour => 3600
      case OneDay => 86400
    }

    function Length(): nat { Seconds() * SECOND }
  }

  datatype Bar = Bar(startUtc: int, open: real, high: real, low: real, close: real, volume: real)

  /** From `startUtc` (included) to `endUtc` (not included). */
  datatype TimeRange = TimeRange(startUtc: int, endUtc: int)

  /** The conversion of a fractional number of seconds to an integer drops the fraction: it rounds towards 0. */
  function UnixSeconds(timeUtc: int): int {
    if timeUtc >= 0 then timeUtc / SECOND else -((-timeUtc) / SECOND)
  }

  /** `seconds % period.Seconds()`, with the divisor of each bar period written out. */
  function SecondsIntoBar(seconds: int, period: BarPeriod): int {
    match period
    case OneMinute => seconds % 60
    case FiveMinutes => seconds % 300
    case FifteenMinutes => seconds % 900
    case ThirtyMinutes => seconds % 1800
    case OneHour => seconds % 3600
    case OneDay => seconds % 86400
  }

  function FloorToBarStart(timeUtc: int, period: BarPeriod): int {
    var seconds := UnixSeconds(timeUtc);
    (seconds - SecondsIntoBar(seconds, period)) * SECOND
  }

  function FindBarEnd(startUtc: int, period: BarPeriod): int {
    FloorToBarStart(startUtc, period) + period.Length()
  }

  function CeilToBarStart(timeUtc: int, period: BarPeriod): int {
    var floorStart := FloorToBarStart(timeUtc, period);
    if floorStart == timeUtc then floorStart else floorStart + period.Length()
  }

  /** Bar starts are whole bar lengths after the UNIX epoch. */
  predicate IsBarStart(timeUtc: int, period: BarPeriod) {
    timeUtc % SECOND == 0 && SecondsIntoBar(timeUtc / SECOND, period) == 0
  }

  /** True when the rounding towards 0 moves a time before 1970 onto a later bar start. */
  predicate RoundsUpToBarStart(timeUtc: int, period: BarPeriod) {
    timeUtc < 0 && timeUtc % SECOND != 0 && SecondsIntoBar(UnixSeconds(timeUtc), period) == 0
  }

  lemma MultipleSize(d: int, n: nat)
    ensures d >= 1 ==> d * n >= n
    ensures d <= -1 ==> d * n + n <= 0
  {
    if d >= 1 {
      assert (d - 1) * n >= 0;
    } else if d <= -1 {
      assert (-d - 1) * n >= 0;
    }
  }

  lemma MultipleDivides(q: int, n: nat)
    requires n > 0
    ensures (q * n) % n == 0
  {
    var k := (q * n) / n;
    assert (q - k) * n == q * n - k * n;
    MultipleSize(q - k, n);
  }

  lemma FloorDivides(s: int, n: nat)
    requires n > 0
    ensures (s - s % n) % n == 0
  {
    MultipleDivides(s / n, n);
    assert s - s % n == (s / n) * n;
  }

  lemma MultiplesApart(s: int, t: int, n: nat)
    requires n > 0 && s % n == 0 && t % n == 0
    ensures s < t ==> s + n <= t
    ensures (s + n) % n == 0
  {
    var a, b := s / n, t / n;
    assert s == a * n && t == b * n;
    assert (b - a) * n == t - s;
    MultipleSize(b - a, n);
    MultipleDivides(a + 1, n);
    assert (a + 1) * n == s + n;
  }

  lemma FloorIsBarStart(timeUtc: int, period: BarPeriod)
    ensures IsBarStart(FloorToBarStart(timeUtc, period), period)
  {
    var u := UnixSeconds(timeUtc);
    var start := u - SecondsIntoBar(u, period);
    assert FloorToBarStart(timeUtc, period) == start * SECOND;
    match period
    case OneMinute => FloorDivides(u, 60);
    case FiveMinutes => FloorDivides(u, 300);
    case FifteenMinutes => FloorDivides(u, 900);
    case ThirtyMinutes => FloorDivides(u, 1800);
    case OneHour => FloorDivides(u, 3600);
    case OneDay => FloorDivides(u, 86400);
  }

  lemma FloorOfLaterTime(u: int, r: int, f: int, seconds: int)
    requires 0 <= r < seconds && 0 <= f < SECOND
    ensures (u - r) * SECOND <= u * SECOND + f < (u - r) * SECOND + seconds * SECOND
  {
  }

  lemma FloorOfEarlierTime(u: int, r: int, f: int, seconds: int)
    requires 0 <= r < seconds && 0 <= f < SECOND
    ensures (u - r) * SECOND <= u * SECOND - f < (u - r) * SECOND + seconds * SECOND <==> f == 0 || r > 0
  {
  }

  lemma SecondsIntoBarIsPart(seconds: int, period: BarPeriod)
    ensures 0 <= SecondsIntoBar(seconds, period) < period.Seconds()
  {
  }

  /** A time is a whole number of seconds and a fraction, which the conversion drops. */
  lemma UnixSecondsOf(timeUtc: int) returns (f: int)
    ensures 0 <= f < SECOND && timeUtc == if timeUtc >= 0 then UnixSeconds(timeUtc) * SECOND + f
                                          else UnixSeconds(timeUtc) * SECOND - f
    ensures timeUtc < 0 ==> (timeUtc % SECOND == 0 <==> f == 0)
  {
    f := if timeUtc >= 0 then timeUtc % SECOND else (-timeUtc) % SECOND;
  }

  /** The bar period that `FloorToBarStart` finds contains the time, except in exactly one case before 1970. */
  lemma FloorContainsTime(timeUtc: int, period: BarPeriod)
    ensures FloorToBarStart(timeUtc, period) <= timeUtc < FindBarEnd(timeUtc, period)
       <==> !RoundsUpToBarStart(timeUtc, period)
  {
    var f := UnixSecondsOf(timeUtc);
    var u := UnixSeconds(timeUtc);
    SecondsIntoBarIsPart(u, period);
    if timeUtc >= 0 {
      FloorOfLaterTime(u, SecondsIntoBar(u, period), f, period.Seconds());
    } else {
      FloorOfEarlierTime(u, SecondsIntoBar(u, period), f, period.Seconds());
    }
  }

  lemma MultiplesAreApart(s: int, t: int, period: BarPeriod)
    requires SecondsIntoBar(s, period) == 0 && SecondsIntoBar(t, period) == 0
    ensures s < t ==> s + period.Seconds() <= t
    ensures SecondsIntoBar(s + period.Seconds(), period) == 0
  {
    match period
    case OneMinute => MultiplesApart(s, t, 60);
    case FiveMinutes => MultiplesApart(s, t, 300);
    case FifteenMinutes => MultiplesApart(s, t, 900);
    case ThirtyMinutes => MultiplesApart(s, t, 1800);
    case OneHour => MultiplesApart(s, t, 3600);
    case OneDay => MultiplesApart(s, t, 86400);
  }

  lemma BarStartsAreApart(a: int, b: int, period: BarPeriod)
    requires IsBarStart(a, period) && IsBarStart(b, period)
    ensures a < b ==> a + period.Length() <= b
    ensures IsBarStart(a + period.Length(), period)
  {
    MultiplesAreApart(a / SECOND, b / SECOND, period);
    assert (a + period.Length()) / SECOND == a / SECOND + period.Seconds();
  }

  /** `start` is the first bar start that is not before the time. */
  ghost predicate IsFirstStart(timeUtc: int, period: BarPeriod, start: int) {
    && IsBarStart(start, period) && timeUtc <= start
    && forall other :: IsBarStart(other, period) && timeUtc <= other ==> start <= other
  }

  lemma CeilIsFirst(timeUtc: int, period: BarPeriod)
    requires !RoundsUpToBarStart(timeUtc, period)
    ensures IsFirstStart(timeUtc, period, CeilToBarStart(timeUtc, period))
  {
    FloorContainsTime(timeUtc, period);
    FloorIsBarStart(timeUtc, period);
    forall other | IsBarStart(other, period) && timeUtc <= other ensures CeilToBarStart(timeUtc, period) <= other {
      BarStartsAreApart(FloorToBarStart(timeUtc, period), other, period);
    }
    BarStartsAreApart(FloorToBarStart(timeUtc, period), FloorToBarStart(timeUtc, period), period);
  }

  /** The floor of such a time is already the first start, and the ceiling is 1 bar later. */
  lemma CeilIsLate(timeUtc: int, period: BarPeriod)
    requires RoundsUpToBarStart(timeUtc, period)
    ensures IsBarStart(FloorToBarStart(timeUtc, period), period)
    ensures timeUtc < FloorToBarStart(timeUtc, period) < CeilToBarStart(timeUtc, period)
  {
    FloorIsBarStart(timeUtc, period);
    var f := UnixSecondsOf(timeUtc);
  }

  /** The ceiling is the first bar start that is not before the time, except in exactly the case of the floor. */
  lemma CeilIsFirstStart(timeUtc: int, period: BarPeriod)
    ensures IsFirstStart(timeUtc, period, CeilToBarStart(timeUtc, period)) <==> !RoundsUpToBarStart(timeUtc, period)
  {
    if RoundsUpToBarStart(timeUtc, period) {
      CeilIsLate(timeUtc, period);
    } else {
      CeilIsFirst(timeUtc, period);
    }
  }

  /**
   * 1 microsecond before 1970: the bar that the floor gives starts after the time, and the ceiling is 1 minute late.
   */
  lemma TimeBefore1970()
    ensures RoundsUpToBarStart(-1, OneMinute)
    ensures FloorToBarStart(-1, OneMinute) == 0 && CeilToBarStart(-1, OneMinute) == 60 * SECOND
    ensures IsFirstStart(-1, OneMinute, 0)
  {
    forall other | IsBarStart(other, OneMinute) && -1 <= other ensures 0 <= other {
      assert other % SECOND == 0;
    }
  }
}
