/** The drawdown of an equity curve. */
module PerformanceMetrics {
  import opened Sequences
  import opened Trades
  import opened Reals

  // ---------------------------------------------------------------- drawdown

  /** The fall from `peak` to `equity`, as a percent of `peak`. */
  function FallPercent(peak: real, equity: real): real
    requires peak != 0.0
  {
    (peak - equity) / peak * 100.0
  }

  /** The equities with the capital as the first one. */
  function Points(capital: real, curve: seq<EquityPoint>): (points: seq<real>)
    ensures |points| == |curve| + 1 && points[0] == capital
    ensures forall i :: 0 <= i < |curve| ==> points[i + 1] == curve[i].equityUsd
  {
    [capital] + seq(|curve|, i requires 0 <= i < |curve| => curve[i].equityUsd)
  }

  /** The running peak of `points` up to `index`. */
  function Peak(points: seq<real>, index: nat): real
    requires index < |points|
  {
    if index == 0 then points[0] else MaxReal(Peak(points, index - 1), points[index])
  }

  lemma {:induction false} PeakIsLargestPoint(points: seq<real>, index: nat) returns (at: nat)
    requires index < |points|
    ensures at <= index && points[at] == Peak(points, index)
    ensures forall i :: 0 <= i <= index ==> points[i] <= Peak(points, index)
  {
    at := 0;
    if index > 0 {
      at := PeakIsLargestPoint(points, index - 1);
      if points[index] > Peak(points, index - 1) {
        at := index;
      }
    }
  }

  /** The fall of point `index` below the running peak. */
  function FallBelowPeak(points: seq<real>): int -> real {
    (index: int) =>
      if 0 <= index < |points| && Peak(points, index) != 0.0
      then FallPercent(Peak(points, index), points[index]) else 0.0
  }

  /** `largest` is the largest of 0 and the first `count` values. */
  ghost predicate IsLargest(values: int -> real, count: nat, largest: real) {
    && largest >= 0.0
    && (forall j :: 0 <= j < count ==> values(j) <= largest)
    && (largest == 0.0 || exists j :: 0 <= j < count && values(j) == largest)
  }

  lemma NextLargest(values: int -> real, count: nat, largest: real)
    requires IsLargest(values, count, largest)
    ensures IsLargest(values, count + 1, MaxReal(largest, values(count)))
  {
    var next := MaxReal(largest, values(count));
    if next != 0.0 && next == largest {
      var j :| 0 <= j < count && values(j) == largest;
      assert values(j) == next;
    } else if next != 0.0 {
      assert values(count) == next;
    }
  }

  lemma FirstPointHasNoFall(points: seq<real>)
    requires |points| > 0
    ensures FallBelowPeak(points)(0) == 0.0
  {
    if points[0] != 0.0 {
      QuotientIs(0.0, points[0], 0.0);
    }
  }

  /** The new peak and the fall of one point below it. No value stands for the division by 0. */
  method StepPeak(ghost points: seq<real>, ghost falls: int -> real, ghost index: nat, peak0: real, equity: real)
    returns (peak: real, fall: Option<real>)
    requires index + 1 < |points| && peak0 == Peak(points, index) && equity == points[index + 1]
    requires falls == FallBelowPeak(points)
    ensures peak == Peak(points, index + 1)
    ensures fall.None? <==> peak == 0.0
    ensures fall.Some? ==> fall.value == falls(index + 1)
  {
    peak := MaxReal(peak0, equity);
    fall := if peak == 0.0 then None else Some(FallPercent(peak, equity));
  }

  lemma NextLargestOf(falls: int -> real, index: nat, largest: real, fall: real)
    requires IsLargest(falls, index + 1, largest) && fall == falls(index + 1)
    ensures IsLargest(falls, index + 2, MaxReal(largest, fall))
  {
    NextLargest(falls, index + 1, largest);
  }

  /** No running peak after the first one is 0 up to `index`. The first one is no divisor. */
  ghost predicate HasPeaks(points: seq<real>, index: nat)
    requires index < |points|
  {
    index > 0 ==> Peak(points, index) != 0.0 && HasPeaks(points, index - 1)
  }

  lemma {:induction false} HasPeakAt(points: seq<real>, index: nat, j: nat)
    requires 0 < j <= index < |points| && HasPeaks(points, index)
    ensures Peak(points, j) != 0.0
  {
    if j < index {
      HasPeakAt(points, index - 1, j);
    }
  }

  /** The loop after point `index`. */
  datatype PeakState = PeakState(peak: real, maxFall: real)

  ghost predicate IsPeakState(points: seq<real>, index: nat, state: PeakState) {
    && index < |points| && state.peak == Peak(points, index) && HasPeaks(points, index)
    && IsLargest(FallBelowPeak(points), index + 1, state.maxFall)
  }

  /** One point: the new peak, and the larger fall. No value stands for the division by 0. */
  method StepDrawdown(ghost points: seq<real>, ghost index: nat, state0: PeakState, equity: real)
    returns (state: Option<PeakState>)
    requires index + 1 < |points| && IsPeakState(points, index, state0) && equity == points[index + 1]
    ensures state.None? ==> Peak(points, index + 1) == 0.0
    ensures state.Some? ==> IsPeakState(points, index + 1, state.value)
  {
    var peak, fall := StepPeak(points, FallBelowPeak(points), index, state0.peak, equity);
    if fall.None? {
      return None;
    }
    NextLargestOf(FallBelowPeak(points), index, state0.maxFall, fall.value);
    state := Some(PeakState(peak, MaxReal(state0.maxFall, fall.value)));
  }

  lemma FirstPeakState(points: seq<real>)
    requires |points| > 0
    ensures IsPeakState(points, 0, PeakState(points[0], 0.0))
  {
    FirstPointHasNoFall(points);
  }

  lemma LastPeakState(points: seq<real>, state: PeakState)
    requires |points| > 0 && IsPeakState(points, |points| - 1, state)
    ensures IsLargest(FallBelowPeak(points), |points|, state.maxFall)
    ensures forall j :: 0 < j < |points| ==> Peak(points, j) != 0.0
  {
    forall j | 0 < j < |points| ensures Peak(points, j) != 0.0 {
      HasPeakAt(points, |points| - 1, j);
    }
  }

  method WalkPeaks(ghost points: seq<real>, paperCapital: real, curve: seq<EquityPoint>)
    returns (state: Option<PeakState>, ghost zeroAt: nat)
    requires |points| == |curve| + 1 && points[0] == paperCapital
    requires forall i :: 0 <= i < |curve| ==> points[i + 1] == curve[i].equityUsd
    ensures state.None? ==> 0 < zeroAt < |points| && Peak(points, zeroAt) == 0.0
    ensures state.Some? ==> IsPeakState(points, |curve|, state.value)
  {
    zeroAt := 0;
    FirstPeakState(points);
    state := Some(PeakState(paperCapital, 0.0));
    for k := 0 to |curve|
      invariant state.Some? && IsPeakState(points, k, state.value)
    {
      state := StepDrawdown(points, k, state.value, curve[k].equityUsd);
      if state.None? {
        zeroAt := k + 1;
        return;
      }
    }
  }

  /** The largest fall of a point below the running peak. No value stands for the division by 0 at a peak of 0. */
  method CalculateMaxDrawdownPercent(paperCapital: real, curve: seq<EquityPoint>) returns (fall: Option<real>)
    ensures fall.None? <==> exists j :: 0 < j <= |curve| && Peak(Points(paperCapital, curve), j) == 0.0
    ensures fall.Some? ==> IsLargest(FallBelowPeak(Points(paperCapital, curve)), |curve| + 1, fall.value)
  {
    ghost var points := Points(paperCapital, curve);
    var state: Option<PeakState>;
    ghost var zeroAt;
    state, zeroAt := WalkPeaks(points, paperCapital, curve);
    if state.None? {
      return None;
    }
    LastPeakState(points, state.value);
    return Some(state.value.maxFall);
  }

  lemma FallGrowsWithPeak(low: real, high: real, equity: real)
    requires 0.0 < low <= high && equity >= 0.0
    ensures FallPercent(low, equity) <= FallPercent(high, equity)
  {
    FallIsOneMinusShare(low, equity);
    FallIsOneMinusShare(high, equity);
    LargerDivisor(equity, low, high);
  }

  lemma FallIsOneMinusShare(peak: real, equity: real)
    requires peak != 0.0
    ensures FallPercent(peak, equity) == (1.0 - equity / peak) * 100.0
  {
    QuotientTimes(equity, peak);
    assert (1.0 - equity / peak) * peak == peak - equity;
    QuotientIs(peak - equity, peak, 1.0 - equity / peak);
  }

  lemma FallAtPeak(peak: real, equity: real)
    requires peak > 0.0
    ensures equity == peak ==> FallPercent(peak, equity) == 0.0
    ensures equity < peak <==> FallPercent(peak, equity) > 0.0
  {
    var share := (peak - equity) / peak;
    QuotientTimes(peak - equity, peak);
    ProductOrder(share, 0.0, peak);
  }

  /** With a capital above 0, the drawdown is defined. */
  lemma {:induction false} PositiveCapitalHasPeak(points: seq<real>, index: nat)
    requires index < |points| && points[0] > 0.0
    ensures Peak(points, index) > 0.0
  {
    var _ := PeakIsLargestPoint(points, index);
  }

  lemma PairFallIsAtMost(points: seq<real>, fall: real, i: nat, j: nat)
    requires |points| > 0 && points[0] > 0.0
    requires IsLargest(FallBelowPeak(points), |points|, fall)
    requires i <= j < |points| && points[i] > 0.0 && points[j] >= 0.0
    ensures FallPercent(points[i], points[j]) <= fall
  {
    PositiveCapitalHasPeak(points, j);
    var _ := PeakIsLargestPoint(points, j);
    FallGrowsWithPeak(points[i], Peak(points, j), points[j]);
    assert FallBelowPeak(points)(j) == FallPercent(Peak(points, j), points[j]);
  }

  lemma FallIsAPairFall(points: seq<real>, fall: real) returns (i: nat, j: nat)
    requires |points| > 0 && points[0] > 0.0
    requires IsLargest(FallBelowPeak(points), |points|, fall)
    ensures i <= j < |points| && points[i] > 0.0 && FallPercent(points[i], points[j]) == fall
  {
    i, j := 0, 0;
    FallAtPeak(points[0], points[0]);
    if fall != 0.0 {
      var last :| 0 <= last < |points| && FallBelowPeak(points)(last) == fall;
      PositiveCapitalHasPeak(points, last);
      i := PeakIsLargestPoint(points, last);
      j := last;
    }
  }

  ghost predicate NeverFalls(points: seq<real>) {
    forall i, j :: 0 <= i <= j < |points| ==> points[i] <= points[j]
  }

  /**
   * The running-peak drawdown is the largest fall over all pairs of points, and 0 exactly when the curve never falls.
   */
  lemma DrawdownIsLargestPairFall(points: seq<real>, fall: real)
    requires |points| > 0 && points[0] > 0.0
    requires forall i :: 0 <= i < |points| ==> points[i] >= 0.0
    requires IsLargest(FallBelowPeak(points), |points|, fall)
    ensures forall i, j :: 0 <= i <= j < |points| && points[i] > 0.0 ==> FallPercent(points[i], points[j]) <= fall
    ensures exists i, j :: 0 <= i <= j < |points| && points[i] > 0.0 && FallPercent(points[i], points[j]) == fall
    ensures fall == 0.0 <==> NeverFalls(points)
  {
    forall i, j | 0 <= i <= j < |points| && points[i] > 0.0
      ensures FallPercent(points[i], points[j]) <= fall
    {
      PairFallIsAtMost(points, fall, i, j);
    }
    var i, j := FallIsAPairFall(points, fall);
    FallAtPeak(points[i], points[j]);
    if fall == 0.0 {
      forall m, n | 0 <= m <= n < |points| ensures points[m] <= points[n] {
        if points[m] > 0.0 {
          PairFallIsAtMost(points, fall, m, n);
          FallAtPeak(points[m], points[n]);
        }
      }
    }
  }
}
