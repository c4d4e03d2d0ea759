/** Drawdown (src/risk_metrics.py): the one-pass maximum over the recorded
    equities, and the circuit breaker that latches on it. */
module Drawdown {
  import opened Basics

  /** Percentage lost between an earlier value and a later one. */
  function Fall(high: real, now: real): real
    requires high > 0.0
  {
    (high - now) / high * 100.0
  }

  /** Entry 0 is the initial capital, entry i the i-th recorded equity. */
  function At(initial: real, es: seq<real>, i: nat): real
    requires i <= |es|
  {
    if i == 0 then initial else es[i - 1]
  }

  /** Highest value so far, the initial capital included. */
  function Peak(initial: real, es: seq<real>): (p: real)
    ensures p >= initial
    decreases es
  {
    if es == [] then initial
    else
      var before := Peak(initial, es[..|es| - 1]);
      if es[|es| - 1] > before then es[|es| - 1] else before
  }

  /** What the single loop of _calculate_max_drawdown accumulates. */
  function OnePass(initial: real, es: seq<real>): (d: real)
    requires initial > 0.0
    ensures d >= 0.0
    decreases es
  {
    if es == [] then 0.0
    else
      var before := OnePass(initial, es[..|es| - 1]);
      var now := Fall(Peak(initial, es), es[|es| - 1]);
      if now > before then now else before
  }

  /** The textbook definition, over every ordered pair: some fall from a
      positive earlier value is `d`, and none is larger. */
  ghost predicate IsLargestFall(initial: real, es: seq<real>, d: real)
    requires initial > 0.0
  {
    && (exists i: nat, j: nat | i <= j <= |es| && At(initial, es, i) > 0.0 ::
          Fall(At(initial, es, i), At(initial, es, j)) == d)
    && (forall i: nat, j: nat | i <= j <= |es| && At(initial, es, i) > 0.0 ::
          Fall(At(initial, es, i), At(initial, es, j)) <= d)
  }

  ghost predicate AtLeast(floor: real, es: seq<real>)
  {
    forall k :: 0 <= k < |es| ==> es[k] >= floor
  }

  ghost predicate NonNegative(es: seq<real>)
  {
    AtLeast(0.0, es)
  }

  lemma AtLeastStep(floor: real, es: seq<real>)
    requires es != []
    ensures AtLeast(floor, es) <==> AtLeast(floor, es[..|es| - 1]) && es[|es| - 1] >= floor
  {
    var front := es[..|es| - 1];
    assert es == front + [es[|es| - 1]];
  }

  // ---------------------------------------------------------------- the fall as a function of its two ends

  lemma QuotientIs(n: real, d: real, q: real)
    requires d > 0.0 && q * d == n
    ensures n / d == q
  {}

  lemma FallByRatio(high: real, now: real)
    requires high > 0.0
    ensures Fall(high, now) == (1.0 - now / high) * 100.0
  {
    var q := now / high;
    assert q * high == now;
    QuotientIs(high - now, high, 1.0 - q);
  }

  /** At or above zero a higher start falls further; below zero a lower one does. */
  lemma FallFrom(low: real, high: real, now: real)
    requires 0.0 < low <= high
    ensures now >= 0.0 ==> Fall(low, now) <= Fall(high, now) <= 100.0
    ensures now < 0.0 ==> Fall(low, now) >= Fall(high, now) > 100.0
    ensures now < 0.0 && low < high ==> Fall(low, now) > Fall(high, now)
  {
    FallByRatio(low, now);
    FallByRatio(high, now);
    RatioOver(low, high, now);
  }

  lemma RatioOver(low: real, high: real, now: real)
    requires 0.0 < low <= high
    ensures now >= 0.0 ==> now / low >= now / high >= 0.0
    ensures now < 0.0 ==> now / low <= now / high < 0.0
    ensures now < 0.0 && low < high ==> now / low < now / high
  {
    var a, b := now / low, now / high;
    assert a * low == now && b * high == now;
    assert b * high == b * low + b * (high - low);
    if now >= 0.0 {
      assert b * (high - low) >= 0.0;
    } else {
      assert b * (high - low) <= 0.0;
    }
  }

  lemma DeeperToLower(high: real, now: real, lower: real)
    requires high > 0.0 && lower <= now
    ensures Fall(high, now) <= Fall(high, lower)
  {
    var a, b := now / high, lower / high;
    assert a * high == now && b * high == lower;
    assert a >= b;
    FallByRatio(high, now);
    FallByRatio(high, lower);
  }

  // ---------------------------------------------------------------- the highest and the lowest positive value

  lemma {:induction false} PeakIsHighest(initial: real, es: seq<real>)
    ensures forall i: nat | i <= |es| :: At(initial, es, i) <= Peak(initial, es)
    ensures exists i: nat | i <= |es| :: At(initial, es, i) == Peak(initial, es)
    decreases es
  {
    if es == [] {
      assert At(initial, es, 0) == Peak(initial, es);
    } else {
      var front := es[..|es| - 1];
      PeakIsHighest(initial, front);
      forall i: nat | i <= |es| ensures At(initial, es, i) <= Peak(initial, es) {
        if i < |es| { assert At(initial, es, i) == At(initial, front, i); }
      }
      var k: nat :| k <= |front| && At(initial, front, k) == Peak(initial, front);
      assert At(initial, es, k) == At(initial, front, k);
      assert At(initial, es, |es|) == es[|es| - 1];
    }
  }

  /** Lowest positive value so far, the initial capital included. */
  function Lowest(initial: real, es: seq<real>): (l: real)
    requires initial > 0.0
    ensures 0.0 < l <= initial
    decreases es
  {
    if es == [] then initial
    else
      var before := Lowest(initial, es[..|es| - 1]);
      if 0.0 < es[|es| - 1] < before then es[|es| - 1] else before
  }

  lemma {:induction false} LowestIsLowest(initial: real, es: seq<real>)
    requires initial > 0.0
    ensures forall i: nat | i <= |es| && At(initial, es, i) > 0.0 :: Lowest(initial, es) <= At(initial, es, i)
    ensures exists i: nat | i <= |es| :: At(initial, es, i) == Lowest(initial, es)
    decreases es
  {
    if es == [] {
      assert At(initial, es, 0) == Lowest(initial, es);
    } else {
      var front := es[..|es| - 1];
      LowestIsLowest(initial, front);
      forall i: nat | i <= |es| && At(initial, es, i) > 0.0 ensures Lowest(initial, es) <= At(initial, es, i) {
        if i < |es| { assert At(initial, es, i) == At(initial, front, i); }
      }
      var k: nat :| k <= |front| && At(initial, front, k) == Lowest(initial, front);
      assert At(initial, es, k) == At(initial, front, k);
      assert At(initial, es, |es|) == es[|es| - 1];
    }
  }

  /** No positive equity has differed from the initial capital. */
  ghost predicate Steady(initial: real, es: seq<real>)
  {
    forall k :: 0 <= k < |es| && es[k] > 0.0 ==> es[k] == initial
  }

  lemma PeakIsLowestWhenSteady(initial: real, es: seq<real>)
    requires initial > 0.0
    ensures Peak(initial, es) == Lowest(initial, es) <==> Steady(initial, es)
  {
    PeakIsHighest(initial, es);
    LowestIsLowest(initial, es);
    var h: nat :| h <= |es| && At(initial, es, h) == Peak(initial, es);
    var l: nat :| l <= |es| && At(initial, es, l) == Lowest(initial, es);
    if Peak(initial, es) == Lowest(initial, es) {
      forall k | 0 <= k < |es| && es[k] > 0.0 ensures es[k] == initial {
        assert At(initial, es, k + 1) == es[k];
      }
    }
  }

  // ---------------------------------------------------------------- all pairs, in one pass

  /** The largest fall, computed with both extremes: from the peak for a value at or above
      zero, from the lowest positive value for one below. */
  function Deepest(initial: real, es: seq<real>): (d: real)
    requires initial > 0.0
    ensures d >= 0.0
    decreases es
  {
    if es == [] then 0.0
    else
      var now := es[|es| - 1];
      var from := if now >= 0.0 then Peak(initial, es) else Lowest(initial, es);
      Max(Deepest(initial, es[..|es| - 1]), Fall(from, now))
  }

  lemma {:induction false} PairBelowDeepest(initial: real, es: seq<real>, i: nat, j: nat)
    requires initial > 0.0 && i <= j <= |es| && At(initial, es, i) > 0.0
    ensures Fall(At(initial, es, i), At(initial, es, j)) <= Deepest(initial, es)
    decreases es
  {
    if j == |es| {
      PeakIsHighest(initial, es);
      LowestIsLowest(initial, es);
      FallFrom(At(initial, es, i), Peak(initial, es), At(initial, es, j));
      FallFrom(Lowest(initial, es), At(initial, es, i), At(initial, es, j));
      if j == 0 { assert At(initial, es, i) == At(initial, es, j); }
    } else {
      var front := es[..|es| - 1];
      PairBelowDeepest(initial, front, i, j);
      assert At(initial, es, i) == At(initial, front, i) && At(initial, es, j) == At(initial, front, j);
    }
  }

  lemma {:induction false} SomePairIsDeepest(initial: real, es: seq<real>) returns (i: nat, j: nat)
    requires initial > 0.0
    ensures i <= j <= |es| && At(initial, es, i) > 0.0
    ensures Fall(At(initial, es, i), At(initial, es, j)) == Deepest(initial, es)
    decreases es
  {
    if es == [] {
      i, j := 0, 0;
    } else {
      var front := es[..|es| - 1];
      i, j := SomePairIsDeepest(initial, front);
      assert At(initial, es, i) == At(initial, front, i) && At(initial, es, j) == At(initial, front, j);
      if Deepest(initial, es) != Deepest(initial, front) {
        PeakIsHighest(initial, es);
        LowestIsLowest(initial, es);
        var h: nat :| h <= |es| && At(initial, es, h) == Peak(initial, es);
        var l: nat :| l <= |es| && At(initial, es, l) == Lowest(initial, es);
        i, j := if es[|es| - 1] >= 0.0 then h else l, |es|;
      }
    }
  }

  lemma DeepestIsLargestFall(initial: real, es: seq<real>, d: real)
    requires initial > 0.0
    ensures IsLargestFall(initial, es, d) <==> d == Deepest(initial, es)
  {
    var i, j := SomePairIsDeepest(initial, es);
    forall p: nat, q: nat | p <= q <= |es| && At(initial, es, p) > 0.0
      ensures Fall(At(initial, es, p), At(initial, es, q)) <= Deepest(initial, es)
    {
      PairBelowDeepest(initial, es, p, q);
    }
  }

  // ---------------------------------------------------------------- when the loop is right

  /** Recording `e` after `es` cannot mislead the loop: it is not negative, or the peak is
      the only positive value there has been, or even its fall from the lowest positive
      value is no new maximum. */
  predicate Safe(initial: real, es: seq<real>, e: real)
    requires initial > 0.0
  {
    e >= 0.0 || Peak(initial, es) == Lowest(initial, es) || Fall(Lowest(initial, es), e) <= OnePass(initial, es)
  }

  /** Every equity was safe when it was recorded. */
  predicate NeverMisled(initial: real, es: seq<real>)
    requires initial > 0.0
    decreases es
  {
    es == [] || (NeverMisled(initial, es[..|es| - 1]) && Safe(initial, es[..|es| - 1], es[|es| - 1]))
  }

  lemma {:induction false} RightUnlessMisled(initial: real, es: seq<real>)
    requires initial > 0.0
    ensures OnePass(initial, es) <= Deepest(initial, es)
    ensures OnePass(initial, es) == Deepest(initial, es) <==> NeverMisled(initial, es)
    ensures OnePass(initial, es) < Deepest(initial, es) ==>
              Deepest(initial, es) > 100.0 && Lowest(initial, es) < Peak(initial, es)
    decreases es
  {
    if es != [] {
      hide Fall;
      var now, front := es[|es| - 1], es[..|es| - 1];
      RightUnlessMisled(initial, front);
      FallFrom(Lowest(initial, es), Peak(initial, es), now);
    }
  }

  /** The single loop computes the maximum over all ordered pairs exactly on the histories
      in which every equity was safe when it was recorded. */
  lemma OnePassRightExactly(initial: real, es: seq<real>)
    requires initial > 0.0
    ensures IsLargestFall(initial, es, OnePass(initial, es)) <==> NeverMisled(initial, es)
  {
    RightUnlessMisled(initial, es);
    DeepestIsLargestFall(initial, es, OnePass(initial, es));
  }

  /** Once wrong it stays wrong, whatever is recorded after. */
  lemma {:induction false} MisledForGood(initial: real, es: seq<real>, more: seq<real>)
    requires initial > 0.0 && !IsLargestFall(initial, es, OnePass(initial, es))
    ensures !IsLargestFall(initial, es + more, OnePass(initial, es + more))
    decreases more
  {
    hide IsLargestFall, OnePass;
    if more == [] {
      assert es + more == es;
    } else {
      MisledForGood(initial, es, more[..|more| - 1]);
      assert (es + more)[..|es + more| - 1] == es + more[..|more| - 1];
      OnePassRightExactly(initial, es + more);
      OnePassRightExactly(initial, es + more[..|more| - 1]);
    }
  }

  lemma {:induction false} NonNegativeIsSafe(initial: real, es: seq<real>)
    requires initial > 0.0 && NonNegative(es)
    ensures NeverMisled(initial, es) && OnePass(initial, es) <= 100.0
    decreases es
  {
    if es != [] {
      var front := es[..|es| - 1];
      assert NonNegative(front) by { AtLeastStep(0.0, es); }
      NonNegativeIsSafe(initial, front);
      FallFrom(Peak(initial, es), Peak(initial, es), es[|es| - 1]);
    }
  }

  /** In particular the loop is right on non-negative equities. */
  lemma OnePassIsLargestFall(initial: real, es: seq<real>)
    requires initial > 0.0 && NonNegative(es)
    ensures forall d :: IsLargestFall(initial, es, d) <==> d == OnePass(initial, es)
  {
    NonNegativeIsSafe(initial, es);
    RightUnlessMisled(initial, es);
    forall d ensures IsLargestFall(initial, es, d) <==> d == OnePass(initial, es) {
      DeepestIsLargestFall(initial, es, d);
    }
  }

  /** At the first negative equity it stays right exactly if no positive equity has ever
      differed from the initial capital. */
  lemma FirstNegativeEquity(initial: real, es: seq<real>, e: real)
    requires initial > 0.0 && NonNegative(es) && e < 0.0
    ensures IsLargestFall(initial, es + [e], OnePass(initial, es + [e])) <==> Steady(initial, es)
  {
    hide IsLargestFall, Fall, Steady;
    assert (es + [e])[..|es|] == es;
    OnePassRightExactly(initial, es + [e]);
    NonNegativeIsSafe(initial, es);
    PeakIsLowestWhenSteady(initial, es);
    FallFrom(Lowest(initial, es), Lowest(initial, es), e);
  }

  /** An instance: falling from 50 to -10 loses a larger share than falling from 100 to
      -10, and the loop only looks at the peak. */
  lemma NegativeEquityMissed()
    ensures OnePass(100.0, [50.0, -10.0]) == 110.0
    ensures !IsLargestFall(100.0, [50.0, -10.0], OnePass(100.0, [50.0, -10.0]))
  {
    var es := [50.0, -10.0];
    assert es[..1] == [50.0] && es[..1][..0] == [];
    assert Peak(100.0, es[..1]) == 100.0;
    assert OnePass(100.0, es[..1]) == 50.0;
    assert Fall(At(100.0, es, 1), At(100.0, es, 2)) == 120.0;
  }

  // ---------------------------------------------------------------- the bounded history

  /** A deque of capacity `cap` after appending all of `es`. */
  function Kept(es: seq<real>, cap: nat): seq<real>
  {
    if |es| <= cap then es else es[|es| - cap..]
  }

  lemma KeptAppend(es: seq<real>, cap: nat, e: real)
    ensures Kept(Kept(es, cap) + [e], cap) == Kept(es + [e], cap)
  {}

  /** No negative equity falls further from the initial capital than the figure says. */
  ghost predicate Grounded(initial: real, es: seq<real>)
    requires initial > 0.0
  {
    forall k :: 0 <= k < |es| && es[k] < 0.0 ==> Fall(initial, es[k]) <= OnePass(initial, es)
  }

  /** The loop over a stretch of the equities stays below any bound of the whole loop that
      the negative ones respect. */
  lemma {:induction false} SuffixBelow(initial: real, es: seq<real>, m: nat, n: nat, bound: real)
    requires initial > 0.0 && m <= n <= |es| && OnePass(initial, es[..n]) <= bound
    requires forall k :: 0 <= k < |es| && es[k] < 0.0 ==> Fall(initial, es[k]) <= bound
    ensures Peak(initial, es[m..n]) <= Peak(initial, es[..n])
    ensures OnePass(initial, es[m..n]) <= bound
    decreases n
  {
    hide Fall;
    if m == n {
      assert es[m..n] == [];
    } else {
      assert es[m..n][..n - 1 - m] == es[m..n-1] && es[..n][..n - 1] == es[..n-1];
      SuffixBelow(initial, es, m, n - 1, bound);
      FallFrom(Peak(initial, es[m..n]), Peak(initial, es[..n]), es[n-1]);
      FallFrom(initial, Peak(initial, es[m..n]), es[n-1]);
    }
  }

  lemma {:induction false} FirstFallCounts(initial: real, es: seq<real>)
    requires initial > 0.0 && es != [] && es[0] < 0.0
    ensures OnePass(initial, es) >= Fall(initial, es[0])
    decreases es
  {
    if |es| == 1 {
      assert es[..0] == [];
    } else {
      FirstFallCounts(initial, es[..|es| - 1]);
    }
  }

  /** Losing old snapshots can hide a drawdown. It never invents one, whatever the
      capacity, if and only if no negative equity falls further from the initial capital
      than the figure says. */
  lemma EvictionForgetsExactly(initial: real, es: seq<real>)
    requires initial > 0.0
    ensures (forall cap: nat :: OnePass(initial, Kept(es, cap)) <= OnePass(initial, es)) <==> Grounded(initial, es)
  {
    hide Fall, OnePass;
    if Grounded(initial, es) {
      forall cap: nat ensures OnePass(initial, Kept(es, cap)) <= OnePass(initial, es) {
        if cap < |es| {
          assert es[..|es|] == es && Kept(es, cap) == es[|es| - cap..|es|];
          SuffixBelow(initial, es, |es| - cap, |es|, OnePass(initial, es));
        }
      }
    }
    if forall cap: nat :: OnePass(initial, Kept(es, cap)) <= OnePass(initial, es) {
      forall k | 0 <= k < |es| && es[k] < 0.0 ensures Fall(initial, es[k]) <= OnePass(initial, es) {
        assert Kept(es, |es| - k) == es[k..];
        FirstFallCounts(initial, es[k..]);
      }
    }
  }

  /** So it only forgets where no equity misleads the loop. */
  lemma EvictionOnlyForgets(initial: real, es: seq<real>, cap: nat)
    requires initial > 0.0 && NeverMisled(initial, es)
    ensures OnePass(initial, Kept(es, cap)) <= OnePass(initial, es)
  {
    hide Fall, OnePass, Deepest, NeverMisled, Kept;
    RightUnlessMisled(initial, es);
    forall k | 0 <= k < |es| && es[k] < 0.0 ensures Fall(initial, es[k]) <= OnePass(initial, es) {
      PairBelowDeepest(initial, es, 0, k + 1);
    }
    EvictionForgetsExactly(initial, es);
  }

  /** An instance where it does invent one: without the 100, -1 is a fall from 1. */
  lemma EvictionInvents()
    ensures OnePass(1.0, [100.0, -1.0]) == 101.0
    ensures OnePass(1.0, Kept([100.0, -1.0], 1)) == 200.0
  {
    var es := [100.0, -1.0];
    assert es[..1] == [100.0] && es[..1][..0] == [] && Kept(es, 1) == [-1.0] && [-1.0][..0] == [];
    assert Peak(1.0, es[..1]) == 100.0 && OnePass(1.0, es[..1]) == 0.0;
  }

  class RiskMetricsCalculator {
    const initialCapital: real
    const maxSnapshots: nat
    var snapshots: seq<real>
    var peakEquity: real
    var currentEquity: real
    ghost var recorded: seq<real>

    ghost predicate Valid()
      reads this
    {
      && initialCapital > 0.0
      && snapshots == Kept(recorded, maxSnapshots)
      && peakEquity == Peak(initialCapital, recorded)
      && currentEquity == At(initialCapital, recorded, |recorded|)
    }

    constructor (initialCapital: real, windowDays: nat)
      requires initialCapital > 0.0
      ensures Valid() && recorded == []
      ensures this.initialCapital == initialCapital && maxSnapshots == windowDays * 24 * 60
    {
      this.initialCapital := initialCapital;
      maxSnapshots := windowDays * 24 * 60;
      snapshots := [];
      peakEquity := initialCapital;
      currentEquity := initialCapital;
      recorded := [];
    }

    method RecordSnapshot(equity: real)
      requires Valid()
      modifies this
      ensures Valid() && recorded == old(recorded) + [equity]
    {
      KeptAppend(recorded, maxSnapshots, equity);
      assert (recorded + [equity])[..|recorded|] == recorded;
      snapshots := Kept(snapshots + [equity], maxSnapshots);
      currentEquity := equity;
      if equity > peakEquity {
        peakEquity := equity;
      }
      recorded := recorded + [equity];
    }

    method CalculateMaxDrawdown() returns (maxDrawdown: real)
      requires Valid()
      ensures maxDrawdown == OnePass(initialCapital, snapshots)
      ensures IsLargestFall(initialCapital, snapshots, maxDrawdown) <==> NeverMisled(initialCapital, snapshots)
    {
      OnePassRightExactly(initialCapital, snapshots);
      if snapshots == [] {
        return 0.0;
      }
      var peak := initialCapital;
      maxDrawdown := 0.0;
      for i := 0 to |snapshots|
        invariant peak == Peak(initialCapital, snapshots[..i])
        invariant maxDrawdown == OnePass(initialCapital, snapshots[..i])
      {
        assert snapshots[..i + 1][..i] == snapshots[..i];
        if snapshots[i] > peak {
          peak := snapshots[i];
        }
        var fall := (peak - snapshots[i]) / peak * 100.0;
        if fall > maxDrawdown {
          maxDrawdown := fall;
        }
      }
      assert snapshots[..|snapshots|] == snapshots;
    }
  }

  // ---------------------------------------------------------------- the circuit breaker

  datatype Threshold = EquityFloor | DrawdownLimit

  datatype Status = Armed | Tripped(cause: Threshold, equity: real)

  datatype Breaker = Breaker(floor: real, limit: real, peak: real, status: Status)

  const STARTING_PEAK := 100.0

  function NewBreaker(floor: real, limit: real): Breaker
  {
    Breaker(floor, limit, STARTING_PEAK, Armed)
  }

  function Observe(b: Breaker, equity: real): Breaker
    requires b.peak > 0.0
  {
    if b.status.Tripped? then b
    else
      var peak := if equity > b.peak then equity else b.peak;
      if equity < b.floor then b.(peak := peak, status := Tripped(EquityFloor, equity))
      else if Fall(peak, equity) >= b.limit then b.(peak := peak, status := Tripped(DrawdownLimit, equity))
      else b.(peak := peak)
  }

  function Rearm(b: Breaker): Breaker
  {
    b.(status := Armed)
  }

  /** The breaker after a stream of checks. */
  function Checked(b: Breaker, es: seq<real>): (r: Breaker)
    requires b.peak > 0.0
    ensures r.peak >= b.peak && r.floor == b.floor && r.limit == b.limit
    decreases es
  {
    if es == [] then b else Observe(Checked(b, es[..|es| - 1]), es[|es| - 1])
  }

  /** No equity in the stream broke a threshold. */
  ghost predicate Spared(b: Breaker, es: seq<real>)
    requires b.peak > 0.0
  {
    && AtLeast(b.floor, es)
    && (es != [] ==> OnePass(b.peak, es) < b.limit)
  }

  /** The breaker is latched exactly when some equity was below the floor or the
      one-pass drawdown, counted from the starting peak, reached the limit. */
  lemma {:induction false} LatchedExactly(b: Breaker, es: seq<real>)
    requires b.peak > 0.0 && b.status.Armed?
    ensures Checked(b, es).status.Armed? <==> Spared(b, es)
    ensures Checked(b, es).status.Armed? ==> Checked(b, es).peak == Peak(b.peak, es)
    decreases es
  {
    if es != [] {
      var front := es[..|es| - 1];
      LatchedExactly(b, front);
      SparedStep(b, es);
    }
  }

  lemma SparedStep(b: Breaker, es: seq<real>)
    requires b.peak > 0.0 && es != []
    ensures Spared(b, es) <==>
            Spared(b, es[..|es| - 1]) && es[|es| - 1] >= b.floor && OnePass(b.peak, es) < b.limit
  {
    hide AtLeast;
    AtLeastStep(b.floor, es);
  }

  /** In terms of the definition over pairs: a new breaker fed equities that never mislead
      the loop, non-negative ones for instance, is latched exactly when one was below the
      floor or some fall, from 100 or from any earlier equity, reached the limit. */
  lemma LatchedByLargestFall(floor: real, limit: real, es: seq<real>, d: real)
    requires NeverMisled(100.0, es) && IsLargestFall(100.0, es, d)
    ensures Checked(NewBreaker(floor, limit), es).status.Tripped? <==>
            es != [] && ((exists k :: 0 <= k < |es| && es[k] < floor) || d >= limit)
  {
    LatchedExactly(NewBreaker(floor, limit), es);
    RightUnlessMisled(STARTING_PEAK, es);
    DeepestIsLargestFall(STARTING_PEAK, es, d);
  }

  /** What a latched breaker remembers is its first offender: everything before
      was within both thresholds, the floor is named before the drawdown, and the peak is
      that of the stream up to the offender. */
  lemma {:induction false} RemembersFirstOffender(b: Breaker, es: seq<real>) returns (k: nat)
    requires b.peak > 0.0 && b.status.Armed? && Checked(b, es).status.Tripped?
    ensures k < |es| && Spared(b, es[..k]) && !Spared(b, es[..k + 1])
    ensures Checked(b, es).status ==
            Tripped(if es[k] < b.floor then EquityFloor else DrawdownLimit, es[k])
    ensures Checked(b, es).peak == Peak(b.peak, es[..k + 1])
    decreases es
  {
    var front := es[..|es| - 1];
    if Checked(b, front).status.Tripped? {
      k := RemembersFirstOffender(b, front);
      assert front[..k] == es[..k] && front[..k + 1] == es[..k + 1];
    } else {
      k := |es| - 1;
      assert es[..k + 1] == es;
      LatchedExactly(b, front);
      LatchedExactly(b, es);
    }
  }

  /** When a breaker that was reset trips at its next check: the peak it kept counts, not
      the equity it restarts from. */
  lemma TripsAfterReset(b: Breaker, later: real)
    requires b.peak > 0.0
    ensures Observe(Rearm(b), later).status.Tripped? <==>
            later < b.floor || (if later > b.peak then b.limit <= 0.0 else Fall(b.peak, later) >= b.limit)
  {}

  /** So a reset does not forgive: the equity that tripped the breaker, or anything lower,
      trips it again at once. */
  lemma ResetDoesNotForgive(b: Breaker, equity: real, later: real)
    requires b.peak > 0.0 && b.status.Armed?
    requires Observe(b, equity).status.Tripped? && later <= equity
    ensures Observe(Rearm(Observe(b, equity)), later).status.Tripped?
  {
    hide Fall;
    var tripped := Observe(b, equity);
    TripsAfterReset(tripped, later);
    DeeperToLower(tripped.peak, equity, later);
  }

  /** What passes: with a positive limit, the equities not below the floor that lie above
      the fraction of the kept peak the limit leaves. */
  lemma PassesAfterReset(b: Breaker, later: real)
    requires b.peak > 0.0 && b.limit > 0.0
    ensures Observe(Rearm(b), later).status.Armed? <==>
            later >= b.floor && later > b.peak * (1.0 - b.limit / 100.0)
  {
    TripsAfterReset(b, later);
    var ratio, bound := later / b.peak, 1.0 - b.limit / 100.0;
    FallByRatio(b.peak, later);
    assert later == b.peak * ratio;
    SameOrder(b.peak, ratio, bound);
    SameOrder(b.peak, 1.0, bound);
  }

  lemma SameOrder(m: real, x: real, y: real)
    requires m > 0.0
    ensures m * x > m * y <==> x > y
  {}

  /** An instance: after a peak of 200 a breaker starting at 100 trips again at 179. */
  lemma TripsAboveStart()
    ensures var b := Rearm(Checked(NewBreaker(90.0, 10.0), [200.0, 150.0]));
      b.status.Armed? && b.peak == 200.0 && Observe(b, 179.0).status.Tripped? && Observe(b, 181.0).status.Armed?
  {
    var es := [200.0, 150.0];
    assert es[..1] == [200.0] && es[..1][..0] == [];
    assert Checked(NewBreaker(90.0, 10.0), es[..1]).peak == 200.0;
  }

  class DrawdownCircuitBreaker {
    const thresholdEquity: real
    const thresholdDrawdown: real
    var status: Status
    var peakEquity: real

    function View(): Breaker
      reads this
    {
      Breaker(thresholdEquity, thresholdDrawdown, peakEquity, status)
    }

    ghost predicate Valid()
      reads this
    {
      peakEquity >= STARTING_PEAK
    }

    constructor (thresholdEquity: real, thresholdDrawdown: real)
      ensures Valid() && View() == NewBreaker(thresholdEquity, thresholdDrawdown)
    {
      this.thresholdEquity := thresholdEquity;
      this.thresholdDrawdown := thresholdDrawdown;
      status := Armed;
      peakEquity := STARTING_PEAK;
    }

    method Check(currentEquity: real) returns (now: Status)
      requires Valid()
      modifies this
      ensures Valid() && View() == Observe(old(View()), currentEquity) && now == status
    {
      if status.Tripped? {
        return status;
      }
      if currentEquity > peakEquity {
        peakEquity := currentEquity;
      }
      if currentEquity < thresholdEquity {
        Trigger(EquityFloor, currentEquity);
        return status;
      }
      var drawdown := (peakEquity - currentEquity) / peakEquity * 100.0;
      if drawdown >= thresholdDrawdown {
        Trigger(DrawdownLimit, currentEquity);
        return status;
      }
      return status;
    }

    method Trigger(cause: Threshold, equity: real)
      modifies this`status
      ensures status == Tripped(cause, equity)
    {
      status := Tripped(cause, equity);
    }

    method Reset()
      requires Valid()
      modifies this
      ensures Valid() && View() == Rearm(old(View()))
    {
      status := Armed;
    }
  }
}
