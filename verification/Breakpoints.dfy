/** The width ranges of pledge-fe/src/hooks/useMatchBreakpoints.ts. */
module Breakpoints {
  import opened Prelude

  /** (min-width: min) and, except for the largest size, (max-width: max). */
  datatype Range = Range(min: int, max: Option<int>)

  /** A media query compares the width of the window, which need not be a whole number of pixels. */
  predicate Matches(range: Range, width: real) {
    range.min as real <= width && (range.max.Some? ==> width <= range.max.value as real)
  }

  /** The range of size `i`: from behind the breakpoint before it to its own. */
  function RangeAt(breakpoints: seq<int>, i: nat): Range
    requires i < |breakpoints|
  {
    Range(
      if i == 0 then 0 else breakpoints[i - 1] + 1,
      if i == |breakpoints| - 1 then None else Some(breakpoints[i]))
  }

  /** The reduce over the sizes, carrying the next minimum along. */
  method MediaQueries(breakpoints: seq<int>) returns (ranges: seq<Range>)
    ensures |ranges| == |breakpoints|
    ensures forall i :: 0 <= i < |ranges| ==> ranges[i] == RangeAt(breakpoints, i)
  {
    ranges := [];
    var prevMinWidth := 0;
    for i := 0 to |breakpoints|
      invariant |ranges| == i
      invariant i < |breakpoints| ==> prevMinWidth == if i == 0 then 0 else breakpoints[i - 1] + 1
      invariant forall j :: 0 <= j < i ==> ranges[j] == RangeAt(breakpoints, j)
    {
      if i == |breakpoints| - 1 {
        ranges := ranges + [Range(prevMinWidth, None)];
      } else {
        var minWidth := prevMinWidth;
        prevMinWidth := breakpoints[i] + 1;
        ranges := ranges + [Range(minWidth, Some(breakpoints[i]))];
      }
    }
  }

  predicate MatchesSize(breakpoints: seq<int>, i: int, width: real) {
    0 <= i < |breakpoints| && Matches(RangeAt(breakpoints, i), width)
  }

  ghost predicate ExactlyOne(breakpoints: seq<int>, width: real) {
    exists i :: MatchesSize(breakpoints, i, width) && forall j :: MatchesSize(breakpoints, j, width) ==> j == i
  }

  /** The last breakpoint bounds nothing; the others must not descend. */
  predicate Ascending(breakpoints: seq<int>) {
    forall i, j :: 0 <= i < j < |breakpoints| - 1 ==> breakpoints[i] <= breakpoints[j]
  }

  predicate NonNegative(breakpoints: seq<int>) {
    forall i :: 0 <= i < |breakpoints| ==> breakpoints[i] >= 0
  }

  /** Strictly between a breakpoint and the next whole pixel, where one range has ended and the next has
      not begun. */
  ghost predicate InGap(breakpoints: seq<int>, width: real) {
    exists k :: 0 <= k < |breakpoints| - 1 && breakpoints[k] as real < width < breakpoints[k] as real + 1.0
  }

  /** From size `lo`, whose minimum the width has reached, the first size that is wide enough. */
  lemma {:induction false} Reach(breakpoints: seq<int>, lo: nat, width: real) returns (i: nat)
    requires lo < |breakpoints| && RangeAt(breakpoints, lo).min as real <= width
    requires !InGap(breakpoints, width)
    ensures lo <= i && MatchesSize(breakpoints, i, width)
    decreases |breakpoints| - lo
  {
    i := lo;
    if !Matches(RangeAt(breakpoints, lo), width) {
      assert breakpoints[lo] as real < width;
      assert breakpoints[lo] as real + 1.0 <= width;
      i := Reach(breakpoints, lo + 1, width);
    }
  }

  /** Each width, whole or not, is in exactly one range unless it falls between two pixels at a breakpoint. */
  lemma ExactlyOneIff(breakpoints: seq<int>, width: real)
    requires |breakpoints| >= 1 && NonNegative(breakpoints) && Ascending(breakpoints) && width >= 0.0
    ensures ExactlyOne(breakpoints, width) <==> !InGap(breakpoints, width)
  {
    if !InGap(breakpoints, width) {
      var i := Reach(breakpoints, 0, width);
      forall j | MatchesSize(breakpoints, j, width)
        ensures j == i
      {
        Disjoint(breakpoints, i, j, width);
      }
    }
    if k :| 0 <= k < |breakpoints| - 1 && breakpoints[k] as real < width < breakpoints[k] as real + 1.0 {
      forall i
        ensures !MatchesSize(breakpoints, i, width)
      {
        GapMatchesNothing(breakpoints, k, i, width);
      }
    }
  }

  lemma GapMatchesNothing(breakpoints: seq<int>, k: nat, i: int, width: real)
    requires Ascending(breakpoints) && k < |breakpoints| - 1
    requires breakpoints[k] as real < width < breakpoints[k] as real + 1.0
    ensures !MatchesSize(breakpoints, i, width)
  {
    if 0 <= i < |breakpoints| {
      if i <= k {
        assert breakpoints[i] <= breakpoints[k];
      } else {
        assert breakpoints[k] <= breakpoints[i - 1];
      }
    }
  }

  lemma Disjoint(breakpoints: seq<int>, i: int, j: int, width: real)
    requires Ascending(breakpoints)
    ensures MatchesSize(breakpoints, i, width) && MatchesSize(breakpoints, j, width) ==> i == j
  {
    if 0 <= i < j < |breakpoints| {
      assert breakpoints[i] <= breakpoints[j - 1];
    }
    if 0 <= j < i < |breakpoints| {
      assert breakpoints[j] <= breakpoints[i - 1];
    }
  }

  lemma WholePixel(breakpoint: int, width: int)
    ensures width as real <= breakpoint as real || breakpoint as real + 1.0 <= width as real
  {
    if width <= breakpoint {
      assert width as real <= breakpoint as real;
    } else {
      assert (breakpoint + 1) as real <= width as real;
    }
  }

  lemma WholePixelsHaveNoGap(breakpoints: seq<int>, width: nat)
    ensures !InGap(breakpoints, width as real)
  {
    forall k | 0 <= k < |breakpoints| - 1
      ensures !(breakpoints[k] as real < width as real < breakpoints[k] as real + 1.0)
    {
      WholePixel(breakpoints[k], width);
    }
  }

  ghost predicate PixelInOne(breakpoints: seq<int>, width: nat) {
    ExactlyOne(breakpoints, width as real)
  }

  ghost predicate PartitionsPixels(breakpoints: seq<int>) {
    forall width: nat :: PixelInOne(breakpoints, width)
  }

  /** The ranges partition the whole pixel widths exactly when the breakpoints, the last aside, do not descend. */
  lemma PartitionIff(breakpoints: seq<int>)
    requires |breakpoints| >= 1 && NonNegative(breakpoints)
    ensures PartitionsPixels(breakpoints) <==> Ascending(breakpoints)
  {
    if Ascending(breakpoints) {
      forall width: nat
        ensures PixelInOne(breakpoints, width)
      {
        WholePixelsHaveNoGap(breakpoints, width);
        ExactlyOneIff(breakpoints, width as real);
      }
    } else {
      var i, j :| 0 <= i < j < |breakpoints| - 1 && breakpoints[i] > breakpoints[j];
      DescentOverlaps(breakpoints, i, j);
      assert !PixelInOne(breakpoints, breakpoints[i]);
    }
  }

  /** Where the breakpoints descend, the larger one is a width that two ranges match. */
  lemma DescentOverlaps(breakpoints: seq<int>, i: nat, j: nat)
    requires NonNegative(breakpoints) && i < j < |breakpoints| - 1 && breakpoints[i] > breakpoints[j]
    ensures !ExactlyOne(breakpoints, breakpoints[i] as real)
  {
    var width := breakpoints[i];
    WholePixelsHaveNoGap(breakpoints, width);
    var low := ReachBefore(breakpoints, 0, i, width);
    var high := Reach(breakpoints, j + 1, width as real);
    assert low < high;
  }

  lemma {:induction false} ReachBefore(breakpoints: seq<int>, lo: nat, hi: nat, width: int) returns (k: nat)
    requires lo <= hi < |breakpoints| && RangeAt(breakpoints, lo).min <= width <= breakpoints[hi]
    ensures k <= hi && MatchesSize(breakpoints, k, width as real)
    decreases hi - lo
  {
    k := lo;
    if !Matches(RangeAt(breakpoints, lo), width as real) {
      k := ReachBefore(breakpoints, lo + 1, hi, width);
    }
  }

  // ----- The theme's sizes -----

  /** xs, sm, md, lg, xl and xxl. */
  const BreakpointMap := [370, 576, 852, 968, 1080, 1200]

  datatype Checks = Checks(isMobile: bool, isTablet: bool, isDesktop: bool)

  function DeviceChecks(width: real): Checks {
    Checks(
      MatchesSize(BreakpointMap, 0, width) || MatchesSize(BreakpointMap, 1, width),
      MatchesSize(BreakpointMap, 2, width) || MatchesSize(BreakpointMap, 3, width),
      MatchesSize(BreakpointMap, 4, width) || MatchesSize(BreakpointMap, 5, width))
  }

  /** Every whole width is one kind of device: mobile up to 576 px, tablet up to 968 px, then desktop. */
  lemma DeviceByWidth(width: nat)
    ensures DeviceChecks(width as real) == Checks(width <= 576, 577 <= width <= 968, 969 <= width)
  {
    forall i: nat | i < |BreakpointMap| {
      MatchesWhole(RangeAt(BreakpointMap, i), width);
    }
  }

  lemma MatchesWhole(range: Range, width: int)
    ensures Matches(range, width as real) <==> range.min <= width && (range.max.Some? ==> width <= range.max.value)
  {
  }
}
