/** The adaptive window of `src/backpressure.rs`, with rates over `real` and the cast to an integer
    as truncation. */
module Backpressure {

  function RealMin(a: real, b: real): real {
    if a <= b then a else b
  }

  function RealMax(a: real, b: real): real {
    if a >= b then a else b
  }

  function Clamp(x: int, lo: nat, hi: nat): nat
    requires lo <= hi
  {
    if x < lo then lo else if x > hi then hi else x
  }

  /** `compute_window`. */
  function ComputeWindow(consume: real, fetch: real, window: nat, min: nat, max: nat, pressure: bool): nat
    requires min <= max
  {
    if pressure then min
    else if fetch <= 0.0 || consume <= 0.0 then window
    else
      var ratio := consume / fetch;
      var next :=
        if ratio > 1.0 then RealMin(window as real * 1.5, max as real).Floor
        else if ratio < 0.5 then RealMax(window as real * 0.5, min as real).Floor
        else window;
      Clamp(next, min, max)
  }

  /** The window stays in its bounds and moves the way the rates say; a faster consumer enlarges it
      at every call until the maximum, except from the windows 0 and 1, which it cannot leave. */
  lemma WindowFollowsRates(consume: real, fetch: real, window: nat, min: nat, max: nat)
    requires min <= window <= max && fetch > 0.0 && consume > 0.0
    ensures var w := ComputeWindow(consume, fetch, window, min, max, false);
            && min <= w <= max
            && (consume > fetch ==> w >= window && (w > window <==> 2 <= window < max))
            && (consume > fetch ==> w == if window + window / 2 <= max then window + window / 2 else max)
            && (2.0 * consume < fetch ==> w <= window && (w < window <==> min < window))
            && (2.0 * consume < fetch ==> w == if window / 2 >= min then window / 2 else min)
            && (consume <= fetch <= 2.0 * consume ==> w == window)
  {
    RatioTests(consume, fetch);
    GrowthBounds(window, max);
  }

  lemma RatioTests(consume: real, fetch: real)
    requires fetch > 0.0
    ensures consume / fetch > 1.0 <==> consume > fetch
    ensures consume / fetch < 0.5 <==> 2.0 * consume < fetch
  {
    var r := consume / fetch;
    CompareQuotient(consume, fetch, r, 1.0);
    CompareQuotient(consume, fetch, r, 0.5);
  }

  lemma CompareQuotient(x: real, y: real, r: real, c: real)
    requires y > 0.0 && r * y == x
    ensures (r > c <==> x > c * y) && (r < c <==> x < c * y)
  {
    assert (r - c) * y == x - c * y;
    if r > c {
      Positive(r - c, y);
    } else if r < c {
      Positive(c - r, y);
      assert (c - r) * y == c * y - x;
    }
  }

  lemma Positive(a: real, b: real)
    requires a > 0.0 && b > 0.0
    ensures a * b > 0.0
  {
  }

  lemma GrowthBounds(window: nat, max: nat)
    ensures (window as real * 1.5).Floor == window + window / 2 && (window as real * 0.5).Floor == window / 2
    ensures var g := (window as real * 1.5).Floor;
            g >= window && (window >= 2 ==> g >= window + 1) && (window < 2 ==> g == window)
  {
  }

  class BackpressureController {
    const minWindow: nat
    const maxWindow: nat
    var consumeRate: real
    var fetchRate: real
    var window: nat
    var memPressure: bool

    /** The window is always within the configured bounds, and at the minimum under pressure. */
    ghost predicate Valid()
      reads this
    {
      minWindow <= window <= maxWindow && (memPressure ==> window == minWindow)
    }

    constructor (min: nat, max: nat)
      requires min <= max
      ensures Valid() && minWindow == min && maxWindow == max && window == min && !memPressure
      ensures consumeRate == 0.0 && fetchRate == 0.0
    {
      minWindow, maxWindow := min, max;
      consumeRate, fetchRate, window, memPressure := 0.0, 0.0, min, false;
    }

    method RecordPartConsumed(bytes: nat, elapsed: real)
      requires Valid()
      modifies this`consumeRate, this`window
      ensures Valid()
      ensures elapsed <= 0.0 ==> consumeRate == old(consumeRate) && window == old(window)
      ensures elapsed > 0.0 ==>
        && consumeRate == old(consumeRate) * 0.7 + bytes as real / elapsed * 0.3
        && window == ComputeWindow(consumeRate, fetchRate, old(window), minWindow, maxWindow, memPressure)
      ensures fetchRate == 0.0 ==> window == old(window)
    {
      if elapsed <= 0.0 {
        return;
      }
      consumeRate := consumeRate * 0.7 + bytes as real / elapsed * 0.3;
      window := ComputeWindow(consumeRate, fetchRate, window, minWindow, maxWindow, memPressure);
    }

    method RecordPartFetched(bytes: nat, elapsed: real)
      requires Valid()
      modifies this`fetchRate, this`window
      ensures Valid()
      ensures elapsed <= 0.0 ==> fetchRate == old(fetchRate) && window == old(window)
      ensures elapsed > 0.0 ==>
        && fetchRate == old(fetchRate) * 0.7 + bytes as real / elapsed * 0.3
        && window == ComputeWindow(consumeRate, fetchRate, old(window), minWindow, maxWindow, memPressure)
      ensures consumeRate == 0.0 ==> window == old(window)
    {
      if elapsed <= 0.0 {
        return;
      }
      fetchRate := fetchRate * 0.7 + bytes as real / elapsed * 0.3;
      window := ComputeWindow(consumeRate, fetchRate, window, minWindow, maxWindow, memPressure);
    }

    method SetMemPressure(on: bool)
      requires Valid()
      modifies this`memPressure, this`window
      ensures Valid() && memPressure == on
      ensures on ==> window == minWindow
      ensures !on ==> window == ComputeWindow(consumeRate, fetchRate, old(window), minWindow, maxWindow, false)
      ensures !on && (consumeRate == 0.0 || fetchRate == 0.0) ==> window == old(window)
    {
      memPressure := on;
      if on {
        window := minWindow;
      } else {
        window := ComputeWindow(consumeRate, fetchRate, window, minWindow, maxWindow, memPressure);
      }
    }
  }
}
