/** How many whole periods fit between two times. */
module Elapsed {

  /** Whole periods of `unit` seconds between two times. */
  function Periods(from: int, end: int, unit: int): nat
    requires unit >= 1
  {
    if end < from then 0 else (end - from) / unit
  }

  lemma PeriodsShrink(from: int, later: int, end: int, unit: int)
    requires unit >= 1 && from <= later
    ensures Periods(later, end, unit) <= Periods(from, end, unit)
  {
    if later <= end {
      DivMonotone(end - later, end - from, unit);
    }
  }

  lemma MulAtLeast(u: int, d: int)
    requires u >= 1
    ensures d >= 1 ==> u * d >= u
    ensures d <= -1 ==> u * d <= -u
  {
  }

  lemma Distribute(u: int, p: int, q: int)
    ensures u * (p - q) == u * p - u * q
  {
  }

  /** Quotient and remainder are unique. */
  lemma DivUnique(u: int, q: int, r: int, x: int)
    requires u >= 1 && 0 <= r < u && x == u * q + r
    ensures x / u == q
  {
    var d := q - x / u;
    Distribute(u, q, x / u);
    MulAtLeast(u, d);
  }

  lemma DivMonotone(x: nat, y: nat, unit: nat)
    requires unit >= 1 && x <= y
    ensures x / unit <= y / unit
  {
    Distribute(unit, y / unit, x / unit);
    MulAtLeast(unit, y / unit - x / unit);
  }

  lemma DivStep(x: nat, unit: nat)
    requires unit >= 1
    ensures (x + unit) / unit == x / unit + 1
  {
    Distribute(unit, x / unit, -1);
    DivUnique(unit, x / unit + 1, x % unit, x + unit);
  }

  /** A later start by a full period leaves at least one period fewer. */
  lemma PeriodsDrop(from: int, later: int, end: int, unit: int)
    requires unit >= 1 && from + unit <= later && from + unit <= end
    ensures Periods(later, end, unit) + 1 <= Periods(from, end, unit)
  {
    PeriodsShrink(from + unit, later, end, unit);
    DivStep(end - from - unit, unit);
  }

  /** A further stretch of at least one period adds at least one. */
  lemma PeriodsAdd(from: int, middle: int, end: int, unit: int)
    requires unit >= 1 && from <= middle && middle + unit <= end
    ensures Periods(from, middle, unit) + 1 <= Periods(from, end, unit)
  {
    DivStep(middle - from, unit);
    DivMonotone(middle - from + unit, end - from, unit);
  }

  // ---------------------------------------------------------------- events that keep their distance

  /** The events at positions `i` to `n - 1`. */
  function HowMany(happened: seq<bool>, i: nat, n: nat): nat
    requires i <= n <= |happened|
  {
    if i == n then 0 else HowMany(happened, i, n - 1) + (if happened[n - 1] then 1 else 0)
  }

  /** Any two events are at least `d` apart. */
  ghost predicate Spaced(times: seq<int>, happened: seq<bool>, d: int)
    requires |times| == |happened|
  {
    forall p, q :: 0 <= p < q < |times| && happened[p] && happened[q] ==> times[q] - times[p] >= d
  }

  lemma {:induction false} LastEvent(happened: seq<bool>, i: nat, n: nat) returns (k: nat)
    requires i <= n <= |happened| && HowMany(happened, i, n) > 0
    ensures i <= k < n && happened[k]
    ensures HowMany(happened, i, n) == HowMany(happened, i, k) + 1
  {
    if happened[n - 1] {
      k := n - 1;
    } else {
      k := LastEvent(happened, i, n - 1);
    }
  }

  /** Each event but the first uses up a full distance of the time since position `i`. */
  lemma {:induction false} EventsTakeTime(times: seq<int>, happened: seq<bool>, d: int, i: nat, k: nat)
    requires |times| == |happened| && d > 0 && i <= k < |times| && happened[k] && Spaced(times, happened, d)
    requires forall p, q :: 0 <= p <= q < |times| ==> times[p] <= times[q]
    ensures HowMany(happened, i, k) <= Periods(times[i], times[k], d)
    decreases k
  {
    if HowMany(happened, i, k) > 0 {
      var p := LastEvent(happened, i, k);
      EventsTakeTime(times, happened, d, i, p);
      PeriodsAdd(times[i], times[p], times[k], d);
    }
  }

  lemma SpacedEventsAreFew(times: seq<int>, happened: seq<bool>, d: int, i: nat, n: nat, L: nat)
    requires |times| == |happened| && d > 0 && i < n <= |times| && Spaced(times, happened, d)
    requires forall p, q :: 0 <= p <= q < |times| ==> times[p] <= times[q]
    requires times[n - 1] - times[i] <= L
    ensures HowMany(happened, i, n) <= L / d + 1
  {
    if HowMany(happened, i, n) > 0 {
      var k := LastEvent(happened, i, n);
      EventsTakeTime(times, happened, d, i, k);
      DivMonotone(times[k] - times[i], L, d);
    }
  }
}
