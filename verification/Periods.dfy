/** Half-open stretches of local time, with boost's `time_period` operations, and a
    measure on them: sums of a weight over the whole seconds they contain. */
module Periods {
  const DAY := 86400

  function Min(a: int, b: int): int { if a <= b then a else b }
  function Max(a: int, b: int): int { if a <= b then b else a }

  datatype Period = Period(begin: int, end: int) {
    function Length(): int { end - begin }

    predicate Contains(t: int) { begin <= t < end }

    /** boost's test. A null period intersects a period that contains its begin. */
    predicate Intersects(other: Period) {
      || Contains(other.begin)
      || other.Contains(begin)
      || (other.begin < begin && begin < other.end)
    }

    /** boost's result, meaningful when the two intersect. */
    function Intersection(other: Period): Period {
      if begin > other.begin then
        if end <= other.end then this else Period(begin, other.end)
      else
        if end <= other.end then Period(other.begin, end) else other
    }

    /** Length of the common part, as the callers compute it. */
    function Shared(other: Period): int {
      if Intersects(other) then Intersection(other).Length() else 0
    }
  }

  function DateOf(t: int): int { t / DAY }
  function TimeOfDay(t: int): int { t % DAY }
  function DayStart(date: int): int { date * DAY }

  // ---------- sums over seconds ----------

  /** The sum of f over the seconds lo, ..., hi - 1. */
  ghost function Sum(f: int -> int, lo: int, hi: int): int
    decreases hi - lo
  {
    if hi <= lo then 0 else Sum(f, lo, hi - 1) + f(hi - 1)
  }

  lemma {:induction false} SumSplit(f: int -> int, lo: int, mid: int, hi: int)
    requires lo <= mid <= hi
    ensures Sum(f, lo, hi) == Sum(f, lo, mid) + Sum(f, mid, hi)
    decreases hi - mid
  {
    if mid < hi {
      SumSplit(f, lo, mid, hi - 1);
    }
  }

  lemma {:induction false} SumEqual(f: int -> int, g: int -> int, lo: int, hi: int)
    requires forall t | lo <= t < hi :: f(t) == g(t)
    ensures Sum(f, lo, hi) == Sum(g, lo, hi)
    decreases hi - lo
  {
    if lo < hi {
      SumEqual(f, g, lo, hi - 1);
    }
  }

  lemma {:induction false} SumAdd(f: int -> int, g: int -> int, h: int -> int, lo: int, hi: int)
    requires forall t | lo <= t < hi :: h(t) == f(t) + g(t)
    ensures Sum(h, lo, hi) == Sum(f, lo, hi) + Sum(g, lo, hi)
    decreases hi - lo
  {
    if lo < hi {
      SumAdd(f, g, h, lo, hi - 1);
    }
  }

  lemma {:induction false} SumShift(f: int -> int, g: int -> int, lo: int, hi: int, d: int)
    requires forall t | lo <= t < hi :: f(t) == g(t + d)
    ensures Sum(f, lo, hi) == Sum(g, lo + d, hi + d)
    decreases hi - lo
  {
    if lo < hi {
      SumShift(f, g, lo, hi - 1, d);
    }
  }

  /** A constant weight c adds c for every second. */
  lemma {:induction false} SumConstant(f: int -> int, c: int, lo: int, hi: int)
    requires lo <= hi
    requires forall t | lo <= t < hi :: f(t) == c
    ensures Sum(f, lo, hi) == c * (hi - lo)
    decreases hi - lo
  {
    if lo < hi {
      SumConstant(f, c, lo, hi - 1);
      assert c * (hi - lo) == c * (hi - 1 - lo) + c;
    }
  }

  lemma {:induction false} SumNonNegative(f: int -> int, lo: int, hi: int)
    requires forall t | lo <= t < hi :: f(t) >= 0
    ensures Sum(f, lo, hi) >= 0
    decreases hi - lo
  {
    if lo < hi {
      SumNonNegative(f, lo, hi - 1);
    }
  }

  /** A weight that vanishes outside q sums over p as it does over the common part. */
  lemma SumRestricted(f: int -> int, p: Period, q: Period)
    requires p.begin <= p.end && q.begin <= q.end
    requires forall t | p.Contains(t) && !q.Contains(t) :: f(t) == 0
    ensures p.Intersects(q) ==>
      var i := p.Intersection(q);
      p.begin <= i.begin <= i.end <= p.end && Sum(f, p.begin, p.end) == Sum(f, i.begin, i.end)
    ensures !p.Intersects(q) ==> Sum(f, p.begin, p.end) == 0
  {
    if p.Intersects(q) {
      var i := p.Intersection(q);
      SumSplit(f, p.begin, i.begin, p.end);
      SumSplit(f, i.begin, i.end, p.end);
      SumConstant(f, 0, p.begin, i.begin);
      SumConstant(f, 0, i.end, p.end);
    } else {
      SumConstant(f, 0, p.begin, p.end);
    }
  }

  /** What boost's operations compute is the number of common seconds. */
  lemma SharedIsSum(f: int -> int, p: Period, q: Period)
    requires p.begin <= p.end && q.begin <= q.end
    requires forall t | p.Contains(t) :: f(t) == if q.Contains(t) then 1 else 0
    ensures p.Shared(q) == Sum(f, p.begin, p.end)
  {
    SumRestricted(f, p, q);
    if p.Intersects(q) {
      var i := p.Intersection(q);
      SumConstant(f, 1, i.begin, i.end);
    }
  }
}
