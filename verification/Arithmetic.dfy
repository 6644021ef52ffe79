/** Integer arithmetic as the C++ code performs it: quotients truncate toward zero. */
module Arithmetic {
  type Unit = u: int | 1 <= u witness 1

  /** C++ `a / n` for a positive n. */
  function TruncDiv(a: int, n: Unit): int {
    if 0 <= a then a / n else -((-a) / n)
  }

  /** C++ `a % n` for a positive n: the sign of the result follows a. */
  function TruncMod(a: int, n: Unit): int {
    a - n * TruncDiv(a, n)
  }

  /** `std::ceil` of the exact quotient a / n. */
  function CeilDiv(a: int, n: Unit): int {
    -((-a) / n)
  }

  /** Minutes that must be added to `time` to fill its last charging unit. */
  function CompleteTime(time: int, unit: Unit): int {
    var mod := TruncMod(time, unit);
    if mod == 0 then 0 else unit - mod
  }

  predicate Whole(a: int, n: Unit) {
    a % n == 0
  }

  lemma MultipleAtLeast(n: Unit, k: int)
    ensures k >= 1 ==> n * k >= n
    ensures k <= -1 ==> n * k + n <= 0
  {
  }

  lemma DivModUnique(a: int, n: Unit, q: int, r: int)
    requires a == n * q + r && 0 <= r < n
    ensures a / n == q && a % n == r
  {
    assert n * (q - a / n) == a % n - r;
    MultipleAtLeast(n, q - a / n);
  }

  /** k is the ceiling of a / n exactly when n*k is the first multiple of n not below a. */
  lemma CeilDivUnique(a: int, n: Unit, k: int)
    ensures k == CeilDiv(a, n) <==> a <= n * k < a + n
  {
    var c := CeilDiv(a, n);
    var r := (-a) % n;
    assert -a == n * (-c) + r;
    assert n * c == a + r by { assert n * (-c) == -(n * c); }
    if a <= n * k < a + n {
      var r' := n * k - a;
      assert -a == n * (-k) + r' by { assert n * (-k) == -(n * k); }
      DivModUnique(-a, n, -k, r');
    }
  }

  lemma CeilMonotone(a: int, b: int, u: Unit)
    requires a <= b
    ensures CeilDiv(a, u) <= CeilDiv(b, u)
  {
    var i, j := CeilDiv(a, u), CeilDiv(b, u);
    CeilDivUnique(a, u, i);
    CeilDivUnique(b, u, j);
    hide CeilDiv;
    assert u * (i - j) < u;
    MultipleAtLeast(u, i - j);
  }

  lemma TruncModRange(time: int, unit: Unit)
    ensures time >= 0 ==> 0 <= TruncMod(time, unit) < unit
    ensures time < 0 ==> 0 < TruncMod(time, unit) + unit <= unit
  {
    if 0 <= time {
      assert TruncMod(time, unit) == time % unit;
    } else {
      assert -time == unit * ((-time) / unit) + (-time) % unit;
      assert unit * TruncDiv(time, unit) == -(unit * ((-time) / unit));
    }
  }

  lemma CompleteTimeFills(time: int, unit: Unit)
    ensures CompleteTime(time, unit) >= 0
    ensures Whole(time + CompleteTime(time, unit), unit)
    ensures time >= 0 ==> CompleteTime(time, unit) < unit
    ensures time >= 0 ==> time + CompleteTime(time, unit) == unit * CeilDiv(time, unit)
  {
    TruncModRange(time, unit);
    var c, q := CompleteTime(time, unit), TruncDiv(time, unit);
    var k := if c == 0 then q else q + 1;
    assert time + c == unit * k by {
      assert unit * (q + 1) == unit * q + unit;
    }
    CeilDivUnique(time, unit, k);
    hide TruncDiv, CeilDiv;
    DivModUnique(time + c, unit, k, 0);
  }

  /** Products kept under a name, so that proofs can hide them from the solver. */
  function Times(k: int, x: real): real {
    k as real * x
  }

  lemma TimesAdds(i: int, j: int, x: real)
    ensures Times(i + j, x) == Times(i, x) + Times(j, x)
    ensures Times(0, x) == 0.0
    ensures x >= 0.0 && i <= j ==> Times(i, x) <= Times(j, x)
  {
    assert (i + j) as real == i as real + j as real;
    assert (j - i) as real == j as real - i as real;
    if x >= 0.0 && i <= j {
      assert (j - i) as real * x >= 0.0;
    }
  }

  lemma TimesOne(x: real)
    ensures Times(1, x) == x
  {
  }

  lemma TimesDiffer(i: int, j: int, r: real)
    ensures Times(i, r) == Times(j, r) <==> i == j || r == 0.0
  {
    assert i as real * r - j as real * r == (i - j) as real * r;
  }

  function Multiple(unit: Unit, k: int): int {
    unit * k
  }

  lemma MultipleAdds(unit: Unit, i: int, j: int)
    ensures Multiple(unit, i + j) == Multiple(unit, i) + Multiple(unit, j)
    ensures Multiple(unit, 0) == 0
  {
  }

  /** Adding `extra` minutes turns `time` into a whole number of units. */
  predicate TopsUp(time: int, extra: nat, unit: Unit) {
    Whole(time + extra, unit)
  }

  /** The top-up reaches a whole number of units, and no smaller one does, exactly when
      the time is not negative or was whole already. */
  lemma CompleteTimeIsLeast(time: int, unit: Unit)
    ensures CompleteTime(time, unit) >= 0 && TopsUp(time, CompleteTime(time, unit), unit)
    ensures (forall k: nat | TopsUp(time, k, unit) :: CompleteTime(time, unit) <= k)
       <==> (0 <= time || Whole(time, unit))
  {
    CompleteTimeFills(time, unit);
    WholeNegative(time, unit);
    var c := CompleteTime(time, unit);
    if 0 <= time || Whole(time, unit) {
      forall k: nat | TopsUp(time, k, unit)
        ensures c <= k
      {
        if k < c {
          WholeGap(time + c, time + k, unit);
        }
      }
    } else {
      WholeBelow(time + c, unit);
      assert TopsUp(time, c - unit, unit);
    }
  }

  lemma WholeGap(a: int, b: int, unit: Unit)
    requires Whole(a, unit) && Whole(b, unit) && b < a
    ensures unit <= a - b
  {
    assert unit * (a / unit - b / unit) == a - b;
    MultipleAtLeast(unit, a / unit - b / unit);
  }

  lemma WholeBelow(a: int, unit: Unit)
    requires Whole(a, unit)
    ensures Whole(a - unit, unit)
  {
    assert a - unit == unit * (a / unit - 1);
    DivModUnique(a - unit, unit, a / unit - 1, 0);
  }

  lemma WholeNegative(time: int, unit: Unit)
    ensures time < 0 && Whole(time, unit) ==> CompleteTime(time, unit) == 0
    ensures time < 0 && !Whole(time, unit) ==> CompleteTime(time, unit) > unit
  {
    if time < 0 {
      var q := (-time) / unit;
      var r := (-time) % unit;
      assert -time == unit * q + r;
      assert unit * (-q) == -(unit * q);
      assert TruncMod(time, unit) == -r;
      if r == 0 {
        DivModUnique(time, unit, -q, 0);
      } else {
        assert unit * (-q - 1) == -(unit * q) - unit;
        DivModUnique(time, unit, -q - 1, unit - r);
      }
    }
  }
}
