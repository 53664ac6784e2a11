/**
 * The clock. `datetime.now()` becomes an explicit `now` parameter: an instant is an integer
 * number of microseconds on the naive local clock, the resolution of Python's `datetime`.
 */
module Time {

  type Instant = int

  const Second: int := 1_000_000
  const Minute: int := 60 * Second
  const Hour: int := 60 * Minute
  const Day: int := 24 * Hour

  /** `timedelta(seconds=s)` in microseconds */
  function Seconds(s: int): int
  {
    s * Second
  }

  /**
   * The `.seconds` attribute of the timedelta `delta` (in microseconds). Python normalises a
   * timedelta to days, seconds in [0, 86400) and microseconds in [0, 10^6); `.seconds` is the
   * middle component only, so whole days are dropped (also for a negative delta).
   */
  function SecondsField(delta: int): (r: int)
    ensures 0 <= r < 86400
    ensures delta == (delta / Day) * Day + r * Second + delta % Second
  {
    DayDecomposition(delta);
    (delta / Second) % 86400
  }

  lemma DayDecomposition(delta: int)
    ensures delta == (delta / Day) * Day + ((delta / Second) % 86400) * Second + delta % Second
  {
    var q := delta / Second;
    assert delta == q * Second + delta % Second;
    assert q == (q / 86400) * 86400 + q % 86400;
    assert q / 86400 == delta / Day by {
      DivDiv(delta, Second, 86400);
    }
  }

  lemma DivDiv(a: int, b: int, c: int)
    requires b > 0 && c > 0
    ensures (a / b) / c == a / (b * c)
  {
    var q := a / b;
    var r := a % b;
    var q2 := q / c;
    var r2 := q % c;
    assert a == q2 * (b * c) + (r2 * b + r) by {
      assert a == q * b + r;
      assert q == q2 * c + r2;
      assert q * b == q2 * (b * c) + r2 * b;
    }
    assert 0 <= r2 * b + r < b * c by {
      MulMonotone(r2, c - 1, b);
      MulSub(c, 1, b);
    }
    UniqueDivision(a, b * c, q2, r2 * b + r);
  }

  lemma UniqueDivision(a: int, d: int, q: int, r: int)
    requires d > 0 && a == q * d + r && 0 <= r < d
    ensures a / d == q
  {
    var q0, r0 := a / d, a % d;
    assert (q - q0) * d == r0 - r by {
      assert a == q0 * d + r0;
      MulSub(q, q0, d);
    }
    if q0 != q {
      MulAtLeast(if q0 < q then q - q0 else q0 - q, d);
    }
  }

  lemma MulSub(x: int, y: int, d: int)
    ensures (x - y) * d == x * d - y * d
  {
  }

  lemma MulMonotone(x: int, y: int, k: int)
    requires x <= y && k >= 0
    ensures x * k <= y * k
  {
    MulSub(y, x, k);
  }

  lemma MulAtLeast(k: int, d: int)
    requires k >= 1 && d > 0
    ensures k * d >= d
  {
  }

  /** Within one day, `.seconds` is the number of whole seconds elapsed. */
  lemma {:induction false} SecondsFieldWithinDay(delta: int)
    requires 0 <= delta < Day
    ensures SecondsField(delta) == delta / Second
  {
    assert delta / Second < 86400 by {
      UniqueDivision(delta, Day, 0, delta);
      DivDiv(delta, Second, 86400);
    }
  }

  /** Whole days do not show in `.seconds`: a gap of one day plus five seconds reads as five. */
  lemma SecondsFieldDropsDays(delta: int, days: int)
    ensures SecondsField(delta + days * Day) == SecondsField(delta)
  {
    var q := delta / Second;
    assert delta + days * Day == (q + days * 86400) * Second + delta % Second;
    UniqueDivision(delta + days * Day, Second, q + days * 86400, delta % Second);
    assert (q + days * 86400) % 86400 == q % 86400 by {
      UniqueDivision(q + days * 86400, 86400, q / 86400 + days, q % 86400);
    }
  }
}
