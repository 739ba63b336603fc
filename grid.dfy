/** Rounding to a time grid, in exact real arithmetic. */
module Grid {

  /** JavaScript's Math.round: the nearest integer, halves rounded up. */
  function Round(x: real): (r: int)
    ensures x - 0.5 < r as real <= x + 0.5
  {
    (x + 0.5).Floor
  }

  /** `t` is an integer multiple of `resolution`. */
  predicate OnGrid(t: real, resolution: real)
    requires resolution != 0.0
  {
    (t / resolution).Floor as real * resolution == t
  }

  /** `Math.round(t / resolution) * resolution`: the grid point nearest to `t`
      (for a positive resolution, halves go to the later grid point). */
  function Snap(t: real, resolution: real): (q: real)
    requires resolution != 0.0
    ensures OnGrid(q, resolution)
    ensures resolution > 0.0 ==> t - resolution / 2.0 < q <= t + resolution / 2.0
  {
    var m := Round(t / resolution);
    OnGridMultiple(m, resolution);
    NearestGridPoint(t, resolution, m);
    m as real * resolution
  }

  lemma NearestGridPoint(t: real, resolution: real, m: int)
    requires resolution != 0.0
    requires t / resolution - 0.5 < m as real <= t / resolution + 0.5
    ensures resolution > 0.0 ==> t - resolution / 2.0 < m as real * resolution <= t + resolution / 2.0
  {
    if resolution < 0.0 { return; }
    var x, y := t / resolution, m as real;
    assert x * resolution == t;
    MulMonotonic(x - 0.5, y, resolution);
    MulMonotonic(y, x + 0.5, resolution);
    assert (x - 0.5) * resolution == t - resolution / 2.0;
    assert (x + 0.5) * resolution == t + resolution / 2.0;
  }

  lemma MulMonotonic(a: real, b: real, c: real)
    requires c > 0.0
    ensures a < b ==> a * c < b * c
    ensures a <= b ==> a * c <= b * c
  {
  }

  lemma OnGridMultiple(m: int, resolution: real)
    requires resolution != 0.0
    ensures OnGrid(m as real * resolution, resolution)
  {
    assert (m as real * resolution) / resolution == m as real;
  }

  lemma OnGridSub(a: real, b: real, resolution: real)
    requires resolution != 0.0
    requires OnGrid(a, resolution) && OnGrid(b, resolution)
    ensures OnGrid(a - b, resolution)
  {
    var ma, mb := (a / resolution).Floor, (b / resolution).Floor;
    var m := ma - mb;
    assert a - b == m as real * resolution by {
      assert a == ma as real * resolution && b == mb as real * resolution;
      assert m as real == ma as real - mb as real;
    }
    OnGridMultiple(m, resolution);
  }

  lemma OnGridAdd(a: real, b: real, resolution: real)
    requires resolution != 0.0
    requires OnGrid(a, resolution) && OnGrid(b, resolution)
    ensures OnGrid(a + b, resolution)
  {
    var ma, mb := (a / resolution).Floor, (b / resolution).Floor;
    var m := ma + mb;
    assert a + b == m as real * resolution by {
      assert a == ma as real * resolution && b == mb as real * resolution;
      assert m as real == ma as real + mb as real;
    }
    OnGridMultiple(m, resolution);
  }

  /** Two distinct points of a positive grid are at least one grid unit apart. */
  lemma GridPointsApart(a: real, b: real, resolution: real)
    requires resolution > 0.0
    requires OnGrid(a, resolution) && OnGrid(b, resolution)
    requires a < b
    ensures b - a >= resolution
  {
    MultiplesApart(a, b, (a / resolution).Floor, (b / resolution).Floor, resolution);
  }

  lemma MultiplesApart(a: real, b: real, ma: int, mb: int, resolution: real)
    requires resolution > 0.0
    requires a == ma as real * resolution && b == mb as real * resolution
    requires a < b
    ensures b - a >= resolution
  {
    var x, y := ma as real, mb as real;
    LessFactor(a, b, x, y, resolution);
    IntegersApart(ma, mb, x, y);
    UnitStep(a, b, x, y, resolution);
  }

  /** Two integers whose real images are ordered are at least one apart. */
  lemma IntegersApart(m: int, n: int, x: real, y: real)
    requires x == m as real && y == n as real && x < y
    ensures y - x >= 1.0
  {
    assert (n - m) as real == y - x;
  }

  lemma LessFactor(a: real, b: real, x: real, y: real, c: real)
    requires c > 0.0 && a == x * c && b == y * c && a < b
    ensures x < y
  {
  }

  lemma UnitStep(a: real, b: real, x: real, y: real, c: real)
    requires c > 0.0 && a == x * c && b == y * c && y - x >= 1.0
    ensures b - a >= c
  {
  }

  /** The same, for a grid of either sign, stated for the positive case only. */
  lemma GridPointsApartIfPositive(a: real, b: real, resolution: real)
    requires resolution != 0.0
    requires OnGrid(a, resolution) && OnGrid(b, resolution)
    requires a < b
    ensures resolution > 0.0 ==> b - a >= resolution
  {
    if resolution > 0.0 {
      GridPointsApart(a, b, resolution);
    }
  }

  lemma OnGridZero(resolution: real)
    requires resolution != 0.0
    ensures OnGrid(0.0, resolution)
  {
    assert 0.0 / resolution == 0.0;
  }

  /** Moving the grid point `t`, already moved earlier by `before`, on to the grid point
      `target` makes the total shift `after` a grid point too. */
  lemma OnGridShiftTo(t: real, before: real, target: real, after: real, resolution: real)
    requires resolution != 0.0
    requires OnGrid(t, resolution) && OnGrid(target, resolution)
    requires after == before + ((t - before) - target)
    ensures OnGrid(after, resolution)
  {
    assert after == t - target;
    OnGridSub(t, target, resolution);
  }

  /** Snapping is monotonic on a positive grid. */
  lemma SnapMonotonic(a: real, b: real, resolution: real)
    requires resolution > 0.0 && a <= b
    ensures Snap(a, resolution) <= Snap(b, resolution)
  {
    var x, y := a / resolution, b / resolution;
    assert x <= y by {
      QuotientFactor(a, resolution);
      QuotientFactor(b, resolution);
      LessEqFactor(a, b, x, y, resolution);
    }
    RoundMonotonic(x, y);
    var p, q := Round(x) as real, Round(y) as real;
    IntToRealMonotonic(Round(x), Round(y));
    assert p * resolution <= q * resolution by {
      MulMonotonic(p, q, resolution);
    }
    assert Snap(a, resolution) == p * resolution && Snap(b, resolution) == q * resolution;
  }

  lemma QuotientFactor(t: real, c: real)
    requires c != 0.0
    ensures (t / c) * c == t
  {
  }

  lemma LessEqFactor(a: real, b: real, x: real, y: real, c: real)
    requires c > 0.0 && a == x * c && b == y * c && a <= b
    ensures x <= y
  {
  }

  lemma RoundMonotonic(x: real, y: real)
    requires x <= y
    ensures Round(x) <= Round(y)
  {
  }

  lemma IntToRealMonotonic(m: int, n: int)
    requires m <= n
    ensures m as real <= n as real
  {
    assert (n - m) as real == n as real - m as real;
  }
}
