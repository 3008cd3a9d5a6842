/** The TOPSIS multi-criteria ranking of replicas (pkg/resourcemanager/delegate.go).

    Scores are `real` numbers. `math.Sqrt` is the parameter `sqrt`, of which only the defining
    relation `IsSqrt` is used. A matrix has one row per replica and one column per criterion. */
module Topsis {

  type Matrix = seq<seq<real>>

  // ---------- Reference definitions ----------

  ghost predicate IsSqrt(sqrt: real -> real) {
    forall x: real :: x >= 0.0 ==> sqrt(x) >= 0.0 && sqrt(x) * sqrt(x) == x
  }

  /** At least one row and every row of the same width. */
  predicate Rectangular(m: Matrix) {
    |m| > 0 && forall i | 0 <= i < |m| :: |m[i]| == |m[0]|
  }

  /** Criteria to minimise: latency, average execution time and pending jobs. */
  predicate Cost(j: nat) { j == 0 || j == 4 || j == 5 }

  /** Sum of squares of the first n entries of column j. */
  function ColumnSquares(m: Matrix, j: nat, n: nat): real
    requires Rectangular(m) && j < |m[0]| && n <= |m|
  {
    if n == 0 then 0.0 else ColumnSquares(m, j, n - 1) + m[n - 1][j] * m[n - 1][j]
  }

  function Norm(sqrt: real -> real, m: Matrix, j: nat): real
    requires Rectangular(m) && j < |m[0]|
  {
    sqrt(ColumnSquares(m, j, |m|))
  }

  predicate NormsNonZero(sqrt: real -> real, m: Matrix)
    requires Rectangular(m)
  {
    forall j: nat | j < |m[0]| :: Norm(sqrt, m, j) != 0.0
  }

  /** The weighted normalised matrix. */
  function Scores(sqrt: real -> real, m: Matrix, w: seq<real>): Matrix
    requires Rectangular(m) && NormsNonZero(sqrt, m) && |w| == |m[0]|
  {
    seq(|m|, i requires 0 <= i < |m| =>
      seq(|m[i]|, j requires 0 <= j < |m[i]| => m[i][j] / Norm(sqrt, m, j) * w[j]))
  }

  function Least(m: Matrix, j: nat, n: nat): real
    requires Rectangular(m) && j < |m[0]| && 1 <= n <= |m|
  {
    if n == 1 then m[0][j] else
      var rest := Least(m, j, n - 1);
      if m[n - 1][j] < rest then m[n - 1][j] else rest
  }

  function Greatest(m: Matrix, j: nat, n: nat): real
    requires Rectangular(m) && j < |m[0]| && 1 <= n <= |m|
  {
    if n == 1 then m[0][j] else
      var rest := Greatest(m, j, n - 1);
      if m[n - 1][j] > rest then m[n - 1][j] else rest
  }

  function Ideal(m: Matrix): seq<real>
    requires Rectangular(m)
  {
    seq(|m[0]|, j requires 0 <= j < |m[0]| => if Cost(j) then Least(m, j, |m|) else Greatest(m, j, |m|))
  }

  function AntiIdeal(m: Matrix): seq<real>
    requires Rectangular(m)
  {
    seq(|m[0]|, j requires 0 <= j < |m[0]| => if Cost(j) then Greatest(m, j, |m|) else Least(m, j, |m|))
  }

  function SquaredDistance(a: seq<real>, b: seq<real>, n: nat): real
    requires n <= |a| && n <= |b|
  {
    if n == 0 then 0.0 else
      SquaredDistance(a, b, n - 1) + (a[n - 1] - b[n - 1]) * (a[n - 1] - b[n - 1])
  }

  function Distance(sqrt: real -> real, a: seq<real>, b: seq<real>): real
    requires |a| == |b|
  {
    sqrt(SquaredDistance(a, b, |a|))
  }

  /** The quantity calculatePreferences divides by. */
  function Spread(sqrt: real -> real, s: Matrix, i: nat): real
    requires Rectangular(s) && i < |s|
  {
    Distance(sqrt, s[i], Ideal(s)) + Distance(sqrt, s[i], AntiIdeal(s))
  }

  function Closeness(sqrt: real -> real, s: Matrix, i: nat): real
    requires Rectangular(s) && i < |s| && Spread(sqrt, s, i) != 0.0
  {
    Distance(sqrt, s[i], AntiIdeal(s)) / Spread(sqrt, s, i)
  }

  predicate AllRowsEqual(m: Matrix) {
    forall i, k | 0 <= i < |m| && 0 <= k < |m| :: m[i] == m[k]
  }

  predicate Positive(w: seq<real>) {
    forall j | 0 <= j < |w| :: w[j] > 0.0
  }

  /** What the code needs in order never to divide by zero. */
  ghost predicate WellPosed(sqrt: real -> real, m: Matrix, w: seq<real>) {
    IsSqrt(sqrt) && Rectangular(m) && |w| == |m[0]| && Positive(w) &&
    NormsNonZero(sqrt, m) && !AllRowsEqual(m)
  }

  /** Replica i's preference index. */
  ghost function Preference(sqrt: real -> real, m: Matrix, w: seq<real>, i: nat): real
    requires WellPosed(sqrt, m, w) && i < |m|
  {
    SpreadPositive(sqrt, m, w, i);
    Closeness(sqrt, Scores(sqrt, m, w), i)
  }

  /** Row a is no worse than row b on any criterion. */
  predicate NoWorse(a: seq<real>, b: seq<real>)
    requires |a| == |b|
  {
    forall j: nat | j < |a| :: if Cost(j) then a[j] <= b[j] else a[j] >= b[j]
  }

  // ---------- Order and products of reals ----------

  lemma {:induction false} ProductOrder(x: real, y: real, k: real)
    requires x <= y && k >= 0.0
    ensures x * k <= y * k
    ensures x < y && k > 0.0 ==> x * k < y * k
  {
    assert (y - x) * k == y * k - x * k;
  }

  lemma {:induction false} SquareOrderNonNegative(x: real, y: real)
    requires 0.0 <= x <= y
    ensures x * x <= y * y
    ensures x < y ==> x * x < y * y
  {
    var d, e := y - x, y + x;
    var product := d * e;
    ProductOrder(0.0, d, e);
    assert 0.0 * e == 0.0;
    assert product >= 0.0 && (d > 0.0 ==> product > 0.0);
    DifferenceOfSquares(x, y);
  }

  lemma DifferenceOfSquares(x: real, y: real)
    ensures (y - x) * (y + x) == y * y - x * x
  {
  }

  /** On one side of zero, the number further from zero has the larger square. */
  lemma {:induction false} SquareOrder(x: real, y: real)
    requires 0.0 <= x <= y || y <= x <= 0.0
    ensures x * x <= y * y
    ensures x != y ==> x * x < y * y
  {
    if 0.0 <= x <= y {
      SquareOrderNonNegative(x, y);
    } else {
      SquareOrderNonNegative(-x, -y);
      assert (-x) * (-x) == x * x && (-y) * (-y) == y * y;
    }
  }

  lemma {:induction false} SquareOfProduct(c: real, n: real, square: real)
    requires n * n == square
    ensures (c * n) * (c * n) == c * c * square
  {
    calc {
      (c * n) * (c * n);
      c * ((c * n) * n);
      c * (c * (n * n));
      c * c * square;
    }
  }

  lemma RescaledSum(c: real, sum: real, x: real, scaled: real)
    requires scaled == c * c * sum
    ensures scaled + (c * x) * (c * x) == c * c * (sum + x * x)
  {
    SquareOfProduct(c, x, x * x);
    var k := c * c;
    assert k * (sum + x * x) == k * sum + k * (x * x);
  }

  // ---------- Square roots ----------

  lemma {:induction false} SqrtMonotone(sqrt: real -> real, x: real, y: real)
    requires IsSqrt(sqrt) && 0.0 <= x
    ensures x <= y ==> sqrt(x) <= sqrt(y)
    ensures x < y ==> sqrt(x) < sqrt(y)
  {
    if x <= y && sqrt(x) > sqrt(y) { SquareOrder(sqrt(y), sqrt(x)); }
  }

  lemma {:induction false} SqrtUnique(sqrt: real -> real, x: real, s: real)
    requires IsSqrt(sqrt) && s >= 0.0 && s * s == x
    ensures sqrt(x) == s
  {
    var r := sqrt(x);
    SquareOrder(0.0, s);
    assert r >= 0.0 && r * r == x;
    if r < s { SquareOrder(r, s); }
    if s < r { SquareOrder(s, r); }
  }

  lemma {:induction false} SqrtZero(sqrt: real -> real, x: real)
    requires IsSqrt(sqrt) && x >= 0.0
    ensures sqrt(x) == 0.0 <==> x == 0.0
  {
    if x == 0.0 { SqrtUnique(sqrt, 0.0, 0.0); }
  }

  // ---------- Columns ----------

  /** A sum of squares is never negative, and zero if and only if all entries are. */
  lemma {:induction false} ColumnSquaresZero(m: Matrix, j: nat, n: nat)
    requires Rectangular(m) && j < |m[0]| && n <= |m|
    ensures ColumnSquares(m, j, n) >= 0.0
    ensures ColumnSquares(m, j, n) == 0.0 <==> forall i | 0 <= i < n :: m[i][j] == 0.0
  {
    if n > 0 {
      ColumnSquaresZero(m, j, n - 1);
      SquareOrder(0.0, m[n - 1][j]);
    }
  }

  lemma {:induction false} Extremes(m: Matrix, j: nat, n: nat)
    requires Rectangular(m) && j < |m[0]| && 1 <= n <= |m|
    ensures forall i | 0 <= i < n :: Least(m, j, n) <= m[i][j] <= Greatest(m, j, n)
    ensures exists i :: 0 <= i < n && Least(m, j, n) == m[i][j]
    ensures exists i :: 0 <= i < n && Greatest(m, j, n) == m[i][j]
  {
    if n > 1 { Extremes(m, j, n - 1); }
  }

  /** In every column each entry lies between the ideal and the anti-ideal, on the right side. */
  lemma {:induction false} Bracketed(s: Matrix, i: nat, j: nat)
    requires Rectangular(s) && i < |s| && j < |s[0]|
    ensures if Cost(j) then Ideal(s)[j] <= s[i][j] <= AntiIdeal(s)[j]
            else AntiIdeal(s)[j] <= s[i][j] <= Ideal(s)[j]
  {
    Extremes(s, j, |s|);
  }

  // ---------- Distances ----------

  lemma {:induction false} SquaredDistanceZero(a: seq<real>, b: seq<real>, n: nat)
    requires n <= |a| && n <= |b|
    ensures SquaredDistance(a, b, n) >= 0.0
    ensures SquaredDistance(a, b, n) == 0.0 <==> a[..n] == b[..n]
  {
    if n > 0 {
      SquaredDistanceZero(a, b, n - 1);
      assert a[..n] == a[..n - 1] + [a[n - 1]] && b[..n] == b[..n - 1] + [b[n - 1]];
      SquareOrder(0.0, a[n - 1] - b[n - 1]);
    }
  }

  lemma {:induction false} DistanceZero(sqrt: real -> real, a: seq<real>, b: seq<real>)
    requires IsSqrt(sqrt) && |a| == |b|
    ensures Distance(sqrt, a, b) >= 0.0
    ensures Distance(sqrt, a, b) == 0.0 <==> a == b
  {
    SquaredDistanceZero(a, b, |a|);
    SqrtZero(sqrt, SquaredDistance(a, b, |a|));
    assert a[..|a|] == a && b[..|b|] == b;
  }

  /** Each entry of a lies between the target and the matching entry of b: a is no further away. */
  lemma {:induction false} CloserSquared(a: seq<real>, b: seq<real>, target: seq<real>, n: nat)
    requires |a| == |b| == |target| && n <= |a|
    requires forall j | 0 <= j < |a| :: target[j] <= a[j] <= b[j] || b[j] <= a[j] <= target[j]
    ensures SquaredDistance(a, target, n) <= SquaredDistance(b, target, n)
    ensures a[..n] != b[..n] ==> SquaredDistance(a, target, n) < SquaredDistance(b, target, n)
  {
    if n > 0 {
      CloserSquared(a, b, target, n - 1);
      var p, q := a[n - 1] - target[n - 1], b[n - 1] - target[n - 1];
      SquareOrder(p, q);
      assert SquaredDistance(a, target, n) == SquaredDistance(a, target, n - 1) + p * p;
      assert SquaredDistance(b, target, n) == SquaredDistance(b, target, n - 1) + q * q;
      assert a[..n] == a[..n - 1] + [a[n - 1]] && b[..n] == b[..n - 1] + [b[n - 1]];
    }
  }

  lemma {:induction false} Closer(sqrt: real -> real, a: seq<real>, b: seq<real>, target: seq<real>)
    requires IsSqrt(sqrt) && |a| == |b| == |target|
    requires forall j | 0 <= j < |a| :: target[j] <= a[j] <= b[j] || b[j] <= a[j] <= target[j]
    ensures Distance(sqrt, a, target) <= Distance(sqrt, b, target)
    ensures a != b ==> Distance(sqrt, a, target) < Distance(sqrt, b, target)
  {
    CloserSquared(a, b, target, |a|);
    SquaredDistanceZero(a, target, |a|);
    SqrtMonotone(sqrt, SquaredDistance(a, target, |a|), SquaredDistance(b, target, |b|));
    assert a[..|a|] == a && b[..|b|] == b;
  }

  // ---------- What a distance is ----------

  function Size(x: real): real { if x < 0.0 then -x else x }

  lemma {:induction false} SquaredPrefix(a: seq<real>, b: seq<real>, k: nat, n: nat)
    requires |a| == |b| && n <= k <= |a|
    ensures SquaredDistance(a[..k], b[..k], n) == SquaredDistance(a, b, n)
  {
    if n > 0 { SquaredPrefix(a, b, k, n - 1); }
  }

  lemma {:induction false} SquaredParts(a: seq<real>, b: seq<real>, k: nat, n: nat)
    requires |a| == |b| && k <= n <= |a|
    ensures SquaredDistance(a, b, n) == SquaredDistance(a[..k], b[..k], k) + SquaredDistance(a[k..], b[k..], n - k)
  {
    if n > k { SquaredParts(a, b, k, n - 1); } else { SquaredPrefix(a, b, k, k); }
  }

  lemma DistanceSquare(sqrt: real -> real, a: seq<real>, b: seq<real>)
    requires IsSqrt(sqrt) && |a| == |b|
    ensures Distance(sqrt, a, b) >= 0.0
    ensures Distance(sqrt, a, b) * Distance(sqrt, a, b) == SquaredDistance(a, b, |a|)
  {
    SquaredDistanceZero(a, b, |a|);
  }

  /** On rows of one entry the distance is the absolute difference; over any split of the columns the squares
      of the distances add up. These two laws determine it. */
  lemma {:induction false} DistanceLaws(sqrt: real -> real, a: seq<real>, b: seq<real>, k: nat)
    requires IsSqrt(sqrt) && |a| == |b| && k <= |a|
    ensures |a| == 1 ==> Distance(sqrt, a, b) == Size(a[0] - b[0])
    ensures Distance(sqrt, a, b) * Distance(sqrt, a, b) ==
            Distance(sqrt, a[..k], b[..k]) * Distance(sqrt, a[..k], b[..k]) +
            Distance(sqrt, a[k..], b[k..]) * Distance(sqrt, a[k..], b[k..])
  {
    DistanceSquare(sqrt, a, b);
    DistanceSquare(sqrt, a[..k], b[..k]);
    DistanceSquare(sqrt, a[k..], b[k..]);
    SquaredParts(a, b, k, |a|);
    if |a| == 1 { OneEntry(sqrt, a, b); }
  }

  lemma OneEntry(sqrt: real -> real, a: seq<real>, b: seq<real>)
    requires IsSqrt(sqrt) && |a| == |b| == 1
    ensures Distance(sqrt, a, b) == Size(a[0] - b[0])
  {
    var d := a[0] - b[0];
    assert SquaredDistance(a, b, 0) == 0.0;
    assert SquaredDistance(a, b, 1) == d * d;
    assert Size(d) * Size(d) == d * d;
    SqrtUnique(sqrt, d * d, Size(d));
  }

  /** Minkowski's inequality for two columns. */
  lemma Minkowski(p: real, u: real, q: real, v: real, r: real, s: real)
    requires p >= 0.0 && u >= 0.0 && q >= 0.0 && v >= 0.0 && r >= 0.0 && s >= 0.0
    requires r * r == p * p + u * u && s * s == q * q + v * v
    ensures (p + q) * (p + q) + (u + v) * (u + v) <= (r + s) * (r + s)
  {
    var pq, uv, rs := p * q, u * v, r * s;
    ProductOrder(0.0, p, q);
    ProductOrder(0.0, u, v);
    ProductOrder(0.0, r, s);
    CauchySchwarz(p, u, q, v, r, s);
    if rs < pq + uv { SquareOrderNonNegative(rs, pq + uv); }
    assert (p + q) * (p + q) == p * p + 2.0 * pq + q * q;
    assert (u + v) * (u + v) == u * u + 2.0 * uv + v * v;
    assert (r + s) * (r + s) == r * r + 2.0 * rs + s * s;
  }

  lemma CauchySchwarz(p: real, u: real, q: real, v: real, r: real, s: real)
    requires r * r == p * p + u * u && s * s == q * q + v * v
    ensures (p * q + u * v) * (p * q + u * v) <= (r * s) * (r * s)
  {
    var d := p * v - u * q;
    SquareOrder(0.0, d);
    calc {
      (r * s) * (r * s);
      (r * r) * (s * s);
      (p * p + u * u) * (q * q + v * v);
      (p * q + u * v) * (p * q + u * v) + d * d;
    }
  }

  /** One more column: x, y and z are the differences in it. */
  lemma TriangleStep(p: real, x: real, q: real, y: real, c: real, z: real, r: real, s: real, t: real)
    requires p >= 0.0 && x >= 0.0 && q >= 0.0 && y >= 0.0 && r >= 0.0 && s >= 0.0 && t >= 0.0
    requires r * r == p * p + x * x && s * s == q * q + y * y && t * t == c * c + z * z
    requires 0.0 <= c <= p + q && 0.0 <= z <= x + y
    ensures t <= r + s
  {
    Minkowski(p, x, q, y, r, s);
    SquareOrderNonNegative(c, p + q);
    SquareOrderNonNegative(z, x + y);
    if t > r + s { SquareOrderNonNegative(r + s, t); }
  }

  lemma SizeSquare(x: real)
    ensures Size(x) * Size(x) == x * x
  {
  }

  /** The distance over the first n columns. */
  function Upto(sqrt: real -> real, a: seq<real>, b: seq<real>, n: nat): real
    requires n <= |a| && n <= |b|
  {
    sqrt(SquaredDistance(a, b, n))
  }

  /** d before a column and e after it, where the entries differ by x. */
  lemma {:induction false} UptoStep(sqrt: real -> real, a: seq<real>, b: seq<real>, n: nat)
    returns (d: real, e: real, x: real)
    requires IsSqrt(sqrt) && |a| == |b| && n < |a|
    ensures d == Upto(sqrt, a, b, n) && e == Upto(sqrt, a, b, n + 1) && x == Size(a[n] - b[n])
    ensures d >= 0.0 && e >= 0.0 && x >= 0.0 && e * e == d * d + x * x
  {
    SquaredDistanceZero(a, b, n);
    SquaredDistanceZero(a, b, n + 1);
    SizeSquare(a[n] - b[n]);
    d, e, x := Upto(sqrt, a, b, n), Upto(sqrt, a, b, n + 1), Size(a[n] - b[n]);
  }

  lemma {:induction false} TriangleUpTo(sqrt: real -> real, a: seq<real>, b: seq<real>, c: seq<real>, n: nat)
    requires IsSqrt(sqrt) && |a| == |b| == |c| && n <= |a|
    ensures Upto(sqrt, a, c, n) <= Upto(sqrt, a, b, n) + Upto(sqrt, b, c, n)
  {
    if n == 0 {
      SqrtZero(sqrt, 0.0);
    } else {
      TriangleUpTo(sqrt, a, b, c, n - 1);
      OneColumnMore(sqrt, a, b, c, n - 1);
    }
  }

  lemma {:induction false} OneColumnMore(sqrt: real -> real, a: seq<real>, b: seq<real>, c: seq<real>, m: nat)
    requires IsSqrt(sqrt) && |a| == |b| == |c| && m < |a|
    requires Upto(sqrt, a, c, m) <= Upto(sqrt, a, b, m) + Upto(sqrt, b, c, m)
    ensures Upto(sqrt, a, c, m + 1) <= Upto(sqrt, a, b, m + 1) + Upto(sqrt, b, c, m + 1)
  {
    var p, r, x := UptoStep(sqrt, a, b, m);
    var q, s, y := UptoStep(sqrt, b, c, m);
    var w, t, z := UptoStep(sqrt, a, c, m);
    assert z <= x + y;
    TriangleStep(p, x, q, y, w, z, r, s, t);
  }

  /** The triangle inequality. */
  lemma Triangle(sqrt: real -> real, a: seq<real>, b: seq<real>, c: seq<real>)
    requires IsSqrt(sqrt) && |a| == |b| == |c|
    ensures Distance(sqrt, a, c) <= Distance(sqrt, a, b) + Distance(sqrt, b, c)
  {
    TriangleUpTo(sqrt, a, b, c, |a|);
  }

  // ---------- What a norm is ----------

  lemma {:induction false} SquaresParts(m: Matrix, j: nat, k: nat, n: nat)
    requires Rectangular(m) && j < |m[0]| && 0 < k < |m| && k <= n <= |m|
    ensures Rectangular(m[..k]) && Rectangular(m[k..]) && j < |m[..k][0]| && j < |m[k..][0]|
    ensures ColumnSquares(m, j, n) == ColumnSquares(m[..k], j, k) + ColumnSquares(m[k..], j, n - k)
  {
    if n > k { SquaresParts(m, j, k, n - 1); } else { SquaresPrefix(m, j, k, k); }
  }

  lemma {:induction false} SquaresPrefix(m: Matrix, j: nat, k: nat, n: nat)
    requires Rectangular(m) && j < |m[0]| && 0 < k <= |m| && n <= k
    ensures Rectangular(m[..k]) && j < |m[..k][0]| && ColumnSquares(m[..k], j, n) == ColumnSquares(m, j, n)
  {
    if n > 0 { SquaresPrefix(m, j, k, n - 1); }
  }

  /** The norm of a single entry is its absolute value; over any split of the rows the squares of the norms
      add up. */
  lemma {:induction false} NormLaws(sqrt: real -> real, m: Matrix, j: nat, k: nat)
    requires IsSqrt(sqrt) && Rectangular(m) && j < |m[0]|
    ensures |m| == 1 ==> Norm(sqrt, m, j) == Size(m[0][j])
    ensures 0 < k < |m| ==>
              Rectangular(m[..k]) && Rectangular(m[k..]) && j < |m[..k][0]| && j < |m[k..][0]| &&
              Norm(sqrt, m, j) * Norm(sqrt, m, j) ==
              Norm(sqrt, m[..k], j) * Norm(sqrt, m[..k], j) + Norm(sqrt, m[k..], j) * Norm(sqrt, m[k..], j)
  {
    ColumnSquaresZero(m, j, |m|);
    if |m| == 1 {
      var x := m[0][j];
      assert ColumnSquares(m, j, 0) == 0.0 && ColumnSquares(m, j, 1) == x * x;
      SizeSquare(x);
      SqrtUnique(sqrt, x * x, Size(x));
    }
    if 0 < k < |m| {
      SquaresParts(m, j, k, |m|);
      ColumnSquaresZero(m[..k], j, k);
      ColumnSquaresZero(m[k..], j, |m| - k);
    }
  }

  // ---------- Normalising and weighting ----------

  lemma {:induction false} ScaleOrder(x: real, y: real, n: real, w: real)
    requires n > 0.0 && w > 0.0
    ensures x <= y <==> x / n * w <= y / n * w
    ensures x == y <==> x / n * w == y / n * w
  {
    var p, q := x / n, y / n;
    assert p * n == x && q * n == y;
    if p < q { assert p * n < q * n; assert p * w < q * w; }
    if q < p { assert q * n < p * n; assert q * w < p * w; }
  }

  lemma {:induction false} ScoresFromEntries(sqrt: real -> real, m: Matrix, w: seq<real>, s: Matrix)
    requires Rectangular(m) && NormsNonZero(sqrt, m) && |w| == |m[0]|
    requires |s| == |m| && forall i | 0 <= i < |m| :: |s[i]| == |m[0]|
    requires forall i: nat, k: nat | i < |m| && k < |m[0]| :: s[i][k] == m[i][k] / Norm(sqrt, m, k) * w[k]
    ensures s == Scores(sqrt, m, w)
  {
    var t := Scores(sqrt, m, w);
    forall i: nat | i < |m| ensures s[i] == t[i] {
      forall k: nat | k < |m[0]| ensures s[i][k] == t[i][k] {}
    }
  }

  lemma {:induction false} ScoresOrder(sqrt: real -> real, m: Matrix, w: seq<real>, a: nat, b: nat, j: nat)
    requires WellPosed(sqrt, m, w) && a < |m| && b < |m| && j < |m[0]|
    ensures var s := Scores(sqrt, m, w);
            (m[a][j] <= m[b][j] <==> s[a][j] <= s[b][j]) && (m[a][j] == m[b][j] <==> s[a][j] == s[b][j])
  {
    ColumnSquaresZero(m, j, |m|);
    ScaleOrder(m[a][j], m[b][j], Norm(sqrt, m, j), w[j]);
  }

  /** Weighting keeps rows apart: two score rows agree exactly when the raw rows do. */
  lemma {:induction false} ScoresInjective(sqrt: real -> real, m: Matrix, w: seq<real>, a: nat, b: nat)
    requires WellPosed(sqrt, m, w) && a < |m| && b < |m|
    ensures var s := Scores(sqrt, m, w); s[a] == s[b] <==> m[a] == m[b]
  {
    var s := Scores(sqrt, m, w);
    forall j: nat | j < |m[0]| ensures m[a][j] == m[b][j] <==> s[a][j] == s[b][j] {
      ScoresOrder(sqrt, m, w, a, b, j);
    }
    if s[a] == s[b] { assert forall j | 0 <= j < |m[0]| :: m[a][j] == m[b][j]; }
  }

  // ---------- When calculatePreferences can divide ----------

  /** The divisor of every preference is non-zero if and only if two score rows differ. */
  lemma {:induction false} SpreadZero(sqrt: real -> real, s: Matrix, i: nat)
    requires IsSqrt(sqrt) && Rectangular(s) && i < |s|
    ensures Spread(sqrt, s, i) >= 0.0
    ensures Spread(sqrt, s, i) == 0.0 <==> AllRowsEqual(s)
  {
    DistanceZero(sqrt, s[i], Ideal(s));
    DistanceZero(sqrt, s[i], AntiIdeal(s));
    if s[i] == Ideal(s) == AntiIdeal(s) {
      forall k | 0 <= k < |s| ensures s[k] == s[i] {
        forall j: nat | j < |s[0]| ensures s[k][j] == s[i][j] { Bracketed(s, k, j); }
      }
    }
    if AllRowsEqual(s) {
      forall j: nat | j < |s[0]| ensures Ideal(s)[j] == s[i][j] == AntiIdeal(s)[j] {
        Extremes(s, j, |s|);
      }
      assert Ideal(s) == s[i] == AntiIdeal(s);
    }
  }

  lemma {:induction false} SpreadPositive(sqrt: real -> real, m: Matrix, w: seq<real>, i: nat)
    requires WellPosed(sqrt, m, w) && i < |m|
    ensures Rectangular(Scores(sqrt, m, w))
    ensures Spread(sqrt, Scores(sqrt, m, w), i) > 0.0
  {
    var s := Scores(sqrt, m, w);
    SpreadZero(sqrt, s, i);
    var a, b :| 0 <= a < |m| && 0 <= b < |m| && m[a] != m[b];
    ScoresInjective(sqrt, m, w, a, b);
  }

  // ---------- Main results ----------

  /** Every preference index lies between 0 and 1. */
  lemma {:induction false} PreferenceInUnitInterval(sqrt: real -> real, m: Matrix, w: seq<real>, i: nat)
    requires WellPosed(sqrt, m, w) && i < |m|
    ensures 0.0 <= Preference(sqrt, m, w, i) <= 1.0
  {
    SpreadPositive(sqrt, m, w, i);
    var s := Scores(sqrt, m, w);
    DistanceZero(sqrt, s[i], Ideal(s));
    DistanceZero(sqrt, s[i], AntiIdeal(s));
    RatioBounds(Distance(sqrt, s[i], AntiIdeal(s)), Spread(sqrt, s, i));
  }

  lemma {:induction false} RatioBounds(part: real, whole: real)
    requires 0.0 <= part <= whole && whole > 0.0
    ensures 0.0 <= part / whole <= 1.0
  {
    var r := part / whole;
    assert r * whole == part;
    if r < 0.0 { ProductOrder(r, 0.0, whole); }
    if r > 1.0 { ProductOrder(1.0, r, whole); }
  }

  lemma {:induction false} RatioOrder(i1: real, a1: real, i2: real, a2: real)
    requires i1 >= 0.0 && a2 >= 0.0 && i1 + a1 > 0.0 && i2 + a2 > 0.0
    requires i1 <= i2 && a1 >= a2
    ensures a1 / (i1 + a1) >= a2 / (i2 + a2)
    ensures i1 < i2 && a1 > a2 ==> a1 / (i1 + a1) > a2 / (i2 + a2)
  {
    var r, q := a1 / (i1 + a1), a2 / (i2 + a2);
    var d, e := i1 + a1, i2 + a2;
    assert r * d == a1 && q * e == a2;
    CrossProduct(i1, a1, i2, a2);
    assert a1 * e - a2 * d == a1 * i2 - a2 * i1;
    assert (r - q) * (d * e) == a1 * e - a2 * d by {
      assert r * (d * e) == (r * d) * e;
      assert q * (d * e) == (q * e) * d;
    }
    ProductOrder(0.0, d, e);
    if r < q { ProductOrder(r, q, d * e); }
    if r == q { assert a1 * e == a2 * d; }
  }

  lemma {:induction false} CrossProduct(i1: real, a1: real, i2: real, a2: real)
    requires 0.0 <= i1 <= i2 && 0.0 <= a2 <= a1
    ensures a2 * i1 <= a1 * i2
    ensures i1 < i2 && a2 < a1 ==> a2 * i1 < a1 * i2
  {
    ProductOrder(i1, i2, a2);
    ProductOrder(a2, a1, i2);
  }

  /** In every column the better row lies between the ideal and the worse row, which lies between it and
      the anti-ideal. */
  lemma {:induction false} DominanceBracketed(sqrt: real -> real, m: Matrix, w: seq<real>, a: nat, b: nat, j: nat)
    requires WellPosed(sqrt, m, w) && a < |m| && b < |m| && j < |m[0]|
    requires NoWorse(m[a], m[b])
    ensures var s := Scores(sqrt, m, w);
            Ideal(s)[j] <= s[a][j] <= s[b][j] <= AntiIdeal(s)[j] ||
            AntiIdeal(s)[j] <= s[b][j] <= s[a][j] <= Ideal(s)[j]
  {
    var s := Scores(sqrt, m, w);
    ScoresOrder(sqrt, m, w, a, b, j);
    ScoresOrder(sqrt, m, w, b, a, j);
    Bracketed(s, a, j);
    Bracketed(s, b, j);
  }

  lemma {:induction false} DominanceDistances(sqrt: real -> real, m: Matrix, w: seq<real>, a: nat, b: nat)
    requires WellPosed(sqrt, m, w) && a < |m| && b < |m|
    requires NoWorse(m[a], m[b])
    ensures var s := Scores(sqrt, m, w);
            && Distance(sqrt, s[a], Ideal(s)) <= Distance(sqrt, s[b], Ideal(s))
            && Distance(sqrt, s[a], AntiIdeal(s)) >= Distance(sqrt, s[b], AntiIdeal(s))
            && (m[a] != m[b] ==> Distance(sqrt, s[a], Ideal(s)) < Distance(sqrt, s[b], Ideal(s)))
            && (m[a] != m[b] ==> Distance(sqrt, s[a], AntiIdeal(s)) > Distance(sqrt, s[b], AntiIdeal(s)))
  {
    var s := Scores(sqrt, m, w);
    ScoresInjective(sqrt, m, w, a, b);
    forall j: nat | j < |m[0]|
      ensures Ideal(s)[j] <= s[a][j] <= s[b][j] <= AntiIdeal(s)[j] ||
              AntiIdeal(s)[j] <= s[b][j] <= s[a][j] <= Ideal(s)[j]
    {
      DominanceBracketed(sqrt, m, w, a, b, j);
    }
    Closer(sqrt, s[a], s[b], Ideal(s));
    Closer(sqrt, s[b], s[a], AntiIdeal(s));
  }

  /** Nearer to the ideal and further from the anti-ideal is relatively closer. */
  lemma ClosenessOrder(sqrt: real -> real, s: Matrix, a: nat, b: nat)
    requires IsSqrt(sqrt) && Rectangular(s) && a < |s| && b < |s|
    requires Spread(sqrt, s, a) > 0.0 && Spread(sqrt, s, b) > 0.0
    requires Distance(sqrt, s[a], Ideal(s)) <= Distance(sqrt, s[b], Ideal(s))
    requires Distance(sqrt, s[a], AntiIdeal(s)) >= Distance(sqrt, s[b], AntiIdeal(s))
    ensures Closeness(sqrt, s, a) >= Closeness(sqrt, s, b)
    ensures Distance(sqrt, s[a], Ideal(s)) < Distance(sqrt, s[b], Ideal(s)) &&
            Distance(sqrt, s[a], AntiIdeal(s)) > Distance(sqrt, s[b], AntiIdeal(s)) ==>
            Closeness(sqrt, s, a) > Closeness(sqrt, s, b)
  {
    DistanceZero(sqrt, s[a], Ideal(s));
    DistanceZero(sqrt, s[b], AntiIdeal(s));
    RatioOrder(Distance(sqrt, s[a], Ideal(s)), Distance(sqrt, s[a], AntiIdeal(s)),
               Distance(sqrt, s[b], Ideal(s)), Distance(sqrt, s[b], AntiIdeal(s)));
  }

  /** TOPSIS respects dominance: a replica no worse than another on every criterion scores no lower,
      and scores strictly higher when their measurements differ at all. */
  lemma {:induction false} DominanceRespected(sqrt: real -> real, m: Matrix, w: seq<real>, a: nat, b: nat)
    requires WellPosed(sqrt, m, w) && a < |m| && b < |m|
    requires NoWorse(m[a], m[b])
    ensures Preference(sqrt, m, w, a) >= Preference(sqrt, m, w, b)
    ensures m[a] != m[b] ==> Preference(sqrt, m, w, a) > Preference(sqrt, m, w, b)
  {
    var s := Scores(sqrt, m, w);
    SpreadPositive(sqrt, m, w, a);
    SpreadPositive(sqrt, m, w, b);
    DominanceDistances(sqrt, m, w, a, b);
    ClosenessOrder(sqrt, s, a, b);
  }

  /** The row recorded for a cluster that could not be reached. */
  const UNREACHABLE: seq<real> := [20.0, 0.0, 0.0, 0.0, 1000000.0, 1000000.0]

  /** Criteria weights used by DelegateJob. */
  const WEIGHTS: seq<real> := [1.0, 8.0, 18.0, 65.0, 2.0, 6.0]

  /** A measured cluster whose figures stay within the sentinel's is ranked strictly above every
      unreachable one, unless it measured exactly like the sentinel. */
  lemma {:induction false} UnreachableNeverOutranks(sqrt: real -> real, m: Matrix, a: nat, b: nat)
    requires WellPosed(sqrt, m, WEIGHTS) && a < |m| && b < |m|
    requires m[b] == UNREACHABLE
    requires m[a][0] <= 20.0 && m[a][1] >= 0.0 && m[a][2] >= 0.0 && m[a][3] >= 0.0
    requires m[a][4] <= 1000000.0 && m[a][5] <= 1000000.0
    ensures Preference(sqrt, m, WEIGHTS, a) >= Preference(sqrt, m, WEIGHTS, b)
    ensures m[a] != UNREACHABLE ==> Preference(sqrt, m, WEIGHTS, a) > Preference(sqrt, m, WEIGHTS, b)
  {
    assert |m[a]| == 6;
    DominanceRespected(sqrt, m, WEIGHTS, a, b);
  }

  // ---------- Changing the unit of a criterion ----------

  /** m with column j multiplied by c. */
  function Rescale(m: Matrix, j: nat, c: real): Matrix
    requires Rectangular(m) && j < |m[0]|
  {
    seq(|m|, i requires 0 <= i < |m| => m[i][j := c * m[i][j]])
  }

  /** Columns that differ by a factor have sums of squares that differ by its square. */
  lemma {:induction false} ProportionalSquares(m: Matrix, r: Matrix, k: nat, c: real, n: nat)
    requires Rectangular(m) && Rectangular(r) && k < |m[0]| && k < |r[0]| && n <= |m| && n <= |r|
    requires forall i | 0 <= i < n :: r[i][k] == c * m[i][k]
    ensures ColumnSquares(r, k, n) == c * c * ColumnSquares(m, k, n)
  {
    if n > 0 {
      ProportionalSquares(m, r, k, c, n - 1);
      RescaledSum(c, ColumnSquares(m, k, n - 1), m[n - 1][k], ColumnSquares(r, k, n - 1));
    }
  }

  lemma RescaledSquares(m: Matrix, j: nat, c: real, k: nat)
    requires Rectangular(m) && j < |m[0]| && k < |m[0]|
    ensures ColumnSquares(Rescale(m, j, c), k, |m|) ==
            (if k == j then c * c * ColumnSquares(m, k, |m|) else ColumnSquares(m, k, |m|))
  {
    ProportionalSquares(m, Rescale(m, j, c), k, if k == j then c else 1.0, |m|);
  }

  /** A square factor comes out of the root. */
  lemma {:induction false} SqrtScales(sqrt: real -> real, c: real, q: real)
    requires IsSqrt(sqrt) && c > 0.0 && q >= 0.0
    ensures sqrt(c * c * q) == c * sqrt(q)
  {
    var n := sqrt(q);
    ProductOrder(0.0, n, c);
    SquareOfProduct(c, n, q);
    SqrtUnique(sqrt, c * c * q, c * n);
  }

  lemma {:induction false} RescaledNorm(sqrt: real -> real, m: Matrix, j: nat, c: real, k: nat)
    requires IsSqrt(sqrt) && Rectangular(m) && j < |m[0]| && k < |m[0]| && c > 0.0
    ensures Norm(sqrt, Rescale(m, j, c), k) == (if k == j then c * Norm(sqrt, m, k) else Norm(sqrt, m, k))
  {
    var r, q := Rescale(m, j, c), ColumnSquares(m, k, |m|);
    RescaledSquares(m, j, c, k);
    if k == j {
      var scaled := c * c * q;
      assert ColumnSquares(r, k, |r|) == scaled;
      ColumnSquaresZero(m, k, |m|);
      SqrtScales(sqrt, c, q);
      assert sqrt(scaled) == c * sqrt(q);
    }
  }

  lemma {:induction false} CancelFactor(x: real, n: real, c: real)
    requires n != 0.0 && c > 0.0
    ensures c * n != 0.0 && (c * x) / (c * n) == x / n
  {
    var q := x / n;
    assert q * n == x;
    assert q * (c * n) == c * (q * n);
  }

  lemma {:induction false} RescaledEntry(sqrt: real -> real, m: Matrix, j: nat, c: real, i: nat, k: nat)
    requires IsSqrt(sqrt) && Rectangular(m) && NormsNonZero(sqrt, m)
    requires j < |m[0]| && k < |m[0]| && i < |m| && c > 0.0
    ensures var r := Rescale(m, j, c);
            Norm(sqrt, r, k) != 0.0 && r[i][k] / Norm(sqrt, r, k) == m[i][k] / Norm(sqrt, m, k)
  {
    RescaledNorm(sqrt, m, j, c, k);
    var r, x, n := Rescale(m, j, c), m[i][k], Norm(sqrt, m, k);
    var y, p := r[i][k], Norm(sqrt, r, k);
    if k == j {
      CancelFactor(x, n, c);
      assert y == c * x && p == c * n;
    } else {
      assert y == x && p == n;
    }
  }

  lemma {:induction false} ScaleApart(x: real, y: real, c: real)
    requires x != y && c > 0.0
    ensures c * x != c * y
  {
    assert c * x == x * c && c * y == y * c;
    if x < y { ProductOrder(x, y, c); } else { ProductOrder(y, x, c); }
  }

  lemma {:induction false} RescaledRowsDiffer(m: Matrix, j: nat, c: real, a: nat, b: nat)
    requires Rectangular(m) && j < |m[0]| && c > 0.0 && a < |m| && b < |m| && m[a] != m[b]
    ensures Rescale(m, j, c)[a] != Rescale(m, j, c)[b]
  {
    var r := Rescale(m, j, c);
    var k :| 0 <= k < |m[0]| && m[a][k] != m[b][k];
    ScaleApart(m[a][k], m[b][k], c);
    assert r[a][k] == if k == j then c * m[a][k] else m[a][k];
    assert r[b][k] == if k == j then c * m[b][k] else m[b][k];
  }

  lemma {:induction false} RescaledScores(sqrt: real -> real, m: Matrix, w: seq<real>, j: nat, c: real)
    requires WellPosed(sqrt, m, w) && j < |m[0]| && c > 0.0
    ensures var r := Rescale(m, j, c);
            NormsNonZero(sqrt, r) && Scores(sqrt, r, w) == Scores(sqrt, m, w)
  {
    var r := Rescale(m, j, c);
    forall k: nat | k < |m[0]| ensures Norm(sqrt, r, k) != 0.0 { RescaledEntry(sqrt, m, j, c, 0, k); }
    var s := Scores(sqrt, r, w);
    forall i: nat, k: nat | i < |m| && k < |m[0]| ensures s[i][k] == m[i][k] / Norm(sqrt, m, k) * w[k] {
      RescaledEntry(sqrt, m, j, c, i, k);
    }
    ScoresFromEntries(sqrt, m, w, s);
  }

  /** Multiplying a criterion by a positive constant changes no score, hence no preference and no
      ranking: the unit a criterion is measured in does not matter. */
  lemma {:induction false} UnitIndependence(sqrt: real -> real, m: Matrix, w: seq<real>, j: nat, c: real)
    requires WellPosed(sqrt, m, w) && j < |m[0]| && c > 0.0
    ensures WellPosed(sqrt, Rescale(m, j, c), w)
    ensures forall i: nat | i < |m| :: Preference(sqrt, Rescale(m, j, c), w, i) == Preference(sqrt, m, w, i)
  {
    var a, b :| 0 <= a < |m| && 0 <= b < |m| && m[a] != m[b];
    RescaledRowsDiffer(m, j, c, a, b);
    RescaledScores(sqrt, m, w, j, c);
  }

  // ---------- Numbers and NaN ----------

  /** A float64: a number, or NaN. No operation here yields an infinity. */
  datatype Float = Num(value: real) | NaN

  type FloatMatrix = seq<seq<Float>>

  function Add(x: Float, y: Float): Float { if x.Num? && y.Num? then Num(x.value + y.value) else NaN }

  function Sub(x: Float, y: Float): Float { if x.Num? && y.Num? then Num(x.value - y.value) else NaN }

  function Mul(x: Float, y: Float): Float { if x.Num? && y.Num? then Num(x.value * y.value) else NaN }

  /** Zero divided by zero is NaN; nothing else may be divided by zero. */
  function Div(x: Float, y: Float): Float
    requires y == Num(0.0) ==> x == Num(0.0) || x.NaN?
  {
    if x.Num? && y.Num? && y.value != 0.0 then Num(x.value / y.value) else NaN
  }

  function Root(sqrt: real -> real, x: Float): Float { if x.Num? then Num(sqrt(x.value)) else NaN }

  /** Comparisons with NaN are false. */
  predicate Lt(x: Float, y: Float) { x.Num? && y.Num? && x.value < y.value }

  predicate Table(m: FloatMatrix) { |m| > 0 && forall i | 0 <= i < |m| :: |m[i]| == |m[0]| }

  /** What the comparison loop leaves: NaN sticks when it comes first and is skipped later. */
  function LeastFloat(m: FloatMatrix, j: nat, n: nat): Float
    requires Table(m) && j < |m[0]| && 1 <= n <= |m|
  {
    if n == 1 then m[0][j] else
      var rest := LeastFloat(m, j, n - 1);
      if Lt(m[n - 1][j], rest) then m[n - 1][j] else rest
  }

  function GreatestFloat(m: FloatMatrix, j: nat, n: nat): Float
    requires Table(m) && j < |m[0]| && 1 <= n <= |m|
  {
    if n == 1 then m[0][j] else
      var rest := GreatestFloat(m, j, n - 1);
      if Lt(rest, m[n - 1][j]) then m[n - 1][j] else rest
  }

  function IdealFloat(m: FloatMatrix): seq<Float>
    requires Table(m)
  {
    seq(|m[0]|, j requires 0 <= j < |m[0]| => if Cost(j) then LeastFloat(m, j, |m|) else GreatestFloat(m, j, |m|))
  }

  function AntiIdealFloat(m: FloatMatrix): seq<Float>
    requires Table(m)
  {
    seq(|m[0]|, j requires 0 <= j < |m[0]| => if Cost(j) then GreatestFloat(m, j, |m|) else LeastFloat(m, j, |m|))
  }

  predicate Numeric(row: seq<Float>) { forall j | 0 <= j < |row| :: row[j].Num? }

  function Values(row: seq<Float>): seq<real>
    requires Numeric(row)
  {
    seq(|row|, j requires 0 <= j < |row| => row[j].value)
  }

  /** The distance is a number exactly when both rows are numeric. */
  function DistanceFloat(sqrt: real -> real, a: seq<Float>, b: seq<Float>): Float
    requires |a| == |b|
  {
    if Numeric(a) && Numeric(b) then Num(Distance(sqrt, Values(a), Values(b))) else NaN
  }

  function ClosenessFloat(ideal: Float, antiIdeal: Float): Float {
    if ideal.Num? && antiIdeal.Num? && ideal.value + antiIdeal.value != 0.0
    then Num(antiIdeal.value / (ideal.value + antiIdeal.value)) else NaN
  }

  function Lift(m: Matrix): FloatMatrix { seq(|m|, i requires 0 <= i < |m| => LiftRow(m[i])) }

  function LiftRow(row: seq<real>): seq<Float> { seq(|row|, j requires 0 <= j < |row| => Num(row[j])) }

  lemma {:induction false} LiftedExtremes(m: Matrix, j: nat, n: nat)
    requires Rectangular(m) && j < |m[0]| && 1 <= n <= |m|
    ensures Table(Lift(m)) && j < |Lift(m)[0]|
    ensures LeastFloat(Lift(m), j, n) == Num(Least(m, j, n))
    ensures GreatestFloat(Lift(m), j, n) == Num(Greatest(m, j, n))
  {
    if n > 1 { LiftedExtremes(m, j, n - 1); }
  }

  lemma LiftedSolutions(m: Matrix)
    requires Rectangular(m)
    ensures Table(Lift(m)) && IdealFloat(Lift(m)) == LiftRow(Ideal(m))
    ensures AntiIdealFloat(Lift(m)) == LiftRow(AntiIdeal(m))
  {
    forall j: nat | j < |m[0]|
      ensures IdealFloat(Lift(m))[j] == LiftRow(Ideal(m))[j] && AntiIdealFloat(Lift(m))[j] == LiftRow(AntiIdeal(m))[j]
    {
      LiftedExtremes(m, j, |m|);
    }
  }

  // ---------- When the result is a number ----------

  predicate ZeroColumn(m: Matrix, j: nat)
    requires Rectangular(m) && j < |m[0]|
  {
    forall i | 0 <= i < |m| :: m[i][j] == 0.0
  }

  /** A column's norm is zero if and only if all its entries are. */
  lemma NormZero(sqrt: real -> real, m: Matrix, j: nat)
    requires IsSqrt(sqrt) && Rectangular(m) && j < |m[0]|
    ensures Norm(sqrt, m, j) == 0.0 <==> ZeroColumn(m, j)
  {
    ColumnSquaresZero(m, j, |m|);
    SqrtZero(sqrt, ColumnSquares(m, j, |m|));
  }

  /** No criterion is zero everywhere, and two replicas differ: what a caller can check beforehand. */
  predicate Informative(m: Matrix)
    requires Rectangular(m)
  {
    (forall j: nat | j < |m[0]| :: !ZeroColumn(m, j)) && !AllRowsEqual(m)
  }

  lemma InformativeIsWellPosed(sqrt: real -> real, m: Matrix, w: seq<real>)
    requires IsSqrt(sqrt) && Rectangular(m) && |w| == |m[0]| && Positive(w)
    ensures WellPosed(sqrt, m, w) <==> Informative(m)
  {
    forall j: nat | j < |m[0]| ensures Norm(sqrt, m, j) == 0.0 <==> ZeroColumn(m, j) {
      NormZero(sqrt, m, j);
    }
  }

  /** One preference as the code computes it from the weighted matrix s. */
  function PreferenceFloat(sqrt: real -> real, s: FloatMatrix, i: nat): Float
    requires Table(s) && i < |s|
  {
    ClosenessFloat(DistanceFloat(sqrt, s[i], IdealFloat(s)), DistanceFloat(sqrt, s[i], AntiIdealFloat(s)))
  }

  lemma LiftedPreference(sqrt: real -> real, s: Matrix, i: nat)
    requires Rectangular(s) && i < |s|
    ensures Table(Lift(s))
    ensures PreferenceFloat(sqrt, Lift(s), i) ==
            if Spread(sqrt, s, i) != 0.0 then Num(Closeness(sqrt, s, i)) else NaN
  {
    LiftedSolutions(s);
    assert Values(LiftRow(s[i])) == s[i];
    assert Values(LiftRow(Ideal(s))) == Ideal(s) && Values(LiftRow(AntiIdeal(s))) == AntiIdeal(s);
  }

  /** The weighted normalised matrix as the code computes it. */
  function ScoreFloat(sqrt: real -> real, m: Matrix, w: seq<real>, i: nat, j: nat): Float
    requires Rectangular(m) && |w| == |m[0]| && i < |m| && j < |m[0]|
  {
    if Norm(sqrt, m, j) == 0.0 then NaN else Num(m[i][j] / Norm(sqrt, m, j) * w[j])
  }

  ghost predicate IsWeighted(sqrt: real -> real, m: Matrix, w: seq<real>, s: FloatMatrix) {
    && Rectangular(m) && |w| == |m[0]| && |s| == |m| && (forall i | 0 <= i < |m| :: |s[i]| == |m[0]|)
    && forall i: nat, j: nat | i < |m| && j < |m[0]| :: s[i][j] == ScoreFloat(sqrt, m, w, i, j)
  }

  lemma NumericScores(sqrt: real -> real, m: Matrix, w: seq<real>, s: FloatMatrix)
    requires IsWeighted(sqrt, m, w, s) && NormsNonZero(sqrt, m)
    ensures s == Lift(Scores(sqrt, m, w))
  {
    var t := Lift(Scores(sqrt, m, w));
    forall i: nat | i < |m| ensures s[i] == t[i] {
      forall j: nat | j < |m[0]| ensures s[i][j] == t[i][j] {}
    }
  }

  /** The code returns the preference as a number if and only if the matrix is informative; otherwise every
      replica gets NaN. */
  lemma NumberExactly(sqrt: real -> real, m: Matrix, w: seq<real>, s: FloatMatrix, i: nat)
    requires IsSqrt(sqrt) && IsWeighted(sqrt, m, w, s) && Positive(w) && i < |m|
    ensures WellPosed(sqrt, m, w) <==> Informative(m)
    ensures PreferenceFloat(sqrt, s, i) == if Informative(m) then Num(Preference(sqrt, m, w, i)) else NaN
  {
    InformativeIsWellPosed(sqrt, m, w);
    if NormsNonZero(sqrt, m) {
      NumericScores(sqrt, m, w, s);
      LiftedPreference(sqrt, Scores(sqrt, m, w), i);
      SpreadZero(sqrt, Scores(sqrt, m, w), i);
      if !AllRowsEqual(m) { SpreadPositive(sqrt, m, w, i); }
    } else {
      var j: nat :| j < |m[0]| && Norm(sqrt, m, j) == 0.0;
      assert s[i][j] == ScoreFloat(sqrt, m, w, i, j);
    }
  }

  /** The preference is the share of the distance from the worst values in the two distances from the best
      and the worst ones, taken on the normalised and weighted rows. */
  lemma PreferenceExactly(sqrt: real -> real, m: Matrix, w: seq<real>, i: nat)
    requires WellPosed(sqrt, m, w) && i < |m|
    ensures var s := Scores(sqrt, m, w);
            Preference(sqrt, m, w, i) * (Distance(sqrt, s[i], Ideal(s)) + Distance(sqrt, s[i], AntiIdeal(s))) ==
            Distance(sqrt, s[i], AntiIdeal(s))
  {
    SpreadPositive(sqrt, m, w, i);
    var s := Scores(sqrt, m, w);
    Quotient(Distance(sqrt, s[i], AntiIdeal(s)), Spread(sqrt, s, i));
  }

  lemma PreferencesOrdered(sqrt: real -> real, m: Matrix, w: seq<real>)
    requires WellPosed(sqrt, m, w)
    ensures forall i: nat | i < |m| :: 0.0 <= Preference(sqrt, m, w, i) <= 1.0
    ensures forall a: nat, b: nat | a < |m| && b < |m| && NoWorse(m[a], m[b]) ::
              Preference(sqrt, m, w, a) >= Preference(sqrt, m, w, b)
  {
    forall i: nat | i < |m| ensures 0.0 <= Preference(sqrt, m, w, i) <= 1.0 {
      PreferenceInUnitInterval(sqrt, m, w, i);
    }
    forall a: nat, b: nat | a < |m| && b < |m| && NoWorse(m[a], m[b])
      ensures Preference(sqrt, m, w, a) >= Preference(sqrt, m, w, b)
    {
      DominanceRespected(sqrt, m, w, a, b);
    }
  }

  // ---------- The code ----------

  /** normalizeMatrix: divides every column by its norm; a column of zeros becomes NaN. */
  method NormalizeMatrix(sqrt: real -> real, matrix: Matrix) returns (normalized: FloatMatrix)
    requires IsSqrt(sqrt) && Rectangular(matrix)
    ensures |normalized| == |matrix| && forall i | 0 <= i < |matrix| :: |normalized[i]| == |matrix[i]|
    ensures forall i: nat, j: nat | i < |matrix| && j < |matrix[0]| :: normalized[i][j] ==
              if Norm(sqrt, matrix, j) == 0.0 then NaN else Num(matrix[i][j] / Norm(sqrt, matrix, j))
  {
    var rows, cols := |matrix|, |matrix[0]|;
    normalized := seq(rows, _ => seq(cols, _ => Num(0.0)));
    for j := 0 to cols
      invariant |normalized| == rows && forall i | 0 <= i < rows :: |normalized[i]| == cols
      invariant forall i: nat, k: nat | i < rows && k < j :: normalized[i][k] == Normalised(sqrt, matrix, i, k)
    {
      var add := 0.0;
      for i := 0 to rows
        invariant add == ColumnSquares(matrix, j, i)
      {
        add := add + matrix[i][j] * matrix[i][j];
      }
      var norm := sqrt(add);
      assert norm == Norm(sqrt, matrix, j);
      NormZero(sqrt, matrix, j);
      for i := 0 to rows
        invariant |normalized| == rows && forall k | 0 <= k < rows :: |normalized[k]| == cols
        invariant forall r: nat, k: nat | r < rows && k < j :: normalized[r][k] == Normalised(sqrt, matrix, r, k)
        invariant forall r: nat | r < i :: normalized[r][j] == Normalised(sqrt, matrix, r, j)
      {
        normalized := normalized[i := normalized[i][j := Div(Num(matrix[i][j]), Num(norm))]];
      }
    }
  }

  function Normalised(sqrt: real -> real, m: Matrix, i: nat, j: nat): Float
    requires Rectangular(m) && i < |m| && j < |m[0]|
  {
    if Norm(sqrt, m, j) == 0.0 then NaN else Num(m[i][j] / Norm(sqrt, m, j))
  }

  /** weightMatrix: multiplies every column by its weight. */
  method WeightMatrix(matrix: FloatMatrix, weight: seq<real>) returns (weighted: FloatMatrix)
    requires Table(matrix) && |weight| == |matrix[0]|
    ensures |weighted| == |matrix| && forall i | 0 <= i < |matrix| :: |weighted[i]| == |matrix[i]|
    ensures forall i: nat, j: nat | i < |matrix| && j < |matrix[0]| ::
              weighted[i][j] == Mul(matrix[i][j], Num(weight[j]))
  {
    weighted := [];
    for i := 0 to |matrix|
      invariant |weighted| == i && forall r | 0 <= r < i :: |weighted[r]| == |matrix[r]|
      invariant forall r: nat, k: nat | r < i && k < |matrix[0]| :: weighted[r][k] == Mul(matrix[r][k], Num(weight[k]))
    {
      var row := [];
      for j := 0 to |matrix[0]|
        invariant |row| == j && forall k | 0 <= k < j :: row[k] == Mul(matrix[i][k], Num(weight[k]))
      {
        row := row + [Mul(matrix[i][j], Num(weight[j]))];
      }
      weighted := weighted + [row];
    }
  }

  predicate NumericColumn(m: FloatMatrix, j: nat)
    requires Table(m) && j < |m[0]|
  {
    forall i | 0 <= i < |m| :: m[i][j].Num?
  }

  /** x is the least, or the greatest, entry of column j. */
  predicate IsLeast(m: FloatMatrix, j: nat, x: Float)
    requires Table(m) && j < |m[0]|
  {
    (exists i | 0 <= i < |m| :: m[i][j] == x) && forall i | 0 <= i < |m| :: !Lt(m[i][j], x)
  }

  predicate IsGreatest(m: FloatMatrix, j: nat, x: Float)
    requires Table(m) && j < |m[0]|
  {
    (exists i | 0 <= i < |m| :: m[i][j] == x) && forall i | 0 <= i < |m| :: !Lt(x, m[i][j])
  }

  lemma {:induction false} FloatExtremes(m: FloatMatrix, j: nat, n: nat)
    requires Table(m) && j < |m[0]| && NumericColumn(m, j) && 1 <= n <= |m|
    ensures exists i :: 0 <= i < n && m[i][j] == LeastFloat(m, j, n)
    ensures exists i :: 0 <= i < n && m[i][j] == GreatestFloat(m, j, n)
    ensures forall i | 0 <= i < n :: !Lt(m[i][j], LeastFloat(m, j, n)) && !Lt(GreatestFloat(m, j, n), m[i][j])
  {
    if n > 1 { FloatExtremes(m, j, n - 1); }
  }

  /** calculateSolutions: the best and the worst value of every criterion. */
  method CalculateSolutions(matrix: FloatMatrix) returns (ideal: seq<Float>, antiIdeal: seq<Float>)
    requires Table(matrix)
    ensures ideal == IdealFloat(matrix) && antiIdeal == AntiIdealFloat(matrix)
    ensures forall j | 0 <= j < |matrix[0]| && NumericColumn(matrix, j) ::
              if j == 0 || j == 4 || j == 5
              then IsLeast(matrix, j, ideal[j]) && IsGreatest(matrix, j, antiIdeal[j])
              else IsGreatest(matrix, j, ideal[j]) && IsLeast(matrix, j, antiIdeal[j])
  {
    ideal, antiIdeal := [], [];
    for j := 0 to |matrix[0]|
      invariant |ideal| == |antiIdeal| == j
      invariant ideal == IdealFloat(matrix)[..j] && antiIdeal == AntiIdealFloat(matrix)[..j]
    {
      var best, worst := matrix[0][j], matrix[0][j];
      for i := 0 to |matrix|
        invariant i == 0 ==> best == worst == matrix[0][j]
        invariant i > 0 && Cost(j) ==> best == LeastFloat(matrix, j, i) && worst == GreatestFloat(matrix, j, i)
        invariant i > 0 && !Cost(j) ==> best == GreatestFloat(matrix, j, i) && worst == LeastFloat(matrix, j, i)
      {
        if Cost(j) {
          if Lt(matrix[i][j], best) { best := matrix[i][j]; }
          if Lt(worst, matrix[i][j]) { worst := matrix[i][j]; }
        } else {
          if Lt(best, matrix[i][j]) { best := matrix[i][j]; }
          if Lt(matrix[i][j], worst) { worst := matrix[i][j]; }
        }
      }
      ideal, antiIdeal := ideal + [best], antiIdeal + [worst];
    }
    forall j: nat | j < |matrix[0]| && NumericColumn(matrix, j)
      ensures IsLeast(matrix, j, LeastFloat(matrix, j, |matrix|))
      ensures IsGreatest(matrix, j, GreatestFloat(matrix, j, |matrix|))
    {
      FloatExtremes(matrix, j, |matrix|);
    }
  }

  /** The running sum of calculateDistance: a number while both rows are numeric so far. */
  function SquaredFloat(a: seq<Float>, b: seq<Float>, n: nat): Float
    requires n <= |a| && n <= |b|
  {
    if n == 0 then Num(0.0)
    else Add(SquaredFloat(a, b, n - 1), Mul(Sub(a[n - 1], b[n - 1]), Sub(a[n - 1], b[n - 1])))
  }

  lemma {:induction false} SquaredFloatIs(a: seq<Float>, b: seq<Float>, n: nat)
    requires |a| == |b| && n <= |a|
    ensures SquaredFloat(a, b, n).Num? <==> forall i | 0 <= i < n :: a[i].Num? && b[i].Num?
    ensures Numeric(a) && Numeric(b) ==> SquaredFloat(a, b, n) == Num(SquaredDistance(Values(a), Values(b), n))
  {
    if n > 0 {
      SquaredFloatIs(a, b, n - 1);
      var d := Sub(a[n - 1], b[n - 1]);
      assert SquaredFloat(a, b, n) == Add(SquaredFloat(a, b, n - 1), Mul(d, d));
    }
  }

  /** The square of the distance d of two rows is the sum of the squares over a split of the columns. */
  predicate Additive(sqrt: real -> real, a: seq<Float>, b: seq<Float>, k: nat, d: Float)
    requires |a| == |b| && k <= |a|
  {
    var left, right := DistanceFloat(sqrt, a[..k], b[..k]), DistanceFloat(sqrt, a[k..], b[k..]);
    d.Num? ==> d.value >= 0.0 && left.Num? && right.Num? &&
               d.value * d.value == left.value * left.value + right.value * right.value
  }

  lemma ValuesParts(row: seq<Float>, k: nat)
    requires Numeric(row) && k <= |row|
    ensures Numeric(row[..k]) && Values(row[..k]) == Values(row)[..k]
    ensures Numeric(row[k..]) && Values(row[k..]) == Values(row)[k..]
  {
  }

  lemma {:induction false} FloatParts(sqrt: real -> real, a: seq<Float>, b: seq<Float>, k: nat)
    requires IsSqrt(sqrt) && |a| == |b| && k <= |a| && Numeric(a) && Numeric(b)
    ensures Additive(sqrt, a, b, k, DistanceFloat(sqrt, a, b))
  {
    var x, y := Values(a), Values(b);
    ValuesParts(a, k);
    ValuesParts(b, k);
    DistanceLaws(sqrt, x, y, k);
    DistanceSquare(sqrt, x, y);
  }

  /** calculateDistance: the Euclidean distance, NaN as soon as an entry is. */
  method CalculateDistance(sqrt: real -> real, alternative: seq<Float>, solution: seq<Float>) returns (d: Float)
    requires IsSqrt(sqrt) && |alternative| == |solution|
    ensures d == DistanceFloat(sqrt, alternative, solution)
    ensures d.Num? <==> Numeric(alternative) && Numeric(solution)
    ensures d.Num? && |alternative| == 1 ==> d.value == Size(alternative[0].value - solution[0].value)
    ensures forall k | 0 <= k <= |alternative| :: Additive(sqrt, alternative, solution, k, d)
  {
    var add := Num(0.0);
    for i := 0 to |alternative|
      invariant add == SquaredFloat(alternative, solution, i)
    {
      add := Add(add, Mul(Sub(alternative[i], solution[i]), Sub(alternative[i], solution[i])));
    }
    d := Root(sqrt, add);
    SquaredFloatIs(alternative, solution, |alternative|);
    assert alternative[..|alternative|] == alternative && solution[..|solution|] == solution;
    if d.Num? {
      DistanceLaws(sqrt, Values(alternative), Values(solution), 0);
      forall k | 0 <= k <= |alternative| ensures Additive(sqrt, alternative, solution, k, d) {
        FloatParts(sqrt, alternative, solution, k);
      }
    }
  }

  lemma DistanceFloatNonNegative(sqrt: real -> real, a: seq<Float>, b: seq<Float>)
    requires IsSqrt(sqrt) && |a| == |b|
    ensures DistanceFloat(sqrt, a, b).Num? ==> DistanceFloat(sqrt, a, b).value >= 0.0
  {
    if Numeric(a) && Numeric(b) { DistanceZero(sqrt, Values(a), Values(b)); }
  }

  /** p is a number exactly when d and e are and do not add up to zero; times their sum it is e. */
  predicate IsShare(p: Float, d: Float, e: Float) {
    (p.Num? <==> d.Num? && e.Num? && d.value + e.value != 0.0) && (p.Num? ==> p.value * (d.value + e.value) == e.value)
  }

  lemma ShareOf(d: Float, e: Float)
    ensures IsShare(ClosenessFloat(d, e), d, e)
  {
    if d.Num? && e.Num? && d.value + e.value != 0.0 { Quotient(e.value, d.value + e.value); }
  }

  lemma Quotient(x: real, y: real)
    requires y != 0.0
    ensures x / y * y == x
  {
  }

  /** calculatePreferences: relative closeness to the ideal of every row, NaN when it is zero over zero. */
  method CalculatePreferences(sqrt: real -> real, matrix: FloatMatrix, ideal: seq<Float>, antiIdeal: seq<Float>)
    returns (preferences: seq<Float>)
    requires IsSqrt(sqrt) && Table(matrix) && |ideal| == |antiIdeal| == |matrix[0]|
    ensures |preferences| == |matrix|
    ensures forall i: nat | i < |matrix| :: preferences[i] ==
              ClosenessFloat(DistanceFloat(sqrt, matrix[i], ideal), DistanceFloat(sqrt, matrix[i], antiIdeal))
    ensures forall i: nat | i < |matrix| ::
              IsShare(preferences[i], DistanceFloat(sqrt, matrix[i], ideal), DistanceFloat(sqrt, matrix[i], antiIdeal))
  {
    preferences := [];
    for i := 0 to |matrix|
      invariant |preferences| == i
      invariant forall k: nat | k < i :: preferences[k] ==
                  ClosenessFloat(DistanceFloat(sqrt, matrix[k], ideal), DistanceFloat(sqrt, matrix[k], antiIdeal))
    {
      var distanceIdeal := CalculateDistance(sqrt, matrix[i], ideal);
      var distanceAntiIdeal := CalculateDistance(sqrt, matrix[i], antiIdeal);
      DistanceFloatNonNegative(sqrt, matrix[i], ideal);
      DistanceFloatNonNegative(sqrt, matrix[i], antiIdeal);
      preferences := preferences + [Div(distanceAntiIdeal, Add(distanceIdeal, distanceAntiIdeal))];
    }
    forall i: nat | i < |matrix|
      ensures IsShare(preferences[i], DistanceFloat(sqrt, matrix[i], ideal), DistanceFloat(sqrt, matrix[i], antiIdeal))
    {
      ShareOf(DistanceFloat(sqrt, matrix[i], ideal), DistanceFloat(sqrt, matrix[i], antiIdeal));
    }
  }

  /** topsisMethod: on an informative matrix one preference index per replica, each between 0 and 1, in
      dominance order; on any other matrix every preference is NaN. */
  method TopsisMethod(sqrt: real -> real, results: Matrix, weight: seq<real>) returns (preferences: seq<Float>)
    requires IsSqrt(sqrt) && Rectangular(results) && |weight| == |results[0]| && Positive(weight)
    ensures |preferences| == |results|
    ensures WellPosed(sqrt, results, weight) <==> Informative(results)
    ensures !Informative(results) ==> forall i: nat | i < |results| :: preferences[i] == NaN
    ensures Informative(results) ==> forall i: nat | i < |results| ::
              preferences[i] == Num(Preference(sqrt, results, weight, i)) && 0.0 <= preferences[i].value <= 1.0
    ensures Informative(results) ==>
              forall a: nat, b: nat | a < |results| && b < |results| && NoWorse(results[a], results[b]) ::
                preferences[a].Num? && preferences[b].Num? && preferences[a].value >= preferences[b].value
  {
    var matrixNormalized := NormalizeMatrix(sqrt, results);
    var matrixWeighted := WeightMatrix(matrixNormalized, weight);
    forall i: nat, j: nat | i < |results| && j < |results[0]|
      ensures matrixWeighted[i][j] == ScoreFloat(sqrt, results, weight, i, j)
    {
      assert matrixWeighted[i][j] == Mul(matrixNormalized[i][j], Num(weight[j]));
    }
    var ideal, antiIdeal := CalculateSolutions(matrixWeighted);
    preferences := CalculatePreferences(sqrt, matrixWeighted, ideal, antiIdeal);
    InformativeIsWellPosed(sqrt, results, weight);
    forall i: nat | i < |results|
      ensures preferences[i] == if Informative(results) then Num(Preference(sqrt, results, weight, i)) else NaN
    {
      NumberExactly(sqrt, results, weight, matrixWeighted, i);
    }
    if Informative(results) { PreferencesOrdered(sqrt, results, weight); }
  }
}
