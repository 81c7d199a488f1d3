/** The parking detector's filter (parking_monitor/kalman_filter.c) over exact reals. */
module Kalman {

  const MAX_BUF_LEN := 100

  const Q := 0.01
  const R := 10.0
  const GRAVITY := 9.8

  // ---- one filter step ----

  /** The gain the next sample gets, from the variance P left by the last one. */
  function Gain(p: real): real
    requires p > 0.0
  {
    (p + Q) / (p + Q + R)
  }

  function Estimate(p: real, y: real, u: real): real
    requires p > 0.0
  {
    y + Gain(p) * (u - y)
  }

  function Shrunk(p: real): (r: real)
    requires p > 0.0
  {
    (1.0 - Gain(p)) * (p + Q)
  }

  /** P is above the filter's fixed point, the positive root of p * p + Q * p == R * Q. */
  predicate AboveFixpoint(p: real) {
    p > 0.0 && p * p + Q * p > R * Q
  }

  lemma Quotient(a: real, b: real, c: real)
    requires b > 0.0 && c == a / b
    ensures c * b == a
  {
  }

  lemma Monotone(a: real, x: real, y: real)
    requires a >= 0.0 && x <= y
    ensures x * a <= y * a
  {
  }

  lemma TimesPositive(a: real, b: real)
    requires a > 0.0 && b > 0.0
    ensures a * b > 0.0
  {
  }

  lemma PositiveFactor(a: real, b: real)
    requires a * b > 0.0 && b > 0.0
    ensures a > 0.0
  {
    if a <= 0.0 {
      Monotone(b, a, 0.0);
    }
  }

  /** The gain lies strictly between Q / (Q + R) and 1. */
  lemma GainBounds(p: real)
    requires p > 0.0
    ensures Q / (Q + R) < Gain(p) < 1.0
  {
    var k, s, g := Gain(p), p + Q, Q / (Q + R);
    Quotient(s, s + R, k);
    Quotient(Q, Q + R, g);
    assert (1.0 - k) * (s + R) == R;
    PositiveFactor(1.0 - k, s + R);
    assert (k - g) * (s + R) == p * (1.0 - g) by {
      assert k * (s + R) == s && g * (s + R) == g * (Q + R) + g * p;
    }
    TimesPositive(p, 1.0 - g);
    PositiveFactor(k - g, s + R);
  }

  /** Shrinking is strict, and never reaches the fixed point. */
  lemma ShrunkStaysAbove(p: real)
    requires AboveFixpoint(p)
    ensures AboveFixpoint(Shrunk(p)) && Shrunk(p) < p
  {
    var k, s, r := Gain(p), p + Q, Shrunk(p);
    var d := s + R;
    Quotient(s, d, k);
    assert (1.0 - k) * d == R;
    assert r * d == R * s by {
      assert r * d == ((1.0 - k) * d) * s;
    }
    TimesPositive(R, s);
    PositiveFactor(r, d);
    assert (p - r) * d == p * p + Q * p - R * Q;
    PositiveFactor(p - r, d);
    var excess := r * r + Q * r - R * Q;
    assert (excess * d) * d == R * (R * (s * (s - Q) - Q * R)) by {
      Squares(r, d, s);
    }
    TimesPositive(R, R * (s * (s - Q) - Q * R));
    PositiveFactor(excess * d, d);
    PositiveFactor(excess, d);
  }

  lemma Squares(r: real, d: real, s: real)
    requires r * d == R * s && d == s + R
    ensures ((r * r + Q * r - R * Q) * d) * d == R * (R * (s * (s - Q) - Q * R))
  {
    assert ((r * r) * d) * d == (r * d) * (r * d) == (R * s) * (R * s) == 100.0 * (s * s);
    assert (r * d) * d == (R * s) * (s + R) == 10.0 * (s * s) + 100.0 * s;
    assert d * d == s * s + 20.0 * s + 100.0;
    assert ((r * r + Q * r - R * Q) * d) * d == ((r * r) * d) * d + Q * ((r * d) * d) - R * Q * (d * d);
  }

  // ---- runs ----

  datatype State = State(p: real, y: real)

  function Next(s: State, u: real): State
    requires s.p > 0.0
  {
    State(Shrunk(s.p), Estimate(s.p, s.y, u))
  }

  function Start(): State {
    State(10.0, GRAVITY)
  }

  lemma ShrunkPositive(p: real)
    requires p > 0.0
    ensures Shrunk(p) > 0.0
  {
    GainBounds(p);
    TimesPositive(1.0 - Gain(p), p + Q);
  }

  function After(s: State, us: seq<real>): (r: State)
    requires s.p > 0.0
    ensures r.p > 0.0
  {
    if us == [] then s
    else
      var before := After(s, us[..|us| - 1]);
      ShrunkPositive(before.p);
      Next(before, us[|us| - 1])
  }

  /** In every run the variance only falls and stays above the fixed point, and each gain is below the one before
      while never leaving its band. */
  lemma {:induction false} VarianceFalls(s: State, us: seq<real>, n: nat)
    requires AboveFixpoint(s.p) && n < |us|
    ensures AboveFixpoint(After(s, us).p)
    ensures After(s, us).p < After(s, us[..n]).p <= s.p
    ensures Q / (Q + R) < Gain(After(s, us).p) < Gain(After(s, us[..n]).p) < 1.0
  {
    hide Shrunk, Gain, Estimate;
    var last := us[..|us| - 1];
    if last == [] {
      assert us[..n] == last == [];
      assert After(s, last) == s;
    } else if n < |last| {
      assert last[..n] == us[..n];
      VarianceFalls(s, last, n);
    } else {
      assert us[..n] == last;
      VarianceFalls(s, last, 0);
      assert last[..0] == [] && After(s, []) == s;
    }
    var q := After(s, last).p;
    ShrunkStaysAbove(q);
    GainBounds(After(s, us).p);
    GainBounds(After(s, us[..n]).p);
    GainFalls(After(s, us).p, After(s, us[..n]).p);
  }

  lemma GainFalls(p: real, q: real)
    requires 0.0 < p < q
    ensures Gain(p) < Gain(q)
  {
    var k, l := Gain(p), Gain(q);
    var a, b := p + Q + R, q + Q + R;
    Quotient(p + Q, a, k);
    Quotient(q + Q, b, l);
    assert (1.0 - k) * a == R && (1.0 - l) * b == R;
    GainBounds(q);
    var g, t := b - a, 1.0 - l;
    var e := t * g;
    TimesPositive(t, g);
    assert e > 0.0;
    assert l * a == l * b - l * g && e == g - l * g;
    var m := l - k;
    assert m * a == e;
    PositiveFactor(m, a);
  }

  lemma StartsAbove()
    ensures AboveFixpoint(Start().p)
  {
  }

  lemma NotNegative(a: real, b: real)
    requires a >= 0.0 && b >= 0.0
    ensures a * b >= 0.0
  {
  }

  lemma Between(y: real, u: real, k: real, a: real, b: real)
    requires 0.0 <= k <= 1.0 && a <= y <= b && a <= u <= b
    ensures a <= y + k * (u - y) <= b
  {
    var v := y + k * (u - y);
    var c := 1.0 - k;
    var low, high := (y - a) * c + (u - a) * k, (b - y) * c + (b - u) * k;
    assert low >= 0.0 by {
      NotNegative(y - a, c);
      NotNegative(u - a, k);
    }
    assert high >= 0.0 by {
      NotNegative(b - y, c);
      NotNegative(b - u, k);
    }
    assert v - a == low && b - v == high;
  }

  /** Every estimate stays in the range spanned by the first estimate and the samples seen. */
  lemma {:induction false} EstimateInRange(s: State, us: seq<real>, a: real, b: real)
    requires s.p > 0.0 && a <= s.y <= b && forall i :: 0 <= i < |us| ==> a <= us[i] <= b
    ensures a <= After(s, us).y <= b
  {
    hide Shrunk, Gain;
    if us != [] {
      var before := After(s, us[..|us| - 1]);
      EstimateInRange(s, us[..|us| - 1], a, b);
      GainBounds(before.p);
      GainIsPositive();
      Between(before.y, us[|us| - 1], Gain(before.p), a, b);
    }
  }

  /** In every run from the source's initial state the variance has fallen below its start and not reached the root, and
      the estimate lies between any bounds of gravity and the samples. */
  lemma FromStart(us: seq<real>, a: real, b: real)
    requires us != [] && a <= GRAVITY <= b && forall i :: 0 <= i < |us| ==> a <= us[i] <= b
    ensures AboveFixpoint(After(Start(), us).p) && After(Start(), us).p < Start().p
    ensures Q / (Q + R) < Gain(After(Start(), us).p) < Gain(Start().p)
    ensures a <= After(Start(), us).y <= b
  {
    hide After, Gain, AboveFixpoint;
    StartsAbove();
    VarianceFalls(Start(), us, 0);
    NoSamples(Start());
    assert us[..0] == [];
    EstimateInRange(Start(), us, a, b);
  }

  lemma NoSamples(s: State)
    requires s.p > 0.0
    ensures After(s, []) == s
  {
  }

  lemma GainIsPositive()
    ensures Q / (Q + R) > 0.0
  {
  }

  function Distance(a: real, b: real): real {
    if a >= b then a - b else b - a
  }

  /** One sample brings the estimate closer to it, at least by the factor R / (Q + R). */
  lemma Contracts(s: State, u: real)
    requires s.p > 0.0
    ensures Distance(Next(s, u).y, u) <= Distance(s.y, u) * (R / (Q + R))
  {
    hide Shrunk, Gain;
    GainBounds(s.p);
    var c, d, v := 1.0 - Gain(s.p), Distance(s.y, u), Next(s, u).y;
    assert c < R / (Q + R);
    Monotone(d, c, R / (Q + R));
    NotNegative(c, d);
    var e := c * d;
    assert e <= (R / (Q + R)) * d && (R / (Q + R)) * d == d * (R / (Q + R));
    if s.y >= u {
      assert v - u == e;
    } else {
      assert u - v == e;
    }
  }

  function Power(x: real, n: nat): (r: real)
    requires x > 0.0
    ensures r > 0.0
  {
    if n == 0 then 1.0
    else
      TimesPositive(x, Power(x, n - 1));
      x * Power(x, n - 1)
  }

  lemma Rearranged(a: real, b: real, c: real)
    ensures (b * c) * a == (a * b) * c
  {
  }

  /** Under a constant sample the estimate converges to it geometrically. */
  lemma {:induction false} ConvergesToConstant(s: State, u: real, n: nat)
    requires s.p > 0.0
    ensures Distance(After(s, seq(n, _ => u)).y, u) <= Power(R / (Q + R), n) * Distance(s.y, u)
  {
    hide Gain, Shrunk, Estimate, Distance;
    var us := seq(n, _ => u);
    if n > 0 {
      assert us[..n - 1] == seq(n - 1, _ => u);
      ConvergesToConstant(s, u, n - 1);
      var before := After(s, us[..n - 1]);
      Contracts(before, u);
      var rho := R / (Q + R);
      Monotone(rho, Distance(before.y, u), Power(rho, n - 1) * Distance(s.y, u));
      Rearranged(rho, Power(rho, n - 1), Distance(s.y, u));
    }
  }

  // ---- the parking rule ----

  datatype Axis = Axis(x: real, y: real, z: real)

  function Samples(gs: seq<Axis>): (us: seq<real>)
    ensures |us| == |gs|
  {
    seq(|gs|, i requires 0 <= i < |gs| => gs[i].x + gs[i].y + gs[i].z)
  }

  /** The estimates one after the other. */
  function Track(s: State, us: seq<real>): (ys: seq<real>)
    requires s.p > 0.0
    ensures |ys| == |us|
  {
    seq(|us|, i requires 0 <= i < |us| => After(s, us[..i + 1]).y)
  }

  function Sum(ys: seq<real>): real {
    if ys == [] then 0.0 else Sum(ys[..|ys| - 1]) + ys[|ys| - 1]
  }

  function Square(a: real): real {
    a * a
  }

  /** The squared distances from m, summed. */
  function Spread(ys: seq<real>, m: real): real {
    if ys == [] then 0.0 else Spread(ys[..|ys| - 1], m) + Square(ys[|ys| - 1] - m)
  }

  function Variance(ys: seq<real>): real
    requires ys != []
  {
    Spread(ys, Sum(ys) / |ys| as real) / |ys| as real
  }

  /** The verdict on a stretch of motion: too long, moving, or parked. With no samples at all the division yields no
      number and the comparison fails. */
  function Verdict(ys: seq<real>, len: int, thr: real): int
    requires |ys| == if 0 <= len then len else 0
  {
    if len == 0 then 0
    else if len < 0 then (if 0.0 > thr then 1 else 0)
    else if Variance(ys) > thr then 1 else 0
  }

  /** What the spread of n values with this sum gains when it is taken from c instead of m. */
  function Shift(sum: real, n: real, m: real, c: real): real {
    2.0 * (m - c) * (sum - n * m) + n * ((m - c) * (m - c))
  }

  lemma ShiftNext(sum: real, n: real, m: real, c: real, y: real)
    ensures Shift(sum + y, n + 1.0, m, c) == Shift(sum, n, m, c) + Square(y - c) - Square(y - m)
  {
    var d := m - c;
    assert 2.0 * d * (sum + y - (n + 1.0) * m) == 2.0 * d * (sum - n * m) + 2.0 * d * (y - m);
    assert (n + 1.0) * (d * d) == n * (d * d) + d * d;
    assert (y - c) * (y - c) == (y - m) * (y - m) + 2.0 * d * (y - m) + d * d;
  }

  lemma {:induction false} SpreadAround(ys: seq<real>, m: real, c: real)
    ensures Spread(ys, c) == Spread(ys, m) + Shift(Sum(ys), |ys| as real, m, c)
  {
    if ys != [] {
      hide Shift, Square;
      var before, y := ys[..|ys| - 1], ys[|ys| - 1];
      SpreadAround(before, m, c);
      ShiftNext(Sum(before), |before| as real, m, c, y);
      assert |ys| as real == |before| as real + 1.0;
    }
  }

  /** Around the mean the spread is smallest. */
  lemma MeanIsBest(ys: seq<real>, c: real)
    requires ys != []
    ensures Spread(ys, Sum(ys) / |ys| as real) <= Spread(ys, c)
  {
    hide Spread, Sum, Shift;
    var n := |ys| as real;
    var m := Sum(ys) / n;
    Quotient(Sum(ys), n, m);
    SpreadAround(ys, m, c);
    ShiftFromMean(Sum(ys), n, m, c);
  }

  lemma ShiftFromMean(sum: real, n: real, m: real, c: real)
    requires n >= 0.0 && m * n == sum
    ensures Shift(sum, n, m, c) >= 0.0
  {
    SquareNotNegative(m - c);
    NotNegative(n, (m - c) * (m - c));
    assert sum - n * m == 0.0;
  }

  lemma SquareNotNegative(a: real)
    ensures a * a >= 0.0
  {
    if a >= 0.0 {
      NotNegative(a, a);
    } else {
      NotNegative(-a, -a);
    }
  }

  lemma SquareWithin(y: real, c: real, h: real)
    requires c - h <= y <= c + h
    ensures (y - c) * (y - c) <= h * h
  {
    NotNegative(h - (y - c), h + (y - c));
  }

  lemma {:induction false} SpreadInRange(ys: seq<real>, c: real, h: real)
    requires forall i :: 0 <= i < |ys| ==> c - h <= ys[i] <= c + h
    ensures Spread(ys, c) <= |ys| as real * (h * h)
  {
    if ys != [] {
      var before := ys[..|ys| - 1];
      SpreadInRange(before, c, h);
      SquareWithin(ys[|ys| - 1], c, h);
      assert |ys| as real == |before| as real + 1.0;
    }
  }

  /** The variance of estimates within h of some value is at most h * h, the square of half their range. */
  lemma VarianceInRange(ys: seq<real>, c: real, h: real)
    requires ys != [] && forall i :: 0 <= i < |ys| ==> c - h <= ys[i] <= c + h
    ensures Variance(ys) <= h * h
  {
    var n := |ys| as real;
    MeanIsBest(ys, c);
    SpreadInRange(ys, c, h);
    var v := Variance(ys);
    Quotient(Spread(ys, Sum(ys) / n), n, v);
    if v > h * h {
      TimesPositive(v - h * h, n);
    }
  }

  /** A car whose samples, like the last estimate, stay within h of some value is found parked whenever h * h is at
      most the threshold. */
  lemma QuietIsParked(s: State, us: seq<real>, c: real, h: real, thr: real)
    requires s.p > 0.0 && c - h <= s.y <= c + h && forall i :: 0 <= i < |us| ==> c - h <= us[i] <= c + h
    requires h * h <= thr
    ensures Verdict(Track(s, us), |us|, thr) == 0
  {
    hide Variance, After;
    var ys := Track(s, us);
    forall i | 0 <= i < |ys|
      ensures c - h <= ys[i] <= c + h
    {
      EstimateInRange(s, us[..i + 1], c - h, c + h);
    }
    if us != [] {
      VarianceInRange(ys, c, h);
    }
  }

  // ---- the verdict without a mean ----

  /** The squared distances of all pairs of values, each pair once. */
  function Pairs(ys: seq<real>): real {
    if ys == [] then 0.0 else Pairs(ys[..|ys| - 1]) + Spread(ys[..|ys| - 1], ys[|ys| - 1])
  }

  /** The sum of squares. */
  function SumOfSquares(ys: seq<real>): real {
    Spread(ys, 0.0)
  }

  lemma SpreadFrom(ys: seq<real>, c: real)
    ensures Spread(ys, c) == SumOfSquares(ys) - 2.0 * (c * Sum(ys)) + |ys| as real * (c * c)
  {
    hide Spread, Sum;
    SpreadAround(ys, 0.0, c);
    var n, sum := |ys| as real, Sum(ys);
    assert Shift(sum, n, 0.0, c) == 2.0 * (0.0 - c) * (sum - n * 0.0) + n * ((0.0 - c) * (0.0 - c));
    assert 2.0 * (0.0 - c) * sum == -2.0 * (c * sum) && (0.0 - c) * (0.0 - c) == c * c;
  }

  /** What the pairs come to, in terms of the sums. */
  lemma {:induction false} PairsFromSums(ys: seq<real>)
    ensures Pairs(ys) == |ys| as real * SumOfSquares(ys) - Sum(ys) * Sum(ys)
  {
    if ys != [] {
      hide Spread, Sum, Square, SumOfSquares, Pairs;
      var first, y := ys[..|ys| - 1], ys[|ys| - 1];
      PairsFromSums(first);
      SpreadFrom(first, y);
      SumsNext(ys);
      PairsNext(|first| as real, SumOfSquares(first), Sum(first), y);
      assert |ys| as real == |first| as real + 1.0;
    }
  }

  lemma SumsNext(ys: seq<real>)
    requires ys != []
    ensures var first, y := ys[..|ys| - 1], ys[|ys| - 1];
            && Sum(ys) == Sum(first) + y && SumOfSquares(ys) == SumOfSquares(first) + y * y
            && Pairs(ys) == Pairs(first) + Spread(first, y)
  {
    assert (ys[|ys| - 1] - 0.0) * (ys[|ys| - 1] - 0.0) == ys[|ys| - 1] * ys[|ys| - 1];
  }

  lemma PairsNext(n: real, a: real, b: real, y: real)
    ensures (n * a - b * b) + (a - 2.0 * (y * b) + n * (y * y)) == (n + 1.0) * (a + y * y) - (b + y) * (b + y)
  {
    assert (n + 1.0) * (a + y * y) == n * a + n * (y * y) + a + y * y;
    assert (b + y) * (b + y) == b * b + 2.0 * (y * b) + y * y;
  }

  /** The variance is the mean over all pairs: n * n of it make up the squared distances of the pairs. */
  lemma VarianceIsPairs(ys: seq<real>)
    requires ys != []
    ensures |ys| as real * |ys| as real * Variance(ys) == Pairs(ys)
  {
    hide Spread, Sum, SumOfSquares, Pairs;
    var n, b := |ys| as real, Sum(ys);
    var m := b / n;
    var v := Variance(ys);
    Quotient(b, n, m);
    Quotient(Spread(ys, m), n, v);
    SpreadFrom(ys, m);
    PairsFromSums(ys);
    TimesSpread(n, SumOfSquares(ys), b, m);
    assert n * n * v == n * (v * n);
  }

  lemma TimesSpread(n: real, a: real, b: real, m: real)
    requires m * n == b
    ensures n * (a - 2.0 * (m * b) + n * (m * m)) == n * a - b * b
  {
    assert n * (m * b) == b * b;
    assert n * (n * (m * m)) == (m * n) * (m * n);
    assert n * (a - 2.0 * (m * b) + n * (m * m)) == n * a - 2.0 * (n * (m * b)) + n * (n * (m * m));
  }

  /** The verdict from the distances between the estimates alone: the car moves if and only if the squared distances of
      all pairs of estimates exceed n * n times the threshold. */
  lemma MovesExactly(ys: seq<real>, thr: real)
    requires ys != []
    ensures Verdict(ys, |ys|, thr) == if Pairs(ys) > |ys| as real * |ys| as real * thr then 1 else 0
  {
    hide Variance, Pairs;
    var n, v := |ys| as real, Variance(ys);
    VarianceIsPairs(ys);
    TimesPositive(n, n);
    if v > thr {
      TimesPositive(v - thr, n * n);
      assert (v - thr) * (n * n) == n * n * v - n * n * thr;
    } else {
      Monotone(n * n, v, thr);
      assert v * (n * n) == n * n * v && thr * (n * n) == n * n * thr;
    }
  }

  /** A sensor at rest reads gravity: from the source's initial state the estimate stays there and the car is parked;
      the first gain is 10.01 / 20.01. */
  lemma AtRest(n: nat, thr: real)
    requires thr >= 0.0
    ensures After(Start(), seq(n, _ => 9.8)).y == 9.8
    ensures Verdict(Track(Start(), seq(n, _ => 9.8)), n, thr) == 0
    ensures Gain(Start().p) == 10.01 / 20.01
  {
    hide After, Track, Verdict;
    var us := seq(n, _ => 9.8);
    EstimateInRange(Start(), us, 9.8, 9.8);
    QuietIsParked(Start(), us, 9.8, 0.0, thr);
  }

  class Filter {
    var kk: real
    var p: real
    var ky0: real

    ghost predicate Valid()
      reads this
    {
      p > 0.0
    }

    ghost function View(): State
      reads this
    {
      State(p, ky0)
    }

    /** kalman_init. */
    constructor ()
      ensures Valid() && View() == Start()
    {
      kk := 0.0;
      p := 10.0;
      ky0 := GRAVITY;
    }

    method KalmanFilter(y0: real, u: real) returns (y: real)
      requires Valid()
      modifies this`kk, this`p
      ensures Valid() && State(p, y) == Next(State(old(p), y0), u) && kk == Gain(old(p))
    {
      var p01 := p + Q;
      kk := p01 / (p01 + R);
      y := y0 + kk * (u - y0);
      ShrunkPositive(p);
      p := (1.0 - kk) * p01;
    }

    method SlidingFilter(gd1: array<Axis>, len: int, thr: real) returns (state: int)
      requires Valid() && gd1.Length == MAX_BUF_LEN
      modifies this
      ensures Valid()
      ensures len > MAX_BUF_LEN ==> state == -1 && View() == old(View())
      ensures len <= MAX_BUF_LEN ==>
              var us := Samples(gd1[..if len >= 0 then len else 0]);
              View() == After(old(View()), us) && state == Verdict(Track(old(View()), us), len, thr)
    {
      if len > MAX_BUF_LEN {
        return -1;
      }
      hide After, Track, Sum, Spread, Variance;
      ghost var n := if len >= 0 then len else 0;
      ghost var s, us := View(), Samples(gd1[..n]);
      ghost var ys := Track(s, us);
      var y := new real[MAX_BUF_LEN](_ => 0.0);
      var mean := Smooth(gd1, len, y);
      assert y[..n] == ys;
      if len == 0 {
        // mean and variance are not numbers, which compare greater than nothing
        return 0;
      }
      mean := mean / len as real;
      var vara := SpreadOf(y, len, mean);
      vara := vara / len as real;
      Judged(ys, len, thr, mean, vara);
      state := if vara > thr then 1 else 0;
    }

    /** The first loop: filter every sample, and sum the estimates. */
    method Smooth(gd1: array<Axis>, len: int, y: array<real>) returns (mean: real)
      requires Valid() && gd1.Length == y.Length == MAX_BUF_LEN >= len
      modifies this, y
      ensures Valid()
      ensures var n := if len >= 0 then len else 0;
              var us := Samples(gd1[..n]);
              var ys := Track(old(View()), us);
              View() == After(old(View()), us) && y[..n] == ys && mean == Sum(ys)
    {
      hide After, Track, Next, Sum, Samples;
      ghost var n := if len >= 0 then len else 0;
      ghost var s, us := View(), Samples(gd1[..n]);
      ghost var ys := Track(s, us);
      Empty(s, us);
      mean := 0.0;
      var i := 0;
      while i < len
        invariant 0 <= i <= n && Valid() && View() == After(s, us[..i])
        invariant y[..i] == ys[..i] && mean == Sum(ys[..i])
      {
        var sample := gd1[i].x + gd1[i].y + gd1[i].z;
        SampleAt(gd1[..n], i);
        TrackNext(s, us, i);
        SumNext(ys, i);
        y[i] := KalmanFilter(ky0, sample);
        ky0 := y[i];
        assert View() == Next(After(s, us[..i]), us[i]);
        assert y[..i + 1] == y[..i] + [y[i]] && ys[..i + 1] == ys[..i] + [ys[i]];
        mean := mean + y[i];
        i := i + 1;
      }
      assert us[..n] == us && ys[..n] == ys;
    }
  }

  lemma Judged(ys: seq<real>, len: int, thr: real, mean: real, vara: real)
    requires len != 0 && |ys| == if 0 <= len then len else 0
    requires mean == Sum(ys) / len as real && vara == Spread(ys, mean) / len as real
    ensures Verdict(ys, len, thr) == if vara > thr then 1 else 0
  {
  }

  lemma Empty(s: State, us: seq<real>)
    requires s.p > 0.0
    ensures After(s, us[..0]) == s && Sum(Track(s, us)[..0]) == 0.0
  {
  }

  lemma SampleAt(gs: seq<Axis>, i: nat)
    requires i < |gs|
    ensures Samples(gs)[i] == gs[i].x + gs[i].y + gs[i].z
  {
  }

  lemma TrackNext(s: State, us: seq<real>, i: nat)
    requires s.p > 0.0 && i < |us|
    ensures After(s, us[..i + 1]) == Next(After(s, us[..i]), us[i])
    ensures Track(s, us)[i] == After(s, us[..i + 1]).y
  {
    assert us[..i + 1][..i] == us[..i];
  }

  lemma SumNext(ys: seq<real>, i: nat)
    requires i < |ys|
    ensures Sum(ys[..i + 1]) == Sum(ys[..i]) + ys[i]
  {
    assert ys[..i + 1][..i] == ys[..i];
  }

  lemma SpreadNext(ys: seq<real>, i: nat, m: real)
    requires i < |ys|
    ensures Spread(ys[..i + 1], m) == Spread(ys[..i], m) + (ys[i] - m) * (ys[i] - m)
  {
    assert ys[..i + 1][..i] == ys[..i];
  }

  lemma NoSpread(ys: seq<real>, m: real)
    ensures Spread(ys[..0], m) == 0.0
  {
  }

  /** The second loop. */
  method SpreadOf(y: array<real>, len: int, mean: real) returns (vara: real)
    requires len <= y.Length
    ensures vara == Spread(y[..if len >= 0 then len else 0], mean)
  {
    hide Spread;
    ghost var ys := y[..if len >= 0 then len else 0];
    NoSpread(ys, mean);
    vara := 0.0;
    var i := 0;
    while i < len
      invariant 0 <= i <= |ys| && vara == Spread(ys[..i], mean)
    {
      SpreadNext(ys, i, mean);
      vara := vara + (y[i] - mean) * (y[i] - mean);
      i := i + 1;
    }
    assert ys[..|ys|] == ys;
  }
}
