/**
 * Axis geometry: the three landmark directions, the three uneven sectors
 * between them, the mapping from an angle to its sector and local parameter,
 * and the elliptical radius formula (src/main.rs:6-13, 36-43, 117-121, 209-228).
 *
 * Angles are in degrees; the source keeps them in radians, and every ratio it
 * takes of angle differences is the same in either unit.
 */
module Geometry {
  import opened RealTrig

  /** Landmark direction of each axis. */
  const ANG_STR_RED: real := 135.0
  const ANG_DEX_GREEN: real := 45.0
  const ANG_INT_BLUE: real := 270.0

  const FULL_TURN: real := 360.0
  /** t * QUARTER_TURN is the ellipse parameter phi (t * PI/2 in radians). */
  const QUARTER_TURN: real := 90.0

  /** Below this value on both governing axes the radius formula gives up and returns 0. */
  const DEGENERATE_BELOW: real := 1.0

  /** The three sectors, each named by the axis at its start and the axis at its end. */
  datatype Sector = DexToStr | StrToInt | IntToDex

  /** The sector table, indexed as the generator indexes it. */
  function SectorAt(i: nat): (s: Sector)
    requires i < 3
    ensures Start(s) == [ANG_DEX_GREEN, ANG_STR_RED, ANG_INT_BLUE][i]
    ensures End(s) == [ANG_STR_RED, ANG_INT_BLUE, ANG_DEX_GREEN + FULL_TURN][i]
  {
    if i == 0 then DexToStr else if i == 1 then StrToInt else IntToDex
  }

  function Start(s: Sector): real
  {
    match s
    case DexToStr => ANG_DEX_GREEN
    case StrToInt => ANG_STR_RED
    case IntToDex => ANG_INT_BLUE
  }

  /** The wrap-around sector ends one full turn past the dexterity landmark. */
  function End(s: Sector): real
  {
    match s
    case DexToStr => ANG_STR_RED
    case StrToInt => ANG_INT_BLUE
    case IntToDex => ANG_DEX_GREEN + FULL_TURN
  }

  /** The sector that begins where `s` ends. */
  function Next(s: Sector): Sector
  {
    match s
    case DexToStr => StrToInt
    case StrToInt => IntToDex
    case IntToDex => DexToStr
  }

  /** The sectors are 90, 135 and 135 degrees wide and tile one full turn. */
  lemma SectorsTileTheCircle()
    ensures End(DexToStr) - Start(DexToStr) == 90.0
    ensures End(StrToInt) - Start(StrToInt) == 135.0
    ensures End(IntToDex) - Start(IntToDex) == 135.0
    ensures forall s :: End(s) == Start(Next(s)) + (if s == IntToDex then FULL_TURN else 0.0)
  {
  }

  /** The angle at local parameter t of sector s. */
  function Place(s: Sector, t: real): (angle: real)
    ensures 0.0 <= t < 1.0 ==> Start(s) <= angle < End(s)
    ensures t == 0.0 ==> angle == Start(s)
  {
    Start(s) + t * (End(s) - Start(s))
  }

  /** The angle reduced to [0, 360), as Euclidean remainder does. */
  function Normalize(angle: real): (deg: real)
    ensures 0.0 <= deg < FULL_TURN
    ensures 0.0 <= angle < FULL_TURN ==> deg == angle
    ensures FULL_TURN <= angle < 2.0 * FULL_TURN ==> deg == angle - FULL_TURN
  {
    angle - FULL_TURN * (angle / FULL_TURN).Floor as real
  }

  /** Whether direction `deg` (already in [0, 360)) belongs to sector s;
      each sector is half-open, the wrap-around one split at 0. */
  predicate Covers(s: Sector, deg: real)
  {
    match s
    case DexToStr => ANG_DEX_GREEN <= deg < ANG_STR_RED
    case StrToInt => ANG_STR_RED <= deg < ANG_INT_BLUE
    case IntToDex => ANG_INT_BLUE <= deg || deg < ANG_DEX_GREEN
  }

  /** Every direction of [0, 360) lies in exactly one sector. */
  lemma SectorsPartition(deg: real)
    requires 0.0 <= deg < FULL_TURN
    ensures Covers(DexToStr, deg) || Covers(StrToInt, deg) || Covers(IntToDex, deg)
    ensures forall s1, s2 :: Covers(s1, deg) && Covers(s2, deg) ==> s1 == s2
  {
  }

  /** A sector together with the local parameter inside it. */
  datatype Position = Position(sector: Sector, t: real)

  /**
   * The sector that governs `angle` and the local parameter t. The sector is
   * chosen from the normalised angle while t is computed from the angle as
   * given.
   */
  function Resolve(angle: real): (p: Position)
    ensures Covers(p.sector, Normalize(angle))
  {
    var deg := Normalize(angle);
    if ANG_DEX_GREEN <= deg < ANG_STR_RED then
      Position(DexToStr, (angle - ANG_DEX_GREEN) / (ANG_STR_RED - ANG_DEX_GREEN))
    else if ANG_STR_RED <= deg < ANG_INT_BLUE then
      Position(StrToInt, (angle - ANG_STR_RED) / (ANG_INT_BLUE - ANG_STR_RED))
    else
      var start := ANG_INT_BLUE;
      var end := ANG_DEX_GREEN + FULL_TURN;
      var curr := if angle < ANG_INT_BLUE then angle + FULL_TURN else angle;
      Position(IntToDex, (curr - start) / (end - start))
  }

  /**
   * For every angle the program passes (all lie in [0, 405)), the local
   * parameter lies in [0, 1) and places the angle, up to one turn, back in
   * its sector.
   */
  lemma ResolveInRange(angle: real)
    requires 0.0 <= angle < ANG_DEX_GREEN + FULL_TURN
    ensures 0.0 <= Resolve(angle).t < 1.0
    ensures Place(Resolve(angle).sector, Resolve(angle).t)
            == if angle < ANG_DEX_GREEN then angle + FULL_TURN else angle
  {
  }

  /** An angle generated from (sector, t) resolves back to the same sector and t. */
  lemma ResolvePlace(s: Sector, t: real)
    requires 0.0 <= t < 1.0
    ensures Start(s) <= Place(s, t) < End(s)
    ensures Resolve(Place(s, t)) == Position(s, t)
  {
  }

  /** The sum of squares under the square root of the radius formula. */
  function SquareSum(m: TrigModel, v1: real, v2: real, t: real): real
  {
    var phi := t * QUARTER_TURN;
    (v2 * m.cos(phi)) * (v2 * m.cos(phi)) + (v1 * m.sin(phi)) * (v1 * m.sin(phi))
  }

  /** With lawful trigonometry and positive values the sum of squares is positive. */
  lemma SquareSumPositive(m: TrigModel, v1: real, v2: real, t: real)
    ensures Lawful(m) && 0.0 < v1 && 0.0 < v2 ==>
              0.0 < SquareSum(m, v1, v2, t) && 0.0 < m.sqrt(SquareSum(m, v1, v2, t))
  {
    if Lawful(m) && 0.0 < v1 && 0.0 < v2 {
      var phi := t * QUARTER_TURN;
      var c, s := m.cos(phi), m.sin(phi);
      var a, b := v2 * c, v1 * s;
      assert SquareSum(m, v1, v2, t) == a * a + b * b;
      assert s * s + c * c == 1.0;
      assert 0.0 <= a * a && 0.0 <= b * b;
      if c != 0.0 {
        assert a != 0.0;
        assert 0.0 < a * a;
      } else {
        assert s * s == 1.0;
        assert b * b == (v1 * v1) * (s * s);
        assert 0.0 < v1 * v1;
        assert 0.0 < b * b;
      }
      assert 0.0 < SquareSum(m, v1, v2, t);
      SqrtPositive(m, SquareSum(m, v1, v2, t));
    }
  }

  /** The divisor of the radius formula. */
  function Denominator(m: TrigModel, v1: real, v2: real, t: real): (d: real)
    ensures Lawful(m) && 0.0 < v1 && 0.0 < v2 ==> 0.0 < d && d * d == SquareSum(m, v1, v2, t)
  {
    SquareSumPositive(m, v1, v2, t);
    m.sqrt(SquareSum(m, v1, v2, t))
  }

  /**
   * Polar radius of the quarter ellipse with semi-axes v1 (at t = 0) and v2
   * (at t = 1). Defined where the source's computation is a finite number:
   * the guard fires, or the divisor is non-zero.
   */
  function EllipseRadius(m: TrigModel, v1: real, v2: real, t: real): (r: real)
    requires (v1 < DEGENERATE_BELOW && v2 < DEGENERATE_BELOW) || Denominator(m, v1, v2, t) != 0.0
    ensures Degenerate(v1, v2) ==> r == 0.0
    ensures Lawful(m) && 0.0 < v1 && 0.0 < v2 && !Degenerate(v1, v2) ==> 0.0 < r
  {
    if v1 < DEGENERATE_BELOW && v2 < DEGENERATE_BELOW then 0.0
    else (v1 * v2) / Denominator(m, v1, v2, t)
  }

  /** Whether the degenerate guard of the radius formula fires. */
  predicate Degenerate(v1: real, v2: real)
  {
    v1 < DEGENERATE_BELOW && v2 < DEGENERATE_BELOW
  }

  function Min(a: real, b: real): real { if a <= b then a else b }
  function Max(a: real, b: real): real { if a <= b then b else a }

  /** cos^2(phi) / v1^2 + sin^2(phi) / v2^2: the reciprocal of the squared radius. */
  function InverseSquareSum(m: TrigModel, v1: real, v2: real, t: real): real
    requires 0.0 < v1 && 0.0 < v2
  {
    var phi := t * QUARTER_TURN;
    m.cos(phi) * m.cos(phi) / (v1 * v1) + m.sin(phi) * m.sin(phi) / (v2 * v2)
  }

  /** (n / d)^2 * d^2 == n^2 for d != 0. */
  lemma QuotientSquared(n: real, d: real)
    requires d != 0.0
    ensures (n / d) * (n / d) * (d * d) == n * n
  {
    var q := n / d;
    assert q * d == n;
    assert q * q * (d * d) == (q * d) * (q * d);
  }

  /** (c2/a^2 + s2/b^2) * (a*b)^2 == c2*b^2 + s2*a^2. */
  lemma ClearDenominators(c2: real, s2: real, a: real, b: real)
    requires a != 0.0 && b != 0.0
    ensures (c2 / (a * a) + s2 / (b * b)) * ((a * b) * (a * b)) == c2 * (b * b) + s2 * (a * a)
  {
    var aa, bb := a * a, b * b;
    assert aa != 0.0 by { SquareStrictlyMonotone(0.0, if a < 0.0 then -a else a); }
    assert bb != 0.0 by { SquareStrictlyMonotone(0.0, if b < 0.0 then -b else b); }
    assert (a * b) * (a * b) == aa * bb;
    assert c2 / aa * (aa * bb) == c2 * bb;
    assert s2 / bb * (aa * bb) == s2 * aa;
  }

  /** x * k == y * k with k != 0 gives x == y. */
  lemma CancelFactor(x: real, y: real, k: real)
    requires k != 0.0
    requires x * k == y * k
    ensures x == y
  {
    assert (x - y) * k == 0.0;
  }

  /** Outside the guard the radius is positive and 1 / r^2 = cos^2/v1^2 + sin^2/v2^2:
      the polar equation of an ellipse with semi-axes v1 and v2. */
  lemma EllipseInverseSquare(m: TrigModel, v1: real, v2: real, t: real)
    requires Lawful(m) && 0.0 < v1 && 0.0 < v2 && !Degenerate(v1, v2)
    ensures 0.0 < EllipseRadius(m, v1, v2, t)
    ensures EllipseRadius(m, v1, v2, t) * EllipseRadius(m, v1, v2, t)
            * InverseSquareSum(m, v1, v2, t) == 1.0
  {
    var phi := t * QUARTER_TURN;
    var c2, s2 := m.cos(phi) * m.cos(phi), m.sin(phi) * m.sin(phi);
    var d := Denominator(m, v1, v2, t);
    var n := v1 * v2;
    var r := EllipseRadius(m, v1, v2, t);
    assert r == n / d;
    assert 0.0 < n;
    assert 0.0 < r;
    var sum := SquareSum(m, v1, v2, t);
    assert sum == c2 * (v2 * v2) + s2 * (v1 * v1);
    QuotientSquared(n, d);
    var rr := r * r;
    assert rr * sum == n * n;
    var q := InverseSquareSum(m, v1, v2, t);
    ClearDenominators(c2, s2, v1, v2);
    assert q * (n * n) == sum;
    assert (rr * q) * (n * n) == rr * (q * (n * n));
    CancelFactor(rr * q, 1.0, n * n);
  }

  /** A larger positive value has a smaller inverse square. */
  lemma InverseSquareAntitone(a: real, b: real)
    requires 0.0 < a <= b
    ensures 0.0 < 1.0 / (b * b) <= 1.0 / (a * a)
  {
    SquareStrictlyMonotone(0.0, a);
    SquareStrictlyMonotone(a, b);
    var aa, bb := a * a, b * b;
    assert 0.0 < aa <= bb;
  }

  /** For rr * q == 1 with q > 0: rr is at most 1/p when p <= q, and at least 1/p when q <= p. */
  lemma ReciprocalOrder(rr: real, q: real, p: real)
    requires 0.0 < p && 0.0 < q && rr * q == 1.0
    ensures p <= q ==> rr <= 1.0 / p
    ensures q <= p ==> 1.0 / p <= rr
  {
    assert rr == 1.0 / q;
  }

  lemma ProductNonNegative(a: real, b: real)
    requires 0.0 <= a && 0.0 <= b
    ensures 0.0 <= a * b
  {
  }

  /** A convex combination of two values lies between them. */
  lemma ConvexCombination(c2: real, s2: real, p1: real, p2: real)
    requires 0.0 <= c2 && 0.0 <= s2 && c2 + s2 == 1.0
    ensures Min(p1, p2) <= c2 * p1 + s2 * p2 <= Max(p1, p2)
  {
    var lo, hi := Min(p1, p2), Max(p1, p2);
    assert c2 * p1 + s2 * p2 - lo == c2 * (p1 - lo) + s2 * (p2 - lo);
    assert hi - (c2 * p1 + s2 * p2) == c2 * (hi - p1) + s2 * (hi - p2);
    ProductNonNegative(c2, p1 - lo);
    ProductNonNegative(s2, p2 - lo);
    ProductNonNegative(c2, hi - p1);
    ProductNonNegative(s2, hi - p2);
  }

  /** cos^2 and sin^2 of one angle are non-negative and sum to 1. */
  lemma TrigSquares(m: TrigModel, phi: real)
    requires Lawful(m)
    ensures 0.0 <= m.cos(phi) * m.cos(phi) && 0.0 <= m.sin(phi) * m.sin(phi)
    ensures m.cos(phi) * m.cos(phi) + m.sin(phi) * m.sin(phi) == 1.0
  {
    SquareStrictlyMonotone(0.0, if m.cos(phi) < 0.0 then -m.cos(phi) else m.cos(phi));
    SquareStrictlyMonotone(0.0, if m.sin(phi) < 0.0 then -m.sin(phi) else m.sin(phi));
  }

  /** The inverse square sum as a convex combination of the two inverse squares. */
  lemma InverseSquareSumConvex(m: TrigModel, v1: real, v2: real, t: real)
    requires Lawful(m) && 0.0 < v1 && 0.0 < v2
    ensures 1.0 / (Max(v1, v2) * Max(v1, v2)) <= InverseSquareSum(m, v1, v2, t)
    ensures InverseSquareSum(m, v1, v2, t) <= 1.0 / (Min(v1, v2) * Min(v1, v2))
  {
    var phi := t * QUARTER_TURN;
    var c2, s2 := m.cos(phi) * m.cos(phi), m.sin(phi) * m.sin(phi);
    TrigSquares(m, phi);
    assert InverseSquareSum(m, v1, v2, t) == c2 * (1.0 / (v1 * v1)) + s2 * (1.0 / (v2 * v2));
    ConvexInverseSquares(c2, s2, v1, v2);
  }

  /** A convex combination of 1/v1^2 and 1/v2^2 lies between 1/max^2 and 1/min^2. */
  lemma ConvexInverseSquares(c2: real, s2: real, v1: real, v2: real)
    requires 0.0 <= c2 && 0.0 <= s2 && c2 + s2 == 1.0
    requires 0.0 < v1 && 0.0 < v2
    ensures 1.0 / (Max(v1, v2) * Max(v1, v2)) <= c2 * (1.0 / (v1 * v1)) + s2 * (1.0 / (v2 * v2))
    ensures c2 * (1.0 / (v1 * v1)) + s2 * (1.0 / (v2 * v2)) <= 1.0 / (Min(v1, v2) * Min(v1, v2))
  {
    ConvexCombination(c2, s2, 1.0 / (v1 * v1), 1.0 / (v2 * v2));
    if v1 <= v2 {
      InverseSquareAntitone(v1, v2);
    } else {
      InverseSquareAntitone(v2, v1);
    }
  }

  /** rr * q == 1 with q between 1/hi^2 and 1/lo^2 puts rr between lo^2 and hi^2. */
  lemma SquareBetween(rr: real, q: real, lo: real, hi: real)
    requires 0.0 < lo <= hi
    requires rr * q == 1.0
    requires 1.0 / (hi * hi) <= q <= 1.0 / (lo * lo)
    ensures lo * lo <= rr <= hi * hi
  {
    InverseSquareAntitone(lo, hi);
    SquareStrictlyMonotone(0.0, lo);
    var hh, ll := hi * hi, lo * lo;
    assert 0.0 < ll <= hh;
    ReciprocalOrder(rr, q, 1.0 / hh);
    ReciprocalOrder(rr, q, 1.0 / ll);
    assert 1.0 / (1.0 / hh) == hh;
    assert 1.0 / (1.0 / ll) == ll;
  }

  /** Outside the guard the radius lies between the two governing values. */
  lemma EllipseBetween(m: TrigModel, v1: real, v2: real, t: real)
    requires Lawful(m) && 0.0 < v1 && 0.0 < v2 && !Degenerate(v1, v2)
    ensures Min(v1, v2) <= EllipseRadius(m, v1, v2, t) <= Max(v1, v2)
  {
    var r, q := EllipseRadius(m, v1, v2, t), InverseSquareSum(m, v1, v2, t);
    EllipseInverseSquare(m, v1, v2, t);
    InverseSquareSumConvex(m, v1, v2, t);
    if v1 <= v2 {
      assert Min(v1, v2) == v1 && Max(v1, v2) == v2;
      RootBetween(r, q, v1, v2);
    } else {
      assert Min(v1, v2) == v2 && Max(v1, v2) == v1;
      RootBetween(r, q, v2, v1);
    }
  }

  /** A positive r with r^2 * q == 1 and q between 1/hi^2 and 1/lo^2 lies between lo and hi. */
  lemma RootBetween(r: real, q: real, lo: real, hi: real)
    requires 0.0 < lo <= hi && 0.0 < r
    requires r * r * q == 1.0
    requires 1.0 / (hi * hi) <= q <= 1.0 / (lo * lo)
    ensures lo <= r <= hi
  {
    SquareBetween(r * r, q, lo, hi);
    SquareOrder(r, hi);
    SquareOrder(lo, r);
  }

  /** A positive r with r^2 * (1/v^2) == 1 is v itself. */
  lemma RootOfInverseSquare(r: real, v: real)
    requires 0.0 < r && 0.0 < v
    requires r * r * (1.0 / (v * v)) == 1.0
    ensures r == v
  {
    RootBetween(r, 1.0 / (v * v), v, v);
  }

  /** For positive values (at least one of them not below the guard) the radius
      is zero exactly when the guard fires. */
  lemma EllipseZeroIffDegenerate(m: TrigModel, v1: real, v2: real, t: real)
    requires Lawful(m) && 0.0 < v1 && 0.0 < v2
    ensures 0.0 <= EllipseRadius(m, v1, v2, t)
    ensures EllipseRadius(m, v1, v2, t) == 0.0 <==> Degenerate(v1, v2)
  {
    if !Degenerate(v1, v2) {
      EllipseInverseSquare(m, v1, v2, t);
    }
  }

  /** At t = 0 the radius is the first governing value. */
  lemma EllipseAtStart(m: TrigModel, v1: real, v2: real)
    requires Lawful(m) && 0.0 < v1 && 0.0 < v2 && !Degenerate(v1, v2)
    ensures EllipseRadius(m, v1, v2, 0.0) == v1
  {
    EllipseInverseSquare(m, v1, v2, 0.0);
    assert 0.0 * QUARTER_TURN == 0.0 && m.cos(0.0) == 1.0 && m.sin(0.0) == 0.0;
    assert InverseSquareSum(m, v1, v2, 0.0) == 1.0 * 1.0 / (v1 * v1) + 0.0 * 0.0 / (v2 * v2);
    assert InverseSquareSum(m, v1, v2, 0.0) == 1.0 / (v1 * v1);
    RootOfInverseSquare(EllipseRadius(m, v1, v2, 0.0), v1);
  }

  /** At t = 1 the radius is the second governing value. */
  lemma EllipseAtEnd(m: TrigModel, v1: real, v2: real)
    requires Lawful(m) && 0.0 < v1 && 0.0 < v2 && !Degenerate(v1, v2)
    ensures EllipseRadius(m, v1, v2, 1.0) == v2
  {
    EllipseInverseSquare(m, v1, v2, 1.0);
    assert 1.0 * QUARTER_TURN == 90.0 && m.cos(90.0) == 0.0 && m.sin(90.0) == 1.0;
    assert InverseSquareSum(m, v1, v2, 1.0) == 0.0 * 0.0 / (v1 * v1) + 1.0 * 1.0 / (v2 * v2);
    assert InverseSquareSum(m, v1, v2, 1.0) == 1.0 / (v2 * v2);
    RootOfInverseSquare(EllipseRadius(m, v1, v2, 1.0), v2);
  }

  /** Equal governing values give a circle: the radius is that value for every t. */
  lemma EllipseCircle(m: TrigModel, k: real, t: real)
    requires Lawful(m) && DEGENERATE_BELOW <= k
    ensures EllipseRadius(m, k, k, t) == k
  {
    EllipseBetween(m, k, k, t);
  }

  /** Growing either governing value never grows the inverse square sum. */
  lemma InverseSquareSumAntitone(m: TrigModel, v1: real, v2: real, w1: real, w2: real, t: real)
    requires Lawful(m) && 0.0 < v1 <= w1 && 0.0 < v2 <= w2
    ensures 0.0 < InverseSquareSum(m, w1, w2, t) <= InverseSquareSum(m, v1, v2, t)
  {
    var phi := t * QUARTER_TURN;
    var c2, s2 := m.cos(phi) * m.cos(phi), m.sin(phi) * m.sin(phi);
    TrigSquares(m, phi);
    InverseSquareAntitone(v1, w1);
    InverseSquareAntitone(v2, w2);
    WeightedOrder(c2, s2, 1.0 / (w1 * w1), 1.0 / (v1 * v1), 1.0 / (w2 * w2), 1.0 / (v2 * v2));
    assert InverseSquareSum(m, v1, v2, t) == c2 * (1.0 / (v1 * v1)) + s2 * (1.0 / (v2 * v2));
    assert InverseSquareSum(m, w1, w2, t) == c2 * (1.0 / (w1 * w1)) + s2 * (1.0 / (w2 * w2));
  }

  /** Weighting with non-negative weights preserves order; with weights summing to 1
      and positive values the result is positive. */
  lemma WeightedOrder(c2: real, s2: real, x1: real, y1: real, x2: real, y2: real)
    requires 0.0 <= c2 && 0.0 <= s2 && c2 + s2 == 1.0
    requires 0.0 < x1 <= y1 && 0.0 < x2 <= y2
    ensures 0.0 < c2 * x1 + s2 * x2 <= c2 * y1 + s2 * y2
  {
    ScaleOrder(c2, x1, y1);
    ScaleOrder(s2, x2, y2);
    ConvexCombination(c2, s2, x1, x2);
  }

  lemma ScaleOrder(k: real, a: real, b: real)
    requires 0.0 <= k && a <= b
    ensures k * a <= k * b
  {
    ProductNonNegative(k, b - a);
  }

  /** Of two positive roots of r^2 * q == 1, the one with the smaller q is the larger. */
  lemma RootAntitone(r1: real, q1: real, r2: real, q2: real)
    requires 0.0 < r1 && 0.0 < r2 && 0.0 < q2 <= q1
    requires r1 * r1 * q1 == 1.0 && r2 * r2 * q2 == 1.0
    ensures r1 <= r2
  {
    var a, b := r1 * r1, r2 * r2;
    ScaleOrder(a, q2, q1);
    assert a * q2 <= b * q2;
    if b < a {
      ScaleStrict(q2, b, a);
    }
    SquareOrder(r1, r2);
  }

  lemma ScaleStrict(k: real, a: real, b: real)
    requires 0.0 < k && a < b
    ensures a * k < b * k
  {
  }

  /** Raising either governing value never shrinks the radius: the blob only grows. */
  lemma EllipseMonotone(m: TrigModel, v1: real, v2: real, w1: real, w2: real, t: real)
    requires Lawful(m) && 0.0 < v1 <= w1 && 0.0 < v2 <= w2 && !Degenerate(v1, v2)
    ensures EllipseRadius(m, v1, v2, t) <= EllipseRadius(m, w1, w2, t)
  {
    EllipseInverseSquare(m, v1, v2, t);
    EllipseInverseSquare(m, w1, w2, t);
    InverseSquareSumAntitone(m, v1, v2, w1, w2, t);
    RootAntitone(EllipseRadius(m, v1, v2, t), InverseSquareSum(m, v1, v2, t),
                 EllipseRadius(m, w1, w2, t), InverseSquareSum(m, w1, w2, t));
  }

  /** Between the endpoints the radius moves from v1 toward v2: it never
      decreases along t when v1 <= v2, and never increases when v2 <= v1. */
  lemma EllipseMonotoneInT(m: TrigModel, v1: real, v2: real, t: real, t': real)
    requires Lawful(m) && 0.0 < v1 && 0.0 < v2 && !Degenerate(v1, v2)
    requires 0.0 <= t <= t' <= 1.0
    ensures v1 <= v2 ==> EllipseRadius(m, v1, v2, t) <= EllipseRadius(m, v1, v2, t')
    ensures v2 <= v1 ==> EllipseRadius(m, v1, v2, t') <= EllipseRadius(m, v1, v2, t)
  {
    var r, r' := EllipseRadius(m, v1, v2, t), EllipseRadius(m, v1, v2, t');
    var q, q' := InverseSquareSum(m, v1, v2, t), InverseSquareSum(m, v1, v2, t');
    EllipseInverseSquare(m, v1, v2, t);
    EllipseInverseSquare(m, v1, v2, t');
    InverseSquareSumAntitone(m, v1, v2, v1, v2, t);
    InverseSquareSumAntitone(m, v1, v2, v1, v2, t');
    InverseSquareSumInT(m, v1, v2, t, t');
    if v1 <= v2 {
      RootAntitone(r, q, r', q');
    }
    if v2 <= v1 {
      RootAntitone(r', q', r, q);
    }
  }

  /** The inverse square sum moves monotonically in t, in the direction set by
      which governing value is larger. */
  lemma InverseSquareSumInT(m: TrigModel, v1: real, v2: real, t: real, t': real)
    requires Lawful(m) && 0.0 < v1 && 0.0 < v2
    requires 0.0 <= t <= t' <= 1.0
    ensures v1 <= v2 ==> InverseSquareSum(m, v1, v2, t') <= InverseSquareSum(m, v1, v2, t)
    ensures v2 <= v1 ==> InverseSquareSum(m, v1, v2, t) <= InverseSquareSum(m, v1, v2, t')
  {
    var phi, phi' := t * QUARTER_TURN, t' * QUARTER_TURN;
    assert 0.0 <= phi <= phi' <= 90.0;
    var c, c' := m.cos(phi), m.cos(phi');
    assert 0.0 <= c' <= c;
    var c2, c2' := c * c, c' * c';
    SquareStrictlyMonotone(c', c);
    assert c2' <= c2;
    TrigSquares(m, phi);
    TrigSquares(m, phi');
    var a, b := 1.0 / (v1 * v1), 1.0 / (v2 * v2);
    assert InverseSquareSum(m, v1, v2, t) == c2 * a + (1.0 - c2) * b;
    assert InverseSquareSum(m, v1, v2, t') == c2' * a + (1.0 - c2') * b;
    if v1 <= v2 {
      InverseSquareAntitone(v1, v2);
      InterpolationOrder(c2', c2, b, a);
    }
    if v2 <= v1 {
      InverseSquareAntitone(v2, v1);
      InterpolationOrder(c2', c2, a, b);
      assert c2 * a + (1.0 - c2) * b <= c2' * a + (1.0 - c2') * b;
    }
  }

  /** Moving weight from the smaller value lo to the larger value hi never lowers
      the weighted value: w * hi + (1 - w) * lo grows with w. */
  lemma InterpolationOrder(w: real, w': real, lo: real, hi: real)
    requires w <= w' && lo <= hi
    ensures w * hi + (1.0 - w) * lo <= w' * hi + (1.0 - w') * lo
  {
    ProductNonNegative(w' - w, hi - lo);
    assert (w' * hi + (1.0 - w') * lo) - (w * hi + (1.0 - w) * lo) == (w' - w) * (hi - lo);
  }
}
