/**
 * Reachability: the live boundary radius of the build at any angle, and the
 * locked/unlocked test of a perk (src/main.rs:15-22, 209-232, 373-374).
 */
module Reachability {
  import opened RealTrig
  import opened Geometry
  import opened BuildState

  /** Slack added to the live radius before comparing it with a perk's radius. */
  const UNLOCK_TOLERANCE: real := 0.5

  /** A reward point on the plot; its angle is in degrees. */
  datatype Perk = Perk(name: string, description: string, angle: real, radiusVal: real, cost: real)

  /** The axis at the start of a sector (the `v1` of the radius formula). */
  function FirstAxis(s: Sector): (a: Axis)
    ensures Landmark(a) == Start(s)
  {
    match s
    case DexToStr => Dexterity
    case StrToInt => Strength
    case IntToDex => Intelligence
  }

  /** The axis at the end of a sector (the `v2` of the radius formula). */
  function SecondAxis(s: Sector): (a: Axis)
    ensures Landmark(a) == Start(Next(s))
    ensures Landmark(a) == End(s) - (if s == IntToDex then FULL_TURN else 0.0)
    ensures a != FirstAxis(s)
  {
    match s
    case DexToStr => Strength
    case StrToInt => Intelligence
    case IntToDex => Dexterity
  }

  /** The landmark direction of each axis. */
  function Landmark(a: Axis): real
  {
    match a
    case Strength => ANG_STR_RED
    case Intelligence => ANG_INT_BLUE
    case Dexterity => ANG_DEX_GREEN
  }

  /** Every stat is positive, so the radius formula never divides by zero. */
  predicate Positive(b: Build)
  {
    0.0 < b.strength && 0.0 < b.intelligence && 0.0 < b.dexterity
  }

  /** Every stat is at least the guard threshold of the radius formula. */
  predicate Active(b: Build)
  {
    DEGENERATE_BELOW <= b.strength && DEGENERATE_BELOW <= b.intelligence && DEGENERATE_BELOW <= b.dexterity
  }

  /**
   * The live boundary radius at `angle`: the elliptical radius of the pair of
   * stats governing the angle's sector. For a feasible build the boundary lies
   * between the floor and ceiling circles.
   */
  function CurrentRadius(m: TrigModel, b: Build, angle: real): (r: real)
    requires Lawful(m) && Positive(b)
    ensures 0.0 <= r
    ensures Feasible(b) ==> MIN_STAT_VAL <= r <= MAX_STAT_VAL
  {
    var p := Resolve(angle);
    var v1, v2 := b.Get(FirstAxis(p.sector)), b.Get(SecondAxis(p.sector));
    EllipseZeroIffDegenerate(m, v1, v2, p.t);
    if Feasible(b) then EllipseBetween(m, v1, v2, p.t); EllipseRadius(m, v1, v2, p.t)
    else EllipseRadius(m, v1, v2, p.t)
  }

  /** A perk is unlocked when its radius is within the live boundary, up to the tolerance. */
  predicate IsUnlocked(m: TrigModel, b: Build, p: Perk)
    requires Lawful(m) && Positive(b)
    ensures Feasible(b) && p.radiusVal <= MIN_STAT_VAL + UNLOCK_TOLERANCE ==> IsUnlocked(m, b, p)
    ensures Feasible(b) && MAX_STAT_VAL + UNLOCK_TOLERANCE < p.radiusVal ==> !IsUnlocked(m, b, p)
  {
    p.radiusVal <= CurrentRadius(m, b, p.angle) + UNLOCK_TOLERANCE
  }

  /** At each axis's landmark the live radius is exactly that stat. */
  lemma LandmarkRadius(m: TrigModel, b: Build, a: Axis)
    requires Lawful(m) && Active(b)
    ensures CurrentRadius(m, b, Landmark(a)) == b.Get(a)
  {
    var s := FirstSectorOf(a);
    ResolvePlace(s, 0.0);
    assert Place(s, 0.0) == Landmark(a);
    EllipseAtStart(m, b.Get(FirstAxis(s)), b.Get(SecondAxis(s)));
  }

  /** The sector that starts at an axis's landmark. */
  function FirstSectorOf(a: Axis): (s: Sector)
    ensures FirstAxis(s) == a && Start(s) == Landmark(a)
  {
    match a
    case Dexterity => DexToStr
    case Strength => StrToInt
    case Intelligence => IntToDex
  }

  /**
   * The sector ending at a landmark reaches, at t = 1, the same radius the
   * next sector starts with there: the stat of that landmark.
   */
  lemma LandmarkContinuity(m: TrigModel, b: Build, s: Sector)
    requires Lawful(m) && Active(b)
    ensures EllipseRadius(m, b.Get(FirstAxis(s)), b.Get(SecondAxis(s)), 1.0)
            == CurrentRadius(m, b, Start(Next(s)))
  {
    EllipseAtEnd(m, b.Get(FirstAxis(s)), b.Get(SecondAxis(s)));
    LandmarkRadius(m, b, SecondAxis(s));
    assert Landmark(SecondAxis(s)) == Start(Next(s));
  }

  /** With all three stats equal the blob is a circle of that radius. */
  lemma BalancedBuildIsCircle(m: TrigModel, k: real, angle: real)
    requires Lawful(m) && DEGENERATE_BELOW <= k
    ensures CurrentRadius(m, Build(k, k, k), angle) == k
  {
    var p := Resolve(angle);
    EllipseCircle(m, k, p.t);
  }

  /** Raising stats never shrinks the boundary at any angle. */
  lemma RadiusMonotone(m: TrigModel, b: Build, b': Build, angle: real)
    requires Lawful(m) && Active(b) && Dominates(b', b)
    ensures Positive(b')
    ensures CurrentRadius(m, b, angle) <= CurrentRadius(m, b', angle)
  {
    assert b.strength <= b'.Get(Strength) && b.intelligence <= b'.Get(Intelligence)
      && b.dexterity <= b'.Get(Dexterity);
    var p := Resolve(angle);
    var f, g := FirstAxis(p.sector), SecondAxis(p.sector);
    assert b.Get(f) <= b'.Get(f) && b.Get(g) <= b'.Get(g);
    EllipseMonotone(m, b.Get(f), b.Get(g), b'.Get(f), b'.Get(g), p.t);
  }

  /** Raising stats never locks a perk that was unlocked. */
  lemma UnlockMonotone(m: TrigModel, b: Build, b': Build, p: Perk)
    requires Lawful(m) && Active(b) && Dominates(b', b)
    ensures Positive(b')
    ensures IsUnlocked(m, b, p) ==> IsUnlocked(m, b', p)
  {
    RadiusMonotone(m, b, b', p.angle);
  }

  /** A "+" press never locks a perk. */
  lemma IncreaseKeepsUnlocked(m: TrigModel, b: Build, a: Axis, p: Perk)
    requires Lawful(m) && Feasible(b)
    ensures Feasible(Increase(b, a))
    ensures IsUnlocked(m, b, p) ==> IsUnlocked(m, Increase(b, a), p)
  {
    UnlockMonotone(m, b, Increase(b, a), p);
  }

  /** One stat maxed, the others at the floor: the boundary is 100 at that stat's
      landmark and 10 at the other two. */
  lemma OneStatMaxed(m: TrigModel)
    requires Lawful(m)
    ensures CurrentRadius(m, Build(100.0, 10.0, 10.0), ANG_STR_RED) == 100.0
    ensures CurrentRadius(m, Build(100.0, 10.0, 10.0), ANG_DEX_GREEN) == 10.0
    ensures CurrentRadius(m, Build(100.0, 10.0, 10.0), ANG_INT_BLUE) == 10.0
  {
    LandmarkRadius(m, Build(100.0, 10.0, 10.0), Strength);
    LandmarkRadius(m, Build(100.0, 10.0, 10.0), Dexterity);
    LandmarkRadius(m, Build(100.0, 10.0, 10.0), Intelligence);
  }

  /** A perk at an axis's landmark is unlocked exactly when that stat is within
      the tolerance of the perk's radius. */
  lemma LandmarkPerkUnlock(m: TrigModel, b: Build, a: Axis, p: Perk)
    requires Lawful(m) && Active(b) && p.angle == Landmark(a)
    ensures IsUnlocked(m, b, p) <==> p.radiusVal - UNLOCK_TOLERANCE <= b.Get(a)
  {
    LandmarkRadius(m, b, a);
  }
}
