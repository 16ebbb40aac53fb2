/**
 * The perk catalog built once at start-up (src/main.rs:48-168): nine fixed
 * "supernova" perks, then 40 "Red Giant" and 300 "Star" perks placed at random
 * inside the envelope of radii a build could ever reach.
 *
 * The random number generator is replaced by a sequence of draws: each draw
 * holds the sector index, the position t in the sector and the fraction u of
 * the way from the lowest allowed radius to the limit.
 */
module PerkCatalog {
  import opened RealTrig
  import opened Geometry
  import opened BuildState
  import opened Reachability

  const SUPERNOVA_COST: real := 10.0
  const GIANT_COST: real := 5.0
  const STAR_COST: real := 2.0
  const GIANT_MIN_RATIO: real := 0.4
  const STAR_MIN_RATIO: real := 0.2
  const GIANT_COUNT: nat := 40
  const STAR_COUNT: nat := 300

  const GIANT_LABEL: string := "Red Giant "
  const STAR_LABEL: string := "Star "
  const GENERATED_DESCRIPTION: string := "Passive bonus"

  /** One use of the random source: `gen_range(0..3)`, then `gen_range(0.0..1.0)` for t,
      then the fraction u of the radius range. */
  datatype Draw = Draw(sectorIndex: nat, t: real, u: real)

  predicate ValidDraw(d: Draw)
  {
    d.sectorIndex < 3 && 0.0 <= d.t < 1.0 && 0.0 <= d.u < 1.0
  }

  predicate ValidDraws(ds: seq<Draw>)
  {
    forall i :: 0 <= i < |ds| ==> ValidDraw(ds[i])
  }

  // ---------------------------------------------------------------------------
  // The reachable envelope and one generated point
  // ---------------------------------------------------------------------------

  /**
   * The linear estimate of the best pair of governing stats at position t of a
   * sector: the third stat at the floor and the remaining budget split across t.
   * It is a deliberate approximation of the true budget frontier.
   */
  function Envelope(t: real): (e: (real, real))
    ensures e.0 + e.1 == MAX_TOTAL_POINTS - MIN_STAT_VAL
    ensures 0.0 <= t <= 1.0 ==> MIN_STAT_VAL <= e.0 <= MAX_STAT_VAL && MIN_STAT_VAL <= e.1 <= MAX_STAT_VAL
  {
    (100.0 - 90.0 * t, 10.0 + 90.0 * t)
  }

  /** The build the envelope stands for: the governing pair of sector s at t, the third stat at the floor. */
  function EnvelopeBuild(s: Sector, t: real): (b: Build)
    ensures b.Get(FirstAxis(s)) == Envelope(t).0 && b.Get(SecondAxis(s)) == Envelope(t).1
    ensures 0.0 <= t <= 1.0 ==> Feasible(b)
  {
    var (v1, v2) := Envelope(t);
    match s
    case DexToStr => Build(v2, MIN_STAT_VAL, v1)
    case StrToInt => Build(v1, v2, MIN_STAT_VAL)
    case IntToDex => Build(MIN_STAT_VAL, v1, v2)
  }

  /** The largest radius a perk at position t of a sector may get. */
  function RadiusLimit(m: TrigModel, t: real): (limit: real)
    requires Lawful(m) && 0.0 <= t <= 1.0
    ensures MIN_STAT_VAL <= limit <= MAX_STAT_VAL
  {
    var (v1, v2) := Envelope(t);
    EllipseBetween(m, v1, v2, t);
    EllipseRadius(m, v1, v2, t)
  }

  /**
   * `generate_safe_point`: a perk in the chosen sector at the drawn position,
   * with a radius drawn from [minRatio * limit, limit). The angle resolves back
   * to the same sector and position, and the radius never exceeds the limit.
   */
  function SafePoint(m: TrigModel, name: string, cost: real, minRatio: real, d: Draw): (p: Perk)
    requires Lawful(m) && ValidDraw(d) && 0.0 <= minRatio < 1.0
    ensures p.name == name && p.cost == cost && p.description == GENERATED_DESCRIPTION
    ensures Start(SectorAt(d.sectorIndex)) <= p.angle < End(SectorAt(d.sectorIndex))
    ensures Resolve(p.angle) == Position(SectorAt(d.sectorIndex), d.t)
    ensures minRatio * RadiusLimit(m, d.t) <= p.radiusVal < RadiusLimit(m, d.t)
  {
    var s := SectorAt(d.sectorIndex);
    ResolvePlace(s, d.t);
    Perk(name, GENERATED_DESCRIPTION, Place(s, d.t), DrawRadius(RadiusLimit(m, d.t), minRatio, d.u), cost)
  }

  /** `lo + u * (limit - lo)` with `lo = limit * minRatio`: a radius in [minRatio * limit, limit). */
  function DrawRadius(limit: real, minRatio: real, u: real): (r: real)
    requires 0.0 < limit && 0.0 <= minRatio < 1.0 && 0.0 <= u < 1.0
    ensures minRatio * limit <= r < limit
  {
    var lo := minRatio * limit;
    ScaleStrict(limit, minRatio, 1.0);
    var w := limit - lo;
    ProductNonNegative(u, w);
    ScaleStrict(w, u, 1.0);
    lo + u * w
  }

  /** Every generated perk is unlocked by the envelope build, which is feasible:
      the perk lies inside the area the budget can reach. */
  lemma SafePointReachable(m: TrigModel, name: string, cost: real, minRatio: real, d: Draw)
    requires Lawful(m) && ValidDraw(d) && 0.0 <= minRatio < 1.0
    ensures Feasible(EnvelopeBuild(SectorAt(d.sectorIndex), d.t))
    ensures IsUnlocked(m, EnvelopeBuild(SectorAt(d.sectorIndex), d.t), SafePoint(m, name, cost, minRatio, d))
  {
    var s := SectorAt(d.sectorIndex);
    var b := EnvelopeBuild(s, d.t);
    var p := SafePoint(m, name, cost, minRatio, d);
    assert CurrentRadius(m, b, p.angle) == RadiusLimit(m, d.t);
  }

  // ---------------------------------------------------------------------------
  // Names of generated perks: `format!("{} {}", prefix, i + 1)`
  // ---------------------------------------------------------------------------

  function DigitChar(d: nat): char
    requires d < 10
  {
    ('0' as int + d) as char
  }

  predicate IsDigit(c: char)
  {
    '0' <= c <= '9'
  }

  function DigitValue(c: char): (d: nat)
    requires IsDigit(c)
    ensures d < 10 && DigitChar(d) == c
  {
    c as int - '0' as int
  }

  /** The decimal rendering of n, without leading zeros. */
  function Decimal(n: nat): (s: string)
    ensures 1 <= |s|
    ensures forall i :: 0 <= i < |s| ==> IsDigit(s[i])
  {
    if n < 10 then [DigitChar(n)] else Decimal(n / 10) + [DigitChar(n % 10)]
  }

  /** The value of a string of decimal digits. */
  function DecimalValue(s: string): nat
    requires forall i :: 0 <= i < |s| ==> IsDigit(s[i])
  {
    if s == [] then 0
    else DecimalValue(s[..|s| - 1]) * 10 + DigitValue(s[|s| - 1])
  }

  /** Reading back the decimal rendering gives the number. */
  lemma {:induction false} DecimalRoundTrip(n: nat)
    ensures DecimalValue(Decimal(n)) == n
  {
    if 10 <= n {
      var s := Decimal(n);
      assert s[..|s| - 1] == Decimal(n / 10);
      DecimalRoundTrip(n / 10);
    }
  }

  /** Distinct numbers render differently. */
  lemma DecimalInjective(a: nat, b: nat)
    requires Decimal(a) == Decimal(b)
    ensures a == b
  {
    DecimalRoundTrip(a);
    DecimalRoundTrip(b);
  }

  // ---------------------------------------------------------------------------
  // The fixed perks
  // ---------------------------------------------------------------------------

  /** The hand-placed perks: name, description, angle, radius. */
  const SUPERNOVAS: seq<(string, string, real, real)> := [
    ("Warrior", "Increase area of effect by 30%", ANG_STR_RED, 80.0),
    ("Ranger", "+ 2 additional projectiles", ANG_DEX_GREEN, 80.0),
    ("Mage", "Spells chain to 2 additional targets", ANG_INT_BLUE, 80.0),
    ("Duelist", "Attack speed scales with STR/DEX", (ANG_STR_RED + ANG_DEX_GREEN) / 2.0, 40.0),
    ("Monk", "Unarmed strikes stun enemies", (ANG_STR_RED + ANG_DEX_GREEN) / 2.0, 55.0),
    ("Ranger-Mage", "Arrows deal 5% more elemental damage",
     (ANG_DEX_GREEN + (ANG_INT_BLUE + FULL_TURN)) / 2.0, 40.0),
    ("Arcane Trickster", "Teleport on crit", (ANG_DEX_GREEN + (ANG_INT_BLUE + FULL_TURN)) / 2.0, 55.0),
    ("Battlemage", "Gain Energy Shield based on INT", (ANG_INT_BLUE + ANG_STR_RED) / 2.0, 40.0),
    ("Paladin", "Heal allies on hit", (ANG_INT_BLUE + ANG_STR_RED) / 2.0, 55.0)
  ]

  function SupernovaPerk(e: (string, string, real, real)): Perk
  {
    Perk(e.0, e.1, e.2, e.3, SUPERNOVA_COST)
  }

  /** The first three fixed perks sit on the landmarks of strength, dexterity and
      intelligence; the other six sit two by two at the middle of each sector. */
  lemma SupernovaPlacement()
    ensures SUPERNOVAS[0].2 == Landmark(Strength)
    ensures SUPERNOVAS[1].2 == Landmark(Dexterity)
    ensures SUPERNOVAS[2].2 == Landmark(Intelligence)
    ensures Resolve(SUPERNOVAS[3].2) == Resolve(SUPERNOVAS[4].2) == Position(DexToStr, 0.5)
    ensures Resolve(SUPERNOVAS[5].2) == Resolve(SUPERNOVAS[6].2) == Position(IntToDex, 0.5)
    ensures Resolve(SUPERNOVAS[7].2) == Resolve(SUPERNOVAS[8].2) == Position(StrToInt, 0.5)
  {
    ResolvePlace(DexToStr, 0.5);
    ResolvePlace(IntToDex, 0.5);
    ResolvePlace(StrToInt, 0.5);
  }

  /** A perk can be unlocked by some build the stat buttons can reach. */
  ghost predicate ReachableOnGrid(m: TrigModel, p: Perk)
    requires Lawful(m)
  {
    exists b :: Feasible(b) && BuildOnGrid(b) && IsUnlocked(m, b, p)
  }

  /** Every fixed perk can be unlocked by a feasible build on the 5-point grid. */
  lemma SupernovaReachable(m: TrigModel, i: nat)
    requires Lawful(m) && i < |SUPERNOVAS|
    ensures ReachableOnGrid(m, SupernovaPerk(SUPERNOVAS[i]))
  {
    var p := SupernovaPerk(SUPERNOVAS[i]);
    SupernovaPlacement();
    var r := SUPERNOVAS[i].3;
    GridOf(2);
    GridOf(8);
    GridOf(11);
    GridOf(16);
    var b: Build;
    if i < 3 {
      var a := if i == 0 then Strength else if i == 1 then Dexterity else Intelligence;
      b := Build(MIN_STAT_VAL, MIN_STAT_VAL, MIN_STAT_VAL).With(a, 80.0);
      LandmarkRadius(m, b, a);
    } else {
      var s := if i < 5 then DexToStr else if i < 7 then IntToDex else StrToInt;
      b := EnvelopeBuildAt(s, r);
      EllipseCircle(m, r, 0.5);
    }
    assert Feasible(b) && BuildOnGrid(b) && IsUnlocked(m, b, p);
  }

  /** Both governing stats of sector s at k, the third at the floor. */
  function EnvelopeBuildAt(s: Sector, k: real): (b: Build)
    ensures b.Get(FirstAxis(s)) == k && b.Get(SecondAxis(s)) == k
  {
    match s
    case DexToStr => Build(k, MIN_STAT_VAL, k)
    case StrToInt => Build(k, k, MIN_STAT_VAL)
    case IntToDex => Build(MIN_STAT_VAL, k, k)
  }

  /** The warrior perk (radius 80 on the strength landmark) is unlocked exactly
      when strength reaches 79.5. */
  lemma WarriorUnlock(m: TrigModel, b: Build)
    requires Lawful(m) && Active(b)
    ensures IsUnlocked(m, b, SupernovaPerk(SUPERNOVAS[0])) <==> 79.5 <= b.strength
  {
    LandmarkPerkUnlock(m, b, Strength, SupernovaPerk(SUPERNOVAS[0]));
  }

  // ---------------------------------------------------------------------------
  // The whole catalog
  // ---------------------------------------------------------------------------

  /** The fixed perks in table order, all at the highest cost. */
  function Supernovas(): (ps: seq<Perk>)
    ensures |ps| == |SUPERNOVAS|
    ensures forall i :: 0 <= i < |ps| ==> ps[i] == SupernovaPerk(SUPERNOVAS[i])
    ensures forall i :: 0 <= i < |ps| ==>
              && ps[i].name == SUPERNOVAS[i].0 && ps[i].description == SUPERNOVAS[i].1
              && ps[i].angle == SUPERNOVAS[i].2 && ps[i].radiusVal == SUPERNOVAS[i].3
              && ps[i].cost == SUPERNOVA_COST
  {
    seq(|SUPERNOVAS|, i requires 0 <= i < |SUPERNOVAS| => SupernovaPerk(SUPERNOVAS[i]))
  }

  /** The first n perks of a generated tier, the k-th named `prefix` followed by k + 1. */
  function Tier(m: TrigModel, ds: seq<Draw>, prefix: string, cost: real, minRatio: real, n: nat): (ps: seq<Perk>)
    requires Lawful(m) && ValidDraws(ds) && n <= |ds| && 0.0 <= minRatio < 1.0
    ensures |ps| == n
    ensures forall i :: 0 <= i < n ==> ps[i] == SafePoint(m, prefix + Decimal(i + 1), cost, minRatio, ds[i])
  {
    if n == 0 then []
    else Tier(m, ds, prefix, cost, minRatio, n - 1) + [SafePoint(m, prefix + Decimal(n), cost, minRatio, ds[n - 1])]
  }

  /** The catalog: fixed perks, then the giants from the first 40 draws, then
      the stars from the remaining 300. */
  function Catalog(m: TrigModel, ds: seq<Draw>): (c: seq<Perk>)
    requires Lawful(m) && |ds| == GIANT_COUNT + STAR_COUNT && ValidDraws(ds)
    ensures |c| == 349
    ensures forall i :: 0 <= i < 9 ==> c[i].cost == SUPERNOVA_COST
    ensures forall i :: 9 <= i < 49 ==> c[i].cost == GIANT_COST
    ensures forall i :: 49 <= i < 349 ==> c[i].cost == STAR_COST
  {
    Supernovas()
    + Tier(m, ds[..GIANT_COUNT], GIANT_LABEL, GIANT_COST, GIANT_MIN_RATIO, GIANT_COUNT)
    + Tier(m, ds[GIANT_COUNT..], STAR_LABEL, STAR_COST, STAR_MIN_RATIO, STAR_COUNT)
  }

  /** `Default::default`'s perk list, built by pushing in three loops. */
  method GenerateCatalog(m: TrigModel, ds: seq<Draw>) returns (perks: seq<Perk>)
    requires Lawful(m) && |ds| == GIANT_COUNT + STAR_COUNT && ValidDraws(ds)
    ensures perks == Catalog(m, ds)
  {
    perks := [];
    for i := 0 to |SUPERNOVAS|
      invariant perks == Supernovas()[..i]
    {
      var (name, desc, angle, rad) := SUPERNOVAS[i];
      perks := perks + [Perk(name, desc, angle, rad, SUPERNOVA_COST)];
    }
    var giants, stars := ds[..GIANT_COUNT], ds[GIANT_COUNT..];
    for i := 0 to GIANT_COUNT
      invariant perks == Supernovas() + Tier(m, giants, GIANT_LABEL, GIANT_COST, GIANT_MIN_RATIO, i)
    {
      perks := perks + [SafePoint(m, GIANT_LABEL + Decimal(i + 1), GIANT_COST, GIANT_MIN_RATIO, giants[i])];
    }
    for i := 0 to STAR_COUNT
      invariant perks == Supernovas() + Tier(m, giants, GIANT_LABEL, GIANT_COST, GIANT_MIN_RATIO, GIANT_COUNT)
                         + Tier(m, stars, STAR_LABEL, STAR_COST, STAR_MIN_RATIO, i)
    {
      perks := perks + [SafePoint(m, STAR_LABEL + Decimal(i + 1), STAR_COST, STAR_MIN_RATIO, stars[i])];
    }
  }

  /** The name of the perk at position i of the catalog. */
  function CatalogName(i: nat): string
    requires i < 349
  {
    if i < 9 then SUPERNOVAS[i].0
    else if i < 49 then GIANT_LABEL + Decimal(i - 8)
    else STAR_LABEL + Decimal(i - 48)
  }

  /** Where each draw ends up: the giant drawn by ds[k] at position 9 + k, the
      star drawn by ds[40 + k] at position 49 + k, each named by its position. */
  lemma CatalogLayout(m: TrigModel, ds: seq<Draw>)
    requires Lawful(m) && |ds| == GIANT_COUNT + STAR_COUNT && ValidDraws(ds)
    ensures var c := Catalog(m, ds);
      && c[..9] == Supernovas()
      && (forall i :: 9 <= i < 49 ==>
            c[i] == SafePoint(m, CatalogName(i), GIANT_COST, GIANT_MIN_RATIO, ds[i - 9]))
      && (forall i :: 49 <= i < 349 ==>
            c[i] == SafePoint(m, CatalogName(i), STAR_COST, STAR_MIN_RATIO, ds[i - 9]))
      && (forall i :: 0 <= i < 349 ==> c[i].name == CatalogName(i))
  {
    var giants := Tier(m, ds[..GIANT_COUNT], GIANT_LABEL, GIANT_COST, GIANT_MIN_RATIO, GIANT_COUNT);
    var stars := Tier(m, ds[GIANT_COUNT..], STAR_LABEL, STAR_COST, STAR_MIN_RATIO, STAR_COUNT);
    var c := Catalog(m, ds);
    assert c == Supernovas() + giants + stars;
    forall i | 9 <= i < 49
      ensures c[i] == SafePoint(m, CatalogName(i), GIANT_COST, GIANT_MIN_RATIO, ds[i - 9])
    {
      assert c[i] == giants[i - 9];
    }
    forall i | 49 <= i < 349
      ensures c[i] == SafePoint(m, CatalogName(i), STAR_COST, STAR_MIN_RATIO, ds[i - 9])
    {
      assert c[i] == stars[i - 49];
    }
  }

  /** Every perk of the catalog can be unlocked by some feasible build. */
  lemma CatalogReachable(m: TrigModel, ds: seq<Draw>, i: nat)
    requires Lawful(m) && |ds| == GIANT_COUNT + STAR_COUNT && ValidDraws(ds) && i < 349
    ensures exists b :: Feasible(b) && IsUnlocked(m, b, Catalog(m, ds)[i])
  {
    var c := Catalog(m, ds);
    CatalogLayout(m, ds);
    if i < 9 {
      assert c[i] == Supernovas()[i];
      SupernovaReachable(m, i);
    } else {
      var (cost, ratio) := if i < 49 then (GIANT_COST, GIANT_MIN_RATIO) else (STAR_COST, STAR_MIN_RATIO);
      assert ValidDraw(ds[i - 9]);
      assert c[i] == SafePoint(m, CatalogName(i), cost, ratio, ds[i - 9]);
      SafePointReachable(m, CatalogName(i), cost, ratio, ds[i - 9]);
    }
  }

  /** A hand-placed perk's name never looks like a generated one. */
  lemma FixedNameNotGenerated(i: nat, prefix: string, k: nat)
    requires i < |SUPERNOVAS| && (prefix == GIANT_LABEL || prefix == STAR_LABEL)
    ensures SUPERNOVAS[i].0 != prefix + Decimal(k)
  {
    var g := prefix + Decimal(k);
    assert g[0] == prefix[0] && g[1] == prefix[1];
  }

  /** Different positions carry different names. */
  lemma CatalogNameInjective(i: nat, j: nat)
    requires i < j < 349
    ensures CatalogName(i) != CatalogName(j)
  {
    if j < 9 {
    } else if i < 9 {
      if j < 49 {
        FixedNameNotGenerated(i, GIANT_LABEL, j - 8);
      } else {
        FixedNameNotGenerated(i, STAR_LABEL, j - 48);
      }
    } else if j < 49 || 49 <= i {
      var prefix := if j < 49 then GIANT_LABEL else STAR_LABEL;
      var k := if j < 49 then 8 else 48;
      if CatalogName(i) == CatalogName(j) {
        assert Decimal(i - k) == CatalogName(i)[|prefix|..];
        assert Decimal(j - k) == CatalogName(j)[|prefix|..];
        DecimalInjective(i - k, j - k);
      }
    } else {
      assert CatalogName(i)[0] == 'R' && CatalogName(j)[0] == 'S';
    }
  }

  /** Names tell perks apart: no two perks of the catalog share a name. */
  lemma CatalogNamesDistinct(m: TrigModel, ds: seq<Draw>)
    requires Lawful(m) && |ds| == GIANT_COUNT + STAR_COUNT && ValidDraws(ds)
    ensures var c := Catalog(m, ds); forall i, j :: 0 <= i < j < |c| ==> c[i].name != c[j].name
  {
    CatalogLayout(m, ds);
    forall i: nat, j: nat | i < j < 349
      ensures CatalogName(i) != CatalogName(j)
    {
      CatalogNameInjective(i, j);
    }
  }
}
