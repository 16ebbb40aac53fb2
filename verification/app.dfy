/**
 * The application state (src/main.rs:24-31): the three stats, changed in place
 * by the "+", "-" and "Reset" buttons, and the perk catalog.
 */
module App {
  import opened RealTrig
  import opened BuildState
  import opened Reachability
  import opened PerkCatalog

  class StatApp {
    var strength: real
    var intelligence: real
    var dexterity: real
    var perks: seq<Perk>

    /** The stats as a value. */
    function Stats(): Build
      reads this
    {
      Build(strength, intelligence, dexterity)
    }

    /** The stats are within their bounds and the budget, and on the 5-point grid. */
    ghost predicate Valid()
      reads this
    {
      Feasible(Stats()) && BuildOnGrid(Stats())
    }

    /** `Default::default`: every stat at the floor and a freshly generated catalog. */
    constructor (m: TrigModel, ds: seq<Draw>)
      requires Lawful(m) && |ds| == GIANT_COUNT + STAR_COUNT && ValidDraws(ds)
      ensures Valid()
      ensures Stats() == INITIAL
      ensures perks == Catalog(m, ds)
    {
      var generated := GenerateCatalog(m, ds);
      strength := MIN_STAT_VAL;
      intelligence := MIN_STAT_VAL;
      dexterity := MIN_STAT_VAL;
      perks := generated;
      InitialFeasible();
    }

    /** Stores `v` in the field of stat `a`. */
    method SetStat(a: Axis, v: real)
      modifies this
      ensures Stats() == old(Stats()).With(a, v)
      ensures perks == old(perks)
    {
      match a
      case Strength => strength := v;
      case Intelligence => intelligence := v;
      case Dexterity => dexterity := v;
    }

    /**
     * A click on "+" of stat `a`: when the budget and the stat's ceiling both
     * leave room, add five points, or what is left of the budget if less, and
     * clamp. On the grid this is exactly one step of five, and the stats stay valid.
     */
    method PressIncrease(a: Axis)
      requires Valid()
      modifies this
      ensures Valid()
      ensures Stats() == Increase(old(Stats()), a)
      ensures Stats() == if CanIncrease(old(Stats()), a) then old(Stats()).With(a, old(Stats()).Get(a) + STEP) else old(Stats())
      ensures perks == old(perks)
    {
      IncreaseOnGrid(Stats(), a);
      var currentTotal := strength + intelligence + dexterity;
      var value := Stats().Get(a);
      var remainingGlobal := MAX_TOTAL_POINTS - currentTotal;
      var remainingStat := MAX_STAT_VAL - value;
      if remainingGlobal > 0.0 && remainingStat > 0.0 {
        var increment := if STEP <= remainingGlobal then STEP else remainingGlobal;
        SetStat(a, Clamp(value + increment, MIN_STAT_VAL, MAX_STAT_VAL));
      }
    }

    /** A click on "-" of stat `a`: above the floor, take five points off and clamp. */
    method PressDecrease(a: Axis)
      requires Valid()
      modifies this
      ensures Valid()
      ensures Stats() == Decrease(old(Stats()), a)
      ensures Stats() == if CanDecrease(old(Stats()), a) then old(Stats()).With(a, old(Stats()).Get(a) - STEP) else old(Stats())
      ensures perks == old(perks)
    {
      DecreaseOnGrid(Stats(), a);
      var value := Stats().Get(a);
      if value > MIN_STAT_VAL {
        SetStat(a, Clamp(value - STEP, MIN_STAT_VAL, MAX_STAT_VAL));
      }
    }

    /** A click on "Reset": the whole state is rebuilt as at start-up, with a new catalog. */
    method Reset(m: TrigModel, ds: seq<Draw>)
      requires Lawful(m) && |ds| == GIANT_COUNT + STAR_COUNT && ValidDraws(ds)
      modifies this
      ensures Valid()
      ensures Stats() == INITIAL
      ensures perks == Catalog(m, ds)
    {
      var generated := GenerateCatalog(m, ds);
      strength := MIN_STAT_VAL;
      intelligence := MIN_STAT_VAL;
      dexterity := MIN_STAT_VAL;
      perks := generated;
      InitialFeasible();
    }
  }
}
