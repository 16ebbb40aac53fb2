/**
 * The build: three stats under per-stat bounds and a global point budget, and
 * the bounded +/- adjustments of the stat buttons (src/main.rs:6-8, 170-173,
 * 192-204).
 *
 * The source keeps stats as f32; every value the buttons can produce is a
 * small multiple of 5, which f32 represents exactly, so reals lose nothing.
 */
module BuildState {

  const MAX_STAT_VAL: real := 100.0
  const MIN_STAT_VAL: real := 10.0
  const MAX_TOTAL_POINTS: real := 120.0

  /** The size of one button press. */
  const STEP: real := 5.0

  datatype Axis = Strength | Intelligence | Dexterity

  datatype Build = Build(strength: real, intelligence: real, dexterity: real)
  {
    function Get(a: Axis): real
    {
      match a
      case Strength => strength
      case Intelligence => intelligence
      case Dexterity => dexterity
    }

    /** This build with stat `a` replaced by `v`. */
    function With(a: Axis, v: real): (b: Build)
      ensures b.Get(a) == v
      ensures forall o :: o != a ==> b.Get(o) == Get(o)
    {
      match a
      case Strength => this.(strength := v)
      case Intelligence => this.(intelligence := v)
      case Dexterity => this.(dexterity := v)
    }

    function Total(): real
    {
      strength + intelligence + dexterity
    }
  }

  /** Every stat starts at the floor. */
  const INITIAL: Build := Build(MIN_STAT_VAL, MIN_STAT_VAL, MIN_STAT_VAL)

  /** Each stat within [MIN_STAT_VAL, MAX_STAT_VAL], the sum within the budget. */
  predicate Feasible(b: Build)
  {
    && MIN_STAT_VAL <= b.strength <= MAX_STAT_VAL
    && MIN_STAT_VAL <= b.intelligence <= MAX_STAT_VAL
    && MIN_STAT_VAL <= b.dexterity <= MAX_STAT_VAL
    && b.Total() <= MAX_TOTAL_POINTS
  }

  /** `v` is a whole multiple of STEP. */
  predicate OnGrid(v: real)
  {
    v == STEP * (v / STEP).Floor as real
  }

  predicate BuildOnGrid(b: Build)
  {
    OnGrid(b.strength) && OnGrid(b.intelligence) && OnGrid(b.dexterity)
  }

  /** Every stat of `b` is at least that of `a`. */
  predicate Dominates(b: Build, a: Build)
  {
    forall x :: a.Get(x) <= b.Get(x)
  }

  function Clamp(x: real, lo: real, hi: real): real
    requires lo <= hi
  {
    if x < lo then lo else if hi < x then hi else x
  }

  function MinReal(a: real, b: real): real
  {
    if a <= b then a else b
  }

  /** Whether the "+" button of stat `a` is enabled. */
  predicate CanIncrease(b: Build, a: Axis)
    ensures Feasible(b) ==> (!CanIncrease(b, a) <==> b.Total() == MAX_TOTAL_POINTS || b.Get(a) == MAX_STAT_VAL)
  {
    var remainingGlobal := MAX_TOTAL_POINTS - b.Total();
    var remainingStat := MAX_STAT_VAL - b.Get(a);
    remainingGlobal > 0.0 && remainingStat > 0.0
  }

  /** Whether the "-" button of stat `a` is enabled. */
  predicate CanDecrease(b: Build, a: Axis)
    ensures Feasible(b) ==> (!CanDecrease(b, a) <==> b.Get(a) == MIN_STAT_VAL)
  {
    b.Get(a) > MIN_STAT_VAL
  }

  /** The build after pressing "+" on stat `a`: a no-op while the button is disabled. */
  function Increase(b: Build, a: Axis): (r: Build)
    ensures forall o :: o != a ==> r.Get(o) == b.Get(o)
    ensures Dominates(r, b)
    ensures Feasible(b) ==> Feasible(r)
  {
    if CanIncrease(b, a) then
      var remainingGlobal := MAX_TOTAL_POINTS - b.Total();
      var increment := MinReal(STEP, remainingGlobal);
      b.With(a, Clamp(b.Get(a) + increment, MIN_STAT_VAL, MAX_STAT_VAL))
    else
      b
  }

  /** The build after pressing "-" on stat `a`: a no-op while the button is disabled. */
  function Decrease(b: Build, a: Axis): (r: Build)
    ensures forall o :: o != a ==> r.Get(o) == b.Get(o)
    ensures Dominates(b, r)
    ensures Feasible(b) ==> Feasible(r)
  {
    if CanDecrease(b, a) then
      b.With(a, Clamp(b.Get(a) - STEP, MIN_STAT_VAL, MAX_STAT_VAL))
    else
      b
  }

  /** The multiple of STEP that a grid value is. */
  lemma GridIndex(v: real) returns (k: int)
    requires OnGrid(v)
    ensures v == STEP * k as real
  {
    k := (v / STEP).Floor;
  }

  lemma GridOf(k: int)
    ensures OnGrid(STEP * k as real)
  {
    assert (STEP * k as real) / STEP == k as real;
  }

  /**
   * On grid builds every enabled press moves the stat by exactly one step:
   * the budget left over is then a positive multiple of 5, so the increment is
   * never cut short and the clamp never bites. The build stays on the grid.
   */
  lemma IncreaseOnGrid(b: Build, a: Axis)
    requires Feasible(b) && BuildOnGrid(b)
    ensures Increase(b, a) == if CanIncrease(b, a) then b.With(a, b.Get(a) + STEP) else b
    ensures BuildOnGrid(Increase(b, a))
  {
    var ks := GridIndex(b.strength);
    var ki := GridIndex(b.intelligence);
    var kd := GridIndex(b.dexterity);
    var k := GridIndex(b.Get(a));
    if CanIncrease(b, a) {
      var left := 24 - (ks + ki + kd);
      assert MAX_TOTAL_POINTS - b.Total() == STEP * left as real;
      assert 1 <= left;
      assert k <= 19;
      GridOf(k + 1);
      assert b.Get(a) + STEP == STEP * (k + 1) as real;
    }
  }

  /** On grid builds every enabled "-" press moves the stat down by exactly one step. */
  lemma DecreaseOnGrid(b: Build, a: Axis)
    requires Feasible(b) && BuildOnGrid(b)
    ensures Decrease(b, a) == if CanDecrease(b, a) then b.With(a, b.Get(a) - STEP) else b
    ensures BuildOnGrid(Decrease(b, a))
  {
    var k := GridIndex(b.Get(a));
    if CanDecrease(b, a) {
      assert 3 <= k;
      GridOf(k - 1);
      assert b.Get(a) - STEP == STEP * (k - 1) as real;
    }
  }

  /** "+" has no effect exactly when the budget is spent or the stat is at its ceiling. */
  lemma IncreaseNoOpIff(b: Build, a: Axis)
    requires Feasible(b)
    ensures Increase(b, a) == b <==> b.Total() == MAX_TOTAL_POINTS || b.Get(a) == MAX_STAT_VAL
  {
    if CanIncrease(b, a) {
      assert Increase(b, a).Get(a) > b.Get(a);
    }
  }

  /** "-" has no effect exactly when the stat is at its floor. */
  lemma DecreaseNoOpIff(b: Build, a: Axis)
    requires Feasible(b)
    ensures Decrease(b, a) == b <==> b.Get(a) == MIN_STAT_VAL
  {
    if CanDecrease(b, a) {
      assert Decrease(b, a).Get(a) < b.Get(a);
    }
  }

  /** With all stats at 40 the budget is spent: no "+" press changes anything. */
  lemma BalancedBuildIsFull(a: Axis)
    ensures Increase(Build(40.0, 40.0, 40.0), a) == Build(40.0, 40.0, 40.0)
  {
    IncreaseNoOpIff(Build(40.0, 40.0, 40.0), a);
  }

  /** The starting build satisfies the invariant. */
  lemma InitialFeasible()
    ensures Feasible(INITIAL) && BuildOnGrid(INITIAL)
  {
    GridOf(2);
  }
}
