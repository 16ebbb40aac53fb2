# skill-tree: a verified model of the stat planner core

skill-tree is a small desktop tool for planning a character build. The player
spends a budget of 120 points on three stats: strength, intelligence and
dexterity. Each stat lies between 10 and 100. The build is drawn as a blob
around three landmark directions: dexterity at 45°, strength at 135° and
intelligence at 270°. Between two landmarks the boundary follows the polar
radius of a quarter ellipse whose semi-axes are the two governing stats.
Exactly 349 perks are scattered over the plane. A perk is unlocked when its
radius is within the boundary at its angle, up to 0.5.

This project models the core of `src/main.rs` in Dafny and proves what it
promises:

- `trig.dfy` (module `RealTrig`): cosine, sine and square root as an
  uninterpreted `TrigModel`. The only facts assumed about them are the
  identities in `Lawful`: the values at 0° and 90°, sin² + cos² = 1, cosine
  falling from 1 to 0 over the first quadrant, and sqrt being the non-negative
  square root.
- `geometry.dfy` (module `Geometry`): the landmarks, the three uneven sectors
  (90°, 135°, 135°), how an angle resolves to a sector and a local parameter
  t, and the elliptical radius formula. It proves the endpoint values, the
  circle case, the bounds, monotonicity of the formula in the stats, and that
  along t the radius moves monotonically from the first stat to the second.
- `build.dfy` (module `BuildState`): the stats as a value and the "+" and "-"
  buttons as functions. It proves the bounds, the budget, the 5-point grid,
  that a press leaves the other stats alone, and when a press is a no-op.
- `reach.dfy` (module `Reachability`): the live boundary radius and the unlock
  test. It proves the landmark values, that the sector ending at a landmark
  reaches that landmark's stat, and that raising stats never locks a perk.
- `catalog.dfy` (module `PerkCatalog`): the start-up catalog. It has the nine
  fixed perks, 40 "Red Giant" and 300 "Star" perks placed inside the
  reachable envelope, and the loop that builds the catalog.
- `app.dfy` (module `App`): the application object `StatApp`. Its stat fields
  are changed in place by `PressIncrease`, `PressDecrease` and `Reset`.

Angles are in degrees. The source works in radians, but every formula of the
core uses ratios of angle differences, and those are the same in either unit.
The random number generator becomes a sequence of `Draw`s. Each `Draw` holds
the sector index, the position t in [0, 1) and the fraction u in [0, 1) of the
radius range.

## Model

| member | source | states |
|---|---|---|
| Geometry.SectorsTileTheCircle | src/main.rs:116-121 | The generator's three sectors are 90°, 135° and 135° wide. Each one ends where the next begins, the last one a full turn later. |
| Geometry.Normalize | src/main.rs:210 | The Euclidean remainder by 360 lies in [0, 360). It is the identity on [0, 360) and subtracts one turn on [360, 720). |
| Geometry.SectorsPartition | src/main.rs:212-227 | Every direction in [0, 360) is covered by exactly one sector. |
| Geometry.Resolve | src/main.rs:209-228 | The sector picked for an angle covers the angle's direction reduced to [0, 360). |
| Geometry.ResolveInRange | src/main.rs:209-228 | For every angle the program passes, i.e. in [0, 405), the local parameter lies in [0, 1). Placing it back in its sector gives the angle again, up to one turn. |
| Geometry.ResolvePlace | src/main.rs:126-133 | A generated angle lies in its sector's [start, end). It resolves back to exactly the drawn sector and t. |
| Geometry.SectorAt | src/main.rs:116-127 | Sector index 0, 1 and 2 starts at 45°, 135° and 270° and ends at 135°, 270° and 405°, as in the generator's table. |
| Geometry.Place | src/main.rs:133 | The angle start + t·(end − start) lies in the sector's [start, end) for t in [0, 1), and is the start at t = 0. |
| Geometry.EllipseRadius | src/main.rs:36-43 | When both values are below 1 the radius is 0, whatever their sign. For positive values outside that guard, under lawful trigonometry, the radius is positive. |
| Geometry.Denominator | src/main.rs:41 | For positive stats the divisor of the radius formula is positive, and its square is the sum of squares. |
| Geometry.EllipseInverseSquare | src/main.rs:36-43 | For positive stats outside the guard, the radius r is positive and 1/r² = cos²φ/v1² + sin²φ/v2². |
| Geometry.EllipseZeroIffDegenerate | src/main.rs:37-38 | For positive stats the radius is non-negative. It is zero exactly when both stats are below 1. |
| Geometry.EllipseBetween | src/main.rs:36-43 | Outside the guard, the radius lies between the smaller and the larger of the two stats. |
| Geometry.EllipseAtStart | src/main.rs:36-43 | At t = 0 the radius equals the first governing stat. |
| Geometry.EllipseAtEnd | src/main.rs:36-43 | At t = 1 the radius equals the second governing stat. |
| Geometry.EllipseCircle | src/main.rs:36-43 | Equal stats k ≥ 1 give a circle: the radius is k for every t. |
| Geometry.InverseSquareSumInT | src/main.rs:39-41 | Along t, 1/r² = cos²φ/v1² + sin²φ/v2² falls when v1 ≤ v2 and rises when v2 ≤ v1. |
| Geometry.EllipseMonotoneInT | src/main.rs:36-43 | Between the endpoints the radius moves monotonically from v1 toward v2: it never falls along t when v1 ≤ v2 and never rises when v2 ≤ v1. |
| Geometry.EllipseMonotone | src/main.rs:36-43 | Raising either governing stat never lowers the radius. |
| BuildState.CanIncrease | src/main.rs:197-199 | On a feasible build "+" is disabled exactly when the total is 120 or the stat is 100. |
| BuildState.CanDecrease | src/main.rs:192 | On a feasible build "-" is disabled exactly when the stat is 10. |
| BuildState.Increase | src/main.rs:197-204 | "+" changes only its own stat and never lowers it. A feasible build stays feasible: each stat in [10, 100], total at most 120. |
| BuildState.Decrease | src/main.rs:192-196 | "-" changes only its own stat and never raises it. A feasible build stays feasible. |
| BuildState.IncreaseOnGrid | src/main.rs:197-204 | On a feasible build of multiples of 5, an enabled "+" adds exactly 5, otherwise nothing changes. The build stays on the grid. |
| BuildState.DecreaseOnGrid | src/main.rs:192-196 | On a feasible build of multiples of 5, an enabled "-" removes exactly 5, otherwise nothing changes. The build stays on the grid. |
| BuildState.IncreaseNoOpIff | src/main.rs:197-204 | "+" leaves a feasible build unchanged if and only if the budget is spent or the stat is at 100. |
| BuildState.DecreaseNoOpIff | src/main.rs:192-196 | "-" leaves a feasible build unchanged if and only if the stat is at 10. |
| BuildState.BalancedBuildIsFull | src/main.rs:197-204 | At (40, 40, 40) the budget is spent, so no "+" press changes anything. |
| BuildState.InitialFeasible | src/main.rs:170-173 | The starting build (10, 10, 10) is feasible and on the grid. |
| Reachability.FirstAxis | src/main.rs:212-227 | The stat used as v1 in a sector is the one whose landmark starts the sector. |
| Reachability.SecondAxis | src/main.rs:212-227 | The stat used as v2 in a sector is the one whose landmark ends it, where the next sector starts; it differs from v1's stat. |
| Reachability.CurrentRadius | src/main.rs:209-232 | The live radius is non-negative. For a feasible build it lies between 10 and 100. |
| Reachability.LandmarkRadius | src/main.rs:209-232 | At an axis's landmark the live radius equals that stat. |
| Reachability.LandmarkContinuity | src/main.rs:209-232 | The sector ending at a landmark reaches, at t = 1, that landmark's stat, which is also the live radius at the landmark where the next sector starts. |
| Reachability.BalancedBuildIsCircle | src/main.rs:209-232 | With all three stats equal to k ≥ 1 the boundary is a circle of radius k at every angle. |
| Reachability.RadiusMonotone | src/main.rs:209-232 | If every stat of one build is at least that of another, its live radius is at least as large at every angle. |
| Reachability.OneStatMaxed | src/main.rs:209-232 | With strength 100 and the others at 10, the boundary is 100 at 135° and 10 at 45° and 270°. |
| Reachability.IsUnlocked | src/main.rs:373-374 | For a feasible build, a perk of radius at most 10.5 is always unlocked, and a perk of radius above 100.5 never is. |
| Reachability.UnlockMonotone | src/main.rs:373-374 | Raising stats never locks a perk that was unlocked. |
| Reachability.IncreaseKeepsUnlocked | src/main.rs:373-374 | A "+" press never locks a perk. |
| Reachability.LandmarkPerkUnlock | src/main.rs:373-374 | A perk on an axis's landmark is unlocked exactly when that stat is at least the perk's radius minus 0.5. |
| PerkCatalog.Envelope | src/main.rs:141-142 | The two envelope values always sum to 110, the budget minus the floor of the third stat. For t in [0, 1] both lie in [10, 100]. |
| PerkCatalog.EnvelopeBuild | src/main.rs:141-142 | The build behind the envelope carries the two envelope values on the sector's governing axes. For t in [0, 1] it is feasible. |
| PerkCatalog.RadiusLimit | src/main.rs:145 | The radius limit of a generated perk lies in [10, 100], so the radius range is never empty. |
| PerkCatalog.DrawRadius | src/main.rs:149 | The drawn radius lies in [ratio × limit, limit). |
| PerkCatalog.SafePoint | src/main.rs:124-157 | A generated perk has its sector's angle range, resolves back to the drawn sector and t, and has a radius in [ratio × limit, limit). Its name, cost and the description "Passive bonus" are the ones given. |
| PerkCatalog.SafePointReachable | src/main.rs:135-149 | Every generated perk is unlocked by the envelope build, and that build is feasible. |
| PerkCatalog.Decimal | src/main.rs:162 | A number's decimal rendering is a non-empty string of digits. |
| PerkCatalog.DecimalRoundTrip | src/main.rs:162 | Reading the decimal rendering back gives the number. |
| PerkCatalog.DecimalInjective | src/main.rs:162 | Different numbers render differently. |
| PerkCatalog.SupernovaPlacement | src/main.rs:52-102 | Warrior, Ranger and Mage sit on the strength, dexterity and intelligence landmarks. The hybrid perks sit two by two at t = 0.5 of each sector. |
| PerkCatalog.SupernovaReachable | src/main.rs:52-112 | Every fixed perk is unlocked by some feasible build of multiples of 5. |
| PerkCatalog.WarriorUnlock | src/main.rs:373-374 | The Warrior perk (radius 80 at 135°) is unlocked exactly when strength is at least 79.5. |
| PerkCatalog.Supernovas | src/main.rs:104-112 | Each entry of the fixed table becomes, in table order, a perk with the entry's name, description, angle and radius, at cost 10. |
| PerkCatalog.Tier | src/main.rs:161-168 | The k-th perk of a generated tier is the safe point of the k-th draw, named by the tier's label and k + 1. |
| PerkCatalog.Catalog | src/main.rs:48-168 | The catalog has 349 perks: 9 at cost 10, then 40 at cost 5, then 300 at cost 2. |
| PerkCatalog.GenerateCatalog | src/main.rs:104-168 | The three push loops build exactly the catalog. |
| PerkCatalog.CatalogLayout | src/main.rs:161-168 | Position 9 + k holds the giant of draw k, named "Red Giant k+1". Position 49 + k holds the star of draw 40 + k, named "Star k+1". |
| PerkCatalog.CatalogReachable | src/main.rs:124-168 | Every perk of the catalog is unlocked by some feasible build. |
| PerkCatalog.FixedNameNotGenerated | src/main.rs:52-102 | No fixed perk's name has the form of a generated name. |
| PerkCatalog.CatalogNameInjective | src/main.rs:52-168 | Different catalog positions carry different names. |
| PerkCatalog.CatalogNamesDistinct | src/main.rs:48-168 | No two perks of the catalog share a name. |
| App.StatApp.constructor | src/main.rs:170-177 | The start-up state is valid, holds (10, 10, 10), and holds the generated catalog. |
| App.StatApp.SetStat | src/main.rs:194-203 | Writing one stat field changes that stat only and keeps the perks. |
| App.StatApp.PressIncrease | src/main.rs:197-204 | The state stays valid. The new stats are `Increase` of the old ones, i.e. exactly one step of 5 when enabled. The perks are unchanged. |
| App.StatApp.PressDecrease | src/main.rs:192-196 | The state stays valid. The new stats are `Decrease` of the old ones, i.e. exactly one step of 5 down when enabled. The perks are unchanged. |
| App.StatApp.Reset | src/main.rs:269-271 | The state becomes valid again with stats (10, 10, 10) and a freshly generated catalog. |

## Left out

- Rendering, panning, zooming, tooltips, the legend and the program entry point. These are user interface only.
- The random number generator. It is replaced by the sequence of `Draw`s passed to `GenerateCatalog` and `Reset`.
- f32 arithmetic: rounding, NaN and infinities. Stats are reals; every value the buttons can produce is a multiple of 5 and exact in f32. The real trigonometric functions and square root are left out as well: only the identities in `Lawful` are assumed.
- Geometry.EllipseRadius: only defined where the source's result is a finite number, i.e. where the guard fires or the divisor is non-zero. The source would divide by zero and give infinity or NaN, for instance for a zero stat paired with one of at least 1.
- Reachability.CurrentRadius: requires all three stats to be positive. Every state the buttons can reach has them at 10 or more.
- Reachability.LandmarkContinuity: continuity of the boundary in t is not claimed, only the value at the sector's end. `Lawful` assumes no continuity of cos, sin or sqrt, so a lawful model may jump between landmarks.
- Reachability.IsUnlocked compares against the live boundary plus 0.5, as the source does. The drawing colours it selects are left out.
- PerkCatalog.SafePointReachable: shows reachability by the envelope build, whose stats need not be multiples of 5. Whether a build the buttons can reach unlocks every generated perk is not claimed: the source's envelope is a linear estimate of the budget frontier, and the grid can fall short of it.
- Catalog size: the model fixes 340 draws. The source draws sequentially from one generator, so the order of draws is the order of the loops.
- Reset: the zoom and pan offset restored by `Self::default()` are not modelled, since the model has no view state.
- The points total displayed and handed to the "+" buttons is computed once per frame. The model recomputes it for every press, which agrees with the source whenever at most one button is clicked in a frame.
- Tooltip text for a perk's sector is not modelled.
