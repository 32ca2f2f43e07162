/** The two regulatory bases of services/retirementLogic.ts: the monthly projection of the
    latest contribution base and its aggregation over the 300-month window (A) and the
    348-month window without its 24 smallest months (B). */
module RetirementBases {
  import opened RetirementTypes
  import opened SortedSums

  /** A strictly positive real; `Math.pow(1.02, k / 12)` is always one. */
  type Positive = r: real | r > 0.0 witness 1.0

  /** Used when there is no first base or it is 0 (`bases[0]?.base || 2400`). */
  const DEFAULT_BASE: real := 2400.0

  /** Base A: 300 months (25 years) divided by 350. */
  const WINDOW_A: nat := 300
  const DIVISOR_A: real := 350.0

  /** Base B: 348 months (29 years), less the 24 smallest, divided by 378. */
  const WINDOW_B: nat := 348
  const DROPPED_B: nat := 24
  const DIVISOR_B: real := 378.0

  /** The base projected into every month: the first row's base, unless there is none or it is 0. */
  function CurrentBase(bases: seq<ContributionBase>): (r: real)
    ensures r != 0.0
    ensures |bases| > 0 && bases[0].base != 0.0 ==> r == bases[0].base
    ensures |bases| == 0 || bases[0].base == 0.0 ==> r == DEFAULT_BASE
  {
    if |bases| > 0 && bases[0].base != 0.0 then bases[0].base else DEFAULT_BASE
  }

  /** Rows after the first one are never read. */
  lemma CurrentBaseReadsFirstRowOnly(bases: seq<ContributionBase>, others: seq<ContributionBase>)
    requires |bases| > 0
    ensures CurrentBase(bases) == CurrentBase([bases[0]] + others)
  {
  }

  /** The price index applied to a month `monthsAgo` months before retirement: 1 for the last
      24 months, then 2.1% more for every further year. */
  function IPCIndex(monthsAgo: int): (r: real)
    ensures r >= 1.0
    ensures r == 1.0 <==> monthsAgo <= 24
  {
    if monthsAgo <= 24 then 1.0
    else
      var yearsAgo := monthsAgo as real / 12.0;
      1.0 + (yearsAgo - 2.0) * 0.021
  }

  /** Older months are never indexed less than more recent ones. */
  lemma IPCIndexMonotone(m1: int, m2: int)
    requires m1 <= m2
    ensures IPCIndex(m1) <= IPCIndex(m2)
  {
  }

  /** Each full year beyond the first two adds 2.1 points to the index. */
  lemma IPCIndexAnnualRate(years: nat)
    ensures IPCIndex(24 + 12 * years) == 1.0 + 0.021 * years as real
  {
    if years > 0 {
      assert (24 + 12 * years) as real / 12.0 == 2.0 + years as real;
    }
  }

  /** The base projected for month `i` of a window counted back from the retirement date:
      months before retirement keep the current base; earlier months deflate it by
      `growth(k)` (standing for `Math.pow(1.02, k / 12)`) and index it by IPCIndex. */
  function ProjectedBase(i: nat, currentBase: real, monthsUntilRetirement: nat, growth: nat -> Positive): real
  {
    if i < monthsUntilRetirement then currentBase
    else
      var monthsInPast := i - monthsUntilRetirement;
      var nominalPastBase := currentBase / growth(monthsInPast);
      nominalPastBase * IPCIndex(monthsInPast)
  }

  /** `generateProjectedBases(n)`: the first `n` projected months. */
  function ProjectedBases(n: nat, currentBase: real, monthsUntilRetirement: nat, growth: nat -> Positive): (r: seq<real>)
    ensures |r| == n
    ensures forall i :: 0 <= i < n && i < monthsUntilRetirement ==> r[i] == currentBase
    ensures currentBase >= 0.0 ==> forall i :: 0 <= i < n ==> r[i] >= 0.0
  {
    seq(n, i requires 0 <= i => ProjectedBase(i, currentBase, monthsUntilRetirement, growth))
  }

  /** Both windows read the same monthly projection: window A is the first 300 months of B's. */
  lemma WindowsShareProjection(currentBase: real, monthsUntilRetirement: nat, growth: nat -> Positive)
    ensures ProjectedBases(WINDOW_A, currentBase, monthsUntilRetirement, growth)
         == ProjectedBases(WINDOW_B, currentBase, monthsUntilRetirement, growth)[..WINDOW_A]
  {
  }

  /** Regulatory base A: the 300 projected months summed and divided by 350. */
  function BaseA(currentBase: real, monthsUntilRetirement: nat, growth: nat -> Positive): real
  {
    Sum(ProjectedBases(WINDOW_A, currentBase, monthsUntilRetirement, growth)) / DIVISOR_A
  }

  /** Regulatory base B: the 348 projected months, less the 24 smallest, divided by 378. */
  function BaseB(currentBase: real, monthsUntilRetirement: nat, growth: nat -> Positive): real
  {
    SumBest(ProjectedBases(WINDOW_B, currentBase, monthsUntilRetirement, growth), DROPPED_B) / DIVISOR_B
  }

  /** When the whole window lies before retirement, base A is 300/350 of the current base. */
  lemma BaseAAllCurrent(currentBase: real, monthsUntilRetirement: nat, growth: nat -> Positive)
    requires monthsUntilRetirement >= WINDOW_A
    ensures BaseA(currentBase, monthsUntilRetirement, growth) == 300.0 * currentBase / 350.0
  {
    SumAllEqual(ProjectedBases(WINDOW_A, currentBase, monthsUntilRetirement, growth), currentBase);
  }

  /** When the whole window lies before retirement, base B is 324/378 of the current base. */
  lemma BaseBAllCurrent(currentBase: real, monthsUntilRetirement: nat, growth: nat -> Positive)
    requires monthsUntilRetirement >= WINDOW_B
    ensures BaseB(currentBase, monthsUntilRetirement, growth) == 324.0 * currentBase / 378.0
  {
    SumBestAllEqual(ProjectedBases(WINDOW_B, currentBase, monthsUntilRetirement, growth), DROPPED_B, currentBase);
  }

  /** Base B is the sum of the 324 largest projected months, each at least as large as every
      month left out, divided by 378. */
  lemma BaseBDropsSmallest(currentBase: real, monthsUntilRetirement: nat, growth: nat -> Positive)
    ensures var sorted := Sort(ProjectedBases(WINDOW_B, currentBase, monthsUntilRetirement, growth));
      && |sorted| == WINDOW_B
      && BaseB(currentBase, monthsUntilRetirement, growth) == Sum(sorted[DROPPED_B..]) / DIVISOR_B
      && forall i, j :: 0 <= i < DROPPED_B <= j < WINDOW_B ==> sorted[i] <= sorted[j]
  {
    var basesB := ProjectedBases(WINDOW_B, currentBase, monthsUntilRetirement, growth);
    SortSpec(basesB);
    SumBestKeepsLargest(basesB, DROPPED_B);
  }

  /** Base B does not depend on the order of the projected months: any rearrangement `t` of
      them gives the same base. */
  lemma BaseBOrderIndependent(currentBase: real, monthsUntilRetirement: nat, growth: nat -> Positive, t: seq<real>)
    requires multiset(t) == multiset(ProjectedBases(WINDOW_B, currentBase, monthsUntilRetirement, growth))
    ensures BaseB(currentBase, monthsUntilRetirement, growth) == SumBest(t, DROPPED_B) / DIVISOR_B
  {
    SumBestOrderIndependent(ProjectedBases(WINDOW_B, currentBase, monthsUntilRetirement, growth), t, DROPPED_B);
  }

  /** A non-negative current base gives non-negative regulatory bases. */
  lemma BasesNonNegative(currentBase: real, monthsUntilRetirement: nat, growth: nat -> Positive)
    requires currentBase >= 0.0
    ensures BaseA(currentBase, monthsUntilRetirement, growth) >= 0.0
    ensures BaseB(currentBase, monthsUntilRetirement, growth) >= 0.0
  {
    var basesA := ProjectedBases(WINDOW_A, currentBase, monthsUntilRetirement, growth);
    var basesB := ProjectedBases(WINDOW_B, currentBase, monthsUntilRetirement, growth);
    SumNonNegative(basesA);
    var sorted := Sort(basesB);
    SortSpec(basesB);
    SumBestKeepsLargest(basesB, DROPPED_B);
    LowerBoundKept(0.0, basesB, sorted);
    SumNonNegative(sorted[DROPPED_B..]);
  }
}
