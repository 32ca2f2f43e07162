# Retirement engine: a Dafny model

This project models the calculation core of a Spanish retirement-pension simulator,
`services/retirementLogic.ts`, and proves its contracts. Given a worker's birth date, the
contribution time to date, the latest contribution base, the number of children and a
retirement modality (ordinary, voluntary or involuntary anticipated, partial, delayed), the
engine computes these results:

- the ordinary retirement age, 65 or 67;
- the target age and the retirement date;
- the time remaining until that date;
- the contribution at retirement and the accrual percentage;
- the two regulatory bases: A, over a 25-year window, and B, over a 29-year window without its 24 smallest months;
- both pensions, clamped into [1050, 3175], and the better of them;
- for anticipated retirement only, a comparison with retiring at the ordinary age.

Modules:

- `RetirementTypes` (`types.dfy`): `UserData` and the modality enum of `types.ts`, `{ years, months }` ages, and `CalculationResult`. Optional fields are `Option`.
  `CalculationResult` mirrors the object that `calculateRetirement` returns (`services/retirementLogic.ts` lines 122-143), not the `types.ts` interface:
  - it adds `timeRemaining`, `currentContribution`, `finalContribution`, `contributionPercentage`, `modality`, `anticipationMonths` and `ordinaryComparison`, which the function returns and the interface does not declare;
  - it leaves out `blockReason` and `isPartialCompatible`, which the interface declares and the function never sets;
  - it leaves out `userName`, which is copied through unchanged.
- `SortedSums` (`sorted_sums.dfy`): the `reduce` sum as a left fold, the ascending sort of a copy, `slice(0, k)` and "sum minus the sum of the k smallest".
- `RetirementBases` (`retirement_bases.dfy`): the current base with its 2400 fallback, `getIPCIndex`, the monthly projection `generateProjectedBases` and the two regulatory bases.
- `RetirementLogic` (`retirement_logic.dfy`):
  - the rules of `internalCalculate`, as specification functions composed into `Engine`;
  - `internalCalculate` itself, as the method `InternalCalculate` built from stage methods that keep the source's reassignments, proved equal to `Engine`;
  - `calculateTimeRemaining` with its borrow step;
  - `calculateRetirement`;
  - lemmas on the engine.

Time is reduced to calendar months: a date is a (year, month index 0..11) pair. "Today" is
a parameter. So is the deflation factor `Math.pow(1.02, k / 12)`, given as `growth`, any
function into the positive reals.

## Behaviour worth noting

All line numbers refer to `services/retirementLogic.ts`.

- The ordinary-age threshold is 462 months, 38 years and 6 months (line 26). Below it the ordinary age is 67 years 0 months (lines 27-33).
- `eligible` only reports whether 180 months are contributed today (line 124). No other field depends on it.
- `anticipationMonths` is used as given (lines 41-46). 48 months of voluntary anticipation give a reduction of 0.42 (`VoluntaryAnticipation`).
- Only the first contribution-base row is read (line 16). Base A sums 300 projected months and divides by 350 (lines 68-69). Base B sums 348 projected months less the 24 smallest and divides by 378 (lines 70-73).
- The remaining time borrows a year before it clamps years and months at 0 (lines 150-151). A retirement month one month past therefore shows 0 years and 11 months (`PastRetirementShowsMonths`).
- `calculateRetirement` copies `reductionPercentage` and `delayBonus` from the object returned by `internalCalculate` (lines 138-139). That object has no such fields (lines 93-106), so both are always undefined (`None`).
- The comparison run is made for the two anticipated modalities only, as ORDINARY with 0 anticipation months (lines 113-120).

## Model

| member | source | states |
|---|---|---|
| SortedSums.Sum | services/retirementLogic.ts:69 | `reduce((a, b) => a + b, 0)`: the values added from first to last, starting at 0 |
| SortedSums.SumPermutation | services/retirementLogic.ts:69-72 | a `reduce` sum depends only on the multiset of values summed |
| SortedSums.InsertPermutation | services/retirementLogic.ts:71 | one insertion step of the sort adds exactly the inserted value |
| SortedSums.InsertSorted | services/retirementLogic.ts:71 | one insertion step keeps the sequence ascending |
| SortedSums.Sort | services/retirementLogic.ts:71 | the sorted copy by insertion; its length is the input's |
| SortedSums.SortSpec | services/retirementLogic.ts:71 | `[...basesB].sort((a, b) => a - b)` is an ascending permutation of its input |
| SortedSums.SortedUnique | services/retirementLogic.ts:71 | two ascending arrangements of the same values are equal, so the sorted copy is determined by the values |
| SortedSums.Take | services/retirementLogic.ts:72 | `slice(0, k)` is a prefix of length min(k, length) |
| SortedSums.SumBest | services/retirementLogic.ts:72 | `sumBest324`: the sum of all values minus the sum of the first `drop` of the sorted copy |
| SortedSums.SumBestKeepsLargest | services/retirementLogic.ts:72 | total minus the sum of the `drop` smallest is the sum of the sorted values from `drop` on, each at least as large as every dropped one |
| SortedSums.SumBestOrderIndependent | services/retirementLogic.ts:72 | that difference is the same for any rearrangement of the input |
| SortedSums.SumBestAllEqual | services/retirementLogic.ts:72 | over copies of one value `c`, it is `(n - drop) * c` |
| RetirementBases.CurrentBase | services/retirementLogic.ts:16 | the first row's base when there is one and it is non-zero, otherwise 2400; never 0 |
| RetirementBases.CurrentBaseReadsFirstRowOnly | services/retirementLogic.ts:16 | rows after the first do not affect the projected base |
| RetirementBases.IPCIndex | services/retirementLogic.ts:4-8 | the index is at least 1, and equals 1 exactly for the most recent 24 months |
| RetirementBases.IPCIndexMonotone | services/retirementLogic.ts:4-8 | older months are never indexed less |
| RetirementBases.IPCIndexAnnualRate | services/retirementLogic.ts:4-8 | each year beyond the second adds 0.021 |
| RetirementBases.ProjectedBase | services/retirementLogic.ts:60-65 | month `i` of the window: the current base before retirement, otherwise the current base divided by `growth(i - monthsUntilRetirement)` and multiplied by the price index |
| RetirementBases.ProjectedBases | services/retirementLogic.ts:59-66 | `n` values; the months before retirement equal the current base; a non-negative base gives non-negative values |
| RetirementBases.WindowsShareProjection | services/retirementLogic.ts:68-70 | window A is the first 300 months of window B's projection |
| RetirementBases.BaseA | services/retirementLogic.ts:68-69 | `baseReguladoraA`: the sum of the first 300 projected months divided by 350 |
| RetirementBases.BaseB | services/retirementLogic.ts:70-73 | `baseReguladoraB`: SumBest of the first 348 projected months dropping 24, divided by 378 |
| RetirementBases.BaseAAllCurrent | services/retirementLogic.ts:68-69 | with retirement at least 300 months away, base A is 300/350 of the current base |
| RetirementBases.BaseBAllCurrent | services/retirementLogic.ts:70-73 | with retirement at least 348 months away, base B is 324/378 of the current base |
| RetirementBases.BaseBDropsSmallest | services/retirementLogic.ts:70-73 | base B is the sum of the 324 largest projected months over 378, each kept month at least as large as each dropped one |
| RetirementBases.BaseBOrderIndependent | services/retirementLogic.ts:70-73 | base B is unchanged by any reordering of the projected months |
| RetirementBases.BasesNonNegative | services/retirementLogic.ts:59-73 | a non-negative current base gives non-negative bases A and B |
| RetirementLogic.MonthsUntil | services/retirementLogic.ts:56 | `Math.max(0, …)` of the month difference: at least the difference, equal to it unless it is negative, then 0 |
| RetirementLogic.MonthsBetween | services/retirementLogic.ts:22 | the month difference `(to.year - from.year) * 12 + (to.month - from.month)`, as at lines 22, 56 and 148-149 |
| RetirementLogic.DateAt65 | services/retirementLogic.ts:20-21 | the month of the 65th birthday: 780 months after the birth month, in the same calendar month |
| RetirementLogic.WorkedMonthsNow | services/retirementLogic.ts:23 | `totalYears * 12 + totalMonths`, also the sum tested for `eligible` at line 124 |
| RetirementLogic.ProjectedMonthsAt65 | services/retirementLogic.ts:22-24 | today's contribution months plus the months until the 65th birthday, or today's months alone when that birthday is past; never less than today's |
| RetirementLogic.OrdinaryAge | services/retirementLogic.ts:26-35 | {65, 0} exactly when the projected months at 65 reach 462, {67, 0} exactly when they do not |
| RetirementLogic.ApplyModality | services/retirementLogic.ts:36-50 | the modality rule: target age, reduction and bonus for each of the five modalities, PARTIAL as ORDINARY |
| RetirementLogic.RawPension | services/retirementLogic.ts:85-86 | the pension before the clamp: base times accrual/100 times (1 - reduction), plus bonus times base, plus the supplement |
| RetirementLogic.EffectiveModality | services/retirementLogic.ts:13 | the override modality when one is given, else the user's |
| RetirementLogic.EffectiveAnticipation | services/retirementLogic.ts:11-14 | the override anticipation when one is given, else the user's, else 0 |
| RetirementLogic.Engine | services/retirementLogic.ts:10-107 | the whole of internalCalculate as one function: ordinary age, modality, retirement date, final contribution, accrual, bases A and B, clamped pensions and best option |
| RetirementLogic.EngineAfterModality | services/retirementLogic.ts:52-106 | everything after the modality step: retirement date, months until retirement, final contribution, bases A and B, accrual, supplement, clamped pensions and best option, from the ordinary age and the modality's effect |
| RetirementLogic.JsRemainder12 | services/retirementLogic.ts:156 | JavaScript `% 12`: the remainder has the dividend's sign, magnitude below 12, and differs from it by a multiple of 12 |
| RetirementLogic.DecomposeMonths | services/retirementLogic.ts:98 | floored years and truncated months recompose a non-negative total exactly with months in [0, 12); a negative non-multiple of 12 loses twelve months |
| RetirementLogic.SubtractMonths | services/retirementLogic.ts:154-157 | for a non-negative remaining total, `years*12 + months` is that total and `0 <= months < 12` |
| RetirementLogic.AddAge | services/retirementLogic.ts:52-54 | the retirement month lies exactly the age's months after the birth month, with month overflow carried into the year |
| RetirementLogic.AccrualPercentage | services/retirementLogic.ts:75-80 | 0 below 180 months, within [50, 100] from 180 on, 50 at 180, 100 from 438 on |
| RetirementLogic.AccrualMonotone | services/retirementLogic.ts:75-80 | more months never lower the accrual percentage |
| RetirementLogic.GenderGapSupplement | services/retirementLogic.ts:83 | non-negative, and 0 exactly when there are no children |
| RetirementLogic.ClampPension | services/retirementLogic.ts:88-91 | the result lies in [1050, 3175], keeps an in-range value, and maps values below or above to the floor or ceiling |
| RetirementLogic.ClampMonotone | services/retirementLogic.ts:88-91 | the clamp preserves order |
| RetirementLogic.TimeRemainingUntil | services/retirementLogic.ts:146-152 | years >= 0, months in [0, 11], days 0; years*12 + months is the month difference when the date is not past; years 0 when it is |
| RetirementLogic.CalculateTimeRemaining | services/retirementLogic.ts:146-152 | the borrow-then-clamp steps compute TimeRemainingUntil |
| RetirementLogic.PastRetirementShowsMonths | services/retirementLogic.ts:150-151 | a date one month past yields 0 years and 11 months |
| RetirementLogic.ComputeOrdinaryAge | services/retirementLogic.ts:20-35 | the ordinary age is {65, 0} exactly when the contribution projected to the 65th birthday reaches 462 months, else {67, 0} |
| RetirementLogic.AdjustForModality | services/retirementLogic.ts:36-50 | the reassignments of target age, reduction and bonus compute the modality rule ApplyModality |
| RetirementLogic.ComputeContributionPercentage | services/retirementLogic.ts:75-80 | the reassigned percentage is AccrualPercentage of the final contribution |
| RetirementLogic.ComputePension | services/retirementLogic.ts:82-91 | the pension, overwritten by its clamp, is the clamped raw pension |
| RetirementLogic.InternalCalculate | services/retirementLogic.ts:10-107 | the stage-by-stage computation returns exactly the result of the rules composed in Engine |
| RetirementLogic.CalculateRetirement | services/retirementLogic.ts:109-144 | `eligible` iff 180 months today; every copied field is the engine's result under the user's modality; reduction and bonus are undefined; a comparison exists iff the modality is anticipated, built from the ordinary re-run's best pension and date |
| RetirementLogic.EnginePensions | services/retirementLogic.ts:85-105 | both pensions are in [1050, 3175]; B is chosen iff strictly larger, so ties go to A; the best pension is the larger one and belongs to the chosen option |
| RetirementLogic.EngineOrdinaryAge | services/retirementLogic.ts:20-35 | the engine's ordinary age is {65, 0} iff projected months at 65 reach 462, {67, 0} iff they do not |
| RetirementLogic.EngineRetirementDate | services/retirementLogic.ts:52-56 | the retirement date is the target age after the birth month, and the remaining time counts the months until it when it is not past |
| RetirementLogic.EngineFinalContribution | services/retirementLogic.ts:56-98 | the final contribution is never below today's, decomposes exactly when non-negative, and fixes the accrual percentage's range |
| RetirementLogic.EligibleGetsHalfAccrual | services/retirementLogic.ts:124 | a worker flagged eligible is awarded at least 50% of the base |
| RetirementLogic.OrdinaryAndPartialKeepOrdinaryAge | services/retirementLogic.ts:36-50 | ORDINARY and PARTIAL keep the ordinary age with no reduction and no bonus |
| RetirementLogic.PartialComputedAsOrdinary | services/retirementLogic.ts:41-50 | the whole engine computes PARTIAL exactly as ORDINARY |
| RetirementLogic.VoluntaryAnticipation | services/retirementLogic.ts:41-43 | voluntary anticipation retires `a` months before the ordinary age with reduction a/24*0.21: 0 at 0, 0.21 at 24, and 0.42 at 48 since nothing caps `a` |
| RetirementLogic.InvoluntaryAnticipation | services/retirementLogic.ts:44-46 | involuntary anticipation has the same target age, reduction a/48*0.30, 0.30 at 48, and a lower reduction than voluntary for any positive `a` |
| RetirementLogic.ReductionGrowsWithAnticipation | services/retirementLogic.ts:41-46 | the reduction strictly increases with the anticipation months |
| RetirementLogic.DelayedBonus | services/retirementLogic.ts:47-50 | DELAYED adds the years and keeps the months, gives no reduction and a bonus of 0.04 per year, 0.12 for 3 years |
| RetirementLogic.NoAnticipationNoEffect | services/retirementLogic.ts:41-46 | an anticipated modality with 0 months has the effect of ORDINARY |
| RetirementLogic.ZeroAnticipationIsOrdinary | services/retirementLogic.ts:113-114 | running the engine anticipated with 0 months gives the same result as the ordinary run used for the comparison |
| RetirementLogic.ComparisonIgnoresChoice | services/retirementLogic.ts:113-119 | the comparison run depends on neither the user's modality nor their anticipation |
| RetirementLogic.AfterModalityIgnoresChoice | services/retirementLogic.ts:52-106 | after the modality step nothing reads the modality or the anticipation |
| RetirementLogic.ReductionLowersPension | services/retirementLogic.ts:85-91 | with the same base and accrual, a larger reduction never gives a larger clamped pension |

## Left out

- Clock: `new Date()` (lines 17 and 147) becomes the parameter `today`. One value serves both reads; the source reads the clock twice.
- Dates: only year and month are modelled. Day-of-month rollover in `setFullYear`/`setMonth` (for example a 29 February birth date) is not modelled.
- Date formatting: the `retirementDate` string from `toLocaleDateString` is a calendar month here.
- Power function: `Math.pow(1.02, monthsInPast / 12)` is the parameter `growth`, any positive function. Only the aggregation over it is proved.
- Floating point: all arithmetic is exact (`real`). IEEE-754 rounding, NaN and infinities are not modelled.
- CalculationResult: `userName` is not modelled (it is copied through unchanged).
- Unused inputs: `unemploymentDuration` and `partialReduction` are carried in `UserData` but never read, as in the code; `isPartialCompatible` and `blockReason` do not appear because the engine never computes them.
- Presentation: the React components, the form's slider cap on anticipation months and `constants.ts` are not part of this model.
- `||` falsy fallback: `overrideModality || originalModality` is modelled as "the override when given", which matches because every enum value is a non-empty string. `bases[0]?.base || 2400` is modelled as a fallback for a missing row or a zero base; NaN is left out with floating point.
