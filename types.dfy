/** Input and result records of the retirement calculator (types.ts). */
module RetirementTypes {

  /** An optional field: TypeScript's `T | undefined`. */
  datatype Option<T> = None | Some(value: T) {
    /** The value, or `default` when the field is undefined (a destructuring default). */
    function GetOr(default: T): T {
      match this
      case Some(v) => v
      case None => default
    }
  }

  /** RetirementModality; PARTIAL has no rule of its own and is computed as ordinary. */
  datatype Modality =
    | Ordinary
    | AnticipatedVoluntary
    | AnticipatedInvoluntary
    | Partial
    | Delayed

  /** A month index as returned by `Date.getMonth()`: January is 0. */
  type MonthIndex = m: int | 0 <= m < 12

  /** A calendar date reduced to its year and month; the day of month is not modelled. */
  datatype CalendarMonth = CalendarMonth(year: int, month: MonthIndex)

  /** An age or a span of contribution time, `{ years, months }`. */
  datatype Age = Age(years: int, months: int)

  /** One row of the contribution-base history. */
  datatype ContributionBase = ContributionBase(year: int, base: real)

  /** UserData: what the form hands to the engine. */
  datatype UserData = UserData(
    birthDate: CalendarMonth,
    totalYears: int,
    totalMonths: int,
    bases: seq<ContributionBase>,
    children: int,
    modality: Modality,
    unemploymentDuration: Option<int>,
    partialReduction: Option<int>,
    delayedYears: Option<int>,
    anticipationMonths: Option<int>)

  /** The `{ years, months, days }` record built by calculateTimeRemaining. */
  datatype TimeRemaining = TimeRemaining(years: int, months: int, days: int)

  /** 'A' (25-year window) or 'B' (29-year window without its 24 smallest months). */
  datatype PensionOption = A | B

  /** The "what if you retired at ordinary age" comparison. */
  datatype Comparison = Comparison(pension: real, date: CalendarMonth, diffMonthly: real)

  /** CalculationResult as calculateRetirement fills it in. */
  datatype CalculationResult = CalculationResult(
    eligible: bool,
    ordinaryAge: Age,
    targetAge: Age,
    retirementDate: CalendarMonth,
    timeRemaining: TimeRemaining,
    currentContribution: Age,
    finalContribution: Age,
    contributionPercentage: real,
    baseReguladoraA: real,
    baseReguladoraB: real,
    finalPensionA: real,
    finalPensionB: real,
    bestOption: PensionOption,
    genderGapSupplement: real,
    reductionPercentage: Option<real>,
    delayBonus: Option<real>,
    modality: Modality,
    anticipationMonths: Option<int>,
    ordinaryComparison: Option<Comparison>)
}
