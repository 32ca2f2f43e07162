/** The retirement engine of services/retirementLogic.ts: ordinary age, modality, retirement
    date, accrual percentage, the two pensions and the comparison with ordinary retirement.
    "Today" is a parameter, and so is the deflation factor `Math.pow(1.02, k / 12)`. */
module RetirementLogic {
  import opened RetirementTypes
  import opened RetirementBases

  /** 38 years and 6 months of contributions at 65 give the ordinary age 65. */
  const THRESHOLD_MONTHS: int := 38 * 12 + 6
  /** 15 years: the start of the accrual ramp and the eligibility floor. */
  const MIN_CONTRIBUTION_MONTHS: int := 180
  /** 36.5 years: the end of the accrual ramp. */
  const FULL_ACCRUAL_MONTHS: int := 438
  const MIN_PENSION: real := 1050.0
  const MAX_PENSION: real := 3175.0
  /** Monthly gender-gap supplement per child. */
  const CHILD_SUPPLEMENT: real := 33.20

  function MinReal(a: real, b: real): real { if a <= b then a else b }
  function MaxReal(a: real, b: real): real { if a >= b then a else b }

  /** Months from `from` to `to`, counting years and month indexes only. */
  function MonthsBetween(from: CalendarMonth, to: CalendarMonth): int
  {
    (to.year - from.year) * 12 + (to.month - from.month)
  }

  /** `Math.max(0, …)` of the month difference from today to `date`. */
  function MonthsUntil(today: CalendarMonth, date: CalendarMonth): (r: nat)
    ensures r >= MonthsBetween(today, date)
    ensures r == MonthsBetween(today, date) || (r == 0 && MonthsBetween(today, date) < 0)
  {
    var d := MonthsBetween(today, date);
    if d >= 0 then d else 0
  }

  /** JavaScript's `a % 12`: the remainder takes the sign of the dividend. */
  function JsRemainder12(a: int): (r: int)
    ensures a >= 0 ==> 0 <= r < 12 && (a - r) % 12 == 0
    ensures a < 0 ==> -12 < r <= 0 && (a - r) % 12 == 0
  {
    if a >= 0 then a % 12 else -((-a) % 12)
  }

  /** `{ years: Math.floor(total / 12), months: total % 12 }`: floored years with a
      JavaScript (truncating) remainder. The two agree only for a non-negative total; for a
      negative total that is not a whole number of years they lose twelve months. */
  function DecomposeMonths(total: int): (r: Age)
    ensures total >= 0 ==> r.years * 12 + r.months == total && 0 <= r.months < 12
    ensures total < 0 && total % 12 != 0 ==> r.years * 12 + r.months == total - 12 && -12 < r.months < 0
  {
    Age(total / 12, JsRemainder12(total))
  }

  /** `subtractMonths`: an age `m` months younger. */
  function SubtractMonths(age: Age, m: int): (r: Age)
    ensures var total := age.years * 12 + age.months - m;
      total >= 0 ==> r.years * 12 + r.months == total && 0 <= r.months < 12
  {
    DecomposeMonths(age.years * 12 + age.months - m)
  }

  /** The 65th birthday's month (`setFullYear(year + 65)`). */
  function DateAt65(birth: CalendarMonth): (r: CalendarMonth)
    ensures MonthsBetween(birth, r) == 65 * 12
    ensures r.month == birth.month
  {
    CalendarMonth(birth.year + 65, birth.month)
  }

  /** `setFullYear(year + age.years)` then `setMonth(month + age.months)`, whose month
      overflow carries into the year. */
  function AddAge(birth: CalendarMonth, age: Age): (r: CalendarMonth)
    ensures MonthsBetween(birth, r) == age.years * 12 + age.months
    ensures 0 <= birth.month + age.months < 12 ==> r == CalendarMonth(birth.year + age.years, birth.month + age.months)
  {
    var monthIndex := (birth.year + age.years) * 12 + birth.month + age.months;
    CalendarMonth(monthIndex / 12, monthIndex % 12)
  }

  /** Contribution months as of today. */
  function WorkedMonthsNow(data: UserData): int
  {
    data.totalYears * 12 + data.totalMonths
  }

  /** Contribution months the worker will have at 65, counting no months once 65 is past. */
  function ProjectedMonthsAt65(data: UserData, today: CalendarMonth): (r: int)
    ensures r >= WorkedMonthsNow(data)
    ensures MonthsBetween(today, DateAt65(data.birthDate)) >= 0 ==>
      r == WorkedMonthsNow(data) + MonthsBetween(today, DateAt65(data.birthDate))
    ensures MonthsBetween(today, DateAt65(data.birthDate)) < 0 ==> r == WorkedMonthsNow(data)
  {
    WorkedMonthsNow(data) + MonthsUntil(today, DateAt65(data.birthDate))
  }

  /** The ordinary age: 65 with enough projected contribution, 67 otherwise. */
  function OrdinaryAge(projectedMonthsAt65: int): (r: Age)
    ensures r == Age(65, 0) <==> projectedMonthsAt65 >= THRESHOLD_MONTHS
    ensures r == Age(67, 0) <==> projectedMonthsAt65 < THRESHOLD_MONTHS
  {
    if projectedMonthsAt65 >= THRESHOLD_MONTHS then Age(65, 0) else Age(67, 0)
  }

  /** What a modality does: the age actually targeted, the reduction and the delay bonus. */
  datatype ModalityEffect = ModalityEffect(targetAge: Age, reductionPercentage: real, delayBonus: real)

  /** The four-way modality rule; PARTIAL falls through as ORDINARY. */
  function ApplyModality(modality: Modality, ordinaryAge: Age, anticipationMonths: int, delayedYears: int): ModalityEffect
  {
    match modality
    case AnticipatedVoluntary =>
      ModalityEffect(SubtractMonths(ordinaryAge, anticipationMonths), (anticipationMonths as real / 24.0) * 0.21, 0.0)
    case AnticipatedInvoluntary =>
      ModalityEffect(SubtractMonths(ordinaryAge, anticipationMonths), (anticipationMonths as real / 48.0) * 0.30, 0.0)
    case Delayed =>
      ModalityEffect(ordinaryAge.(years := ordinaryAge.years + delayedYears), 0.0, delayedYears as real * 0.04)
    case Ordinary => ModalityEffect(ordinaryAge, 0.0, 0.0)
    case Partial => ModalityEffect(ordinaryAge, 0.0, 0.0)
  }

  /** The percentage of the regulatory base awarded: 0 below 15 years of contribution, then a
      linear ramp from 50 at 15 years to 100 at 36.5 years, capped at 100. */
  function AccrualPercentage(totalFinalMonths: int): (r: real)
    ensures totalFinalMonths < MIN_CONTRIBUTION_MONTHS ==> r == 0.0
    ensures totalFinalMonths >= MIN_CONTRIBUTION_MONTHS ==> 50.0 <= r <= 100.0
    ensures totalFinalMonths == MIN_CONTRIBUTION_MONTHS ==> r == 50.0
    ensures totalFinalMonths >= FULL_ACCRUAL_MONTHS ==> r == 100.0
  {
    if totalFinalMonths >= MIN_CONTRIBUTION_MONTHS then
      var monthsForFull := 36.5 * 12.0 - MIN_CONTRIBUTION_MONTHS as real;
      var extraMonths := (totalFinalMonths - MIN_CONTRIBUTION_MONTHS) as real;
      MinReal(100.0, 50.0 + (extraMonths / monthsForFull) * 50.0)
    else 0.0
  }

  /** `children > 0 ? children * 33.20 : 0`. */
  function GenderGapSupplement(children: int): (r: real)
    ensures r >= 0.0
    ensures r == 0.0 <==> children <= 0
  {
    if children > 0 then children as real * CHILD_SUPPLEMENT else 0.0
  }

  /** A pension before the clamp: the scaled and reduced base, the delay bonus on the base,
      and the supplement. */
  function RawPension(base: real, accrual: real, reduction: real, bonus: real, supplement: real): real
  {
    (base * (accrual / 100.0)) * (1.0 - reduction) + (bonus * base) + supplement
  }

  /** `Math.min(MAX_PENSION, Math.max(MIN_PENSION, p))`. */
  function ClampPension(p: real): (r: real)
    ensures MIN_PENSION <= r <= MAX_PENSION
    ensures MIN_PENSION <= p <= MAX_PENSION ==> r == p
    ensures p < MIN_PENSION ==> r == MIN_PENSION
    ensures p > MAX_PENSION ==> r == MAX_PENSION
  {
    MinReal(MAX_PENSION, MaxReal(MIN_PENSION, p))
  }

  /** The remaining time from `today` to `target` by whole months: a month count split into
      years and months, with negative years raised to 0. */
  function TimeRemainingUntil(today: CalendarMonth, target: CalendarMonth): (t: TimeRemaining)
    ensures t.years >= 0 && 0 <= t.months <= 11 && t.days == 0
    ensures MonthsBetween(today, target) >= 0 ==> t.years * 12 + t.months == MonthsBetween(today, target)
    ensures MonthsBetween(today, target) < 0 ==> t.years == 0
  {
    var d := MonthsBetween(today, target);
    TimeRemaining(if d >= 0 then d / 12 else 0, d % 12, 0)
  }

  /** What internalCalculate returns. */
  datatype EngineResult = EngineResult(
    ordinaryAge: Age,
    targetAge: Age,
    retirementDate: CalendarMonth,
    timeRemaining: TimeRemaining,
    finalContribution: Age,
    contributionPercentage: real,
    baseReguladoraA: real,
    baseReguladoraB: real,
    finalPensionA: real,
    finalPensionB: real,
    bestPension: real,
    bestOption: PensionOption)

  /** The modality in force: the override when there is one. */
  function EffectiveModality(data: UserData, overrideModality: Option<Modality>): Modality
  {
    overrideModality.GetOr(data.modality)
  }

  /** The anticipation in force: the override, else the input's, else 0. */
  function EffectiveAnticipation(data: UserData, overrideAnticipation: Option<int>): int
  {
    if overrideAnticipation.Some? then overrideAnticipation.value else data.anticipationMonths.GetOr(0)
  }

  /** internalCalculate, composed from the rules above. */
  function Engine(data: UserData, today: CalendarMonth, growth: nat -> Positive,
                  overrideModality: Option<Modality>, overrideAnticipation: Option<int>): EngineResult
  {
    var ordinaryAge := OrdinaryAge(ProjectedMonthsAt65(data, today));
    var effect := ApplyModality(EffectiveModality(data, overrideModality), ordinaryAge,
                                EffectiveAnticipation(data, overrideAnticipation), data.delayedYears.GetOr(0));
    EngineAfterModality(data, today, growth, ordinaryAge, effect)
  }

  /** The rest of internalCalculate once the modality has fixed the target age, the
      reduction and the bonus: everything after it depends on the modality only through them. */
  function EngineAfterModality(data: UserData, today: CalendarMonth, growth: nat -> Positive,
                               ordinaryAge: Age, effect: ModalityEffect): EngineResult
  {
    var currentBase := CurrentBase(data.bases);
    var retirementDate := AddAge(data.birthDate, effect.targetAge);
    var monthsUntilRetirement := MonthsUntil(today, retirementDate);
    var totalFinalMonths := WorkedMonthsNow(data) + monthsUntilRetirement;
    var accrual := AccrualPercentage(totalFinalMonths);
    var supplement := GenderGapSupplement(data.children);
    var baseA := BaseA(currentBase, monthsUntilRetirement, growth);
    var baseB := BaseB(currentBase, monthsUntilRetirement, growth);
    var pensionA := ClampPension(RawPension(baseA, accrual, effect.reductionPercentage, effect.delayBonus, supplement));
    var pensionB := ClampPension(RawPension(baseB, accrual, effect.reductionPercentage, effect.delayBonus, supplement));
    EngineResult(
      ordinaryAge, effect.targetAge, retirementDate, TimeRemainingUntil(today, retirementDate),
      DecomposeMonths(totalFinalMonths), accrual, baseA, baseB, pensionA, pensionB,
      MaxReal(pensionA, pensionB), if pensionB > pensionA then B else A)
  }

  /** `calculateTimeRemaining`: the year and month differences, borrowing a year when the
      month difference is negative, each raised to at least 0. */
  method CalculateTimeRemaining(targetDate: CalendarMonth, now: CalendarMonth) returns (t: TimeRemaining)
    ensures t == TimeRemainingUntil(now, targetDate)
  {
    var years := targetDate.year - now.year;
    var months := targetDate.month - now.month;
    if months < 0 {
      years := years - 1;
      months := months + 12;
    }
    assert years * 12 + months == MonthsBetween(now, targetDate) && 0 <= months < 12;
    t := TimeRemaining(if years > 0 then years else 0, if months > 0 then months else 0, 0);
  }

  /** The ordinary-age step of internalCalculate: contribution projected to the 65th
      birthday, then 65 years when it reaches 38 years and 6 months, 67 otherwise. */
  method ComputeOrdinaryAge(data: UserData, today: CalendarMonth) returns (ordinaryAge: Age)
    ensures ordinaryAge == OrdinaryAge(ProjectedMonthsAt65(data, today))
    ensures ordinaryAge == Age(65, 0) <==> ProjectedMonthsAt65(data, today) >= THRESHOLD_MONTHS
    ensures ordinaryAge == Age(67, 0) <==> ProjectedMonthsAt65(data, today) < THRESHOLD_MONTHS
  {
    var dateAt65 := DateAt65(data.birthDate);
    var monthsUntil65 := MonthsBetween(today, dateAt65);
    if monthsUntil65 < 0 {
      monthsUntil65 := 0;
    }
    var totalWorkedMonthsNow := data.totalYears * 12 + data.totalMonths;
    var projectedMonthsAt65 := totalWorkedMonthsNow + monthsUntil65;
    var ordYears, ordMonths := 67, 0;
    if projectedMonthsAt65 >= THRESHOLD_MONTHS {
      ordYears, ordMonths := 65, 0;
    }
    ordinaryAge := Age(ordYears, ordMonths);
  }

  /** The modality step of internalCalculate: the target age starts at the ordinary age and
      the reduction and bonus at 0, and one branch per modality overwrites them. */
  method AdjustForModality(modality: Modality, ordinaryAge: Age, anticipationMonths: int, delayedYears: int)
    returns (targetAge: Age, reductionPercentage: real, delayBonus: real)
    ensures ModalityEffect(targetAge, reductionPercentage, delayBonus) == ApplyModality(modality, ordinaryAge, anticipationMonths, delayedYears)
  {
    targetAge := ordinaryAge;
    reductionPercentage, delayBonus := 0.0, 0.0;
    if modality == AnticipatedVoluntary {
      targetAge := SubtractMonths(ordinaryAge, anticipationMonths);
      reductionPercentage := (anticipationMonths as real / 24.0) * 0.21;
    } else if modality == AnticipatedInvoluntary {
      targetAge := SubtractMonths(ordinaryAge, anticipationMonths);
      reductionPercentage := (anticipationMonths as real / 48.0) * 0.30;
    } else if modality == Delayed {
      targetAge := targetAge.(years := targetAge.years + delayedYears);
      delayBonus := delayedYears as real * 0.04;
    }
  }

  /** The accrual step of internalCalculate: 0 unless 15 years are reached. */
  method ComputeContributionPercentage(totalFinalMonths: int) returns (contributionPercentage: real)
    ensures contributionPercentage == AccrualPercentage(totalFinalMonths)
  {
    contributionPercentage := 0.0;
    if totalFinalMonths >= MIN_CONTRIBUTION_MONTHS {
      var monthsForFull := 36.5 * 12.0 - MIN_CONTRIBUTION_MONTHS as real;
      var extraMonths := (totalFinalMonths - MIN_CONTRIBUTION_MONTHS) as real;
      contributionPercentage := MinReal(100.0, 50.0 + (extraMonths / monthsForFull) * 50.0);
    }
  }

  /** One pension of internalCalculate: computed from its base, then overwritten by its
      clamp into [1050, 3175]. */
  method ComputePension(base: real, contributionPercentage: real, reductionPercentage: real,
                        delayBonus: real, genderGapSupplement: real) returns (pension: real)
    ensures pension == ClampPension(RawPension(base, contributionPercentage, reductionPercentage, delayBonus, genderGapSupplement))
  {
    var scaleMultiplier := contributionPercentage / 100.0;
    pension := (base * scaleMultiplier) * (1.0 - reductionPercentage) + (delayBonus * base) + genderGapSupplement;
    assert pension == RawPension(base, contributionPercentage, reductionPercentage, delayBonus, genderGapSupplement);
    pension := MinReal(MAX_PENSION, MaxReal(MIN_PENSION, pension));
  }

  /** `internalCalculate`, stage by stage as the source computes it. */
  method InternalCalculate(data: UserData, today: CalendarMonth, growth: nat -> Positive,
                           overrideModality: Option<Modality>, overrideAnticipation: Option<int>)
    returns (r: EngineResult)
    ensures r == Engine(data, today, growth, overrideModality, overrideAnticipation)
  {
    var modality := EffectiveModality(data, overrideModality);
    var anticipationMonths := EffectiveAnticipation(data, overrideAnticipation);
    var delayedYears := data.delayedYears.GetOr(0);
    var currentBase := CurrentBase(data.bases);

    var ordinaryAge := ComputeOrdinaryAge(data, today);
    var targetAge, reductionPercentage, delayBonus := AdjustForModality(modality, ordinaryAge, anticipationMonths, delayedYears);

    var rDate := AddAge(data.birthDate, targetAge);
    var monthsUntilRetirement := MonthsUntil(today, rDate);
    var totalFinalMonths := WorkedMonthsNow(data) + monthsUntilRetirement;

    var baseReguladoraA := BaseA(currentBase, monthsUntilRetirement, growth);
    var baseReguladoraB := BaseB(currentBase, monthsUntilRetirement, growth);
    var contributionPercentage := ComputeContributionPercentage(totalFinalMonths);
    var genderGapSupplement := GenderGapSupplement(data.children);
    var pensionA := ComputePension(baseReguladoraA, contributionPercentage, reductionPercentage, delayBonus, genderGapSupplement);
    var pensionB := ComputePension(baseReguladoraB, contributionPercentage, reductionPercentage, delayBonus, genderGapSupplement);

    var timeRemaining := CalculateTimeRemaining(rDate, today);
    r := EngineResult(
      ordinaryAge, targetAge, rDate, timeRemaining,
      DecomposeMonths(totalFinalMonths),
      contributionPercentage, baseReguladoraA, baseReguladoraB, pensionA, pensionB,
      MaxReal(pensionA, pensionB), if pensionB > pensionA then B else A);
  }

  /** `calculateRetirement`: the engine under the chosen modality, the eligibility flag, and
      for the two anticipated modalities a second run as ORDINARY with no anticipation. */
  method CalculateRetirement(data: UserData, today: CalendarMonth, growth: nat -> Positive)
    returns (r: CalculationResult)
    ensures r.eligible <==> data.totalYears * 12 + data.totalMonths >= MIN_CONTRIBUTION_MONTHS
    ensures var main := Engine(data, today, growth, None, None);
      && r.ordinaryAge == main.ordinaryAge
      && r.targetAge == main.targetAge
      && r.retirementDate == main.retirementDate
      && r.timeRemaining == main.timeRemaining
      && r.finalContribution == main.finalContribution
      && r.contributionPercentage == main.contributionPercentage
      && r.baseReguladoraA == main.baseReguladoraA
      && r.baseReguladoraB == main.baseReguladoraB
      && r.finalPensionA == main.finalPensionA
      && r.finalPensionB == main.finalPensionB
      && r.bestOption == main.bestOption
    ensures r.currentContribution == Age(data.totalYears, data.totalMonths)
    ensures r.genderGapSupplement == GenderGapSupplement(data.children)
    ensures r.reductionPercentage == None && r.delayBonus == None
    ensures r.modality == data.modality && r.anticipationMonths == data.anticipationMonths
    ensures r.ordinaryComparison.Some? <==> data.modality == AnticipatedVoluntary || data.modality == AnticipatedInvoluntary
    ensures r.ordinaryComparison.Some? ==>
      var main, ordinary := Engine(data, today, growth, None, None), Engine(data, today, growth, Some(Ordinary), Some(0));
      r.ordinaryComparison.value == Comparison(ordinary.bestPension, ordinary.retirementDate, ordinary.bestPension - main.bestPension)
  {
    var mainResult := InternalCalculate(data, today, growth, None, None);
    var comparison: Option<Comparison> := None;
    if data.modality == AnticipatedVoluntary || data.modality == AnticipatedInvoluntary {
      var ordinaryResult := InternalCalculate(data, today, growth, Some(Ordinary), Some(0));
      comparison := Some(Comparison(ordinaryResult.bestPension, ordinaryResult.retirementDate,
                                    ordinaryResult.bestPension - mainResult.bestPension));
    }
    r := CalculationResult(
      WorkedMonthsNow(data) >= MIN_CONTRIBUTION_MONTHS,
      mainResult.ordinaryAge, mainResult.targetAge, mainResult.retirementDate, mainResult.timeRemaining,
      Age(data.totalYears, data.totalMonths), mainResult.finalContribution, mainResult.contributionPercentage,
      mainResult.baseReguladoraA, mainResult.baseReguladoraB, mainResult.finalPensionA, mainResult.finalPensionB,
      mainResult.bestOption,
      GenderGapSupplement(data.children),
      // the inner result carries no reduction or bonus, so these read as undefined
      None, None,
      data.modality, data.anticipationMonths, comparison);
  }

  // Properties of the engine

  /** Both pensions are clamped into [1050, 3175]; B is chosen only when strictly larger, so
      ties go to A; the best pension is the larger of the two. */
  lemma EnginePensions(data: UserData, today: CalendarMonth, growth: nat -> Positive,
                       overrideModality: Option<Modality>, overrideAnticipation: Option<int>)
    ensures var e := Engine(data, today, growth, overrideModality, overrideAnticipation);
      && MIN_PENSION <= e.finalPensionA <= MAX_PENSION
      && MIN_PENSION <= e.finalPensionB <= MAX_PENSION
      && (e.bestOption == B <==> e.finalPensionB > e.finalPensionA)
      && e.bestPension >= e.finalPensionA && e.bestPension >= e.finalPensionB
      && (e.bestPension == e.finalPensionA || e.bestPension == e.finalPensionB)
      && e.bestPension == (if e.bestOption == B then e.finalPensionB else e.finalPensionA)
  {
  }

  /** The ordinary age is 65 exactly when the contribution projected to the 65th birthday
      reaches 462 months, and 67 otherwise; no other age is possible. */
  lemma EngineOrdinaryAge(data: UserData, today: CalendarMonth, growth: nat -> Positive,
                          overrideModality: Option<Modality>, overrideAnticipation: Option<int>)
    ensures var e := Engine(data, today, growth, overrideModality, overrideAnticipation);
      var projected := data.totalYears * 12 + data.totalMonths + MonthsUntil(today, DateAt65(data.birthDate));
      && (e.ordinaryAge == Age(65, 0) <==> projected >= 462)
      && (e.ordinaryAge == Age(67, 0) <==> projected < 462)
  {
  }

  /** The retirement date lies the target age after the birth month, and the remaining time
      counts the months until it whenever it is not in the past. */
  lemma EngineRetirementDate(data: UserData, today: CalendarMonth, growth: nat -> Positive,
                             overrideModality: Option<Modality>, overrideAnticipation: Option<int>)
    ensures var e := Engine(data, today, growth, overrideModality, overrideAnticipation);
      && MonthsBetween(data.birthDate, e.retirementDate) == e.targetAge.years * 12 + e.targetAge.months
      && e.timeRemaining.years >= 0 && 0 <= e.timeRemaining.months <= 11 && e.timeRemaining.days == 0
      && (MonthsBetween(today, e.retirementDate) >= 0 ==>
            e.timeRemaining.years * 12 + e.timeRemaining.months == MonthsUntil(today, e.retirementDate))
  {
  }

  /** The final contribution never falls below today's, decomposes exactly into years and
      months whenever it is non-negative, and sets the accrual percentage. */
  lemma EngineFinalContribution(data: UserData, today: CalendarMonth, growth: nat -> Positive,
                                overrideModality: Option<Modality>, overrideAnticipation: Option<int>)
    ensures var e := Engine(data, today, growth, overrideModality, overrideAnticipation);
      var total := WorkedMonthsNow(data) + MonthsUntil(today, e.retirementDate);
      && total >= WorkedMonthsNow(data)
      && (total >= 0 ==> e.finalContribution.years * 12 + e.finalContribution.months == total
                         && 0 <= e.finalContribution.months < 12)
      && (total < MIN_CONTRIBUTION_MONTHS ==> e.contributionPercentage == 0.0)
      && (total >= MIN_CONTRIBUTION_MONTHS ==> 50.0 <= e.contributionPercentage <= 100.0)
      && (total >= FULL_ACCRUAL_MONTHS ==> e.contributionPercentage == 100.0)
  {
  }

  /** A worker who already has 15 years of contribution (the `eligible` flag) is awarded at
      least half of the regulatory base. */
  lemma EligibleGetsHalfAccrual(data: UserData, today: CalendarMonth, growth: nat -> Positive,
                                overrideModality: Option<Modality>, overrideAnticipation: Option<int>)
    requires data.totalYears * 12 + data.totalMonths >= MIN_CONTRIBUTION_MONTHS
    ensures Engine(data, today, growth, overrideModality, overrideAnticipation).contributionPercentage >= 50.0
  {
  }

  /** More contribution months never lower the accrual percentage. */
  lemma AccrualMonotone(t1: int, t2: int)
    requires t1 <= t2
    ensures AccrualPercentage(t1) <= AccrualPercentage(t2)
  {
  }

  /** ORDINARY and PARTIAL retire at the ordinary age with neither reduction nor bonus. */
  lemma OrdinaryAndPartialKeepOrdinaryAge(modality: Modality, ordinaryAge: Age, anticipationMonths: int, delayedYears: int)
    requires modality == Ordinary || modality == Partial
    ensures ApplyModality(modality, ordinaryAge, anticipationMonths, delayedYears) == ModalityEffect(ordinaryAge, 0.0, 0.0)
  {
  }

  /** PARTIAL has no rule of its own: the whole engine computes it exactly as ORDINARY. */
  lemma PartialComputedAsOrdinary(data: UserData, today: CalendarMonth, growth: nat -> Positive, overrideAnticipation: Option<int>)
    ensures Engine(data, today, growth, Some(Partial), overrideAnticipation)
         == Engine(data, today, growth, Some(Ordinary), overrideAnticipation)
  {
    var ordinaryAge := OrdinaryAge(ProjectedMonthsAt65(data, today));
    var a, d := EffectiveAnticipation(data, overrideAnticipation), data.delayedYears.GetOr(0);
    var effect := ApplyModality(Ordinary, ordinaryAge, a, d);
    calc {
      Engine(data, today, growth, Some(Partial), overrideAnticipation);
      EngineAfterModality(data, today, growth, ordinaryAge, ApplyModality(Partial, ordinaryAge, a, d));
      { assert ApplyModality(Partial, ordinaryAge, a, d) == effect; }
      EngineAfterModality(data, today, growth, ordinaryAge, effect);
      Engine(data, today, growth, Some(Ordinary), overrideAnticipation);
    }
  }

  /** Voluntary anticipation retires `a` months before the ordinary age (65 or 67 years) with
      reduction a/24 * 0.21: nothing at 0 months, 0.21 at 24, and, since `a` is not capped,
      0.42 at 48. */
  lemma VoluntaryAnticipation(ordinaryAge: Age, a: int, delayedYears: int)
    requires ordinaryAge == Age(65, 0) || ordinaryAge == Age(67, 0)
    requires 0 <= a <= 65 * 12
    ensures var effect := ApplyModality(AnticipatedVoluntary, ordinaryAge, a, delayedYears);
      && effect.targetAge.years * 12 + effect.targetAge.months == ordinaryAge.years * 12 - a
      && 0 <= effect.targetAge.months < 12
      && effect.delayBonus == 0.0
      && effect.reductionPercentage == a as real * 0.21 / 24.0
      && (a == 0 ==> effect.reductionPercentage == 0.0)
      && (a == 24 ==> effect.reductionPercentage == 0.21)
      && (a == 48 ==> effect.reductionPercentage == 0.42)
  {
  }

  /** Involuntary anticipation retires `a` months early with reduction a/48 * 0.30, which is
      0.30 at 48 months and half the voluntary rate per month (0.00625 against 0.00875). */
  lemma InvoluntaryAnticipation(ordinaryAge: Age, a: int, delayedYears: int)
    requires ordinaryAge == Age(65, 0) || ordinaryAge == Age(67, 0)
    requires 0 <= a <= 65 * 12
    ensures var effect := ApplyModality(AnticipatedInvoluntary, ordinaryAge, a, delayedYears);
      var voluntary := ApplyModality(AnticipatedVoluntary, ordinaryAge, a, delayedYears);
      && effect.targetAge == voluntary.targetAge
      && effect.delayBonus == 0.0
      && effect.reductionPercentage == a as real * 0.30 / 48.0
      && (a == 48 ==> effect.reductionPercentage == 0.30)
      && (a > 0 ==> effect.reductionPercentage < voluntary.reductionPercentage)
  {
  }

  /** Each further month of anticipation raises the reduction, for both anticipated modalities. */
  lemma ReductionGrowsWithAnticipation(modality: Modality, ordinaryAge: Age, a1: int, a2: int, delayedYears: int)
    requires modality == AnticipatedVoluntary || modality == AnticipatedInvoluntary
    requires a1 < a2
    ensures ApplyModality(modality, ordinaryAge, a1, delayedYears).reductionPercentage
          < ApplyModality(modality, ordinaryAge, a2, delayedYears).reductionPercentage
  {
  }

  /** DELAYED adds `d` years to the ordinary age, keeps its months, and earns a bonus of 4% of
      the base per year (12% for 3 years), with no reduction. */
  lemma DelayedBonus(ordinaryAge: Age, anticipationMonths: int, d: int)
    ensures var effect := ApplyModality(Delayed, ordinaryAge, anticipationMonths, d);
      && effect.targetAge == Age(ordinaryAge.years + d, ordinaryAge.months)
      && effect.reductionPercentage == 0.0
      && effect.delayBonus == 0.04 * d as real
      && (d == 3 ==> effect.delayBonus == 0.12)
  {
  }

  /** Anticipating 0 months is computed exactly as ordinary retirement. */
  lemma ZeroAnticipationIsOrdinary(data: UserData, today: CalendarMonth, growth: nat -> Positive, modality: Modality)
    requires modality == AnticipatedVoluntary || modality == AnticipatedInvoluntary
    ensures Engine(data, today, growth, Some(modality), Some(0)) == Engine(data, today, growth, Some(Ordinary), Some(0))
  {
    var ordinaryAge := OrdinaryAge(ProjectedMonthsAt65(data, today));
    var d := data.delayedYears.GetOr(0);
    var effect := ApplyModality(Ordinary, ordinaryAge, 0, d);
    calc {
      Engine(data, today, growth, Some(modality), Some(0));
      EngineAfterModality(data, today, growth, ordinaryAge, ApplyModality(modality, ordinaryAge, 0, d));
      { NoAnticipationNoEffect(modality, ordinaryAge, d); }
      EngineAfterModality(data, today, growth, ordinaryAge, effect);
      Engine(data, today, growth, Some(Ordinary), Some(0));
    }
  }

  /** An anticipated modality with 0 months of anticipation changes neither the age (when it
      is a whole number of years and months) nor the pension coefficients. */
  lemma NoAnticipationNoEffect(modality: Modality, ordinaryAge: Age, delayedYears: int)
    requires modality == AnticipatedVoluntary || modality == AnticipatedInvoluntary
    requires ordinaryAge.years >= 0 && 0 <= ordinaryAge.months < 12
    ensures ApplyModality(modality, ordinaryAge, 0, delayedYears) == ApplyModality(Ordinary, ordinaryAge, 0, delayedYears)
  {
    var total := ordinaryAge.years * 12 + ordinaryAge.months;
    assert total / 12 == ordinaryAge.years;
  }

  /** The comparison run of calculateRetirement depends neither on the modality chosen nor
      on the anticipation requested. */
  lemma ComparisonIgnoresChoice(data: UserData, today: CalendarMonth, growth: nat -> Positive,
                                modality: Modality, anticipationMonths: Option<int>)
    ensures Engine(data, today, growth, Some(Ordinary), Some(0))
         == Engine(data.(modality := modality, anticipationMonths := anticipationMonths), today, growth, Some(Ordinary), Some(0))
  {
    var other := data.(modality := modality, anticipationMonths := anticipationMonths);
    var ordinaryAge := OrdinaryAge(ProjectedMonthsAt65(data, today));
    var effect := ApplyModality(Ordinary, ordinaryAge, 0, data.delayedYears.GetOr(0));
    calc {
      Engine(data, today, growth, Some(Ordinary), Some(0));
      EngineAfterModality(data, today, growth, ordinaryAge, effect);
      { AfterModalityIgnoresChoice(data, other, today, growth, ordinaryAge, effect); }
      EngineAfterModality(other, today, growth, ordinaryAge, effect);
      Engine(other, today, growth, Some(Ordinary), Some(0));
    }
  }

  /** Past the modality step, the engine reads neither the modality nor the anticipation. */
  lemma AfterModalityIgnoresChoice(data: UserData, other: UserData, today: CalendarMonth, growth: nat -> Positive,
                                   ordinaryAge: Age, effect: ModalityEffect)
    requires other == data.(modality := other.modality, anticipationMonths := other.anticipationMonths)
    ensures EngineAfterModality(data, today, growth, ordinaryAge, effect) == EngineAfterModality(other, today, growth, ordinaryAge, effect)
  {
  }

  /** With the same base and accrual, a larger reduction never gives a larger pension. */
  lemma ReductionLowersPension(base: real, accrual: real, r1: real, r2: real, bonus: real, supplement: real)
    requires base >= 0.0 && accrual >= 0.0 && r1 <= r2
    ensures ClampPension(RawPension(base, accrual, r2, bonus, supplement))
         <= ClampPension(RawPension(base, accrual, r1, bonus, supplement))
  {
    var scaled := base * (accrual / 100.0);
    assert scaled >= 0.0;
    assert scaled * (1.0 - r2) <= scaled * (1.0 - r1);
    ClampMonotone(RawPension(base, accrual, r2, bonus, supplement), RawPension(base, accrual, r1, bonus, supplement));
  }

  /** The clamp keeps the order of the pensions it bounds. */
  lemma ClampMonotone(p: real, q: real)
    requires p <= q
    ensures ClampPension(p) <= ClampPension(q)
  {
  }

  /** A retirement month already one month past shows 0 years and 11 months left: the borrow
      step runs before the clamp to 0, so only the years are clamped. */
  lemma PastRetirementShowsMonths(today: CalendarMonth, target: CalendarMonth)
    requires MonthsBetween(today, target) == -1
    ensures TimeRemainingUntil(today, target) == TimeRemaining(0, 11, 0)
  {
  }
}

