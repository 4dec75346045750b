/**
 * Registration: the ordered validation of the request, the base calorie
 * need (basal metabolic rate times an activity factor), the goal offset
 * and the macro targets derived from the calorie target.
 * Height and weight are float64 in the code and `real` here; Go's
 * `int(x)` is `Numeric.Trunc`.
 */
module Users {
  import opened Wrappers
  import opened Numeric
  import opened Calendar
  import opened Models

  // ----- Age -----

  /**
   * Age as the code computes it: the year difference, minus one when
   * today's day of the year comes before the birth date's day of the year.
   * Day-of-year numbers shift by one after February in leap years, so this
   * disagrees with the birthday around February 29th and March 1st; see
   * `AgeAsWrittenMissesBirthday`. Registration uses this age, as the
   * code does; `Age` is the corrected count of birthdays.
   */
  function AgeAsWritten(birth: Date, today: Date): (age: int)
    requires ValidDate(birth) && ValidDate(today)
    ensures age == today.year - birth.year || age == today.year - birth.year - 1
  {
    var years := today.year - birth.year;
    if DayOfYear(today) < DayOfYear(birth) then years - 1 else years
  }

  /** The birthday of year `birth.year + k` has come by `today` (month and day compared). */
  predicate BirthdayReached(birth: Date, today: Date, k: int) {
    NotAfter(Date(birth.year + k, birth.month, birth.day), today)
  }

  /**
   * Whole years lived: the year difference, minus one when today's month
   * and day come before the birth month and day.
   */
  function Age(birth: Date, today: Date): (age: int)
    ensures age == today.year - birth.year || age == today.year - birth.year - 1
  {
    var years := today.year - birth.year;
    if today.month < birth.month || (today.month == birth.month && today.day < birth.day) then years - 1
    else years
  }

  /** `Age` counts birthdays: the age-th one has come and the next has not. */
  lemma {:induction false} AgeCountsBirthdays(birth: Date, today: Date)
    ensures BirthdayReached(birth, today, Age(birth, today))
    ensures !BirthdayReached(birth, today, Age(birth, today) + 1)
  {
  }

  /**
   * The computation as written skips a birthday: born 2000-03-01 (day 61
   * of a leap year), on 2001-03-01 (day 60) the first birthday has come
   * but the code reports age 0.
   */
  lemma AgeAsWrittenMissesBirthday()
    ensures var birth, today := Date(2000, 3, 1), Date(2001, 3, 1);
      ValidDate(birth) && ValidDate(today)
      && BirthdayReached(birth, today, 1)
      && AgeAsWritten(birth, today) == 0
      && Age(birth, today) == 1
  {
    var birth, today := Date(2000, 3, 1), Date(2001, 3, 1);
    MonthsMakeYear(true);
    assert DaysBeforeMonth(true, 3) == 60;
    assert DaysBeforeMonth(false, 3) == 59;
  }

  /** When both years are leap years or neither is, the code's age is the birthday count. */
  lemma {:induction false} AgeAsWrittenAgreesWithinLeapness(birth: Date, today: Date)
    requires ValidDate(birth) && ValidDate(today)
    requires IsLeapYear(birth.year) == IsLeapYear(today.year)
    ensures AgeAsWritten(birth, today) == Age(birth, today)
  {
    var shifted := Date(today.year, birth.month, birth.day);
    assert ValidDate(shifted);
    assert DayOfYear(shifted) == DayOfYear(birth);
    DayOfYearOrder(today, shifted);
  }

  // ----- Base calories -----

  /**
   * Basal metabolic rate, the Harris–Benedict equations: the male one
   * exactly for "MALE", the female one for "FEMALE", "OTHER" and any other
   * text.
   */
  function Bmr(weight: real, height: real, age: int, gender: string): (r: real)
    ensures ParseGender(gender) == Some(Male) ==>
      r == 88.362 + 13.397 * weight + 4.799 * height - 5.677 * age as real
    ensures ParseGender(gender) != Some(Male) ==>
      r == 447.593 + 9.247 * weight + 3.098 * height - 4.330 * age as real
  {
    GenderSpelling(Male, gender);
    if gender == GenderName(Male) then 88.362 + 13.397 * weight + 4.799 * height - 5.677 * age as real
    else 447.593 + 9.247 * weight + 3.098 * height - 4.330 * age as real
  }

  /** The activity factor; an unrecognised level falls back to 1.4. */
  function ActivityMultiplier(level: string): (f: real)
    ensures 1.2 <= f <= 1.9
  {
    if level == ActivityLevelName(Low) then 1.2
    else if level == ActivityLevelName(Moderate) then 1.55
    else if level == ActivityLevelName(High) then 1.9
    else 1.4
  }

  /** Every accepted level has its own factor, so the 1.4 fallback is never used after validation. */
  lemma {:induction false} ActivityMultiplierOfAccepted(level: string)
    ensures ParseActivityLevel(level) == Some(Low) <==> ActivityMultiplier(level) == 1.2
    ensures ParseActivityLevel(level) == Some(Moderate) <==> ActivityMultiplier(level) == 1.55
    ensures ParseActivityLevel(level) == Some(High) <==> ActivityMultiplier(level) == 1.9
    ensures ParseActivityLevel(level).None? <==> ActivityMultiplier(level) == 1.4
  {
  }

  /**
   * Daily calorie need for a known age: the integer part, toward zero, of
   * the basal metabolic rate times the activity factor.
   */
  function CaloriesForAge(weight: real, height: real, age: int, gender: string, level: string): (c: int)
    ensures IsIntegerPart(c, Bmr(weight, height, age, gender) * ActivityMultiplier(level))
  {
    Trunc(Bmr(weight, height, age, gender) * ActivityMultiplier(level))
  }

  /**
   * `calculateBaseCalories`: the calorie need of someone born on `birth`,
   * as of `today`, at the age the code computes (`AgeAsWritten`).
   */
  function BaseCalories(weight: real, height: real, birth: Date, gender: string, level: string, today: Date): (c: int)
    requires ValidDate(birth) && ValidDate(today)
    ensures c == CaloriesForAge(weight, height, today.year - birth.year, gender, level)
         || c == CaloriesForAge(weight, height, today.year - birth.year - 1, gender, level)
  {
    CaloriesForAge(weight, height, AgeAsWritten(birth, today), gender, level)
  }

  /** The calorie need at the corrected age, the number of birthdays reached. */
  function CorrectedBaseCalories(weight: real, height: real, birth: Date, gender: string, level: string, today: Date)
    : (c: int)
    ensures c == CaloriesForAge(weight, height, today.year - birth.year, gender, level)
         || c == CaloriesForAge(weight, height, today.year - birth.year - 1, gender, level)
  {
    CaloriesForAge(weight, height, Age(birth, today), gender, level)
  }

  /** When both years are leap years or neither is, the code's need is the corrected one. */
  lemma {:induction false} BaseCaloriesWithinLeapness(weight: real, height: real, birth: Date, gender: string,
                                                       level: string, today: Date)
    requires ValidDate(birth) && ValidDate(today)
    requires IsLeapYear(birth.year) == IsLeapYear(today.year)
    ensures BaseCalories(weight, height, birth, gender, level, today)
         == CorrectedBaseCalories(weight, height, birth, gender, level, today)
  {
    AgeAsWrittenAgreesWithinLeapness(birth, today);
  }

  /**
   * The age error reaches the stored calorie need: a man of 80 kg and
   * 180 cm, moderately active, born 2000-03-01 and registering on
   * 2001-03-01, is given 3137 calories where the age of one gives 3128.
   */
  lemma BaseCaloriesMissesBirthday()
    ensures BaseCalories(80.0, 180.0, Date(2000, 3, 1), "MALE", "MODERATE", Date(2001, 3, 1)) == 3137
    ensures CorrectedBaseCalories(80.0, 180.0, Date(2000, 3, 1), "MALE", "MODERATE", Date(2001, 3, 1)) == 3128
  {
    AgeAsWrittenMissesBirthday();
    GenderSpelling(Male, "MALE");
    assert CaloriesForAge(80.0, 180.0, 0, "MALE", "MODERATE") == 3137;
    assert CaloriesForAge(80.0, 180.0, 1, "MALE", "MODERATE") == 3128;
  }

  /** Heavier never means fewer calories, for fixed height, age, gender and activity. */
  lemma {:induction false} CaloriesGrowWithWeight(w1: real, w2: real, height: real, age: int, gender: string, level: string)
    requires w1 <= w2
    ensures CaloriesForAge(w1, height, age, gender, level) <= CaloriesForAge(w2, height, age, gender, level)
  {
    var f := ActivityMultiplier(level);
    ScaleUp(Bmr(w1, height, age, gender), Bmr(w2, height, age, gender), f);
    TruncMonotone(Bmr(w1, height, age, gender) * f, Bmr(w2, height, age, gender) * f);
  }

  /** Taller never means fewer calories. */
  lemma {:induction false} CaloriesGrowWithHeight(weight: real, h1: real, h2: real, age: int, gender: string, level: string)
    requires h1 <= h2
    ensures CaloriesForAge(weight, h1, age, gender, level) <= CaloriesForAge(weight, h2, age, gender, level)
  {
    var f := ActivityMultiplier(level);
    ScaleUp(Bmr(weight, h1, age, gender), Bmr(weight, h2, age, gender), f);
    TruncMonotone(Bmr(weight, h1, age, gender) * f, Bmr(weight, h2, age, gender) * f);
  }

  /** Older never means more calories. */
  lemma {:induction false} CaloriesShrinkWithAge(weight: real, height: real, a1: int, a2: int, gender: string, level: string)
    requires a1 <= a2
    ensures CaloriesForAge(weight, height, a2, gender, level) <= CaloriesForAge(weight, height, a1, gender, level)
  {
    var f := ActivityMultiplier(level);
    ScaleUp(Bmr(weight, height, a2, gender), Bmr(weight, height, a1, gender), f);
    TruncMonotone(Bmr(weight, height, a2, gender) * f, Bmr(weight, height, a1, gender) * f);
  }

  lemma {:induction false} ScaleUp(x: real, y: real, f: real)
    requires x <= y && f >= 0.0
    ensures x * f <= y * f
  {
  }

  // ----- Goal and macros -----

  /** 500 calories below the need to lose weight, 500 above otherwise. */
  function TargetCalories(base: int, goal: GoalType): (target: int)
    ensures goal == Lose ==> target == base - 500
    ensures goal == Gain ==> target == base + 500
  {
    if goal == Lose then base - 500 else base + 500
  }

  datatype Macros = Macros(protein: int, carbs: int, fat: int)

  /**
   * Grams of protein, carbs and fat: 25%, 50% and 25% of the calories at
   * 4, 4 and 9 calories per gram, each truncated toward zero.
   */
  function MacroTargets(targetCalories: int): (m: Macros)
    ensures m.protein == TruncDiv(targetCalories, 16)
    ensures m.carbs == TruncDiv(targetCalories, 8)
    ensures m.fat == TruncDiv(targetCalories, 36)
  {
    var tc := targetCalories as real;
    assert tc * 0.25 / 4.0 == tc / 16.0;
    assert tc * 0.5 / 4.0 == tc / 8.0;
    assert tc * 0.25 / 9.0 == tc / 36.0;
    TruncOfQuotient(targetCalories, 16);
    TruncOfQuotient(targetCalories, 8);
    TruncOfQuotient(targetCalories, 36);
    Macros(Trunc(tc * 0.25 / 4.0), Trunc(tc * 0.5 / 4.0), Trunc(tc * 0.25 / 9.0))
  }

  /** Calories the macro targets supply. */
  function MacroCalories(m: Macros): int {
    4 * m.protein + 4 * m.carbs + 9 * m.fat
  }

  /**
   * For a non-negative target the carbs are twice the protein, give or take
   * one gram, and the macros supply the target less at most 16 calories.
   */
  lemma {:induction false} MacrosNearTarget(targetCalories: int)
    requires targetCalories >= 0
    ensures var m := MacroTargets(targetCalories);
      (m.carbs == 2 * m.protein || m.carbs == 2 * m.protein + 1)
      && targetCalories - 17 < MacroCalories(m) <= targetCalories
  {
    var m := MacroTargets(targetCalories);
    var p8 := targetCalories / 8;
    assert m.carbs == p8;
    assert m.protein == targetCalories / 16;
    assert targetCalories / 16 == p8 / 2;
  }

  /** For a negative target the macros overshoot it by at most 16 calories. */
  lemma {:induction false} MacrosNearNegativeTarget(targetCalories: int)
    requires targetCalories < 0
    ensures var m := MacroTargets(targetCalories);
      (m.carbs == 2 * m.protein || m.carbs == 2 * m.protein - 1)
      && targetCalories <= MacroCalories(m) < targetCalories + 17
  {
    MacrosNearTarget(-targetCalories);
  }

  /** Truncation can cost more than a few calories: a target of 15 yields 4 calories of macros. */
  lemma MacroLossExample()
    ensures MacroTargets(15) == Macros(0, 1, 0) && MacroCalories(MacroTargets(15)) == 4
  {
  }

  // ----- Registration -----

  datatype RegistrationRequest = RegistrationRequest(
    name: string,
    email: string,
    password: string,
    gender: string,
    birthDate: string,
    height: real,
    weight: real,
    activityLevel: string,
    goal: string)

  datatype RegistrationError = InvalidBirthDate | InvalidGender | InvalidActivityLevel | InvalidGoalType

  /** Registration accepts only LOSE and GAIN; the empty "any goal" spelling is refused. */
  function RegistrationGoal(s: string): (g: Option<GoalType>)
    ensures g.Some? <==> s == GoalTypeName(Lose) || s == GoalTypeName(Gain)
    ensures g.Some? ==> ParseGoalType(s) == g
  {
    match ParseGoalType(s)
    case Some(Lose) => Some(Lose)
    case Some(Gain) => Some(Gain)
    case _ => None
  }

  /**
   * `CreateUser` after request binding: the birth date, gender, activity
   * level and goal are checked in that order and the first failure is the
   * error; otherwise the user is built with the computed goal. `id` stands
   * for the generated identifier and `now` for the clock.
   */
  function Register(req: RegistrationRequest, id: string, now: Instant): (r: Result<User, RegistrationError>)
    requires ValidInstant(now)
    ensures r == Err(InvalidBirthDate) <==> ParseDate(req.birthDate).None?
    ensures r == Err(InvalidGender) <==> ParseDate(req.birthDate).Some? && ParseGender(req.gender).None?
    ensures r == Err(InvalidActivityLevel) <==>
      ParseDate(req.birthDate).Some? && ParseGender(req.gender).Some? && ParseActivityLevel(req.activityLevel).None?
    ensures r == Err(InvalidGoalType) <==>
      ParseDate(req.birthDate).Some? && ParseGender(req.gender).Some? && ParseActivityLevel(req.activityLevel).Some?
      && RegistrationGoal(req.goal).None?
    ensures r.Ok? ==>
      var u := r.value;
      && Some(u.birthDate) == ParseDate(req.birthDate)
      && Some(u.gender) == ParseGender(req.gender)
      && Some(u.activityLevel) == ParseActivityLevel(req.activityLevel)
      && Some(u.goal.goalType) == RegistrationGoal(req.goal)
      && (var base := BaseCalories(req.weight, req.height, u.birthDate, req.gender, req.activityLevel, now.date);
          u.goal.targetCalories == (if u.goal.goalType == Lose then base - 500 else base + 500))
      && u.goal.targetProtein == TruncDiv(u.goal.targetCalories, 16)
      && u.goal.targetCarbs == TruncDiv(u.goal.targetCalories, 8)
      && u.goal.targetFat == TruncDiv(u.goal.targetCalories, 36)
      && u.goal.startWeight == u.weight == req.weight
      && u.goal.targetWeight == 0.0
      && u.height == req.height
      && u.id == id && u.name == req.name && u.email == req.email && u.password == req.password
      && u.createdAt == u.lastLoginAt == u.goal.startDate == now
  {
    match ParseDate(req.birthDate)
    case None => Err(InvalidBirthDate)
    case Some(birth) =>
      match ParseGender(req.gender)
      case None => Err(InvalidGender)
      case Some(gender) =>
        match ParseActivityLevel(req.activityLevel)
        case None => Err(InvalidActivityLevel)
        case Some(level) =>
          match RegistrationGoal(req.goal)
          case None => Err(InvalidGoalType)
          case Some(goal) =>
            var base := BaseCalories(req.weight, req.height, birth, req.gender, req.activityLevel, now.date);
            var target := TargetCalories(base, goal);
            var macros := MacroTargets(target);
            Ok(User(id, req.name, req.email, req.password, gender, birth, now, now, req.height, req.weight, level,
                    GoalInfo(goal, target, macros.protein, macros.carbs, macros.fat, now, req.weight, 0.0)))
  }

  /** Worked example: male, 80 kg, 180 cm, aged 34, moderately active, losing weight. */
  lemma RegistrationExample()
    ensures CaloriesForAge(80.0, 180.0, 34, "MALE", "MODERATE") == 2837
    ensures TargetCalories(2837, Lose) == 2337
    ensures MacroTargets(2337) == Macros(146, 292, 64)
  {
  }
}
