/**
 * The records of the tracker and the closed enumerations behind its
 * string-typed constants. The code keeps the enumerations as raw
 * strings, so each one also has its spelling and a parser that accepts
 * exactly the spellings the handlers compare against.
 */
module Models {
  import opened Wrappers
  import opened Calendar

  datatype Gender = Male | Female | Other

  datatype ActivityLevel = Low | Moderate | High

  /** `All` is the empty spelling the package filters use for "any goal". */
  datatype GoalType = Lose | Gain | All

  datatype MealType = Breakfast | Lunch | Dinner | Snack

  function GenderName(g: Gender): string {
    match g
    case Male => "MALE"
    case Female => "FEMALE"
    case Other => "OTHER"
  }

  function ParseGender(s: string): Option<Gender> {
    if s == "MALE" then Some(Male)
    else if s == "FEMALE" then Some(Female)
    else if s == "OTHER" then Some(Other)
    else None
  }

  function ActivityLevelName(a: ActivityLevel): string {
    match a
    case Low => "LOW"
    case Moderate => "MODERATE"
    case High => "HIGH"
  }

  function ParseActivityLevel(s: string): Option<ActivityLevel> {
    if s == "LOW" then Some(Low)
    else if s == "MODERATE" then Some(Moderate)
    else if s == "HIGH" then Some(High)
    else None
  }

  function GoalTypeName(g: GoalType): string {
    match g
    case Lose => "LOSE"
    case Gain => "GAIN"
    case All => ""
  }

  function ParseGoalType(s: string): Option<GoalType> {
    if s == "LOSE" then Some(Lose)
    else if s == "GAIN" then Some(Gain)
    else if s == "" then Some(All)
    else None
  }

  function MealTypeName(m: MealType): string {
    match m
    case Breakfast => "BREAKFAST"
    case Lunch => "LUNCH"
    case Dinner => "DINNER"
    case Snack => "SNACK"
  }

  function ParseMealType(s: string): Option<MealType> {
    if s == "BREAKFAST" then Some(Breakfast)
    else if s == "LUNCH" then Some(Lunch)
    else if s == "DINNER" then Some(Dinner)
    else if s == "SNACK" then Some(Snack)
    else None
  }

  /** Each spelling parses back to its constant, and only a spelling parses. */
  lemma {:induction false} GenderSpelling(g: Gender, s: string)
    ensures ParseGender(GenderName(g)) == Some(g)
    ensures ParseGender(s) == Some(g) <==> s == GenderName(g)
  {
  }

  lemma {:induction false} ActivityLevelSpelling(a: ActivityLevel, s: string)
    ensures ParseActivityLevel(ActivityLevelName(a)) == Some(a)
    ensures ParseActivityLevel(s) == Some(a) <==> s == ActivityLevelName(a)
  {
  }

  lemma {:induction false} GoalTypeSpelling(g: GoalType, s: string)
    ensures ParseGoalType(GoalTypeName(g)) == Some(g)
    ensures ParseGoalType(s) == Some(g) <==> s == GoalTypeName(g)
  {
  }

  lemma {:induction false} MealTypeSpelling(m: MealType, s: string)
    ensures ParseMealType(MealTypeName(m)) == Some(m)
    ensures ParseMealType(s) == Some(m) <==> s == MealTypeName(m)
  {
  }

  /** A user's goal; the macro targets are derived from the calorie target at registration. */
  datatype GoalInfo = GoalInfo(
    goalType: GoalType,
    targetCalories: int,
    targetProtein: int,
    targetCarbs: int,
    targetFat: int,
    startDate: Instant,
    startWeight: real,
    targetWeight: real)

  datatype User = User(
    id: string,
    name: string,
    email: string,
    password: string,
    gender: Gender,
    birthDate: Date,
    createdAt: Instant,
    lastLoginAt: Instant,
    height: real,
    weight: real,
    activityLevel: ActivityLevel,
    goal: GoalInfo)

  /** Reference data: base nutrition of one portion. */
  datatype MealPackage = MealPackage(
    id: string,
    name: string,
    description: string,
    goalType: GoalType,
    mealType: MealType,
    baseCalories: int,
    baseProtein: int,
    baseCarbs: int,
    baseFat: int,
    imageUrl: string,
    preparationSteps: seq<string>,
    ingredients: seq<string>)

  /** A logged meal; the nutrition fields are already scaled by the portion. */
  datatype MealEntry = MealEntry(
    id: string,
    userId: string,
    packageId: string,
    portionMultiplier: real,
    calories: int,
    protein: int,
    carbs: int,
    fat: int,
    mealType: MealType,
    date: Date,
    timestamp: Instant,
    createdAt: Instant)

  /** Reference data: calories burnt over the base duration at intensity 1 by a 70 kg user. */
  datatype WorkoutPackage = WorkoutPackage(
    id: string,
    name: string,
    description: string,
    goalType: GoalType,
    workoutType: string,
    baseDurationMinutes: int,
    baseCaloriesBurn: int,
    caloriesBurnFormula: string,
    imageUrl: string,
    instructions: seq<string>)

  /** A logged workout; the calories burnt are already scaled. */
  datatype WorkoutEntry = WorkoutEntry(
    id: string,
    userId: string,
    packageId: string,
    intensityMultiplier: real,
    durationMinutes: int,
    caloriesBurned: int,
    date: Date,
    timestamp: Instant,
    createdAt: Instant)

  /** The persistence collaborator, reduced to the lookups the handlers make. */
  datatype Store = Store(
    users: map<string, User>,
    mealPackages: map<string, MealPackage>,
    workoutPackages: map<string, WorkoutPackage>)
  {
    function GetUser(id: string): Option<User> {
      if id in users then Some(users[id]) else None
    }

    function GetMealPackage(id: string): Option<MealPackage> {
      if id in mealPackages then Some(mealPackages[id]) else None
    }

    function GetWorkoutPackage(id: string): Option<WorkoutPackage> {
      if id in workoutPackages then Some(workoutPackages[id]) else None
    }
  }
}
