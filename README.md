# BalanceLife derived metrics, in Dafny

BalanceLife is a diet and exercise tracker. Its HTTP handlers compute every number the service stores. This project models those computations and proves what they guarantee:

- **Registration** (`Users`):
  - The request is checked in a fixed order: birth date, gender, activity level, goal.
  - The daily calorie need comes from the Harris–Benedict basal metabolic rate, multiplied by an activity factor and truncated.
  - The goal offset is ±500 calories.
  - The protein, carb and fat targets are derived from the calorie target.
- **Meal entries** (`Meals`): each nutrient is the package's base value times the portion, truncated. Only portions in [0.1, 3] are accepted.
- **Workout entries** (`Workouts`): the calories burned scale with duration, intensity and body weight, measured against a 70 kg reference.
- **Entry queries** (`Queries`):
  - The start and end dates default to today.
  - The end bound is 23:59:59.000 on the end date.
  - The store keeps the entries whose timestamp lies between the two bounds, both included.
- **Connection check helpers** (`Connections`):
  - Masking the credentials in a connection URI.
  - Extracting the server version from a Redis `INFO` reply, a loop with an early exit.
- **Configuration** (`Config`):
  - The in-place `AppConfig` object.
  - `setDefaults` and the environment overrides.
  - The once-only `GetConfig` that falls back to the defaults when the file cannot be loaded.

These modules support them:

- `Numeric` models Go's `int(x)` as truncation toward zero, since Dafny's own `/` is Euclidean.
- `Calendar` covers:
  - the proleptic Gregorian calendar;
  - the `2006-01-02` date layout, with round trips in both directions;
  - day numbers, and instants to the millisecond.
- `Text` models the parts of Go's `strings` package the helpers use: `Split`, `Index`, `Contains`, `HasPrefix` and `TrimSpace`.
- `Models` holds the records, the string-valued enumerations and the store lookups.
- `Wrappers` holds `Option` and `Result`.

Things the model takes as inputs:

- **Numbers:** float64 values are modelled as `real`.
- **Handler parameters:**
  - The clock ("today", "now") is a parameter.
  - So are the generated identifiers.
  - The store is a set of maps.
- **Configuration inputs:**
  - The environment is a `map<string, string>`. An unset variable reads as `""`, as `os.Getenv` returns.
  - Opening and decoding the configuration file is a function from the path to an outcome.
  - `fmt.Sscanf(val, "%d", &db)` is a function from text to an optional integer.

Behaviour of the code that the model keeps:

- Meal and workout values, the macro targets and the calorie need are truncated toward zero by Go's `int(x)`. For negative values this differs from flooring.
- Each macro target is truncated on its own, so together they can fall short of the calorie target by up to 16 calories (`Users.MacroLossExample`).
- Registration accepts only `LOSE` and `GAIN` as goals.
- Age is computed as the code computes it, by comparing days of the year; see "## Findings".
- The handler does not check that a workout package's base duration is non-zero. The model makes a non-zero base duration a precondition of the success path.

## Model

| member | source | states |
|---|---|---|
| Numeric.Trunc | src/handlers/users.go:222 | Go's `int(x)`: the integer part of `x`, toward zero, for either sign |
| Numeric.TruncDiv | src/handlers/users.go:150-152 | truncating integer quotient, with its remainder bounds for non-negative and negative dividends |
| Numeric.TruncOfQuotient | src/handlers/users.go:150-152 | truncating the exact real quotient `n/d` gives the truncating integer quotient |
| Numeric.TruncMonotone | src/handlers/users.go:222 | truncation never decreases as its argument grows |
| Calendar.DayOfYear | src/handlers/users.go:198 | `YearDay`: a day number in 1..365, or 1..366 in a leap year |
| Calendar.DayOfYearOrder | src/handlers/users.go:198 | within one year, the day of the year orders dates as the calendar does |
| Calendar.DayNumberOrder | src/handlers/meals.go:173 | absolute day numbers order valid dates exactly as calendar order does |
| Calendar.DayNumberInjective | src/handlers/meals.go:173 | distinct valid dates have distinct day numbers |
| Calendar.ParseDate | src/handlers/users.go:98 | `time.Parse("2006-01-02", s)` accepts only existing dates of years 0000–9999 |
| Calendar.FormatDate | src/handlers/meals.go:157-158 | `Format("2006-01-02")` gives ten characters with '-' at positions 4 and 7; with the round trips below it is the inverse of `ParseDate` |
| Calendar.ParseFormatRoundTrip | src/handlers/meals.go:158-163 | formatting a valid date and parsing it back yields that date |
| Calendar.FormatParseRoundTrip | src/handlers/meals.go:158-163 | every accepted text is the formatting of the date it parses to |
| Models.GenderSpelling | src/models/user.go:17-20 | MALE, FEMALE and OTHER parse to their constants, and nothing else does |
| Models.ActivityLevelSpelling | src/models/user.go:22-24 | LOW, MODERATE and HIGH parse to their constants, and nothing else does |
| Models.GoalTypeSpelling | src/models/user.go:26-28 | LOSE, GAIN and the empty "all goals" spelling parse to their constants, and nothing else does |
| Models.MealTypeSpelling | src/models/meal.go:9-14 | BREAKFAST, LUNCH, DINNER and SNACK parse to their constants, and nothing else does |
| Users.AgeAsWritten | src/handlers/users.go:196-200 | the age as the code computes it is the year difference or one less |
| Users.AgeAsWrittenMissesBirthday | src/handlers/users.go:196-200 | born 2000-03-01, on 2001-03-01 the code's age is 0 although the first birthday has come |
| Users.AgeAsWrittenAgreesWithinLeapness | src/handlers/users.go:196-200 | when both years are leap years or neither is, the code's age equals the birthday count |
| Users.Age | src/handlers/users.go:196-200 | corrected age: the year difference or one less |
| Users.AgeCountsBirthdays | src/handlers/users.go:196-200 | the corrected age is the number of birthdays reached: the age-th has come by today, the next has not |
| Users.Bmr | src/handlers/users.go:202-207 | the male Harris–Benedict equation exactly when the gender is MALE, the female one for FEMALE, OTHER and any other text |
| Users.ActivityMultiplier | src/handlers/users.go:210-220 | the activity factor lies between 1.2 and 1.9 |
| Users.ActivityMultiplierOfAccepted | src/handlers/users.go:210-220 | LOW, MODERATE and HIGH get 1.2, 1.55 and 1.9; exactly the unrecognised levels get the 1.4 fallback |
| Users.CaloriesForAge | src/handlers/users.go:221 | the need is the integer part, toward zero, of the BMR times the activity factor |
| Users.BaseCalories | src/handlers/users.go:194-222 | the need at the code's day-of-year age (`AgeAsWritten`): the need at the year difference or at one less |
| Users.CorrectedBaseCalories | src/handlers/users.go:194-222 | the need at the corrected age (`Age`, the number of birthdays reached): the need at the year difference or at one less |
| Users.BaseCaloriesWithinLeapness | src/handlers/users.go:194-222 | when both years are leap years or neither is, the code's need equals the corrected need |
| Users.BaseCaloriesMissesBirthday | src/handlers/users.go:194-222 | an 80 kg, 180 cm, moderately active man born 2000-03-01 and registering on 2001-03-01 is given 3137 calories, where the corrected age of one gives 3128 |
| Users.CaloriesGrowWithWeight | src/handlers/users.go:202-222 | for fixed height, age, gender and activity, a heavier person never needs fewer calories |
| Users.CaloriesGrowWithHeight | src/handlers/users.go:202-222 | a taller person never needs fewer calories |
| Users.CaloriesShrinkWithAge | src/handlers/users.go:202-222 | an older person never needs more calories |
| Users.TargetCalories | src/handlers/users.go:127-134 | the target is 500 below the need for LOSE and 500 above it for GAIN |
| Users.MacroTargets | src/handlers/users.go:150-152 | protein, carbs and fat are the truncating quotients of the calorie target by 16, 8 and 36 |
| Users.MacrosNearTarget | src/handlers/users.go:150-152 | for a non-negative target, carbs are twice the protein or one more, and the macros supply the target less under 17 calories |
| Users.MacrosNearNegativeTarget | src/handlers/users.go:150-152 | for a negative target, the macros overshoot it by under 17 calories |
| Users.MacroLossExample | src/handlers/users.go:150-152 | a 15-calorie target gives 0 g protein, 1 g carbs, 0 g fat: 4 calories |
| Users.RegistrationGoal | src/handlers/users.go:118-123 | registration accepts exactly LOSE and GAIN, refusing the empty "all goals" spelling |
| Users.Register | src/handlers/users.go:97-158 | the first failing check among birth date, gender, activity and goal is the error, in that order; on success the user carries the parsed values, the goal's target is the need at the code's day-of-year age (`BaseCalories`) ±500, its macros derive from it, the start weight is the request weight and the target weight is 0 |
| Users.RegistrationExample | src/handlers/users.go:194-222 | an 80 kg, 180 cm, 34-year-old, moderately active man who wants to lose weight needs 2837 calories, targets 2337, and gets 146 g protein, 292 g carbs and 64 g fat |
| Meals.AcceptedPortion | src/handlers/meals.go:76 | `min=0.1,max=3`, both ends included; every accepted portion is positive |
| Meals.MealRequestBinds | src/handlers/meals.go:72-77 | the request binds exactly when the user, package and date are non-empty and the portion is in range; `required` on the portion adds nothing to the range |
| Meals.Scaled | src/handlers/meals.go:118-121 | a nutrition value is the integer part, toward zero, of the base value times the portion |
| Meals.PortionBoundaries | src/handlers/meals.go:76 | the accepted portion range includes 0.1 and 3 and excludes values just outside |
| Meals.ScaledByOne | src/handlers/meals.go:118-121 | a portion of 1.0 keeps each base value |
| Meals.ScaledWithinBounds | src/handlers/meals.go:118-121 | a portion accepted by the binding tag at line 76 of a non-negative base value gives a value between 0 and three times the base |
| Meals.ScaledGrowsWithPortion | src/handlers/meals.go:118-121 | a larger portion never gives a smaller value |
| Meals.ScaledDoubling | src/handlers/meals.go:118-121 | doubling the portion gives twice the truncated value or one more, for a non-negative base |
| Meals.BuildMealEntry | src/handlers/meals.go:113-126 | the entry carries the given identifier, copies user, package and portion from the request and the meal type from the package, and is dated and stamped with the clock; each nutrient is its base value scaled independently |
| Meals.CreateMealEntry | src/handlers/meals.go:98-126 | binding, then the date, then the package lookup decide the error, in that order; the user is never looked up |
| Meals.MealEntryIgnoresUsers | src/handlers/meals.go:98-126 | the outcome does not depend on the store's users or workout packages |
| Meals.MealDocument | src/models/meal.go:34-41 | a stored meal entry's text fields sit under the keys `_id`, `userId`, `packageId` and `mealType`; the user is under `userId` |
| Meals.MealFilterAsWrittenMatchesNothing | src/db/mongodb.go:283-289 | the range query's user condition is on `userID`, which no stored meal entry has, so it matches no entry |
| Meals.MealFilterOnStoredKey | src/db/mongodb.go:283-289 | with the condition on the stored key `userId`, an entry matches exactly when it lies in the model's window for that user |
| Meals.GetMealEntries | src/handlers/meals.go:149-177 | a query error is the window's error; otherwise exactly the stored entries of that user within the window are returned |
| Workouts.AcceptedIntensity | src/handlers/workouts.go:76 | `min=0.5,max=2`, both ends included; every accepted intensity is positive |
| Workouts.AcceptedDuration | src/handlers/workouts.go:77 | `min=5,max=180`, both ends included; every accepted duration is positive |
| Workouts.WorkoutRequestBinds | src/handlers/workouts.go:73-79 | the request binds exactly when the user, package and date are non-empty and intensity and duration are in range; `required` on the two numbers adds nothing to the ranges |
| Workouts.Burn | src/handlers/workouts.go:123-126 | the burn is Go's `int()` of one fraction: base burn × minutes × intensity × weight over base minutes × 70 |
| Workouts.TruncProduct | src/handlers/workouts.go:123-126 | the four factors multiplied left to right, then their integer part toward zero |
| Workouts.TruncProductAsFraction | src/handlers/workouts.go:123-126 | truncating the left-to-right product of the factors is truncating the single fraction |
| Workouts.BurnAsOneFraction | src/handlers/workouts.go:123-126 | the left-to-right product of the four factors equals the single fraction, for any non-zero base duration |
| Workouts.BurnAtReference | src/handlers/workouts.go:123-126 | at the base duration, intensity 1.0 and 70 kg, the burn is the package's base burn |
| Workouts.BurnGrowsWithDuration | src/handlers/workouts.go:123-126 | a longer workout never burns less |
| Workouts.BurnGrowsWithIntensity | src/handlers/workouts.go:123-126 | a more intense workout never burns less |
| Workouts.BurnGrowsWithWeight | src/handlers/workouts.go:123-126 | a heavier user never burns less |
| Workouts.BurnExample | src/handlers/workouts.go:123-126 | a 300-calorie, 30-minute package, done for 45 minutes at intensity 1.2 by a 90 kg user, burns 694 |
| Workouts.BuildWorkoutEntry | src/handlers/workouts.go:128-138 | the entry carries the given identifier, copies user, package, intensity and duration from the request, carries the parsed date and the clock's timestamp, and burns the formula's calories |
| Workouts.CreateWorkoutEntry | src/handlers/workouts.go:99-138 | binding, date, package lookup and user lookup decide the error, in that order; on success the burn uses the looked-up user's weight |
| Workouts.WorkoutDocument | src/models/workout.go:21-23 | a stored workout entry's text fields sit under the keys `_id`, `userId` and `packageId`; the user is under `userId` |
| Workouts.WorkoutFilterAsWrittenMatchesNothing | src/db/mongodb.go:330-336 | the range query's user condition is on `userID`, which no stored workout entry has, so it matches no entry |
| Workouts.WorkoutFilterOnStoredKey | src/db/mongodb.go:330-336 | with the condition on the stored key `userId`, an entry matches exactly when it lies in the model's window for that user |
| Workouts.GetWorkoutEntries | src/handlers/workouts.go:161-189 | a query error is the window's error; otherwise exactly the stored entries of that user within the window are returned |
| Queries.QueryParam | src/handlers/meals.go:157-158 | Gin's `DefaultQuery`: an absent parameter takes the default, a present one is used as given, even when empty |
| Queries.EmptyParamIsRefused | src/handlers/meals.go:157-170 | a start or end parameter that is present but empty is not replaced by today, so the query fails on that date |
| Queries.QueryWindow | src/handlers/meals.go:150-173 | a missing user, then a bad start date, then a bad end date is the error; an absent date means today; the window runs, in milliseconds, from the start day's midnight to 23:59:59.000 on the end day |
| Queries.WindowCoversDays | src/handlers/meals.go:173 | an instant lies in the window exactly when its date lies between the start and end dates, both included, and it is not after 23:59:59.000 on the end date |
| Queries.DefaultWindowIsToday | src/handlers/workouts.go:169-185 | with no dates given, the window holds exactly the instants of today up to 23:59:59.000 |
| Queries.WindowMissesLastFraction | src/handlers/workouts.go:185 | an entry stamped 23:59:59.500 today is outside the default window |
| Queries.WholeDaysCoverDates | src/handlers/meals.go:172-173 | the half-open bound up to the next midnight holds exactly the instants dated from the start date to the end date |
| Queries.InWindow | src/db/mongodb.go:283-289 | the range filter: the entry's user is the window's user and `$gte`/`$lte` hold on the timestamp; only the window's own user is matched, and a window whose start is after its end matches nothing |
| Queries.Select | src/db/mongodb.go:283-289 | the filter keeps exactly the elements that satisfy it |
| Text.Index | scripts/test_connections.go:246 | the first occurrence of the separator, found exactly when the text contains it |
| Text.Before | scripts/test_connections.go:247-249 | the text up to the first separator is a prefix and holds no separator |
| Text.Split | scripts/test_connections.go:222 | `strings.Split` with a non-empty separator always yields at least one piece |
| Text.JoinSplit | scripts/test_connections.go:222 | joining the pieces of a split with its separator gives back the text |
| Text.SplitPiecesFree | scripts/test_connections.go:222 | no piece of a split contains the separator |
| Text.SplitAtFirst | scripts/test_connections.go:247-249 | a split has two or more pieces exactly when the separator occurs; the first piece is the text before it, the second the text before the next one |
| Text.TrimFunc | scripts/test_connections.go:226 | `strings.TrimSpace` is `TrimFunc` with `unicode.IsSpace`: the result is a slice of the input with only such characters cut at either end, and it neither starts nor ends with one |
| Text.TrimSpace | scripts/test_connections.go:226 | the result is a slice of the input with only white space cut at either end, and it neither starts nor ends with white space |
| Connections.MaskConnectionString | scripts/test_connections.go:244-256 | a URI without "@" is returned unchanged; `MaskShape` gives the result for every other URI |
| Connections.MaskGuardHolds | scripts/test_connections.go:246-248 | once "@" occurs, the split has at least two parts, so the length guard always holds |
| Connections.MaskShape | scripts/test_connections.go:244-256 | with "://" before the first "@", the result is the scheme, the hidden-credentials marker and the text between the first and second "@"; otherwise the URI is unchanged |
| Connections.MaskLeavesSingleAt | scripts/test_connections.go:247-251 | a masked URI is a scheme of the input, then the marker, then a host part, and neither the scheme nor the host part contains "@"; the text before the first "@" is dropped, but a password with an unescaped "@" leaves its tail as the host part |
| Connections.VersionFromLines | scripts/test_connections.go:221-230 | a version is reported only when some line starts with "redis_version:" |
| Connections.RedisVersion | scripts/test_connections.go:221-230 | the loop reports the version of the first line starting with "redis_version:", or none |
| Connections.VersionLineSplits | scripts/test_connections.go:225-226 | a version line always splits on ":" into more than one part, and the second part is the text after the prefix up to the next ":" |
| Connections.VersionFromFirstVersionLine | scripts/test_connections.go:222-227 | the version is the trimmed text after the prefix of the first matching line, up to the next ":" |
| Connections.NoVersionLine | scripts/test_connections.go:222-230 | no version is reported exactly when no line starts with the prefix |
| Config.Getenv | src/config/config.go:75 | `os.Getenv`: an unset variable and one set to empty both read as the empty string; any other reading is the variable's value |
| Config.ConfigPath | src/config/config.go:73-82 | the path is CONFIG_PATH when set and non-empty, otherwise config/app.config.json |
| Config.DefaultSettings | src/config/config.go:97-116 | the defaults are Go's zero value except port 8080, timeouts 10 and database balancelife |
| Config.OverrideText | src/config/config.go:121-156 | one text field after its variable: the variable's value when set and non-empty, otherwise the field as it was |
| Config.OverrideDb | src/config/config.go:146-151 | Redis DB after REDIS_DB: the scanned integer when the variable is set, non-empty and scans; otherwise the value as it was |
| Config.Overridden | src/config/config.go:119-157 | the environment overrides leave the read and write timeouts as they were |
| Config.ResolvedSettings | src/config/config.go:54-67 | the timeouts are the file's when it loads and 10 when it fails, whatever the environment |
| Config.EmptyEnvironmentChangesNothing | src/config/config.go:119-157 | with no variables set, the configuration is unchanged |
| Config.OverrideIdempotent | src/config/config.go:119-157 | applying the environment twice is the same as applying it once |
| Config.OverrideChangesOnlyFromVariables | src/config/config.go:121-156 | a field changes only to the non-empty value of its own variable; Redis DB changes only to what REDIS_DB scans to |
| Config.FailedLoadIgnoresPartialDecode | src/config/config.go:59-63 | after a failed load, whatever the decoder wrote is replaced by the defaults |
| Config.AppConfig.constructor | src/config/config.go:55 | a new configuration holds Go's zero values |
| Config.AppConfig.Decode | src/config/config.go:85-94 | after decoding, the configuration holds the decoded settings |
| Config.AppConfig.SetDefaults | src/config/config.go:97-116 | after `setDefaults`: port 8080, timeouts 10, database balancelife, Redis DB 0, every other field empty |
| Config.AppConfig.OverrideWithEnv | src/config/config.go:119-157 | the new settings are the old ones with each non-empty variable applied to its field |
| Config.AppConfig.OverrideServer | src/config/config.go:120-123 | SERVER_PORT replaces the port when non-empty; nothing else changes |
| Config.AppConfig.OverrideMongoDB | src/config/config.go:125-134 | the MongoDB variables replace their fields when non-empty; nothing else changes |
| Config.AppConfig.OverrideRedis | src/config/config.go:136-151 | the Redis variables replace their fields when non-empty, REDIS_DB only when it scans; nothing else changes |
| Config.AppConfig.OverrideSecurity | src/config/config.go:153-156 | JWT_SECRET replaces the secret when non-empty; nothing else changes |
| Config.LoadConfig | src/config/config.go:54-67 | a fresh configuration: the file's settings, or the defaults when the load failed, then the environment; the load error is returned exactly when the load failed |
| Config.ConfigOnce.GetConfig | src/config/config.go:51-70 | the first call loads and returns the load error; every later call returns the same object and no error |

## Left out

- HTTP binding, JSON encoding, status codes and response writing are not modelled. Binding is reduced to predicates on the request fields: present, and the `min`/`max` tags. Registration's own binding (required fields, the email format) is not modelled.
- Persistence is not modelled. The store is a value of three maps. Failures to save an entry or a user are not modelled, because they only choose an HTTP status.
- Identifier generation is not modelled: it draws from a clock-seeded random source. The identifier is a parameter.
- The clock is a parameter. Time zones and the monotonic clock are dropped, so every instant is a date, a second of that day and a millisecond of that second. A stored BSON date keeps milliseconds, so the finer part of `time.Now()` is dropped as the store drops it.
- Numeric.Trunc: does not model Go's 64-bit `int`. Registration does not bound weight or height, so a product outside the int64 range can reach `int(x)`, whose result Go leaves implementation-defined; the model returns the unbounded integer part. The same holds for the meal and workout products.
- IEEE-754 rounding is not modelled. float64 is `real`, so a product that float rounding would carry across an integer boundary may truncate differently. The macro targets are exact quotients and are not affected.
- Workouts.Burn: requires a non-zero base duration. Go's float division by zero gives an infinity or NaN, and converting that to `int` has no defined value. The monotonicity lemmas require a positive base duration.
- Queries: entries are matched on their creation timestamp, not on the date they are logged for, as the store's filter does.
- Meals.GetMealEntries and Workouts.GetWorkoutEntries: the user condition is the one the store's filter evidently intends, on the stored key `userId`. As written the filter names `userID` and matches nothing; see "## Findings".
- Models.GoalInfo: the optional target weight is always 0 at registration. The model keeps it as a field.
- The `UserInfo` record and the package-listing and user-listing endpoints are not modelled. They carry no computation.
- The clock is read once per handler call. The handlers call `time.Now()` separately for each timestamp (users.go:153, 156 and 157 and the age at 196; meals.go:124-125; workouts.go:136-137), so `Users.Register`'s equal creation, last-login and goal start times and the entries' equal timestamp and creation time are not promises the code makes; the reads differ by the time between them.
- Config.ConfigOnce.GetConfig: it models one caller at a time. The mutual exclusion that `sync.Once` gives concurrent callers is not modelled.
- Config.AppConfig.Decode: which fields a failed JSON decode leaves written is an input (`Failed(partial, …)`), not a model of `encoding/json`.
- Config: the text `fmt.Sscanf` accepts as an integer is an input function, not a model of its scanning rules.
- Text: strings are sequences of characters, and white space is `unicode.IsSpace`. UTF-8 byte offsets are not modelled; the helpers only split on ASCII separators, so they do not matter there.
- The MongoDB and Redis connection tests are left out: connecting, pinging, set/get/delete and logging. Only the two pure helpers are modelled.

## Findings

| source | as written | input that shows it | evidently intended | confidence | as-written member | corrected member |
|---|---|---|---|---|---|---|
| src/handlers/users.go:196-200 | age is the year difference, less one when today's day of the year is smaller than the birth date's day of the year | born 2000-03-01 (day 61 of a leap year); on 2001-03-01 (day 60) the age is 0, though the first birthday has come; an 80 kg, 180 cm, moderately active man is then given 3137 calories instead of 3128 | the number of birthdays reached, comparing month and day | not executed | Users.AgeAsWrittenMissesBirthday | Users.AgeCountsBirthdays |
| src/handlers/meals.go:172-173 | the end bound is the end date plus 24 hours less one second, 23:59:59.000, compared with `$lte` | an entry stamped 23:59:59.500 on the end date | every instant of the end date | not executed | Queries.WindowMissesLastFraction | Queries.WholeDaysCoverDates |
| src/db/mongodb.go:283-289 | the meal range query's user condition is on the key `userID`; meal entries store their user under `userId` | any stored meal entry, any user id | the condition on `userId` | not executed | Meals.MealFilterAsWrittenMatchesNothing | Meals.MealFilterOnStoredKey |
| src/db/mongodb.go:330-336 | the workout range query's user condition is on the key `userID`; workout entries store their user under `userId` | any stored workout entry, any user id | the condition on `userId` | not executed | Workouts.WorkoutFilterAsWrittenMatchesNothing | Workouts.WorkoutFilterOnStoredKey |

Registration keeps the code's age and the queries keep the code's end bound, so for those the model computes what the service stores. The store's user condition is the exception: the modelled queries use the intended key `userId`, while the service as written returns no entries. The corrected members state the intended behaviour beside the as-written ones.
