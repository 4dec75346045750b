/**
 * Logging a workout: the package's base burn is scaled by the duration
 * ratio, the intensity and the user's weight relative to 70 kg, then
 * truncated toward zero; and the query for one user's workouts over a
 * date window.
 */
module Workouts {
  import opened Wrappers
  import opened Numeric
  import opened Calendar
  import opened Models
  import opened Queries

  datatype WorkoutEntryRequest = WorkoutEntryRequest(
    userId: string,
    packageId: string,
    intensityMultiplier: real,
    durationMinutes: int,
    date: string)

  datatype WorkoutError = BindingFailed | InvalidDate | UnknownPackage | UnknownUser

  /** The binding tag `min=0.5,max=2`: both ends accepted. */
  predicate AcceptedIntensity(i: real)
    ensures AcceptedIntensity(i) ==> i > 0.0
  {
    0.5 <= i <= 2.0
  }

  /** The binding tag `min=5,max=180` on whole minutes: both ends accepted. */
  predicate AcceptedDuration(minutes: int)
    ensures AcceptedDuration(minutes) ==> minutes > 0
  {
    5 <= minutes <= 180
  }

  /**
   * The binding tags of the request: every field required (non-empty,
   * non-zero), both numbers in range. The ranges already exclude zero, so
   * `required` on the two numbers adds nothing.
   */
  predicate WorkoutRequestBinds(req: WorkoutEntryRequest)
    ensures WorkoutRequestBinds(req) <==>
      req.userId != "" && req.packageId != "" && req.date != ""
      && AcceptedIntensity(req.intensityMultiplier) && AcceptedDuration(req.durationMinutes)
  {
    req.userId != "" && req.packageId != "" && req.date != ""
    && req.intensityMultiplier != 0.0 && AcceptedIntensity(req.intensityMultiplier)
    && req.durationMinutes != 0 && AcceptedDuration(req.durationMinutes)
  }

  const ReferenceWeight: real := 70.0

  /**
   * Calories burnt: base burn times (duration / base duration) times
   * intensity times (weight / 70), truncated toward zero. The code does
   * not guard the division, so a zero base duration is outside the model.
   */
  function Burn(baseBurn: int, minutes: int, baseMinutes: int, intensity: real, weight: real): (c: int)
    requires baseMinutes != 0
    ensures c == Trunc(BurnFraction(baseBurn as real, minutes as real, baseMinutes as real, intensity, weight))
  {
    TruncProductAsFraction(baseBurn as real, minutes as real, baseMinutes as real, intensity, weight);
    TruncProduct(baseBurn as real, (minutes as real) / (baseMinutes as real), intensity, weight / ReferenceWeight)
  }

  /** The exact burn as one fraction: base burn times minutes times intensity times weight, over base minutes times 70. */
  function BurnFraction(b: real, m: real, bm: real, i: real, w: real): real
    requires bm != 0.0
  {
    b * m * i * w / bm / ReferenceWeight
  }

  /** Truncating the four factors is truncating the burn written as one fraction. */
  lemma {:induction false} TruncProductAsFraction(b: real, m: real, bm: real, i: real, w: real)
    requires bm != 0.0
    ensures TruncProduct(b, m / bm, i, w / ReferenceWeight) == Trunc(BurnFraction(b, m, bm, i, w))
  {
    BurnAsOneFraction(b, m, bm, i, w);
  }

  /** The four factors of the burn, multiplied left to right, as one fraction. */
  lemma {:induction false} BurnAsOneFraction(b: real, m: real, bm: real, i: real, w: real)
    requires bm != 0.0
    ensures b * (m / bm) * i * (w / ReferenceWeight) == b * m * i * w / bm / ReferenceWeight
  {
    var q, f := m / bm, w / ReferenceWeight;
    assert q * bm == m;
    assert f * ReferenceWeight == w;
    assert b * q * i * f * bm == b * m * i * f;
    assert b * m * i * f * ReferenceWeight == b * m * i * w;
  }

  /** The four factors of the burn, multiplied left to right: the integer part of the product toward zero. */
  function TruncProduct(b: real, r: real, i: real, f: real): (c: int)
    ensures IsIntegerPart(c, b * r * i * f)
  {
    Trunc(b * r * i * f)
  }

  /** At the package's own duration, intensity 1 and 70 kg, the burn is the package's base burn. */
  lemma {:induction false} BurnAtReference(baseBurn: int, baseMinutes: int)
    requires baseMinutes != 0
    ensures Burn(baseBurn, baseMinutes, baseMinutes, 1.0, ReferenceWeight) == baseBurn
  {
    assert baseMinutes as real / baseMinutes as real == 1.0;
    TruncOfInt(baseBurn);
  }

  /** Products of non-negative factors grow with each factor. */
  lemma {:induction false} MulMonotone(x1: real, x2: real, y1: real, y2: real)
    requires 0.0 <= x1 <= x2 && 0.0 <= y1 <= y2
    ensures 0.0 <= x1 * y1 <= x2 * y2
  {
    assert x1 * y1 <= x2 * y1;
    assert x2 * y1 <= x2 * y2;
  }

  lemma {:induction false} BurnFactorsMonotone(b: real, r1: real, r2: real, i1: real, i2: real, f1: real, f2: real)
    requires 0.0 <= b && 0.0 <= r1 <= r2 && 0.0 <= i1 <= i2 && 0.0 <= f1 <= f2
    ensures TruncProduct(b, r1, i1, f1) <= TruncProduct(b, r2, i2, f2)
  {
    MulMonotone(b, b, r1, r2);
    MulMonotone(b * r1, b * r2, i1, i2);
    MulMonotone(b * r1 * i1, b * r2 * i2, f1, f2);
    TruncMonotone(b * r1 * i1 * f1, b * r2 * i2 * f2);
  }

  /** Dividing by a positive number keeps order and sign. */
  lemma {:induction false} RatioMonotone(m1: int, m2: int, d: int)
    requires 0 <= m1 <= m2 && d > 0
    ensures 0.0 <= m1 as real / d as real <= m2 as real / d as real
  {
    var r1, r2 := m1 as real / d as real, m2 as real / d as real;
    assert r1 * d as real == m1 as real;
    assert r2 * d as real == m2 as real;
    ScaleCancel(0.0, r1, d as real);
    ScaleCancel(r1, r2, d as real);
  }

  /** A longer workout never burns less, for a non-negative base burn, intensity and weight. */
  lemma {:induction false} BurnGrowsWithDuration(baseBurn: int, m1: int, m2: int, baseMinutes: int, intensity: real, weight: real)
    requires baseBurn >= 0 && baseMinutes > 0 && intensity >= 0.0 && weight >= 0.0 && 0 <= m1 <= m2
    ensures Burn(baseBurn, m1, baseMinutes, intensity, weight) <= Burn(baseBurn, m2, baseMinutes, intensity, weight)
  {
    RatioMonotone(m1, m2, baseMinutes);
    var r1, r2 := m1 as real / baseMinutes as real, m2 as real / baseMinutes as real;
    BurnFactorsMonotone(baseBurn as real, r1, r2, intensity, intensity, weight / ReferenceWeight, weight / ReferenceWeight);
  }

  /** A harder workout never burns less, for a non-negative base burn, duration and weight. */
  lemma {:induction false} BurnGrowsWithIntensity(baseBurn: int, minutes: int, baseMinutes: int, i1: real, i2: real, weight: real)
    requires baseBurn >= 0 && minutes >= 0 && baseMinutes > 0 && weight >= 0.0 && 0.0 <= i1 <= i2
    ensures Burn(baseBurn, minutes, baseMinutes, i1, weight) <= Burn(baseBurn, minutes, baseMinutes, i2, weight)
  {
    RatioMonotone(minutes, minutes, baseMinutes);
    var r := minutes as real / baseMinutes as real;
    BurnFactorsMonotone(baseBurn as real, r, r, i1, i2, weight / ReferenceWeight, weight / ReferenceWeight);
  }

  /** A heavier user never burns less, for a non-negative base burn, duration and intensity. */
  lemma {:induction false} BurnGrowsWithWeight(baseBurn: int, minutes: int, baseMinutes: int, intensity: real, w1: real, w2: real)
    requires baseBurn >= 0 && minutes >= 0 && baseMinutes > 0 && intensity >= 0.0 && 0.0 <= w1 <= w2
    ensures Burn(baseBurn, minutes, baseMinutes, intensity, w1) <= Burn(baseBurn, minutes, baseMinutes, intensity, w2)
  {
    RatioMonotone(minutes, minutes, baseMinutes);
    var r := minutes as real / baseMinutes as real;
    BurnFactorsMonotone(baseBurn as real, r, r, intensity, intensity, w1 / ReferenceWeight, w2 / ReferenceWeight);
  }

  /** Worked example: 300 kcal per 30 minutes, done for 45 minutes at 1.2 by a 90 kg user. */
  lemma BurnExample()
    ensures Burn(300, 45, 30, 1.2, 90.0) == 694
  {
    assert 300.0 * (45.0 / 30.0) * 1.2 * (90.0 / 70.0) == 4860.0 / 7.0;
  }

  /** The entry built from a package, a user and an accepted request. */
  function BuildWorkoutEntry(pkg: WorkoutPackage, user: User, req: WorkoutEntryRequest, date: Date, id: string, now: Instant)
    : (e: WorkoutEntry)
    requires pkg.baseDurationMinutes != 0
    ensures e.userId == req.userId && e.packageId == req.packageId
    ensures e.intensityMultiplier == req.intensityMultiplier && e.durationMinutes == req.durationMinutes
    ensures e.date == date
    ensures e.id == id && e.timestamp == now && e.createdAt == now
    ensures e.caloriesBurned == Burn(pkg.baseCaloriesBurn, req.durationMinutes, pkg.baseDurationMinutes,
                                     req.intensityMultiplier, user.weight)
  {
    var burnt := Burn(pkg.baseCaloriesBurn, req.durationMinutes, pkg.baseDurationMinutes, req.intensityMultiplier, user.weight);
    WorkoutEntry(id, req.userId, req.packageId, req.intensityMultiplier, req.durationMinutes, burnt, date, now, now)
  }

  /**
   * `CreateWorkoutEntry` up to the save: binding, then the date, then the
   * package lookup, then the user lookup; the first failure is the error.
   */
  function CreateWorkoutEntry(req: WorkoutEntryRequest, store: Store, id: string, now: Instant)
    : (r: Result<WorkoutEntry, WorkoutError>)
    requires (WorkoutRequestBinds(req) && ParseDate(req.date).Some? && req.packageId in store.workoutPackages
              && req.userId in store.users) ==> store.workoutPackages[req.packageId].baseDurationMinutes != 0
    ensures r == Err(BindingFailed) <==> !WorkoutRequestBinds(req)
    ensures r == Err(InvalidDate) <==> WorkoutRequestBinds(req) && ParseDate(req.date).None?
    ensures r == Err(UnknownPackage) <==>
      WorkoutRequestBinds(req) && ParseDate(req.date).Some? && req.packageId !in store.workoutPackages
    ensures r == Err(UnknownUser) <==>
      WorkoutRequestBinds(req) && ParseDate(req.date).Some? && req.packageId in store.workoutPackages
      && req.userId !in store.users
    ensures r.Ok? ==>
      && req.packageId in store.workoutPackages && req.userId in store.users
      && r.value == BuildWorkoutEntry(store.workoutPackages[req.packageId], store.users[req.userId], req,
                                      ParseDate(req.date).value, id, now)
  {
    if !WorkoutRequestBinds(req) then Err(BindingFailed)
    else
      match ParseDate(req.date)
      case None => Err(InvalidDate)
      case Some(date) =>
        match store.GetWorkoutPackage(req.packageId)
        case None => Err(UnknownPackage)
        case Some(pkg) =>
          match store.GetUser(req.userId)
          case None => Err(UnknownUser)
          case Some(user) => Ok(BuildWorkoutEntry(pkg, user, req, date, id, now))
  }

  /** The text fields of a stored workout entry's document, under their `bson` keys. */
  function WorkoutDocument(e: WorkoutEntry): (doc: map<string, string>)
    ensures doc.Keys == {"_id", StoredUserKey, "packageId"}
    ensures doc[StoredUserKey] == e.userId
  {
    map["_id" := e.id, StoredUserKey := e.userId, "packageId" := e.packageId]
  }

  /** As written, the query's user condition names a key no stored workout entry has, so no entry matches it. */
  lemma {:induction false} WorkoutFilterAsWrittenMatchesNothing(e: WorkoutEntry, userId: string)
    ensures !FieldMatches(WorkoutDocument(e), FilterUserKey, userId)
  {
    assert FilterUserKey[5] != StoredUserKey[5];
  }

  /** On the stored key, the user condition is the model's: the window's user owns the entry. */
  lemma {:induction false} WorkoutFilterOnStoredKey(e: WorkoutEntry, w: Window)
    requires ValidInstant(e.timestamp)
    ensures InWindow(w, e.userId, e.timestamp)
        <==> FieldMatches(WorkoutDocument(e), StoredUserKey, w.userId) && w.start <= Millis(e.timestamp) <= w.end
  {
  }

  /**
   * `GetWorkoutEntries`: the stored entries of the user whose timestamp
   * lies in the query window: from midnight of the start date to
   * 23:59:59.000 on the end date, both included.
   */
  function GetWorkoutEntries(stored: seq<WorkoutEntry>, userId: string, startParam: Option<string>, endParam: Option<string>,
                             today: Date)
    : (r: Result<seq<WorkoutEntry>, QueryError>)
    requires ValidDate(today)
    requires forall e :: e in stored ==> ValidInstant(e.timestamp)
    ensures r.Err? <==> QueryWindow(userId, startParam, endParam, today).Err?
    ensures r.Err? ==> r.error == QueryWindow(userId, startParam, endParam, today).error
    ensures r.Ok? ==>
      var w := QueryWindow(userId, startParam, endParam, today).value;
      forall e :: e in r.value <==> e in stored && InWindow(w, e.userId, e.timestamp)
  {
    match QueryWindow(userId, startParam, endParam, today)
    case Err(error) => Err(error)
    case Ok(w) =>
      Ok(Select(stored, (e: WorkoutEntry) => ValidInstant(e.timestamp) && InWindow(w, e.userId, e.timestamp)))
  }
}
