/**
 * Logging a meal: the request's portion multiplier scales the package's
 * base nutrition, field by field, truncated toward zero; and the query
 * for one user's meals over a date window.
 */
module Meals {
  import opened Wrappers
  import opened Numeric
  import opened Calendar
  import opened Models
  import opened Queries

  datatype MealEntryRequest = MealEntryRequest(userId: string, packageId: string, portionMultiplier: real, date: string)

  datatype EntryError = BindingFailed | InvalidDate | UnknownPackage

  /** The binding tag `min=0.1,max=3`: both ends accepted, and every accepted portion is positive. */
  predicate AcceptedPortion(p: real)
    ensures AcceptedPortion(p) ==> p > 0.0
  {
    0.1 <= p <= 3.0
  }

  /**
   * The binding tags of the request: every field required (non-empty,
   * non-zero), the portion in range. The range already excludes a zero
   * portion, so `required` on it adds nothing.
   */
  predicate MealRequestBinds(req: MealEntryRequest)
    ensures MealRequestBinds(req) <==>
      req.userId != "" && req.packageId != "" && req.date != "" && AcceptedPortion(req.portionMultiplier)
  {
    req.userId != "" && req.packageId != "" && req.date != ""
    && req.portionMultiplier != 0.0 && AcceptedPortion(req.portionMultiplier)
  }

  lemma PortionBoundaries()
    ensures AcceptedPortion(0.1) && AcceptedPortion(3.0)
    ensures !AcceptedPortion(0.09) && !AcceptedPortion(3.01)
  {
  }

  /** One nutrition field: `int(float64(base) * portion)`, the integer part of the product toward zero. */
  function Scaled(base: int, portion: real): (v: int)
    ensures IsIntegerPart(v, base as real * portion)
  {
    Trunc(base as real * portion)
  }

  /** A portion of exactly one gives the package's own value. */
  lemma {:induction false} ScaledByOne(base: int)
    ensures Scaled(base, 1.0) == base
  {
    TruncOfInt(base);
  }

  /** For a non-negative base and an accepted portion, the value lies between 0 and three times the base. */
  lemma {:induction false} ScaledWithinBounds(base: int, portion: real)
    requires base >= 0 && AcceptedPortion(portion)
    ensures 0 <= Scaled(base, portion) <= 3 * base
  {
    assert base as real * portion <= base as real * 3.0;
    TruncOfInt(3 * base);
    TruncMonotone(base as real * portion, (3 * base) as real);
  }

  /** For a non-negative base, a larger portion never gives less. */
  lemma {:induction false} ScaledGrowsWithPortion(base: int, p1: real, p2: real)
    requires base >= 0 && p1 <= p2
    ensures Scaled(base, p1) <= Scaled(base, p2)
  {
    assert base as real * p1 <= base as real * p2;
    TruncMonotone(base as real * p1, base as real * p2);
  }

  /** Doubling the portion doubles the value, up to the one unit truncation can lose. */
  lemma {:induction false} ScaledDoubling(base: int, portion: real)
    requires base >= 0 && portion >= 0.0
    ensures Scaled(base, 2.0 * portion) == 2 * Scaled(base, portion)
         || Scaled(base, 2.0 * portion) == 2 * Scaled(base, portion) + 1
  {
    var x := base as real * portion;
    assert base as real * (2.0 * portion) == 2.0 * x;
    var n := Scaled(base, portion);
    assert n as real <= x < n as real + 1.0;
    var m := Scaled(base, 2.0 * portion);
    assert m as real <= 2.0 * x < m as real + 1.0;
  }

  /** The entry built from a package and an accepted request. */
  function BuildMealEntry(pkg: MealPackage, req: MealEntryRequest, date: Date, id: string, now: Instant): (e: MealEntry)
    ensures e.userId == req.userId && e.packageId == req.packageId && e.portionMultiplier == req.portionMultiplier
    ensures e.mealType == pkg.mealType && e.date == date
    ensures e.id == id && e.timestamp == now && e.createdAt == now
    ensures e.calories == Scaled(pkg.baseCalories, req.portionMultiplier)
    ensures e.protein == Scaled(pkg.baseProtein, req.portionMultiplier)
    ensures e.carbs == Scaled(pkg.baseCarbs, req.portionMultiplier)
    ensures e.fat == Scaled(pkg.baseFat, req.portionMultiplier)
  {
    var p := req.portionMultiplier;
    MealEntry(id, req.userId, req.packageId, p,
              Scaled(pkg.baseCalories, p), Scaled(pkg.baseProtein, p), Scaled(pkg.baseCarbs, p), Scaled(pkg.baseFat, p),
              pkg.mealType, date, now, now)
  }

  /**
   * `CreateMealEntry` up to the save: binding, then the date, then the
   * package lookup; the first failure is the error. The user is never
   * looked up.
   */
  function CreateMealEntry(req: MealEntryRequest, store: Store, id: string, now: Instant): (r: Result<MealEntry, EntryError>)
    ensures r == Err(BindingFailed) <==> !MealRequestBinds(req)
    ensures r == Err(InvalidDate) <==> MealRequestBinds(req) && ParseDate(req.date).None?
    ensures r == Err(UnknownPackage) <==>
      MealRequestBinds(req) && ParseDate(req.date).Some? && req.packageId !in store.mealPackages
    ensures r.Ok? ==>
      && req.packageId in store.mealPackages
      && r.value == BuildMealEntry(store.mealPackages[req.packageId], req, ParseDate(req.date).value, id, now)
  {
    if !MealRequestBinds(req) then Err(BindingFailed)
    else
      match ParseDate(req.date)
      case None => Err(InvalidDate)
      case Some(date) =>
        match store.GetMealPackage(req.packageId)
        case None => Err(UnknownPackage)
        case Some(pkg) => Ok(BuildMealEntry(pkg, req, date, id, now))
  }

  /** The outcome does not depend on the registered users. */
  lemma {:induction false} MealEntryIgnoresUsers(req: MealEntryRequest, s1: Store, s2: Store, id: string, now: Instant)
    requires s1.mealPackages == s2.mealPackages
    ensures CreateMealEntry(req, s1, id, now) == CreateMealEntry(req, s2, id, now)
  {
  }

  /** The text fields of a stored meal entry's document, under their `bson` keys. */
  function MealDocument(e: MealEntry): (doc: map<string, string>)
    ensures doc.Keys == {"_id", StoredUserKey, "packageId", "mealType"}
    ensures doc[StoredUserKey] == e.userId
  {
    map["_id" := e.id, StoredUserKey := e.userId, "packageId" := e.packageId, "mealType" := MealTypeName(e.mealType)]
  }

  /** As written, the query's user condition names a key no stored meal entry has, so no entry matches it. */
  lemma {:induction false} MealFilterAsWrittenMatchesNothing(e: MealEntry, userId: string)
    ensures !FieldMatches(MealDocument(e), FilterUserKey, userId)
  {
    assert FilterUserKey[5] != StoredUserKey[5];
  }

  /** On the stored key, the user condition is the model's: the window's user owns the entry. */
  lemma {:induction false} MealFilterOnStoredKey(e: MealEntry, w: Window)
    requires ValidInstant(e.timestamp)
    ensures InWindow(w, e.userId, e.timestamp)
        <==> FieldMatches(MealDocument(e), StoredUserKey, w.userId) && w.start <= Millis(e.timestamp) <= w.end
  {
  }

  /**
   * `GetMealEntries`: the stored entries of the user whose timestamp lies
   * in the query window: from midnight of the start date to 23:59:59.000
   * on the end date, both included.
   */
  function GetMealEntries(stored: seq<MealEntry>, userId: string, startParam: Option<string>, endParam: Option<string>, today: Date)
    : (r: Result<seq<MealEntry>, QueryError>)
    requires ValidDate(today)
    requires forall e :: e in stored ==> ValidInstant(e.timestamp)
    ensures r.Err? <==> QueryWindow(userId, startParam, endParam, today).Err?
    ensures r.Err? ==> r.error == QueryWindow(userId, startParam, endParam, today).error
    ensures r.Ok? ==>
      var w := QueryWindow(userId, startParam, endParam, today).value;
      forall e :: e in r.value <==> e in stored && InWindow(w, e.userId, e.timestamp)
  {
    match QueryWindow(userId, startParam, endParam, today)
    case Err(error) => Err(error)
    case Ok(w) =>
      Ok(Select(stored, (e: MealEntry) => ValidInstant(e.timestamp) && InWindow(w, e.userId, e.timestamp)))
  }
}
