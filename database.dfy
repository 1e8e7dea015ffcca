/** Users, the week key and the per-user plan table (database.py). The clock
    and `uuid.uuid4()` are inputs: `today` is the ordinal of the current UTC
    date and `userId` the generated id. */
module Database {
  import opened Documents
  import opened Calendar
  import opened Firestore

  const UserCreatedMessage: string := "User created successfully!"
  const UserNotFoundMessage: string := "User not found!"
  const PlanStoredMessage: string := "Full weekly meal plan stored successfully!"
  const NoPlansMessage: string := "No meal plans found for this user"

  function OptList(o: Option<seq<string>>): Value {
    match o
    case None => Null
    case Some(xs) => StrList(xs)
  }

  /** The user document `create_user` writes: a falsy diet (None or "") becomes
      "none", falsy ingredient and cuisine lists (None or []) become []. */
  function UserRecord(userId: string, name: string, email: string, diet: Option<string>,
                      excludedIngredients: Option<seq<string>>, cuisine: Option<seq<string>>,
                      now: int): (r: Doc)
    ensures r.Keys == {"user_id", "name", "email", "preferences", "created_at"}
    ensures r["user_id"] == Str(userId) && r["name"] == Str(name) && r["email"] == Str(email)
    ensures r["created_at"] == Time(now)
    ensures r["preferences"].Dict?
    ensures var p := r["preferences"].fields;
            p.Keys == {"diet", "excluded_ingredients", "cuisine"} &&
            p["diet"] == Str(if diet == None || diet == Some("") then "none" else diet.value) &&
            p["excluded_ingredients"] ==
              StrList(if excludedIngredients == None || excludedIngredients == Some([]) then [] else excludedIngredients.value) &&
            p["cuisine"] == StrList(if cuisine == None || cuisine == Some([]) then [] else cuisine.value)
  {
    assert StrList([]) == List([]);
    map["user_id" := Str(userId),
        "name" := Str(name),
        "email" := Str(email),
        "preferences" := Dict(map["diet" := Or(OptStr(diet), Str("none")),
                                  "excluded_ingredients" := Or(OptList(excludedIngredients), List([])),
                                  "cuisine" := Or(OptList(cuisine), List([]))]),
        "created_at" := Time(now)]
  }

  /** `create_user`: writes the record under the generated id and returns that id. */
  method CreateUser(db: Store, name: string, email: string, diet: Option<string>,
                    excludedIngredients: Option<seq<string>>, cuisine: Option<seq<string>>,
                    userId: string, now: int) returns (r: Doc)
    modifies db`users
    ensures db.users == old(db.users)[userId := UserRecord(userId, name, email, diet, excludedIngredients, cuisine, now)]
    ensures r == map["message" := Str(UserCreatedMessage), "user_id" := Str(userId)]
    ensures old(db.Valid()) ==> db.Valid()
  {
    var userData := UserRecord(userId, name, email, diet, excludedIngredients, cuisine, now);
    db.users := db.users[userId := userData];
    r := map["message" := Str(UserCreatedMessage), "user_id" := Str(userId)];
  }

  /** `today - timedelta(days=today.weekday())` on ordinals: the Monday that
      starts today's week. */
  function WeekStart(today: int): (monday: int)
    ensures Weekday(monday) == 0
    ensures monday <= today < monday + 7
    ensures Weekday(today) == 0 ==> monday == today
    ensures today >= 1 ==> monday >= 1
  {
    today - Weekday(today)
  }

  /** No other Monday lies within the six days before today. */
  lemma WeekStartIsMostRecentMonday(today: int, m: int)
    requires Weekday(m) == 0 && m <= today < m + 7
    ensures m == WeekStart(today)
  {
  }

  /** `get_monday_of_current_week`: today's week start printed by `%Y-%m-%d`,
      an RFC 3339 full-date when that Monday lies in a four-digit year. */
  function GetMondayOfCurrentWeek(today: int): (s: string)
    requires 1 <= today <= MaxOrdinal
    ensures IsDateKeyShape(s)
    ensures ValidDate(ParseDate(s)) && ToOrdinal(ParseDate(s)) == WeekStart(today)
    ensures WeekStart(today) >= FirstOrdinalOfYear1000 ==> IsFullDateShape(s)
  {
    var monday := WeekStart(today);
    FromOrdinalCorrect(monday);
    FromOrdinalYearBound(monday);
    FormatDateRoundTrip(FromOrdinal(monday));
    FormatFullDateFrom1000(monday);
    FormatDate(FromOrdinal(monday))
  }

  /** Two days get the same week key exactly when they share a week start. */
  lemma WeekKeyIdentifiesWeek(t1: int, t2: int)
    requires 1 <= t1 <= MaxOrdinal && 1 <= t2 <= MaxOrdinal
    ensures GetMondayOfCurrentWeek(t1) == GetMondayOfCurrentWeek(t2) <==> WeekStart(t1) == WeekStart(t2)
  {
  }

  /** The plan document written for a week. */
  function PlanDoc(weekStart: string, mealPlan: Doc): Doc {
    map["week_start" := Str(weekStart), "mealPlan" := Dict(mealPlan)]
  }

  /** The `meal_plans` sub-collection of a user; empty when there is none. */
  function PlansOf(mealPlans: map<string, map<string, Doc>>, userId: string): map<string, Doc> {
    if userId in mealPlans then mealPlans[userId] else map[]
  }

  /** The plan table after `.document("week_" + weekStart).set(...)`. */
  function PutPlan(mealPlans: map<string, map<string, Doc>>, userId: string, weekStart: string,
                   mealPlan: Doc): map<string, map<string, Doc>> {
    mealPlans[userId := PlansOf(mealPlans, userId)[WeekDocId(weekStart) := PlanDoc(weekStart, mealPlan)]]
  }

  /** A store under a registered user keeps every plan under its week's id. */
  lemma PutPlanKeepsWellFormed(users: map<string, Doc>, mealPlans: map<string, map<string, Doc>>,
                               meals: map<string, Doc>, userId: string, weekStart: string, mealPlan: Doc)
    requires WellFormed(users, mealPlans, meals) && userId in users
    ensures WellFormed(users, PutPlan(mealPlans, userId, weekStart, mealPlan), meals)
  {
    var after := PutPlan(mealPlans, userId, weekStart, mealPlan);
    var key := WeekDocId(weekStart);
    assert PlanDocWellKeyed(key, PlanDoc(weekStart, mealPlan));
    forall u, k | u in after && k in after[u] ensures PlanDocWellKeyed(k, after[u][k]) {
      if u != userId || k != key {
        assert u in mealPlans && k in mealPlans[u] && after[u][k] == mealPlans[u][k];
      }
    }
  }

  /** `store_weekly_meal_plan`: an error and no write for an unknown user,
      otherwise one overwrite-or-create of this week's plan document. */
  method StoreWeeklyMealPlan(db: Store, userId: string, mealPlan: Doc, today: int) returns (r: Doc)
    requires 1 <= today <= MaxOrdinal
    modifies db`mealPlans
    ensures userId !in old(db.users) ==>
              r == map["error" := Str(UserNotFoundMessage)] && db.mealPlans == old(db.mealPlans)
    ensures userId in old(db.users) ==>
              var weekStart := GetMondayOfCurrentWeek(today);
              r == map["message" := Str(PlanStoredMessage), "week_start" := Str(weekStart)] &&
              db.mealPlans == PutPlan(old(db.mealPlans), userId, weekStart, mealPlan)
    ensures old(db.Valid()) ==> db.Valid()
  {
    if userId !in db.users {
      return map["error" := Str(UserNotFoundMessage)];
    }
    var weekStart := GetMondayOfCurrentWeek(today);
    if db.Valid() {
      PutPlanKeepsWellFormed(db.users, db.mealPlans, db.meals, userId, weekStart, mealPlan);
    }
    db.mealPlans := PutPlan(db.mealPlans, userId, weekStart, mealPlan);
    r := map["message" := Str(PlanStoredMessage), "week_start" := Str(weekStart)];
  }

  /** A store touches only the user's plan for that week, and adds a document
      only when the week had none. */
  lemma PutPlanFrame(mealPlans: map<string, map<string, Doc>>, userId: string, weekStart: string, mealPlan: Doc)
    ensures var after := PutPlan(mealPlans, userId, weekStart, mealPlan);
            after.Keys == mealPlans.Keys + {userId} &&
            (forall u :: u in mealPlans && u != userId ==> after[u] == mealPlans[u]) &&
            after[userId] == PlansOf(mealPlans, userId)[WeekDocId(weekStart) := PlanDoc(weekStart, mealPlan)]
  {
  }

  lemma UpdateCount(m: map<string, Doc>, k: string, v: Doc)
    ensures |m[k := v]| == |m| + (if k in m then 0 else 1)
  {
    if k in m {
      assert m[k := v].Keys == m.Keys;
    } else {
      assert m[k := v].Keys == m.Keys + {k};
    }
  }

  /** The user's plan count grows by one exactly when the week had no plan yet. */
  lemma PutPlanCount(mealPlans: map<string, map<string, Doc>>, userId: string, weekStart: string, mealPlan: Doc)
    ensures |PutPlan(mealPlans, userId, weekStart, mealPlan)[userId]|
            == |PlansOf(mealPlans, userId)| + (if WeekDocId(weekStart) in PlansOf(mealPlans, userId) then 0 else 1)
  {
    UpdateCount(PlansOf(mealPlans, userId), WeekDocId(weekStart), PlanDoc(weekStart, mealPlan));
  }

  lemma PutPlanOverwrites(mealPlans: map<string, map<string, Doc>>, userId: string, weekStart: string,
                          plan1: Doc, plan2: Doc)
    ensures PutPlan(PutPlan(mealPlans, userId, weekStart, plan1), userId, weekStart, plan2)
            == PutPlan(mealPlans, userId, weekStart, plan2)
  {
    var key := WeekDocId(weekStart);
    var once := PutPlan(mealPlans, userId, weekStart, plan1);
    assert PlansOf(once, userId) == PlansOf(mealPlans, userId)[key := PlanDoc(weekStart, plan1)];
    assert PlansOf(once, userId)[key := PlanDoc(weekStart, plan2)]
           == PlansOf(mealPlans, userId)[key := PlanDoc(weekStart, plan2)];
  }

  /** Storing twice in one week leaves one document, holding the later plan. */
  lemma StoreTwiceSameWeek(mealPlans: map<string, map<string, Doc>>, userId: string,
                           t1: int, t2: int, plan1: Doc, plan2: Doc)
    requires 1 <= t1 <= MaxOrdinal && 1 <= t2 <= MaxOrdinal
    requires WeekStart(t1) == WeekStart(t2)
    ensures var once := PutPlan(mealPlans, userId, GetMondayOfCurrentWeek(t1), plan1);
            var twice := PutPlan(once, userId, GetMondayOfCurrentWeek(t2), plan2);
            twice == PutPlan(mealPlans, userId, GetMondayOfCurrentWeek(t2), plan2) &&
            |twice[userId]| == |once[userId]|
  {
    var w := GetMondayOfCurrentWeek(t1);
    WeekKeyIdentifiesWeek(t1, t2);
    assert GetMondayOfCurrentWeek(t2) == w;
    PutPlanOverwrites(mealPlans, userId, w, plan1, plan2);
    var once := PutPlan(mealPlans, userId, w, plan1);
    PutPlanCount(mealPlans, userId, w, plan1);
    PutPlanCount(once, userId, w, plan2);
  }

  lemma WeekDocIdInjective(w1: string, w2: string)
    ensures WeekDocId(w1) == WeekDocId(w2) <==> w1 == w2
  {
    if WeekDocId(w1) == WeekDocId(w2) {
      assert w1 == WeekDocId(w1)[5..] && w2 == WeekDocId(w2)[5..];
    }
  }

  /** Stores in two different weeks keep both plans. */
  lemma StoreTwoWeeksKeepsBoth(mealPlans: map<string, map<string, Doc>>, userId: string,
                               t1: int, t2: int, plan1: Doc, plan2: Doc)
    requires 1 <= t1 <= MaxOrdinal && 1 <= t2 <= MaxOrdinal
    requires WeekStart(t1) != WeekStart(t2)
    ensures var w1, w2 := GetMondayOfCurrentWeek(t1), GetMondayOfCurrentWeek(t2);
            var twice := PutPlan(PutPlan(mealPlans, userId, w1, plan1), userId, w2, plan2);
            WeekDocId(w1) in twice[userId] && twice[userId][WeekDocId(w1)] == PlanDoc(w1, plan1) &&
            WeekDocId(w2) in twice[userId] && twice[userId][WeekDocId(w2)] == PlanDoc(w2, plan2)
  {
    WeekKeyIdentifiesWeek(t1, t2);
    WeekDocIdInjective(GetMondayOfCurrentWeek(t1), GetMondayOfCurrentWeek(t2));
  }

  /** `get_user_meal_plans`: every plan document of the user keyed by its id,
      or the "none found" message when there are none. */
  method GetUserMealPlans(db: Store, userId: string) returns (r: Doc)
    ensures PlansOf(db.mealPlans, userId) == map[] ==> r == map["message" := Str(NoPlansMessage)]
    ensures PlansOf(db.mealPlans, userId) != map[] ==>
              r.Keys == PlansOf(db.mealPlans, userId).Keys &&
              forall k :: k in r ==> r[k] == Dict(PlansOf(db.mealPlans, userId)[k])
  {
    var stream := PlansOf(db.mealPlans, userId);
    var mealPlans: map<string, Value> := map[];
    var remaining := stream.Keys;
    while remaining != {}
      invariant remaining <= stream.Keys
      invariant mealPlans.Keys == stream.Keys - remaining
      invariant forall k :: k in mealPlans ==> mealPlans[k] == Dict(stream[k])
      decreases remaining
    {
      var docId :| docId in remaining;
      mealPlans := mealPlans[docId := Dict(stream[docId])];
      remaining := remaining - {docId};
    }
    if mealPlans == map[] {
      assert stream.Keys == {};
      r := map["message" := Str(NoPlansMessage)];
    } else {
      r := mealPlans;
    }
  }
}
