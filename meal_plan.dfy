/** The weekly plan generator and the meal queries (meal_plan.py). `random.choice`
    is replaced by the indices it returns. */
module MealPlan {
  import opened Documents
  import opened Firestore

  const Days: seq<string> := ["Monday", "Tuesday", "Wednesday", "Thursday", "Friday", "Saturday", "Sunday"]
  const MealTypes: seq<string> := ["Breakfast", "Lunch", "Dinner"]
  const PlanSummaryText: string := "They are the curated easy meals for your busy week!"
  const NoMealsMessage: string := "No meals found in database."

  lemma DayNamesDistinct()
    ensures forall i, j :: 0 <= i < j < |Days| ==> Days[i] != Days[j]
  {
  }

  lemma MealTypesDistinct()
    ensures forall i, j :: 0 <= i < j < |MealTypes| ==> MealTypes[i] != MealTypes[j]
  {
  }

  /** The result of `fetch_all_meals`: every stored meal, in stream order. */
  function FetchAllMeals(meals: map<string, Doc>, order: seq<string>): (pool: seq<Doc>)
    requires IsStreamOrder(order, meals.Keys)
    ensures |pool| == |order|
    ensures forall i :: 0 <= i < |order| ==> pool[i] == meals[order[i]]
  {
    seq(|order|, i requires 0 <= i < |order| => meals[order[i]])
  }

  /** The pool holds exactly the stored meals, and is empty exactly when the
      collection is. */
  lemma FetchAllMealsContents(meals: map<string, Doc>, order: seq<string>)
    requires IsStreamOrder(order, meals.Keys)
    ensures forall m :: m in FetchAllMeals(meals, order) <==> m in meals.Values
    ensures FetchAllMeals(meals, order) == [] <==> meals == map[]
  {
    var pool := FetchAllMeals(meals, order);
    forall m | m in meals.Values ensures m in pool {
      var k :| k in meals && meals[k] == m;
      var i :| 0 <= i < |order| && order[i] == k;
      assert pool[i] == m;
    }
    if meals != map[] {
      var k :| k in meals;
      assert k in order;
    }
    if order != [] {
      assert order[0] in meals;
    }
  }

  predicate HasMealId(meal: Doc, mealId: string) {
    "idMeal" in meal && meal["idMeal"] == Str(mealId)
  }

  /** The position of the first meal whose `idMeal` is mealId, or |pool|. */
  function FirstMatch(pool: seq<Doc>, mealId: string): (i: nat)
    ensures i <= |pool|
    ensures i < |pool| ==> HasMealId(pool[i], mealId)
    ensures forall j :: 0 <= j < i ==> !HasMealId(pool[j], mealId)
  {
    if pool == [] then 0
    else if HasMealId(pool[0], mealId) then 0
    else 1 + FirstMatch(pool[1..], mealId)
  }

  /** `get_meal_by_id` over the meals collection in stream order: the first
      meal whose `idMeal` field equals mealId, or None. */
  function GetMealById(pool: seq<Doc>, mealId: string): (r: Option<Doc>)
    ensures r.Some? ==> r.value in pool && HasMealId(r.value, mealId)
    ensures r.None? <==> forall i :: 0 <= i < |pool| ==> !HasMealId(pool[i], mealId)
  {
    var i := FirstMatch(pool, mealId);
    if i < |pool| then Some(pool[i]) else None
  }

  /** When every meal is stored under its own id, the query by field is a
      lookup by key. */
  lemma GetMealByIdIsKeyLookup(meals: map<string, Doc>, order: seq<string>, mealId: string)
    requires IsStreamOrder(order, meals.Keys)
    requires forall k :: k in meals ==> MealKeyedById(k, meals[k])
    ensures GetMealById(FetchAllMeals(meals, order), mealId)
            == if mealId in meals then Some(meals[mealId]) else None
  {
    var pool := FetchAllMeals(meals, order);
    var r := GetMealById(pool, mealId);
    if mealId in meals {
      var i :| 0 <= i < |order| && order[i] == mealId;
      assert HasMealId(pool[i], mealId);
    }
    if r.Some? {
      var i :| 0 <= i < |pool| && pool[i] == r.value;
      assert MealKeyedById(order[i], pool[i]);
    }
  }

  /** One cell of the grid: id, name and image of a meal, with `None` for a
      missing id or name and "" for a missing image. */
  function MealSummary(meal: Doc): (cell: Doc)
    ensures cell.Keys == {"id", "name", "imageUrl"}
    ensures cell["id"] == if "idMeal" in meal then meal["idMeal"] else Null
    ensures cell["name"] == if "strMeal" in meal then meal["strMeal"] else Null
    ensures cell["imageUrl"] == if "strMealThumb" in meal then meal["strMealThumb"] else Str("")
  {
    map["id" := Get(meal, "idMeal", Null),
        "name" := Get(meal, "strMeal", Null),
        "imageUrl" := Get(meal, "strMealThumb", Str(""))]
  }

  /** What `random.choice` returns over the week: 21 indices below the pool
      size, Monday's three slots first. */
  ghost predicate ValidPicks(picks: seq<nat>, poolSize: nat) {
    |picks| == 21 && forall i :: 0 <= i < |picks| ==> picks[i] < poolSize
  }

  /** A day's entry: exactly the three slots, slot s holding the summary of
      pick 3 * d + s. */
  ghost predicate IsDayOfPlan(v: Value, d: nat, pool: seq<Doc>, picks: seq<nat>)
    requires d < 7 && ValidPicks(picks, |pool|)
  {
    v.Dict? && v.fields.Keys == (set j | 0 <= j < 3 :: MealTypes[j]) &&
    forall j :: 0 <= j < 3 ==> v.fields[MealTypes[j]] == Dict(MealSummary(pool[picks[3 * d + j]]))
  }

  /** The grid: exactly the seven days, each a day of the plan. */
  ghost predicate IsWeekGrid(grid: map<string, Value>, pool: seq<Doc>, picks: seq<nat>)
    requires ValidPicks(picks, |pool|)
  {
    grid.Keys == (set i | 0 <= i < 7 :: Days[i]) &&
    forall i :: 0 <= i < 7 ==> IsDayOfPlan(grid[Days[i]], i, pool, picks)
  }

  /** `generate_weekly_meal_plan`: the error dict for an empty collection,
      otherwise the fixed summary and a 7 x 3 grid filled day by day. */
  method GenerateWeeklyMealPlan(db: Store, order: seq<string>, picks: seq<nat>) returns (r: Doc)
    requires IsStreamOrder(order, db.meals.Keys)
    requires db.meals != map[] ==> ValidPicks(picks, |order|)
    ensures db.meals == map[] ==> r == map["error" := Str(NoMealsMessage)]
    ensures db.meals != map[] ==>
              r.Keys == {"summary", "mealPlan"} && r["summary"] == Str(PlanSummaryText) &&
              r["mealPlan"].Dict? && IsWeekGrid(r["mealPlan"].fields, FetchAllMeals(db.meals, order), picks)
  {
    var meals := FetchAllMeals(db.meals, order);
    FetchAllMealsContents(db.meals, order);
    if |meals| == 0 {
      return map["error" := Str(NoMealsMessage)];
    }
    DayNamesDistinct();
    var mealPlan: map<string, Value> := map[];
    var d := 0;
    while d < 7
      invariant 0 <= d <= 7
      invariant mealPlan.Keys == set i | 0 <= i < d :: Days[i]
      invariant forall i :: 0 <= i < d ==> IsDayOfPlan(mealPlan[Days[i]], i, meals, picks)
    {
      var dailyMeals := DailyMeals(meals, picks, d);
      mealPlan := mealPlan[Days[d] := Dict(dailyMeals)];
      d := d + 1;
    }
    r := map["summary" := Str(PlanSummaryText), "mealPlan" := Dict(mealPlan)];
  }

  /** The inner loop of `generate_weekly_meal_plan`: the three slots of day d. */
  method DailyMeals(meals: seq<Doc>, picks: seq<nat>, d: nat) returns (dailyMeals: map<string, Value>)
    requires d < 7 && ValidPicks(picks, |meals|)
    ensures IsDayOfPlan(Dict(dailyMeals), d, meals, picks)
  {
    MealTypesDistinct();
    dailyMeals := map[];
    var s := 0;
    while s < 3
      invariant 0 <= s <= 3
      invariant dailyMeals.Keys == set j | 0 <= j < s :: MealTypes[j]
      invariant forall j :: 0 <= j < s ==>
                  dailyMeals[MealTypes[j]] == Dict(MealSummary(meals[picks[3 * d + j]]))
    {
      var meal := meals[picks[3 * d + s]];
      dailyMeals := dailyMeals[MealTypes[s] := Dict(MealSummary(meal))];
      s := s + 1;
    }
  }

  /** Every cell of a grid names a stored meal: it is the summary of the meal
      at some key of the collection, so its id is that meal's `idMeal`. */
  lemma CellComesFromStore(grid: map<string, Value>, meals: map<string, Doc>, order: seq<string>,
                           picks: seq<nat>, d: nat, s: nat)
    requires IsStreamOrder(order, meals.Keys)
    requires ValidPicks(picks, |order|)
    requires IsWeekGrid(grid, FetchAllMeals(meals, order), picks)
    requires d < 7 && s < 3
    ensures Days[d] in grid && grid[Days[d]].Dict? && MealTypes[s] in grid[Days[d]].fields
    ensures exists k :: k in meals && grid[Days[d]].fields[MealTypes[s]] == Dict(MealSummary(meals[k]))
  {
    var pool := FetchAllMeals(meals, order);
    assert IsDayOfPlan(grid[Days[d]], d, pool, picks);
    var k := order[picks[3 * d + s]];
    assert k in order;
    assert grid[Days[d]].fields[MealTypes[s]] == Dict(MealSummary(meals[k]));
  }
}
