/** The route that chains the generator and the store (main.py). */
module Api {
  import opened Documents
  import opened Calendar
  import opened Firestore
  import opened MealPlan
  import opened Database

  /** `api_store_meal_plan`: generates a plan and stores whatever the
      generator returned, so with no meals in the store the error dict itself
      becomes the week's `mealPlan`. */
  method ApiStoreMealPlan(db: Store, userId: string, order: seq<string>, picks: seq<nat>, today: int)
    returns (r: Doc)
    requires IsStreamOrder(order, db.meals.Keys)
    requires db.meals != map[] ==> ValidPicks(picks, |order|)
    requires 1 <= today <= MaxOrdinal
    modifies db`mealPlans
    ensures userId !in db.users ==>
              r == map["error" := Str(UserNotFoundMessage)] && db.mealPlans == old(db.mealPlans)
    ensures userId in db.users ==>
              var weekStart := GetMondayOfCurrentWeek(today);
              r == map["message" := Str(PlanStoredMessage), "week_start" := Str(weekStart)] &&
              exists plan :: db.mealPlans == PutPlan(old(db.mealPlans), userId, weekStart, plan) &&
                (db.meals == map[] ==> plan == map["error" := Str(NoMealsMessage)]) &&
                (db.meals != map[] ==> plan.Keys == {"summary", "mealPlan"} && plan["mealPlan"].Dict? &&
                                       IsWeekGrid(plan["mealPlan"].fields, FetchAllMeals(db.meals, order), picks))
    ensures old(db.Valid()) ==> db.Valid()
  {
    var mealPlan := GenerateWeeklyMealPlan(db, order, picks);
    r := StoreWeeklyMealPlan(db, userId, mealPlan, today);
  }
}
