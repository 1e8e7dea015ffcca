/** The document store as in-memory maps, one per collection the service uses.
    The service code reaches it through a module-level client; here it is an
    object passed to every operation. */
module Firestore {
  import opened Documents

  /** The id of the plan document for the week starting on date string w. */
  function WeekDocId(weekStart: string): string {
    "week_" + weekStart
  }

  /** What the client raises when a document id is not a string. */
  const BadDocumentId: PyError := ValueError("A path element must be a string")

  /** A plan document sits under the id its own `week_start` names. */
  ghost predicate PlanDocWellKeyed(docId: string, d: Doc) {
    "week_start" in d && d["week_start"].Str? && docId == WeekDocId(d["week_start"].s)
  }

  /** A meal document sits under its own `idMeal`. */
  ghost predicate MealKeyedById(key: string, meal: Doc) {
    "idMeal" in meal && meal["idMeal"] == Str(key)
  }

  /** The order in which a query streams a collection: every document id
      exactly once. */
  ghost predicate IsStreamOrder(order: seq<string>, keys: set<string>) {
    (forall i, j :: 0 <= i < j < |order| ==> order[i] != order[j]) &&
    (forall k :: k in keys <==> k in order)
  }

  /** A stream visits as many documents as the collection holds. */
  lemma {:induction false} StreamOrderCount(order: seq<string>, keys: set<string>)
    requires IsStreamOrder(order, keys)
    ensures |order| == |keys|
    decreases |order|
  {
    if order != [] {
      var last := order[|order| - 1];
      var init := order[..|order| - 1];
      forall k ensures k in keys - {last} <==> k in init {
        if k in init {
          var i :| 0 <= i < |init| && init[i] == k;
          assert order[i] == k;
        }
        if k in keys - {last} {
          var i :| 0 <= i < |order| && order[i] == k;
          assert i < |order| - 1;
          assert init[i] == k;
        }
      }
      StreamOrderCount(init, keys - {last});
      assert keys == (keys - {last}) + {last};
    } else {
      assert keys == {};
    }
  }

  /** Every meal sits under its own id. */
  ghost predicate MealsWellKeyed(meals: map<string, Doc>) {
    forall k :: k in meals ==> MealKeyedById(k, meals[k])
  }

  /** Plans hang only under registered users, each under the id of its own
      week, and each meal sits under its own id. */
  ghost predicate WellFormed(users: map<string, Doc>, mealPlans: map<string, map<string, Doc>>,
                             meals: map<string, Doc>) {
    mealPlans.Keys <= users.Keys &&
    (forall u, k :: u in mealPlans && k in mealPlans[u] ==> PlanDocWellKeyed(k, mealPlans[u][k])) &&
    MealsWellKeyed(meals)
  }

  /** Upserting a meal under its own id keeps every meal under its id. */
  lemma UpsertMealKeepsWellKeyed(meals: map<string, Doc>, key: string, meal: Doc)
    requires MealsWellKeyed(meals) && MealKeyedById(key, meal)
    ensures MealsWellKeyed(meals[key := meal])
  {
  }

  /** Adding a new key grows a collection by one document. */
  lemma InsertCount<V>(m: map<string, V>, k: string, v: V)
    requires k !in m
    ensures |m[k := v]| == |m| + 1
  {
    assert m[k := v].Keys == m.Keys + {k};
  }

  class Store {
    /** `users`, keyed by user id. */
    var users: map<string, Doc>
    /** `users/{uid}/meal_plans`, keyed by user id and then by plan document id. */
    var mealPlans: map<string, map<string, Doc>>
    /** `meals`, keyed by document id. */
    var meals: map<string, Doc>
    /** `posts`, keyed by document id. */
    var posts: map<string, Doc>
    /** `recipes`, keyed by document id; no operation here writes it. */
    var recipes: map<string, Doc>

    /** What the operations keep true (see WellFormed). */
    ghost predicate Valid()
      reads this`users, this`mealPlans, this`meals
    {
      WellFormed(users, mealPlans, meals)
    }

    constructor (recipes: map<string, Doc>)
      ensures Valid()
      ensures users == map[] && mealPlans == map[] && meals == map[] && posts == map[]
      ensures this.recipes == recipes
    {
      users, mealPlans, meals, posts := map[], map[], map[], map[];
      this.recipes := recipes;
    }
  }
}
