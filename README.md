# Kitchen Copilot server core in Dafny

This project models the server behind the Kitchen Copilot app of the
Singapore Pho Gallery repository. It covers:

- the weekly meal-plan generator and its meal queries;
- user records and the per-user, per-week storage of meal plans;
- the script that seeds the store with random meals and posts;
- the post endpoints.

The document store is a `Store` object. It has one `map` field per collection
(`users`, `users/{uid}/meal_plans`, `meals`, `posts`, `recipes`), and the
operations that write to the store are methods that reassign those fields.
A document is a `map<string, Value>`, where `Value` covers the Python values
documents hold. Python's truthiness applies to those values.

Everything that comes from outside the process is a parameter:

- `random.choice` and `random.sample` are the indices they return;
- `random.randint` and `random.uniform` are the numbers they return;
- `uuid.uuid4()` is the generated id, and the new document's id is the id
  the store hands out;
- `datetime.utcnow()` is a day ordinal for the week key, and an opaque
  timestamp elsewhere;
- each language-model reply is its text;
- the meal fetch is an optional document;
- the order in which a query streams a collection is a sequence that visits
  every document once.

Modules, one per file:

- `Documents` (documents.dfy): values, documents, exceptions, `bool()`,
  `dict.get` and `or`.
- `Firestore` (firestore.dfy): the store, the plan id `week_<date>`, the
  well-formedness invariant and stream orders.
- `Calendar` (calendar.dfy): the proleptic Gregorian ordinals CPython's
  `datetime` uses (`_ymd2ord`, `_ord2ymd`), `weekday()`, and
  `strftime("%Y-%m-%d")` as the GNU C library prints it. From year 1000 on
  that is the full-date form of section 5.6 of RFC 3339. Earlier years are
  printed without padding.
- `Database` (database.dfy): `create_user`, `get_monday_of_current_week`,
  `store_weekly_meal_plan` and `get_user_meal_plans`.
- `MealPlan` (meal_plan.dfy): `fetch_all_meals`, `get_meal_by_id` and
  `generate_weekly_meal_plan`.
- `Text` (text.dfy): Python's `strip`, `split`, `replace` and `in` on
  strings.
- `RandomMealImport` (seeder.dfy): import_random_meal.py. Its loop is
  specified by the function `SeedRun`, which runs the loop over the
  per-iteration inputs (`SeedRound`).
- `Posts` (posts.dfy): `create_post`, `get_post_with_recipe` and
  `get_all_posts`.
- `Api` (api.dfy): `api_store_meal_plan`, the route that stores a freshly
  generated plan.

kitchen_copliot_server/posts.py and the root posts.py define `create_post`
and `get_post_with_recipe` identically. Both files are modelled by the same
members, and the table cites the server copy.

## Model

| member | source | states |
|---|---|---|
| Database.UserRecord | kitchen_copliot_server/database.py:25-35 | the user document has exactly its five fields and three preferences; a falsy diet becomes "none", and falsy ingredient or cuisine lists become [] |
| Database.CreateUser | kitchen_copliot_server/database.py:15-40 | the record is written under the generated id, nothing else changes, the reply carries the id, and the store invariant is kept |
| Database.WeekStart | kitchen_copliot_server/database.py:45-46 | today minus its weekday is a Monday, at most six days before today, and is today when today is a Monday |
| Database.WeekStartIsMostRecentMonday | kitchen_copliot_server/database.py:43-46 | every Monday within the six days before today is the computed week start |
| Database.GetMondayOfCurrentWeek | kitchen_copliot_server/database.py:43-47 | the key is a `%Y-%m-%d` string that reads back as a valid date whose ordinal is the week start; it is a YYYY-MM-DD full-date when that Monday is on or after 1000-01-01 |
| Database.WeekKeyIdentifiesWeek | kitchen_copliot_server/database.py:43-47 | two days get the same key if and only if they share a week start |
| Calendar.FromOrdinalCorrect | kitchen_copliot_server/database.py:46-47 | the ordinal-to-date conversion yields a valid date whose ordinal is the one given |
| Calendar.ToOrdinalCorrect | kitchen_copliot_server/database.py:46-47 | converting a valid date to an ordinal and back gives the date |
| Calendar.FormatDateRoundTrip | kitchen_copliot_server/database.py:47 | the `%Y-%m-%d` rendering of every valid date parses back to the date |
| Calendar.DecimalRoundTrip | kitchen_copliot_server/database.py:47 | the unpadded decimal that `%Y` prints reads back as the year |
| Calendar.FromOrdinalFourDigitYear | kitchen_copliot_server/database.py:46-47 | days from 1000-01-01 up to the last representable day lie in the years 1000 .. 9999 |
| Calendar.FormatFullDateFrom1000 | kitchen_copliot_server/database.py:47 | from 1000-01-01 on, the rendering is an RFC 3339 full-date |
| Calendar.ShortYearUnpadded | kitchen_copliot_server/database.py:47 | before year 1000 the year is not padded: 0005-01-01 prints as "5-01-01", which is not a full-date |
| Database.PutPlanKeepsWellFormed | kitchen_copliot_server/database.py:64-70 | writing a plan under a registered user keeps every plan under the id of its own week |
| Database.StoreWeeklyMealPlan | kitchen_copliot_server/database.py:50-74 | unknown user: the error and no write; otherwise exactly this week's plan document is written and its week is returned; the invariant is kept |
| Database.PutPlanFrame | kitchen_copliot_server/database.py:64-70 | a store changes only the user's plan for that week |
| Database.PutPlanCount | kitchen_copliot_server/database.py:64-70 | the user's plan count grows by one exactly when that week had no plan |
| Database.PutPlanOverwrites | kitchen_copliot_server/database.py:70 | `set` overwrites: the second store to a week replaces the first |
| Database.StoreTwiceSameWeek | kitchen_copliot_server/database.py:61-70 | two stores in the same week leave one document, holding the later plan |
| Database.WeekDocIdInjective | kitchen_copliot_server/database.py:64 | different week starts give different document ids |
| Database.StoreTwoWeeksKeepsBoth | kitchen_copliot_server/database.py:61-70 | stores in two different weeks keep both plans |
| Database.GetUserMealPlans | kitchen_copliot_server/database.py:77-88 | every plan document of the user, keyed by its id, or the "none found" message when there are none |
| MealPlan.FetchAllMeals | kitchen_copliot_server/meal_plan.py:12-16 | one entry per stored meal, in stream order |
| MealPlan.FetchAllMealsContents | kitchen_copliot_server/meal_plan.py:12-16 | the pool holds exactly the stored meals, and is empty exactly when the collection is |
| MealPlan.FirstMatch | kitchen_copliot_server/meal_plan.py:7-8 | the position of the first meal with the requested `idMeal`, or the end |
| MealPlan.GetMealById | kitchen_copliot_server/meal_plan.py:5-9 | a meal with the requested `idMeal` from the stream, or None exactly when no meal has it |
| MealPlan.GetMealByIdIsKeyLookup | kitchen_copliot_server/meal_plan.py:5-9 | when every meal sits under its own id, the field query is a lookup by key |
| MealPlan.MealSummary | kitchen_copliot_server/meal_plan.py:43-48 | a cell has exactly id, name and imageUrl, with None for a missing id or name and "" for a missing image |
| MealPlan.GenerateWeeklyMealPlan | kitchen_copliot_server/meal_plan.py:19-54 | no meals: the error dict; otherwise the fixed summary and a grid of exactly seven days by three meal types, with slot (d, s) from pick 3d+s |
| MealPlan.DailyMeals | kitchen_copliot_server/meal_plan.py:40-48 | a day holds exactly the three meal types, each the summary of its pick |
| MealPlan.CellComesFromStore | kitchen_copliot_server/meal_plan.py:39-49 | every cell of the grid is the summary of some stored meal |
| Api.ApiStoreMealPlan | kitchen_copliot_server/main.py:16-20 | a generated plan is stored for a known user; with no meals the error dict itself becomes the stored `mealPlan` |
| Text.StripTrimsSpace | kitchen_copliot_server/import_random_meal.py:62 | `strip()` removes only whitespace, from both ends, and keeps a text that neither starts nor ends with whitespace |
| Text.ReplaceSpaces | kitchen_copliot_server/import_random_meal.py:62 | `replace(" ", "_")` keeps the length, leaves no space and changes only spaces |
| Text.Find | kitchen_copliot_server/import_random_meal.py:74 | the first occurrence of the separator, or the end when there is none |
| Text.SplitJoin | kitchen_copliot_server/import_random_meal.py:74 | joining the pieces of `split(sep)` with sep gives back the text |
| Text.SplitPiecesHaveNoSep | kitchen_copliot_server/import_random_meal.py:89 | no piece of `split(sep)` contains the separator |
| Text.SplitCharCount | kitchen_copliot_server/import_random_meal.py:74 | splitting on one character gives one more piece than it has occurrences |
| RandomMealImport.GenerateRandomUsername | kitchen_copliot_server/import_random_meal.py:54-62 | the stripped reply with every space turned into an underscore, and no space left |
| RandomMealImport.GeneratePostContentParts | kitchen_copliot_server/import_random_meal.py:65-74 | no '\|': the default title and the text; otherwise one more piece than there are '\|', none holding one, that joined give the text |
| RandomMealImport.UnpackPair | kitchen_copliot_server/import_random_meal.py:107 | two-name unpacking succeeds exactly on two pieces and raises ValueError otherwise |
| RandomMealImport.PostContentCases | kitchen_copliot_server/import_random_meal.py:107 | no '\|' gives the default title; one gives the two sides; two or more raise "too many values to unpack" |
| RandomMealImport.GenerateRandomUsernamesPieces | kitchen_copliot_server/import_random_meal.py:77-90 | at most n names, the leading pieces of the reply split on ", " |
| RandomMealImport.Pick | kitchen_copliot_server/import_random_meal.py:98 | the names at the drawn positions, in draw order |
| RandomMealImport.GenerateRandomLikes | kitchen_copliot_server/import_random_meal.py:92-99 | min(count, pool size) names, at most 500, drawn at the sampled positions |
| RandomMealImport.GenerateRandomLikesDistinctDraws | kitchen_copliot_server/import_random_meal.py:98 | drawn without replacement: the likes are a sub-multiset of the pool |
| RandomMealImport.PickSubMultiset | kitchen_copliot_server/import_random_meal.py:98 | names taken at distinct positions form a sub-multiset of the list |
| RandomMealImport.MealKey | kitchen_copliot_server/import_random_meal.py:48-50 | the key is the meal's string `idMeal`; a missing one raises KeyError |
| RandomMealImport.PostData | kitchen_copliot_server/import_random_meal.py:110-121 | the post dict has exactly its ten fields with the given values, and `like_count` is the number of likes |
| RandomMealImport.RandomPostDoc | kitchen_copliot_server/import_random_meal.py:101-121 | a post is built exactly when the meal has `idMeal` and the content unpacks; otherwise it raises the first error hit |
| RandomMealImport.RandomPostDocFields | kitchen_copliot_server/import_random_meal.py:101-121 | a built post names the meal, a generated user, one of the three mock types, the clock and the meal's thumbnail, and its like count equals its likes |
| RandomMealImport.SeedStep | kitchen_copliot_server/import_random_meal.py:128-135 | a falsy fetch changes nothing; a completed iteration upserts the meal under its id and adds one post; an exception keeps the posts |
| RandomMealImport.SeedRunKeepsMealsWellKeyed | kitchen_copliot_server/import_random_meal.py:126-138 | seeding keeps every meal under its own `idMeal` |
| RandomMealImport.SeedRunKeepsMeals | kitchen_copliot_server/import_random_meal.py:126-138 | seeding removes no meal |
| RandomMealImport.SeedRunKeepsPosts | kitchen_copliot_server/import_random_meal.py:122-138 | with fresh post ids, existing posts are kept unchanged |
| RandomMealImport.SeedRunPostCount | kitchen_copliot_server/import_random_meal.py:122-138 | a run without exception adds exactly one post per successful fetch |
| RandomMealImport.SeedRunStoresFetched | kitchen_copliot_server/import_random_meal.py:126-138 | a run without exception leaves every fetched meal stored under its `idMeal` |
| RandomMealImport.StoreMealInFirestore | kitchen_copliot_server/import_random_meal.py:48-51 | upserts the meal under its `idMeal`, or raises without writing; the invariant is kept |
| RandomMealImport.CreateRandomPostForMeal | kitchen_copliot_server/import_random_meal.py:101-123 | writes the built post under the new id, or raises without writing |
| RandomMealImport.SeedIteration | kitchen_copliot_server/import_random_meal.py:129-135 | one loop body leaves the store as `SeedStep` says |
| RandomMealImport.GenerateRandomMealsAndPosts | kitchen_copliot_server/import_random_meal.py:126-138 | the loop leaves the store and outcome that `SeedRun` gives |
| Posts.StoredPost | kitchen_copliot_server/posts.py:16-17 | the stored post has exactly the model's eight fields, with created_at set to the clock |
| Posts.CreatePost | kitchen_copliot_server/posts.py:14-20 | the post is written under the new id and nothing else changes; the reply is that id plus every stored field |
| Posts.CreatePostAddsOne | kitchen_copliot_server/posts.py:18-19 | a fresh id adds exactly one post and changes no other |
| Posts.EmbedRecipe | kitchen_copliot_server/posts.py:29-37 | fails exactly on a truthy non-string `recipe_id`; otherwise the post with its id, plus the recipe exactly when one is found |
| Posts.EmbedRecipeFields | kitchen_copliot_server/posts.py:29-37 | a read post carries its id, keeps the other fields, and has `recipe` exactly when found |
| Posts.GetPostWithRecipe | kitchen_copliot_server/posts.py:23-37 | an unknown id is a 404 "Post not found"; a known one reads as EmbedRecipe |
| Posts.CollectCases | kitchen_copliot_server/posts.py:43-52 | the list succeeds exactly when every entry does and then holds them in order; otherwise it ends in the first exception |
| Posts.CollectFailureStops | kitchen_copliot_server/posts.py:44-51 | after an exception, later documents change nothing |
| Posts.PostEntries | kitchen_copliot_server/posts.py:44-51 | one entry per streamed post, each read as `get_post_with_recipe` reads it |
| Posts.PostEntryAsWritten | kitchen_copliot_server/posts.py:45-50 | as written, an entry succeeds exactly when `recipe_id` is falsy |
| Posts.GetAllPostsAsWritten | kitchen_copliot_server/posts.py:40-52 | the loop as written returns what `Collect` gives on the as-written entries |
| Posts.GetAllPostsAsWrittenFailsOnRecipe | kitchen_copliot_server/posts.py:47-49 | as written, the read succeeds only when no post has a truthy `recipe_id` |
| Posts.GetAllPosts | kitchen_copliot_server/posts.py:40-52 | the corrected loop returns what `Collect` gives on the per-post reads |
| Posts.GetAllPostsEntries | kitchen_copliot_server/posts.py:40-52 | the corrected read returns one entry per post, each with its own id, exactly when no `recipe_id` is a non-string |
| Posts.ExistsCallCounterexample | kitchen_copliot_server/posts.py:49 | one post linking an existing recipe: the read as written raises, and the corrected read embeds the recipe |

## Left out

- Network and I/O are not modelled. This covers TheMealDB fetch (`fetch_random_meal`), the OpenAI calls, `print`, `time.sleep` and the Firebase initialisation. The fetch result and the reply texts are inputs.
- `random`, `uuid`, the store's auto-generated ids and `datetime.utcnow()` are parameters. There is no distribution, and no uniqueness beyond what a `requires` states.
- Floating-point values are `real`: latitude, longitude and `random.uniform`.
- The order of keys in a Python dict is not modelled; documents are maps.
- Validation of request bodies is not modelled: pydantic, `EmailStr`, and the `Comment` and `Like` models.
- FastAPI routing is not modelled: the route functions other than `api_store_meal_plan`, including `read_all_posts`, are thin wrappers.
- Firestore's own rules for document ids are not modelled: their length, '/', and reserved names.
- RandomMealImport.MealKey, Posts.EmbedRecipe, Posts.PostEntryAsWritten: every document-id lookup with a non-string id (a meal's `idMeal`, a post's truthy `recipe_id`) raises one shared `ValueError`, `BadDocumentId`. The model does not pin down which exception the client library raises or its message.
- RandomMealImport.MealKey: Firestore would give a `None` id an automatic id rather than raise; the model treats every non-string id as an error.
- Database.GetMondayOfCurrentWeek: `%Y` is modelled as the GNU C library prints it, without padding for years 1 .. 999. C libraries that pad those years give a different key for weeks before 1000-01-01.
- The stream order of a collection is an input, so `limit(1)` returning the first match is a choice the model makes.
- `generate_random_usernames(n)` takes `n` as a `nat`; negative slicing is not modelled.
- RandomMealImport.GenerateRandomMealsAndPosts: the method does not itself ensure the store invariant. That fact is stated on `SeedRun` by `SeedRunKeepsMealsWellKeyed`.
- Posts.CreatePost: the store's fresh document id is an input with the precondition that it is unused.

## Findings

| source | as written | input that shows it | evidently intended | confidence | as-written member | corrected member |
|---|---|---|---|---|---|---|
| kitchen_copliot_server/posts.py:49 | `recipe_doc.exists()` calls the boolean property `exists`, so any post with a truthy `recipe_id` raises `TypeError: 'bool' object is not callable` and `get_all_posts` fails | a store with one post `{"recipe_id": "r1"}` and a recipe `r1` | `if recipe_doc.exists:`, as in `get_post_with_recipe` at kitchen_copliot_server/posts.py:34, which embeds the recipe | high; not executed | Posts.GetAllPostsAsWritten, Posts.ExistsCallCounterexample | Posts.GetAllPosts, Posts.GetAllPostsEntries |
