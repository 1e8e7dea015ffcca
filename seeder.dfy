/** The seeding script (import_random_meal.py): the post-processing of the
    language-model replies, the post document it builds for a fetched meal,
    and the loop that stores meals and posts. Every outside effect of one
    iteration (the meal fetch, the three replies, the random choices, the
    clock and the new post id) is an input, gathered in a `SeedRound`. */
module RandomMealImport {
  import opened Documents
  import opened Text
  import opened Firestore

  const MockPostTypes: seq<string> := ["follow", "explore", "community"]
  /** The title used when the reply has no '|'. */
  const DefaultTitle: string := "Delicious Meal"
  /** The number of names requested for the like pool. */
  const UsernamePoolSize: nat := 500
  const MaxLikes: nat := 500
  const TooManyValues: string := "too many values to unpack (expected 2)"
  const NotEnoughValues: string := "not enough values to unpack (expected 2)"

  function Min(a: int, b: int): int {
    if a <= b then a else b
  }

  // ---------------------------------------------------------------------
  // Reply post-processing

  /** `generate_random_username`: the stripped reply with every space made
      an underscore. */
  function GenerateRandomUsername(reply: string): (name: string)
    ensures ' ' !in name
    ensures |name| == |Strip(reply)|
    ensures forall i :: 0 <= i < |name| ==>
              if Strip(reply)[i] == ' ' then name[i] == '_' else name[i] == Strip(reply)[i]
  {
    ReplaceSpaces(Strip(reply))
  }

  /** What `generate_post_content` returns: the pieces of the stripped reply
      between its '|' characters, or the default title and the whole text. */
  function GeneratePostContent(reply: string): seq<string> {
    var text := Strip(reply);
    if '|' in text then Split(text, "|") else [DefaultTitle, text]
  }

  /** With no '|', the default title and the text; otherwise one more piece
      than there are '|', none holding a '|', that joined by '|' give back
      the text. */
  lemma GeneratePostContentParts(reply: string)
    ensures var parts := GeneratePostContent(reply);
            ('|' !in Strip(reply) ==> parts == [DefaultTitle, Strip(reply)]) &&
            ('|' in Strip(reply) ==>
               |parts| == CountChar(Strip(reply), '|') + 1 && |parts| >= 2 &&
               Join(parts, "|") == Strip(reply) &&
               forall i :: 0 <= i < |parts| ==> '|' !in parts[i])
  {
    var text := Strip(reply);
    if '|' in text {
      var parts := Split(text, "|");
      SplitJoin(text, "|");
      SplitPiecesHaveNoSep(text, "|");
      SplitCharCount(text, '|');
      CountCharZero(text, '|');
      forall i | 0 <= i < |parts| ensures '|' !in parts[i] {
        ContainsChar(parts[i], '|');
      }
    }
  }

  /** `title, description = parts`: two-name unpacking of a sequence. */
  function UnpackPair(parts: seq<string>): (r: Result<(string, string), PyError>)
    ensures r.Success? <==> |parts| == 2
    ensures r.Success? ==> r.value == (parts[0], parts[1])
  {
    if |parts| == 2 then Success((parts[0], parts[1]))
    else if |parts| > 2 then Failure(ValueError(TooManyValues))
    else Failure(ValueError(NotEnoughValues))
  }

  /** The title and description that `create_random_post_for_meal` takes
      from a reply: the default title when the text has no '|', the two
      sides of a single '|' untrimmed, and a ValueError for two or more. */
  function PostContent(reply: string): Result<(string, string), PyError> {
    UnpackPair(GeneratePostContent(reply))
  }

  /** No '|' gives the default title and the text, exactly one gives the
      two sides of it, and two or more raise the ValueError of an
      unpacking with too many values. */
  lemma PostContentCases(reply: string)
    ensures var r := PostContent(reply);
            ('|' !in Strip(reply) ==> r == Success((DefaultTitle, Strip(reply)))) &&
            (CountChar(Strip(reply), '|') == 1 ==>
               r.Success? && r.value.0 + "|" + r.value.1 == Strip(reply) &&
               '|' !in r.value.0 && '|' !in r.value.1) &&
            (CountChar(Strip(reply), '|') >= 2 ==> r == Failure(ValueError(TooManyValues)))
  {
    var parts := GeneratePostContent(reply);
    GeneratePostContentParts(reply);
    CountCharZero(Strip(reply), '|');
    assert |parts| == 2 ==> Join(parts, "|") == parts[0] + "|" + parts[1];
  }

  /** `generate_random_usernames(n)`: the first n pieces of the stripped
      reply split on ", ". */
  function GenerateRandomUsernames(reply: string, n: nat): seq<string> {
    var all := Split(Strip(reply), ", ");
    if n <= |all| then all[..n] else all
  }

  /** At most n names, the leading pieces of the reply, none holding the
      separator. */
  lemma GenerateRandomUsernamesPieces(reply: string, n: nat)
    ensures var names := GenerateRandomUsernames(reply, n);
            |names| == Min(n, |Split(Strip(reply), ", ")|) &&
            names == Split(Strip(reply), ", ")[..|names|] &&
            forall i :: 0 <= i < |names| ==> !Contains(names[i], ", ")
  {
    SplitPiecesHaveNoSep(Strip(reply), ", ");
  }

  // ---------------------------------------------------------------------
  // Likes

  /** What `random.sample(population, k)` draws: k distinct positions. */
  ghost predicate IsSample(positions: seq<nat>, k: int, size: nat) {
    |positions| == k &&
    (forall i :: 0 <= i < |positions| ==> positions[i] < size) &&
    (forall i, j :: 0 <= i < j < |positions| ==> positions[i] != positions[j])
  }

  function Pick(s: seq<string>, positions: seq<nat>): (r: seq<string>)
    requires forall i :: 0 <= i < |positions| ==> positions[i] < |s|
    ensures |r| == |positions|
    ensures forall i :: 0 <= i < |r| ==> r[i] == s[positions[i]]
  {
    seq(|positions|, i requires 0 <= i < |positions| => s[positions[i]])
  }

  /** The positions of a sample after the first, renumbered for the name
      list with the first drawn name taken out. */
  function DropFirstDraw(positions: seq<nat>): (p2: seq<nat>)
    requires positions != []
    requires forall i :: 1 <= i < |positions| ==> positions[i] != positions[0]
    ensures |p2| == |positions| - 1
  {
    seq(|positions| - 1, i requires 0 <= i < |positions| - 1 =>
          if positions[i + 1] < positions[0] then positions[i + 1] else positions[i + 1] - 1)
  }

  lemma DropFirstDrawIsSample(s: seq<string>, positions: seq<nat>)
    requires positions != [] && IsSample(positions, |positions|, |s|)
    ensures forall i :: 1 <= i < |positions| ==> positions[i] != positions[0]
    ensures IsSample(DropFirstDraw(positions), |positions| - 1, |s| - 1)
  {
    forall i | 1 <= i < |positions| ensures positions[i] != positions[0] {
      assert positions[0] != positions[i];
    }
    var p2 := DropFirstDraw(positions);
    forall a, b | 0 <= a < b < |p2| ensures p2[a] != p2[b] {
      assert positions[a + 1] != positions[b + 1];
    }
  }

  /** The names drawn after the first are the names the renumbered sample
      draws from the list without the first drawn name. */
  lemma DropFirstDrawPicks(s: seq<string>, positions: seq<nat>)
    requires positions != [] && IsSample(positions, |positions|, |s|)
    requires forall i :: 1 <= i < |positions| ==> positions[i] != positions[0]
    requires IsSample(DropFirstDraw(positions), |positions| - 1, |s| - 1)
    ensures Pick(s, positions) == [s[positions[0]]] + Pick(s[..positions[0]] + s[positions[0] + 1..], DropFirstDraw(positions))
  {
    var j := positions[0];
    var s2 := s[..j] + s[j + 1..];
    assert Pick(s2, DropFirstDraw(positions)) == Pick(s, positions[1..]);
    assert Pick(s, positions) == [s[j]] + Pick(s, positions[1..]);
  }

  lemma RemoveAt(s: seq<string>, j: nat)
    requires j < |s|
    ensures multiset(s) == multiset(s[..j] + s[j + 1..]) + multiset{s[j]}
  {
    assert s == s[..j] + [s[j]] + s[j + 1..];
  }

  /** Elements taken at distinct positions form a sub-multiset. */
  lemma {:induction false} PickSubMultiset(s: seq<string>, positions: seq<nat>)
    requires IsSample(positions, |positions|, |s|)
    ensures multiset(Pick(s, positions)) <= multiset(s)
    decreases |positions|
  {
    if positions != [] {
      var j := positions[0];
      DropFirstDrawIsSample(s, positions);
      DropFirstDrawPicks(s, positions);
      RemoveAt(s, j);
      PickSubMultiset(s[..j] + s[j + 1..], DropFirstDraw(positions));
    }
  }

  /** `generate_random_likes`: min(numLikes, |names|) names, drawn at the
      distinct positions `sample` of the name list. */
  function GenerateRandomLikes(numLikes: int, allUsernames: seq<string>, sample: seq<nat>): (likes: seq<string>)
    requires 0 <= numLikes <= MaxLikes
    requires IsSample(sample, Min(numLikes, |allUsernames|), |allUsernames|)
    ensures |likes| == Min(numLikes, |allUsernames|) && |likes| <= MaxLikes
    ensures forall i :: 0 <= i < |likes| ==> likes[i] == allUsernames[sample[i]]
  {
    Pick(allUsernames, sample)
  }

  /** The likes are drawn without replacement: no name appears more often
      than in the name list. */
  lemma GenerateRandomLikesDistinctDraws(numLikes: int, allUsernames: seq<string>, sample: seq<nat>)
    requires 0 <= numLikes <= MaxLikes
    requires IsSample(sample, Min(numLikes, |allUsernames|), |allUsernames|)
    ensures multiset(GenerateRandomLikes(numLikes, allUsernames, sample)) <= multiset(allUsernames)
  {
    PickSubMultiset(allUsernames, sample);
  }

  // ---------------------------------------------------------------------
  // One iteration's inputs and the post it builds

  /** The outside inputs of one iteration: the fetched meal (None when the
      request failed or returned no meal), the three replies, the random
      choices, the clock and the id the store gives the new post. */
  datatype SeedRound = SeedRound(
    fetched: Option<Doc>,
    usernameReply: string,
    postTypeIndex: nat,
    latitude: real,
    longitude: real,
    contentReply: string,
    numLikes: int,
    namesReply: string,
    sample: seq<nat>,
    now: int,
    postId: string)

  function LikePool(r: SeedRound): seq<string> {
    GenerateRandomUsernames(r.namesReply, UsernamePoolSize)
  }

  /** The random choices lie where `random` puts them. */
  ghost predicate RoundOk(r: SeedRound) {
    r.postTypeIndex < |MockPostTypes| && 0 <= r.numLikes <= MaxLikes &&
    IsSample(r.sample, Min(r.numLikes, |LikePool(r)|), |LikePool(r)|)
  }

  function Likes(r: SeedRound): seq<string>
    requires RoundOk(r)
  {
    GenerateRandomLikes(r.numLikes, LikePool(r), r.sample)
  }

  /** The document key `store_meal_in_firestore` uses: a KeyError when the
      meal has no idMeal, the client's error when that id is not a string. */
  function MealKey(meal: Doc): (r: Result<string, PyError>)
    ensures r.Success? <==> "idMeal" in meal && meal["idMeal"].Str?
    ensures r.Success? ==> MealKeyedById(r.value, meal)
    ensures "idMeal" !in meal ==> r == Failure(KeyError("idMeal"))
  {
    if "idMeal" !in meal then Failure(KeyError("idMeal"))
    else if meal["idMeal"].Str? then Success(meal["idMeal"].s)
    else Failure(BadDocumentId)
  }

  const PostKeys: set<string> := {"meal_id", "user_id", "post_type", "location", "created_at",
                                  "likes", "like_count", "image_url", "title", "description"}

  /** The ten field names of a seeded post are distinct. */
  lemma PostKeysDistinct()
    ensures "meal_id" !in {"user_id", "post_type", "location", "created_at", "likes", "like_count", "image_url", "title", "description"}
    ensures "user_id" !in {"post_type", "location", "created_at", "likes", "like_count", "image_url", "title", "description"}
    ensures "post_type" !in {"location", "created_at", "likes", "like_count", "image_url", "title", "description"}
    ensures "location" !in {"created_at", "likes", "like_count", "image_url", "title", "description"}
    ensures "created_at" !in {"likes", "like_count", "image_url", "title", "description"}
    ensures "likes" !in {"like_count", "image_url", "title", "description"}
    ensures "like_count" !in {"image_url", "title", "description"}
    ensures "image_url" !in {"title", "description"}
    ensures "title" !in {"description"}
  {
  }

  /** The `post_data` dict literal, field by field. */
  function PostData(mealId: Value, userId: string, postType: string, latitude: real, longitude: real,
                    now: int, likes: seq<string>, imageUrl: Value, title: string, description: string): (p: Doc)
    ensures p.Keys == PostKeys
    ensures p["meal_id"] == mealId && p["user_id"] == Str(userId) && p["post_type"] == Str(postType)
    ensures p["created_at"] == Time(now) && p["likes"] == StrList(likes) && p["like_count"] == Int(|likes|)
    ensures p["image_url"] == imageUrl && p["title"] == Str(title) && p["description"] == Str(description)
  {
    PostKeysDistinct();
    map["meal_id" := mealId,
        "user_id" := Str(userId),
        "post_type" := Str(postType),
        "location" := Dict(map["latitude" := Float(latitude), "longitude" := Float(longitude)]),
        "created_at" := Time(now),
        "likes" := StrList(likes),
        "like_count" := Int(|likes|),
        "image_url" := imageUrl,
        "title" := Str(title),
        "description" := Str(description)]
  }

  /** The `post_data` dict of `create_random_post_for_meal`, or the error
      raised before it is written: the KeyError of a meal without idMeal,
      else the ValueError of a reply with two or more '|'. */
  function RandomPostDoc(meal: Doc, r: SeedRound): (res: Result<Doc, PyError>)
    requires RoundOk(r)
    ensures "idMeal" !in meal ==> res == Failure(KeyError("idMeal"))
    ensures "idMeal" in meal && PostContent(r.contentReply).Failure? ==>
              res == Failure(PostContent(r.contentReply).error)
    ensures res.Success? <==> "idMeal" in meal && PostContent(r.contentReply).Success?
  {
    if "idMeal" !in meal then Failure(KeyError("idMeal"))
    else
      var mealId := meal["idMeal"];
      var userId := GenerateRandomUsername(r.usernameReply);
      var postType := MockPostTypes[r.postTypeIndex];
      match PostContent(r.contentReply)
      case Failure(e) => Failure(e)
      case Success(content) =>
        var likes := Likes(r);
        Success(PostData(mealId, userId, postType, r.latitude, r.longitude, r.now, likes,
                         Get(meal, "strMealThumb", Str("")), content.0, content.1))
  }

  /** The fields of a built post: the meal's idMeal, the generated user
      name, one of the three mock types, the clock, a like count equal to
      the number of likes, the meal's thumbnail or "", and the parsed title
      and description. */
  lemma RandomPostDocFields(meal: Doc, r: SeedRound)
    requires RoundOk(r)
    requires RandomPostDoc(meal, r).Success?
    ensures var p := RandomPostDoc(meal, r).value;
            p.Keys == PostKeys &&
            p["meal_id"] == meal["idMeal"] &&
            p["user_id"] == Str(GenerateRandomUsername(r.usernameReply)) &&
            p["post_type"].Str? && p["post_type"].s in MockPostTypes &&
            p["created_at"] == Time(r.now) &&
            p["likes"].List? && p["like_count"] == Int(|p["likes"].items|) &&
            |p["likes"].items| == Min(r.numLikes, |LikePool(r)|) &&
            p["image_url"] == (if "strMealThumb" in meal then meal["strMealThumb"] else Str("")) &&
            p["title"] == Str(PostContent(r.contentReply).value.0) &&
            p["description"] == Str(PostContent(r.contentReply).value.1)
  {
  }

  // ---------------------------------------------------------------------
  // The loop as a function of its inputs

  /** `if meal:` on the fetch result. */
  predicate Fetched(fetched: Option<Doc>) {
    fetched.Some? && fetched.value != map[]
  }

  datatype SeedState = SeedState(meals: map<string, Doc>, posts: map<string, Doc>, outcome: Outcome<PyError>)

  /** One iteration: a falsy fetch changes nothing; otherwise the meal is
      upserted under its id and one post is added, and an exception ends
      the run with the writes done before it. */
  function SeedStep(meals: map<string, Doc>, posts: map<string, Doc>, r: SeedRound): (s: SeedState)
    requires RoundOk(r)
    ensures !Fetched(r.fetched) ==> s == SeedState(meals, posts, Pass)
    ensures Fetched(r.fetched) && s.outcome.Pass? ==>
              MealKey(r.fetched.value).Success? &&
              s.meals == meals[MealKey(r.fetched.value).value := r.fetched.value] &&
              RandomPostDoc(r.fetched.value, r).Success? &&
              s.posts == posts[r.postId := RandomPostDoc(r.fetched.value, r).value]
    ensures s.outcome.Fail? ==> s.posts == posts
    ensures s.posts.Keys <= posts.Keys + {r.postId}
    ensures s.meals == meals ||
            (Fetched(r.fetched) && MealKey(r.fetched.value).Success? &&
             s.meals == meals[MealKey(r.fetched.value).value := r.fetched.value])
  {
    if !Fetched(r.fetched) then SeedState(meals, posts, Pass)
    else
      var meal := r.fetched.value;
      match MealKey(meal)
      case Failure(e) => SeedState(meals, posts, Fail(e))
      case Success(key) =>
        match RandomPostDoc(meal, r)
        case Failure(e) => SeedState(meals[key := meal], posts, Fail(e))
        case Success(post) => SeedState(meals[key := meal], posts[r.postId := post], Pass)
  }

  ghost predicate AllRoundsOk(rounds: seq<SeedRound>) {
    forall j {:trigger RoundOk(rounds[j])} :: 0 <= j < |rounds| ==> RoundOk(rounds[j])
  }

  /** The iterations in order, stopping at the first exception. */
  function SeedRun(meals: map<string, Doc>, posts: map<string, Doc>, rounds: seq<SeedRound>): SeedState
    requires AllRoundsOk(rounds)
    decreases |rounds|
  {
    if rounds == [] then SeedState(meals, posts, Pass)
    else
      var s := SeedStep(meals, posts, rounds[0]);
      if s.outcome.Fail? then s else SeedRun(s.meals, s.posts, rounds[1..])
  }

  /** Running the rounds from position i is one step, then the rest unless
      that step failed. */
  lemma SeedRunStep(meals: map<string, Doc>, posts: map<string, Doc>, rounds: seq<SeedRound>, i: nat)
    requires i < |rounds| && AllRoundsOk(rounds[i..])
    ensures RoundOk(rounds[i]) && AllRoundsOk(rounds[i + 1..])
    ensures var s := SeedStep(meals, posts, rounds[i]);
            SeedRun(meals, posts, rounds[i..]) == if s.outcome.Fail? then s else SeedRun(s.meals, s.posts, rounds[i + 1..])
  {
    assert rounds[i..][0] == rounds[i] && rounds[i..][1..] == rounds[i + 1..];
  }

  lemma SeedStepKeepsMealsWellKeyed(meals: map<string, Doc>, posts: map<string, Doc>, r: SeedRound)
    requires RoundOk(r)
    requires MealsWellKeyed(meals)
    ensures MealsWellKeyed(SeedStep(meals, posts, r).meals)
  {
    var s := SeedStep(meals, posts, r);
    if Fetched(r.fetched) && MealKey(r.fetched.value).Success? {
      UpsertMealKeepsWellKeyed(meals, MealKey(r.fetched.value).value, r.fetched.value);
    }
  }

  /** Seeding keeps every meal stored under its own idMeal. */
  lemma {:induction false} SeedRunKeepsMealsWellKeyed(meals: map<string, Doc>, posts: map<string, Doc>,
                                                      rounds: seq<SeedRound>)
    requires AllRoundsOk(rounds)
    requires MealsWellKeyed(meals)
    ensures MealsWellKeyed(SeedRun(meals, posts, rounds).meals)
    decreases |rounds|
  {
    if rounds != [] {
      var s := SeedStep(meals, posts, rounds[0]);
      SeedStepKeepsMealsWellKeyed(meals, posts, rounds[0]);
      if s.outcome.Pass? {
        AllRoundsOkTail(rounds);
        SeedRunKeepsMealsWellKeyed(s.meals, s.posts, rounds[1..]);
      }
    }
  }

  /** The new post ids are distinct and not yet in the posts collection. */
  ghost predicate FreshPostIds(rounds: seq<SeedRound>, keys: set<string>) {
    (forall j, k :: 0 <= j < k < |rounds| ==> rounds[j].postId != rounds[k].postId) &&
    (forall j :: 0 <= j < |rounds| ==> rounds[j].postId !in keys)
  }

  lemma FreshPostIdsTail(rounds: seq<SeedRound>, keys: set<string>, newKeys: set<string>)
    requires rounds != [] && FreshPostIds(rounds, keys)
    requires newKeys <= keys + {rounds[0].postId}
    ensures FreshPostIds(rounds[1..], newKeys)
  {
    var rest := rounds[1..];
    forall j | 0 <= j < |rest| ensures rest[j].postId !in newKeys {
      assert rest[j] == rounds[j + 1];
      assert rounds[0].postId != rounds[j + 1].postId;
    }
    forall j, k | 0 <= j < k < |rest| ensures rest[j].postId != rest[k].postId {
      assert rest[j] == rounds[j + 1] && rest[k] == rounds[k + 1];
    }
  }

  function CountFetched(rounds: seq<SeedRound>): nat {
    if rounds == [] then 0
    else (if Fetched(rounds[0].fetched) then 1 else 0) + CountFetched(rounds[1..])
  }

  /** The rounds after the first are still well-formed. */
  lemma AllRoundsOkTail(rounds: seq<SeedRound>)
    requires rounds != [] && AllRoundsOk(rounds)
    ensures AllRoundsOk(rounds[1..])
  {
    var rest := rounds[1..];
    forall j | 0 <= j < |rest| ensures RoundOk(rest[j]) { assert rest[j] == rounds[j + 1]; }
  }

  /** Seeding removes no meal: every stored key is still stored. */
  lemma {:induction false} SeedRunKeepsMeals(meals: map<string, Doc>, posts: map<string, Doc>, rounds: seq<SeedRound>)
    requires AllRoundsOk(rounds)
    ensures meals.Keys <= SeedRun(meals, posts, rounds).meals.Keys
    decreases |rounds|
  {
    if rounds != [] {
      var s1 := SeedStep(meals, posts, rounds[0]);
      if s1.outcome.Pass? {
        AllRoundsOkTail(rounds);
        SeedRunKeepsMeals(s1.meals, s1.posts, rounds[1..]);
      }
    }
  }

  /** With fresh post ids, seeding keeps every existing post as it was. */
  lemma {:induction false} SeedRunKeepsPosts(meals: map<string, Doc>, posts: map<string, Doc>, rounds: seq<SeedRound>)
    requires AllRoundsOk(rounds)
    requires FreshPostIds(rounds, posts.Keys)
    ensures var s := SeedRun(meals, posts, rounds);
            forall k :: k in posts ==> k in s.posts && s.posts[k] == posts[k]
    decreases |rounds|
  {
    if rounds != [] {
      var s1 := SeedStep(meals, posts, rounds[0]);
      if s1.outcome.Pass? {
        AllRoundsOkTail(rounds);
        FreshPostIdsTail(rounds, posts.Keys, s1.posts.Keys);
        SeedRunKeepsPosts(s1.meals, s1.posts, rounds[1..]);
        assert rounds[0].postId !in posts;
        assert forall k :: k in posts ==> k in s1.posts && s1.posts[k] == posts[k];
        assert SeedRun(meals, posts, rounds) == SeedRun(s1.meals, s1.posts, rounds[1..]);
      }
    }
  }

  /** A run that ends without an exception adds one post per successful
      fetch. */
  lemma {:induction false} SeedRunPostCount(meals: map<string, Doc>, posts: map<string, Doc>, rounds: seq<SeedRound>)
    requires AllRoundsOk(rounds)
    requires FreshPostIds(rounds, posts.Keys)
    ensures var s := SeedRun(meals, posts, rounds);
            s.outcome.Pass? ==> |s.posts| == |posts| + CountFetched(rounds)
    decreases |rounds|
  {
    if rounds != [] {
      var r := rounds[0];
      var s1 := SeedStep(meals, posts, r);
      if s1.outcome.Pass? {
        AllRoundsOkTail(rounds);
        FreshPostIdsTail(rounds, posts.Keys, s1.posts.Keys);
        SeedRunPostCount(s1.meals, s1.posts, rounds[1..]);
        if Fetched(r.fetched) {
          InsertCount(posts, r.postId, RandomPostDoc(r.fetched.value, r).value);
        }
      }
    }
  }

  /** A run that ends without an exception leaves every fetched meal
      stored under its idMeal. */
  lemma {:induction false} SeedRunStoresFetched(meals: map<string, Doc>, posts: map<string, Doc>, rounds: seq<SeedRound>)
    requires AllRoundsOk(rounds)
    ensures var s := SeedRun(meals, posts, rounds);
            s.outcome.Pass? ==> forall j :: 0 <= j < |rounds| && Fetched(rounds[j].fetched) ==>
                                  MealKey(rounds[j].fetched.value).Success? &&
                                  MealKey(rounds[j].fetched.value).value in s.meals
    decreases |rounds|
  {
    if rounds != [] {
      var s1 := SeedStep(meals, posts, rounds[0]);
      if s1.outcome.Pass? {
        var rest := rounds[1..];
        AllRoundsOkTail(rounds);
        SeedRunStoresFetched(s1.meals, s1.posts, rest);
        SeedRunKeepsMeals(s1.meals, s1.posts, rest);
        var s := SeedRun(meals, posts, rounds);
        assert s == SeedRun(s1.meals, s1.posts, rest);
        if s.outcome.Pass? {
          forall j | 0 <= j < |rounds| && Fetched(rounds[j].fetched)
            ensures MealKey(rounds[j].fetched.value).Success? && MealKey(rounds[j].fetched.value).value in s.meals
          {
            if j > 0 { assert rounds[j] == rest[j - 1]; }
          }
        }
      }
    }
  }

  // ---------------------------------------------------------------------
  // The script's operations on the store

  /** `store_meal_in_firestore`: sets meals[idMeal] to the fetched meal. */
  method StoreMealInFirestore(db: Store, meal: Doc) returns (out: Outcome<PyError>)
    modifies db`meals
    ensures MealKey(meal).Success? ==> out.Pass? && db.meals == old(db.meals)[MealKey(meal).value := meal]
    ensures MealKey(meal).Failure? ==> out == Fail(MealKey(meal).error) && db.meals == old(db.meals)
    ensures old(db.Valid()) ==> db.Valid()
  {
    var key := MealKey(meal);
    if key.Failure? {
      return Fail(key.error);
    }
    if db.Valid() {
      UpsertMealKeepsWellKeyed(db.meals, key.value, meal);
    }
    db.meals := db.meals[key.value := meal];
    out := Pass;
  }

  /** `create_random_post_for_meal`: builds the post and writes it under the
      new id, or raises before writing. */
  method CreateRandomPostForMeal(db: Store, meal: Doc, r: SeedRound) returns (out: Outcome<PyError>)
    requires RoundOk(r)
    modifies db`posts
    ensures RandomPostDoc(meal, r).Success? ==>
              out.Pass? && db.posts == old(db.posts)[r.postId := RandomPostDoc(meal, r).value]
    ensures RandomPostDoc(meal, r).Failure? ==>
              out == Fail(RandomPostDoc(meal, r).error) && db.posts == old(db.posts)
  {
    var postData := RandomPostDoc(meal, r);
    if postData.Failure? {
      return Fail(postData.error);
    }
    db.posts := db.posts[r.postId := postData.value];
    out := Pass;
  }

  /** The body of the loop in `generate_random_meals_and_posts`: store the
      fetched meal and create its post, or skip a falsy fetch. */
  method SeedIteration(db: Store, r: SeedRound) returns (out: Outcome<PyError>)
    requires RoundOk(r)
    modifies db`meals, db`posts
    ensures SeedState(db.meals, db.posts, out) == SeedStep(old(db.meals), old(db.posts), r)
  {
    out := Pass;
    if Fetched(r.fetched) {
      var meal := r.fetched.value;
      out := StoreMealInFirestore(db, meal);
      if out.Pass? {
        out := CreateRandomPostForMeal(db, meal, r);
      }
    }
  }

  /** Round i of the loop: an exception leaves the store where the run from
      round i stops; otherwise the run from round i goes on as the run from
      round i + 1. */
  method SeedRoundAt(db: Store, rounds: seq<SeedRound>, i: nat) returns (out: Outcome<PyError>)
    requires i < |rounds| && AllRoundsOk(rounds[i..])
    modifies db`meals, db`posts
    ensures AllRoundsOk(rounds[i + 1..])
    ensures out.Fail? ==> SeedState(db.meals, db.posts, out) == SeedRun(old(db.meals), old(db.posts), rounds[i..])
    ensures out.Pass? ==> SeedRun(old(db.meals), old(db.posts), rounds[i..]) == SeedRun(db.meals, db.posts, rounds[i + 1..])
  {
    SeedRunStep(db.meals, db.posts, rounds, i);
    out := SeedIteration(db, rounds[i]);
  }

  /** `generate_random_meals_and_posts`: one iteration per round, in order;
      an exception ends the loop. */
  method GenerateRandomMealsAndPosts(db: Store, rounds: seq<SeedRound>) returns (out: Outcome<PyError>)
    requires AllRoundsOk(rounds)
    modifies db`meals, db`posts
    ensures SeedState(db.meals, db.posts, out) == SeedRun(old(db.meals), old(db.posts), rounds)
  {
    var i := 0;
    while i < |rounds|
      invariant 0 <= i <= |rounds|
      invariant AllRoundsOk(rounds[i..])
      invariant SeedRun(old(db.meals), old(db.posts), rounds) == SeedRun(db.meals, db.posts, rounds[i..])
    {
      var outcome := SeedRoundAt(db, rounds, i);
      if outcome.Fail? {
        return outcome;
      }
      i := i + 1;
    }
    out := Pass;
  }
}
