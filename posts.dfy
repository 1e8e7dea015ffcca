/** Posts: creating one, reading one with its recipe embedded, and reading
    them all (kitchen_copliot_server/posts.py; the root posts.py holds the
    same `create_post` and `get_post_with_recipe`). The new document's id and
    the clock are inputs. */
module Posts {
  import opened Documents
  import opened Firestore

  const PostNotFound: string := "Post not found"
  /** What Python raises on calling a `bool`, as `recipe_doc.exists()` does. */
  const NotCallable: PyError := TypeError("'bool' object is not callable")

  datatype Location = Location(latitude: real, longitude: real)

  /** The request body of a new post. */
  datatype Post = Post(
    userId: string,
    title: string,
    description: Option<string>,
    imageUrl: Option<string>,
    location: Option<Location>,
    createdAt: int,
    recipeId: Option<string>,
    postType: string)

  const PostFields: set<string> := {"user_id", "title", "description", "image_url", "location",
                                    "created_at", "recipe_id", "post_type"}

  lemma PostFieldsDistinct()
    ensures "user_id" !in {"title", "description", "image_url", "location", "created_at", "recipe_id", "post_type"}
    ensures "title" !in {"description", "image_url", "location", "created_at", "recipe_id", "post_type"}
    ensures "description" !in {"image_url", "location", "created_at", "recipe_id", "post_type"}
    ensures "image_url" !in {"location", "created_at", "recipe_id", "post_type"}
    ensures "location" !in {"created_at", "recipe_id", "post_type"}
    ensures "created_at" !in {"recipe_id", "post_type"}
    ensures "recipe_id" !in {"post_type"}
  {
  }

  function LocationValue(l: Option<Location>): Value {
    match l
    case None => Null
    case Some(loc) => Dict(map["latitude" := Float(loc.latitude), "longitude" := Float(loc.longitude)])
  }

  /** The document `create_post` writes: `post_data.dict()` with `created_at`
      replaced by the current time. */
  function StoredPost(p: Post, now: int): (d: Doc)
    ensures d.Keys == PostFields
    ensures d["created_at"] == Time(now)
    ensures d["user_id"] == Str(p.userId) && d["title"] == Str(p.title) && d["post_type"] == Str(p.postType)
    ensures d["description"] == OptStr(p.description) && d["image_url"] == OptStr(p.imageUrl)
    ensures d["recipe_id"] == OptStr(p.recipeId) && d["location"] == LocationValue(p.location)
  {
    PostFieldsDistinct();
    var data := map["user_id" := Str(p.userId),
                    "title" := Str(p.title),
                    "description" := OptStr(p.description),
                    "image_url" := OptStr(p.imageUrl),
                    "location" := LocationValue(p.location),
                    "created_at" := Time(p.createdAt),
                    "recipe_id" := OptStr(p.recipeId),
                    "post_type" := Str(p.postType)];
    data["created_at" := Time(now)]
  }

  /** `create_post`: writes the post under the new id and returns that id as
      `post_id` beside every stored field. */
  method CreatePost(db: Store, postData: Post, docId: string, now: int) returns (r: Doc)
    requires docId !in db.posts
    modifies db`posts
    ensures db.posts == old(db.posts)[docId := StoredPost(postData, now)]
    ensures r.Keys == PostFields + {"post_id"}
    ensures r["post_id"] == Str(docId)
    ensures forall k :: k in PostFields ==> r[k] == StoredPost(postData, now)[k]
  {
    var dataDict := StoredPost(postData, now);
    db.posts := db.posts[docId := dataDict];
    r := map["post_id" := Str(docId)] + dataDict;
  }

  /** A fresh id adds exactly one document and changes no other. */
  lemma CreatePostAddsOne(posts: map<string, Doc>, docId: string, d: Doc)
    requires docId !in posts
    ensures |posts[docId := d]| == |posts| + 1
    ensures forall k :: k in posts ==> k in posts[docId := d] && posts[docId := d][k] == posts[k]
    ensures posts[docId := d].Keys == posts.Keys + {docId}
  {
    InsertCount(posts, docId, d);
  }

  /** The stored post names a recipe that exists. */
  predicate RecipeFound(post: Doc, recipes: map<string, Doc>) {
    "recipe_id" in post && post["recipe_id"].Str? && post["recipe_id"].s != "" &&
    post["recipe_id"].s in recipes
  }

  /** The stored post has a truthy `recipe_id` that is not a string, so not
      a document id. */
  predicate BadRecipeId(post: Doc) {
    Truthy(Get(post, "recipe_id", Null)) && !post["recipe_id"].Str?
  }

  /** The read of a found post in `get_post_with_recipe`: its fields with
      `post_id` set to its id, and `recipe` when `recipe_id` is truthy and
      names a stored recipe; a truthy `recipe_id` that is not a string is not
      a document id. */
  function EmbedRecipe(post: Doc, postId: string, recipes: map<string, Doc>): (r: Result<Doc, PyError>)
    ensures r.Failure? <==> BadRecipeId(post)
    ensures r.Failure? ==> r.error == BadDocumentId
    ensures r.Success? && RecipeFound(post, recipes) ==>
              r.value == post["post_id" := Str(postId)]["recipe" := Dict(recipes[post["recipe_id"].s])]
    ensures r.Success? && !RecipeFound(post, recipes) ==> r.value == post["post_id" := Str(postId)]
  {
    var data := post["post_id" := Str(postId)];
    var recipeId := Get(data, "recipe_id", Null);
    if !Truthy(recipeId) then Success(data)
    else if !recipeId.Str? then Failure(BadDocumentId)
    else if recipeId.s in recipes then Success(data["recipe" := Dict(recipes[recipeId.s])])
    else Success(data)
  }

  /** A read post carries its id, keeps every other stored field, and has a
      `recipe` exactly when one was found (or the stored post had one). */
  lemma EmbedRecipeFields(post: Doc, postId: string, recipes: map<string, Doc>)
    requires EmbedRecipe(post, postId, recipes).Success?
    ensures var d := EmbedRecipe(post, postId, recipes).value;
            d["post_id"] == Str(postId) &&
            (forall k :: k in post && k != "post_id" && k != "recipe" ==> k in d && d[k] == post[k]) &&
            d.Keys == post.Keys + {"post_id"} + (if RecipeFound(post, recipes) then {"recipe"} else {}) &&
            (RecipeFound(post, recipes) ==> d["recipe"] == Dict(recipes[post["recipe_id"].s]))
  {
  }

  /** `get_post_with_recipe`: a 404 for an unknown id, else the post with
      its id and its recipe. */
  method GetPostWithRecipe(db: Store, postId: string) returns (r: Result<Doc, PyError>)
    ensures postId !in db.posts ==> r == Failure(HttpException(404, PostNotFound))
    ensures postId in db.posts ==> r == EmbedRecipe(db.posts[postId], postId, db.recipes)
  {
    if postId !in db.posts {
      return Failure(HttpException(404, PostNotFound));
    }
    r := EmbedRecipe(db.posts[postId], postId, db.recipes);
  }

  // ---------------------------------------------------------------------
  // get_all_posts

  /** A loop that appends one entry per document: the list of entries, or the
      first exception. */
  function Collect(entries: seq<Result<Doc, PyError>>): Result<seq<Doc>, PyError>
    decreases |entries|
  {
    if entries == [] then Success([])
    else
      var init := Collect(entries[..|entries| - 1]);
      var last := entries[|entries| - 1];
      if init.Failure? then init
      else if last.Failure? then Failure(last.error)
      else Success(init.value + [last.value])
  }

  /** One more document: the loop body's step. */
  lemma CollectStep(entries: seq<Result<Doc, PyError>>, i: nat)
    requires i < |entries|
    ensures var c := Collect(entries[..i]);
            Collect(entries[..i + 1]) ==
              if c.Failure? then c
              else if entries[i].Failure? then Failure(entries[i].error)
              else Success(c.value + [entries[i].value])
  {
    assert entries[..i + 1][..i] == entries[..i];
  }

  /** The loop succeeds exactly when every entry does, and then returns them
      all in order; otherwise it ends in the first exception. */
  lemma {:induction false} CollectCases(entries: seq<Result<Doc, PyError>>)
    ensures var r := Collect(entries);
            (r.Success? <==> forall i :: 0 <= i < |entries| ==> entries[i].Success?) &&
            (r.Success? ==> |r.value| == |entries| &&
                            forall i :: 0 <= i < |entries| ==> r.value[i] == entries[i].value) &&
            (r.Failure? ==> exists i :: 0 <= i < |entries| && entries[i] == Failure(r.error) &&
                                        forall j :: 0 <= j < i ==> entries[j].Success?)
    decreases |entries|
  {
    if entries != [] {
      var m := |entries| - 1;
      var init := entries[..m];
      CollectCases(init);
      assert forall i :: 0 <= i < m ==> init[i] == entries[i];
      var c := Collect(init);
      if c.Failure? {
        var i :| 0 <= i < m && init[i] == Failure(c.error) && forall j :: 0 <= j < i ==> init[j].Success?;
        assert entries[i] == Failure(c.error);
      }
    }
  }

  /** Once an exception is raised, later documents change nothing. */
  lemma {:induction false} CollectFailureStops(entries: seq<Result<Doc, PyError>>, n: nat)
    requires n <= |entries| && Collect(entries[..n]).Failure?
    ensures Collect(entries) == Collect(entries[..n])
    decreases |entries| - n
  {
    if n < |entries| {
      CollectStep(entries, n);
      CollectFailureStops(entries, n + 1);
    } else {
      assert entries[..n] == entries;
    }
  }

  /** The entries `get_all_posts` is meant to build: each post read as
      `get_post_with_recipe` reads it. */
  function PostEntries(posts: map<string, Doc>, recipes: map<string, Doc>, order: seq<string>): (e: seq<Result<Doc, PyError>>)
    requires forall i :: 0 <= i < |order| ==> order[i] in posts
    ensures |e| == |order|
    ensures forall i :: 0 <= i < |order| ==> e[i] == EmbedRecipe(posts[order[i]], order[i], recipes)
  {
    seq(|order|, i requires 0 <= i < |order| => EmbedRecipe(posts[order[i]], order[i], recipes))
  }

  /** The entry the loop of `get_all_posts` builds as written: a truthy
      `recipe_id` makes it call `exists`, a `bool`, and raise. */
  function PostEntryAsWritten(post: Doc, postId: string): (r: Result<Doc, PyError>)
    ensures r.Success? <==> !Truthy(Get(post, "recipe_id", Null))
    ensures r.Success? ==> r.value == post["post_id" := Str(postId)]
  {
    var data := post["post_id" := Str(postId)];
    var recipeId := Get(data, "recipe_id", Null);
    if !Truthy(recipeId) then Success(data)
    else if !recipeId.Str? then Failure(BadDocumentId)
    else Failure(NotCallable)
  }

  function PostEntriesAsWritten(posts: map<string, Doc>, order: seq<string>): (e: seq<Result<Doc, PyError>>)
    requires forall i :: 0 <= i < |order| ==> order[i] in posts
    ensures |e| == |order|
    ensures forall i :: 0 <= i < |order| ==> e[i] == PostEntryAsWritten(posts[order[i]], order[i])
  {
    seq(|order|, i requires 0 <= i < |order| => PostEntryAsWritten(posts[order[i]], order[i]))
  }

  /** `get_all_posts` as written. */
  method GetAllPostsAsWritten(db: Store, order: seq<string>) returns (r: Result<seq<Doc>, PyError>)
    requires IsStreamOrder(order, db.posts.Keys)
    ensures r == Collect(PostEntriesAsWritten(db.posts, order))
  {
    ghost var entries := PostEntriesAsWritten(db.posts, order);
    var posts: seq<Doc> := [];
    var i := 0;
    while i < |order|
      invariant 0 <= i <= |order|
      invariant Collect(entries[..i]) == Success(posts)
    {
      var docId := order[i];
      var entry := PostEntryAsWritten(db.posts[docId], docId);
      CollectStep(entries, i);
      if entry.Failure? {
        CollectFailureStops(entries, i + 1);
        return Failure(entry.error);
      }
      posts := posts + [entry.value];
      i := i + 1;
    }
    assert entries[..i] == entries;
    r := Success(posts);
  }

  /** `get_all_posts` with `exists` read as the property it is: each post as
      `get_post_with_recipe` returns it. */
  method GetAllPosts(db: Store, order: seq<string>) returns (r: Result<seq<Doc>, PyError>)
    requires IsStreamOrder(order, db.posts.Keys)
    ensures r == Collect(PostEntries(db.posts, db.recipes, order))
  {
    ghost var entries := PostEntries(db.posts, db.recipes, order);
    var posts: seq<Doc> := [];
    var i := 0;
    while i < |order|
      invariant 0 <= i <= |order|
      invariant Collect(entries[..i]) == Success(posts)
    {
      assert order[i] in db.posts;
      var entry := GetPostWithRecipe(db, order[i]);
      CollectStep(entries, i);
      if entry.Failure? {
        CollectFailureStops(entries, i + 1);
        return Failure(entry.error);
      }
      posts := posts + [entry.value];
      i := i + 1;
    }
    assert entries[..i] == entries;
    r := Success(posts);
  }

  /** The corrected read returns one entry per stored post, in stream order,
      each carrying its own id, unless some `recipe_id` is not a string. */
  lemma GetAllPostsEntries(posts: map<string, Doc>, recipes: map<string, Doc>, order: seq<string>)
    requires IsStreamOrder(order, posts.Keys)
    ensures var r := Collect(PostEntries(posts, recipes, order));
            (r.Success? <==> forall i :: 0 <= i < |order| ==> !BadRecipeId(posts[order[i]])) &&
            (r.Success? ==> |r.value| == |order| == |posts| &&
                            forall i :: 0 <= i < |order| ==>
                              "post_id" in r.value[i] && r.value[i]["post_id"] == Str(order[i]))
  {
    CollectCases(PostEntries(posts, recipes, order));
    StreamOrderCount(order, posts.Keys);
  }

  /** As written, the read succeeds only when no post has a truthy
      `recipe_id`: every post that links a recipe makes it raise. */
  lemma GetAllPostsAsWrittenFailsOnRecipe(posts: map<string, Doc>, order: seq<string>)
    requires IsStreamOrder(order, posts.Keys)
    ensures var r := Collect(PostEntriesAsWritten(posts, order));
            r.Success? <==> forall i :: 0 <= i < |order| ==> !Truthy(Get(posts[order[i]], "recipe_id", Null))
  {
    CollectCases(PostEntriesAsWritten(posts, order));
  }

  /** One post that links an existing recipe: the read as written raises,
      the corrected read returns the post with the recipe embedded. */
  lemma ExistsCallCounterexample()
    ensures var posts := map["p1" := map["recipe_id" := Str("r1")]];
            var recipes := map["r1" := map[]];
            Collect(PostEntriesAsWritten(posts, ["p1"])) == Failure(NotCallable) &&
            Collect(PostEntries(posts, recipes, ["p1"])) ==
              Success([map["recipe_id" := Str("r1"), "post_id" := Str("p1"), "recipe" := Dict(map[])]])
  {
    var posts := map["p1" := map["recipe_id" := Str("r1")]];
    var recipes: map<string, Doc> := map["r1" := map[]];
    var e1 := PostEntriesAsWritten(posts, ["p1"]);
    assert e1 == [Failure(NotCallable)];
    CollectStep(e1, 0);
    assert e1[..1] == e1;
    var e2 := PostEntries(posts, recipes, ["p1"]);
    var d := map["recipe_id" := Str("r1"), "post_id" := Str("p1"), "recipe" := Dict(map[])];
    assert posts["p1"]["post_id" := Str("p1")]["recipe" := Dict(recipes["r1"])] == d;
    assert e2 == [Success(d)];
    CollectStep(e2, 0);
    assert e2[..0] == [] && e2[..1] == e2;
    var none: seq<Doc> := [];
    assert none + [d] == [d];
  }
}
