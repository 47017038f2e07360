/**
 * The recipe controller over an in-memory recipe collection: creating a recipe,
 * updating and deleting it behind the author guard, toggling the caller's like,
 * appending a comment, and building the listing filter from the query string.
 */
module Recipes {
  import opened Common
  import opened Schema

  const RecipeNotFound: string := "Recipe not found"
  const NotAuthorizedToUpdate: string := "Not authorized to update this recipe"
  const NotAuthorizedToDelete: string := "Not authorized to delete this recipe"
  const RecipeDeleted: string := "Recipe deleted successfully"
  const LikeUpdated: string := "Like status updated successfully"
  const ErrorCreating: string := "Error creating recipe"
  const ErrorUpdating: string := "Error updating recipe"
  const ErrorAddingComment: string := "Error adding comment"

  // ---------------------------------------------------------------- likes

  /** `likes.indexOf(user)`: the first position holding the user, or -1. */
  function IndexOfUser(likes: seq<UserId>, user: UserId): (r: int)
    ensures -1 <= r < |likes|
    ensures r >= 0 ==> likes[r] == user && user !in likes[..r]
    ensures r < 0 <==> user !in likes
  {
    if likes == [] then -1
    else if likes[0] == user then 0
    else
      var r := IndexOfUser(likes[1..], user);
      assert r >= 0 ==> likes[1..][..r] == likes[1..r + 1];
      if r < 0 then -1 else r + 1
  }

  /** Appends the user when absent, otherwise removes the user's first like. */
  function ToggledLikes(likes: seq<UserId>, user: UserId): (r: seq<UserId>)
    ensures user !in likes ==> r == likes + [user]
    ensures user in likes ==> |r| == |likes| - 1
    ensures user in likes ==>
      var i := IndexOfUser(likes, user);
      0 <= i && likes[i] == user && user !in likes[..i] && r == likes[..i] + likes[i + 1..]
  {
    var i := IndexOfUser(likes, user);
    if i < 0 then likes + [user] else likes[..i] + likes[i + 1..]
  }

  /** The like that a toggle withdraws is the first one: whatever position holds the user's first like, that one goes. */
  lemma ToggleRemovesFirst(likes: seq<UserId>, user: UserId, i: int)
    requires 0 <= i < |likes| && likes[i] == user && user !in likes[..i]
    ensures ToggledLikes(likes, user) == likes[..i] + likes[i + 1..]
  {
    var j := IndexOfUser(likes, user);
    assert likes[..i + 1][i] == user;
  }

  /** The likes of everybody but `user`, in order. */
  function Others(likes: seq<UserId>, user: UserId): (r: seq<UserId>)
    ensures user !in r
  {
    if likes == [] then []
    else (if likes[0] == user then [] else [likes[0]]) + Others(likes[1..], user)
  }

  lemma {:induction false} OthersAppend(a: seq<UserId>, b: seq<UserId>, user: UserId)
    ensures Others(a + b, user) == Others(a, user) + Others(b, user)
  {
    if a == [] {
      assert a + b == b;
    } else {
      var head := if a[0] == user then [] else [a[0]];
      assert (a + b)[0] == a[0];
      assert (a + b)[1..] == a[1..] + b;
      OthersAppend(a[1..], b, user);
      calc {
        Others(a + b, user);
        head + Others(a[1..] + b, user);
        head + (Others(a[1..], user) + Others(b, user));
        (head + Others(a[1..], user)) + Others(b, user);
        Others(a, user) + Others(b, user);
      }
    }
  }

  lemma OthersOfSelf(user: UserId)
    ensures Others([user], user) == []
  {
    assert [user][1..] == [];
  }

  /** Removing one of the user's likes, wherever it sits, leaves the others' likes as they were. */
  lemma RemoveKeepsOthers(likes: seq<UserId>, user: UserId, i: int)
    requires 0 <= i < |likes| && likes[i] == user
    ensures Others(likes[..i] + likes[i + 1..], user) == Others(likes, user)
  {
    var pre, post := likes[..i], likes[i + 1..];
    assert likes == (pre + [user]) + post;
    OthersAppend(pre + [user], post, user);
    OthersAppend(pre, [user], user);
    OthersAppend(pre, post, user);
    OthersOfSelf(user);
    calc {
      Others(likes, user);
      Others(pre + [user], user) + Others(post, user);
      (Others(pre, user) + Others([user], user)) + Others(post, user);
      { assert Others(pre, user) + [] == Others(pre, user); }
      Others(pre, user) + Others(post, user);
      Others(pre + post, user);
    }
  }

  /** A toggle never touches another user's like: the others' likes keep their order. */
  lemma ToggleKeepsOthers(likes: seq<UserId>, user: UserId)
    ensures Others(ToggledLikes(likes, user), user) == Others(likes, user)
  {
    var i := IndexOfUser(likes, user);
    if i < 0 {
      OthersAppend(likes, [user], user);
      OthersOfSelf(user);
      assert Others(likes, user) + [] == Others(likes, user);
    } else {
      RemoveKeepsOthers(likes, user, i);
    }
  }

  /** The likes length changes by exactly one, and the caller's count by one in the toggled direction. */
  lemma ToggleCounts(likes: seq<UserId>, user: UserId)
    ensures user !in likes ==>
      |ToggledLikes(likes, user)| == |likes| + 1 && multiset(ToggledLikes(likes, user))[user] == 1
    ensures user in likes ==>
      |ToggledLikes(likes, user)| == |likes| - 1 && multiset(ToggledLikes(likes, user))[user] == multiset(likes)[user] - 1
    ensures forall u :: u != user ==> multiset(ToggledLikes(likes, user))[u] == multiset(likes)[u]
  {
    var i := IndexOfUser(likes, user);
    if i >= 0 {
      assert likes == likes[..i] + [user] + likes[i + 1..];
      assert multiset(likes) == multiset(likes[..i]) + multiset{user} + multiset(likes[i + 1..]);
    }
  }

  predicate LikedAtMostOnce(likes: seq<UserId>) {
    forall i, j :: 0 <= i < j < |likes| ==> likes[i] != likes[j]
  }

  /** Withdrawing the like at `i` when it is the user's only one. */
  lemma RemoveOnly(likes: seq<UserId>, user: UserId, i: int)
    requires LikedAtMostOnce(likes)
    requires 0 <= i < |likes| && likes[i] == user
    ensures user !in likes[..i] + likes[i + 1..]
    ensures LikedAtMostOnce(likes[..i] + likes[i + 1..])
    ensures multiset(likes) == multiset(likes[..i] + likes[i + 1..]) + multiset{user}
  {
    var rest := likes[..i] + likes[i + 1..];
    assert forall k :: 0 <= k < |rest| ==> rest[k] == likes[if k < i then k else k + 1];
    assert likes == likes[..i] + [user] + likes[i + 1..];
  }

  /** Liking a recipe the user has not liked, and withdrawing that like again. */
  lemma AddThenRemove(likes: seq<UserId>, user: UserId)
    requires user !in likes
    ensures user in ToggledLikes(likes, user)
    ensures ToggledLikes(ToggledLikes(likes, user), user) == likes
    ensures LikedAtMostOnce(likes) ==> LikedAtMostOnce(ToggledLikes(likes, user))
  {
    var once := likes + [user];
    assert once[..|likes|] == likes;
    assert IndexOfUser(once, user) == |likes|;
  }

  /**
   * While every user likes at most once, a toggle keeps that so and flips the caller's
   * membership, and toggling twice gives back the same likes up to order.
   */
  lemma ToggleTwice(likes: seq<UserId>, user: UserId)
    requires LikedAtMostOnce(likes)
    ensures LikedAtMostOnce(ToggledLikes(likes, user))
    ensures user in ToggledLikes(likes, user) <==> user !in likes
    ensures multiset(ToggledLikes(ToggledLikes(likes, user), user)) == multiset(likes)
    ensures user !in likes ==> ToggledLikes(ToggledLikes(likes, user), user) == likes
  {
    if user !in likes {
      AddThenRemove(likes, user);
    } else {
      var i := IndexOfUser(likes, user);
      RemoveOnly(likes, user, i);
      var once := ToggledLikes(likes, user);
      assert once == likes[..i] + likes[i + 1..];
      assert ToggledLikes(once, user) == once + [user];
    }
  }

  // ---------------------------------------------------------------- the listing filter

  /**
   * The filter `getRecipes` hands to the store: a case-insensitive text search over title
   * and description, a dietary-tag list matched with `$in`, and a difficulty equality.
   */
  datatype Query = Query(search: Option<string>, dietaryTags: Option<seq<string>>, difficulty: Option<string>)

  /** JavaScript truthiness of a query-string parameter: absent and empty are false. */
  predicate Truthy(p: Option<string>) {
    p.Some? && p.value != ""
  }

  function IndexOfChar(s: string, c: char): (r: int)
    ensures -1 <= r < |s|
    ensures r >= 0 ==> s[r] == c && c !in s[..r]
    ensures r < 0 <==> c !in s
  {
    if s == [] then -1
    else if s[0] == c then 0
    else
      var r := IndexOfChar(s[1..], c);
      assert r >= 0 ==> s[1..][..r] == s[1..r + 1];
      if r < 0 then -1 else r + 1
  }

  /** `s.split(sep)`: the pieces between separators, empty pieces included; none holds `sep`. */
  function Split(s: string, sep: char): (parts: seq<string>)
    ensures |parts| >= 1
    ensures forall k :: 0 <= k < |parts| ==> sep !in parts[k]
    decreases |s|
  {
    var i := IndexOfChar(s, sep);
    if i < 0 then [s]
    else
      var rest := Split(s[i + 1..], sep);
      assert forall k :: 1 <= k < |rest| + 1 ==> ([s[..i]] + rest)[k] == rest[k - 1];
      [s[..i]] + rest
  }

  /** `parts.join(sep)`. */
  function Join(parts: seq<string>, sep: char): string {
    if parts == [] then ""
    else if |parts| == 1 then parts[0]
    else parts[0] + [sep] + Join(parts[1..], sep)
  }

  /** The first separator sits at `i` exactly when `s[i]` is one and none comes before it. */
  lemma IndexOfCharAt(s: string, c: char, i: int)
    requires 0 <= i < |s| && s[i] == c && c !in s[..i]
    ensures IndexOfChar(s, c) == i
  {
  }

  lemma JoinCons(a: string, rest: seq<string>, sep: char)
    requires |rest| >= 1
    ensures Join([a] + rest, sep) == a + [sep] + Join(rest, sep)
  {
    assert ([a] + rest)[1..] == rest;
  }

  /** Splitting loses nothing: joining the pieces back gives the parameter. */
  lemma {:induction false} JoinSplit(s: string, sep: char)
    ensures Join(Split(s, sep), sep) == s
    decreases |s|
  {
    var i := IndexOfChar(s, sep);
    if i >= 0 {
      var head, tail := s[..i], s[i + 1..];
      var rest := Split(tail, sep);
      JoinSplit(tail, sep);
      JoinCons(head, rest, sep);
      calc {
        Join(Split(s, sep), sep);
        Join([head] + rest, sep);
        head + [sep] + Join(rest, sep);
        head + [sep] + tail;
        { assert s == head + [sep] + tail; }
        s;
      }
    }
  }

  /** Pieces without the separator are recovered by splitting their join. */
  lemma {:induction false} SplitJoin(parts: seq<string>, sep: char)
    requires |parts| >= 1
    requires forall k :: 0 <= k < |parts| ==> sep !in parts[k]
    ensures Split(Join(parts, sep), sep) == parts
  {
    if |parts| == 1 {
      assert IndexOfChar(parts[0], sep) < 0;
    } else {
      var p, tail := parts[0], Join(parts[1..], sep);
      var s := p + [sep] + tail;
      assert Join(parts, sep) == s;
      assert s[..|p|] == p;
      IndexOfCharAt(s, sep, |p|);
      assert s[|p| + 1..] == tail;
      SplitJoin(parts[1..], sep);
      calc {
        Split(s, sep);
        [p] + Split(tail, sep);
        [p] + parts[1..];
        parts;
      }
    }
  }

  /** Builds the filter field by field, adding each clause only for a truthy parameter. */
  method BuildRecipeQuery(search: Option<string>, dietaryTags: Option<string>, difficulty: Option<string>)
    returns (q: Query)
    ensures Truthy(search) <==> q.search.Some?
    ensures Truthy(search) ==> q.search == search
    ensures Truthy(dietaryTags) <==> q.dietaryTags.Some?
    ensures Truthy(dietaryTags) ==> q.dietaryTags == Some(Split(dietaryTags.value, ','))
    ensures Truthy(difficulty) <==> q.difficulty.Some?
    ensures Truthy(difficulty) ==> q.difficulty == difficulty
  {
    q := Query(None, None, None);
    if Truthy(search) {
      q := q.(search := search);
    }
    if Truthy(dietaryTags) {
      var tags := Split(dietaryTags.value, ',');
      q := q.(dietaryTags := Some(tags));
    }
    if Truthy(difficulty) {
      q := q.(difficulty := difficulty);
    }
  }

  /**
   * Whether the filter selects a recipe. Regular-expression matching is not modelled:
   * `textMatch(field, pattern)` stands for the case-insensitive search.
   */
  predicate Selects(q: Query, r: Recipe, textMatch: (string, string) -> bool) {
    && (q.search.Some? ==> textMatch(r.title, q.search.value) || textMatch(r.description, q.search.value))
    && (q.dietaryTags.Some? ==> exists t :: t in q.dietaryTags.value && t in r.dietaryTags)
    && (q.difficulty.Some? ==> r.difficulty == q.difficulty.value)
  }

  /** The filter built without parameters lists every recipe; a difficulty filter lists exactly that difficulty. */
  lemma FilterSelection(r: Recipe, textMatch: (string, string) -> bool, d: string)
    ensures Selects(Query(None, None, None), r, textMatch)
    ensures Selects(Query(None, None, Some(d)), r, textMatch) <==> r.difficulty == d
  {
  }

  /** A single tag selects exactly the recipes carrying it. */
  lemma SingleTagSelects(tag: string, r: Recipe, textMatch: (string, string) -> bool)
    requires tag != "" && ',' !in tag
    ensures Selects(Query(None, Some(Split(tag, ',')), None), r, textMatch) <==> tag in r.dietaryTags
  {
    SplitJoin([tag], ',');
    assert Split(tag, ',') == [tag];
  }

  // ---------------------------------------------------------------- the recipe collection

  class RecipeStore {
    var recipes: map<RecipeId, Recipe>
    var nextId: nat

    ghost predicate Valid()
      reads this
    {
      forall id :: id in recipes ==> id < nextId && ValidRecipe(recipes[id])
    }

    constructor ()
      ensures Valid() && recipes == map[]
    {
      recipes := map[];
      nextId := 0;
    }

    method GetRecipeById(id: RecipeId) returns (reply: Reply<Recipe>)
      ensures id !in recipes ==> reply == Err(404, RecipeNotFound)
      ensures id in recipes ==> reply == Ok(200, recipes[id])
    {
      if id !in recipes {
        return Err(404, RecipeNotFound);
      }
      reply := Ok(200, recipes[id]);
    }

    /**
     * Stores the body as a new recipe by the caller; without an uploaded file the image is
     * null. Comments the body presets without a date are stamped `now`.
     */
    method CreateRecipe(caller: UserId, body: RecipeBody, file: Option<string>, now: int) returns (reply: Reply<Recipe>)
      requires Valid()
      modifies this
      ensures Valid()
      ensures reply.Err? ==> reply == Err(500, ErrorCreating) && recipes == old(recipes)
      ensures
        var created := NewRecipe(body, caller, if file.Some? then Present(file.value) else Null, now);
        && (reply.Ok? <==> created.Some?)
        && (reply.Ok? ==> reply == Ok(201, created.value))
      ensures reply.Ok? ==>
        && old(nextId) !in old(recipes)
        && recipes == old(recipes)[old(nextId) := reply.value]
        && reply.value.author == caller
        && reply.value.image == (if file.Some? then file else None)
        && reply.value.likes == OrEmpty(body.likes)
    {
      var image := if file.Some? then Present(file.value) else Null;
      var created := NewRecipe(body, caller, image, now);
      if created.None? {
        return Err(500, ErrorCreating);
      }
      var recipe := created.value;
      assert ValidRecipe(recipe) && recipe.author == caller && recipe.likes == OrEmpty(body.likes);
      recipes := recipes[nextId := recipe];
      nextId := nextId + 1;
      reply := Ok(201, created.value);
    }

    /**
     * Applies the body to the caller's recipe; without an uploaded file the stored image
     * stays. Comments the body sets without a date are stamped `now`.
     */
    method UpdateRecipe(caller: UserId, id: RecipeId, body: RecipeBody, file: Option<string>, now: int) returns (reply: Reply<Recipe>)
      requires Valid()
      modifies this
      ensures Valid() && nextId == old(nextId)
      ensures id !in old(recipes) ==> reply == Err(404, RecipeNotFound)
      ensures id in old(recipes) && old(recipes)[id].author != caller ==> reply == Err(401, NotAuthorizedToUpdate)
      ensures reply.Err? ==> recipes == old(recipes)
      ensures id in old(recipes) && old(recipes)[id].author == caller ==>
        var image := if file.Some? then file else old(recipes)[id].image;
        match PatchRecipe(old(recipes)[id], body, image, now)
        case None => reply == Err(500, ErrorUpdating)
        case Some(r) => reply == Ok(200, r) && recipes == old(recipes)[id := r]
      ensures id in old(recipes) && old(recipes)[id].author == caller ==> (reply.Ok? <==> RecipeFieldsOk(body))
    {
      if id !in recipes {
        return Err(404, RecipeNotFound);
      }
      var recipe := recipes[id];
      if recipe.author != caller {
        return Err(401, NotAuthorizedToUpdate);
      }
      var image := if file.Some? then file else recipe.image;
      var updated := PatchRecipe(recipe, body, image, now);
      if updated.None? {
        return Err(500, ErrorUpdating);
      }
      recipes := recipes[id := updated.value];
      reply := Ok(200, updated.value);
    }

    method DeleteRecipe(caller: UserId, id: RecipeId) returns (reply: Reply<string>)
      requires Valid()
      modifies this
      ensures Valid() && nextId == old(nextId)
      ensures id !in old(recipes) ==> reply == Err(404, RecipeNotFound) && recipes == old(recipes)
      ensures id in old(recipes) && old(recipes)[id].author != caller ==>
        reply == Err(401, NotAuthorizedToDelete) && recipes == old(recipes)
      ensures id in old(recipes) && old(recipes)[id].author == caller ==>
        reply == Ok(200, RecipeDeleted) && recipes == old(recipes) - {id}
    {
      if id !in recipes {
        return Err(404, RecipeNotFound);
      }
      if recipes[id].author != caller {
        return Err(401, NotAuthorizedToDelete);
      }
      recipes := recipes - {id};
      reply := Ok(200, RecipeDeleted);
    }

    /** Likes the recipe for the caller, or withdraws the caller's first like. Anyone may like. */
    method ToggleLike(caller: UserId, id: RecipeId) returns (reply: Reply<string>)
      requires Valid()
      modifies this
      ensures Valid() && nextId == old(nextId)
      ensures id !in old(recipes) ==> reply == Err(404, RecipeNotFound) && recipes == old(recipes)
      ensures id in old(recipes) ==>
        && reply == Ok(200, LikeUpdated)
        && recipes == old(recipes)[id := old(recipes)[id].(likes := ToggledLikes(old(recipes)[id].likes, caller))]
    {
      if id !in recipes {
        return Err(404, RecipeNotFound);
      }
      var recipe := recipes[id];
      var likes := recipe.likes;
      var at := IndexOfUser(likes, caller);
      if at == -1 {
        likes := likes + [caller];
      } else {
        likes := likes[..at] + likes[at + 1..];
      }
      recipes := recipes[id := recipe.(likes := likes)];
      reply := Ok(200, LikeUpdated);
    }

    /**
     * Appends the caller's comment, stamped `now`. Saving validates the whole recipe, so a
     * missing or empty text fails the request and nothing is stored.
     */
    method AddComment(caller: UserId, id: RecipeId, text: Option<string>, now: int) returns (reply: Reply<Recipe>)
      requires Valid()
      modifies this
      ensures Valid() && nextId == old(nextId)
      ensures id !in old(recipes) ==> reply == Err(404, RecipeNotFound)
      ensures id in old(recipes) && (text.None? || text == Some("")) ==> reply == Err(500, ErrorAddingComment)
      ensures id in old(recipes) && text.Some? && text.value != "" ==> reply.Ok?
      ensures reply.Err? ==> recipes == old(recipes)
      ensures reply.Ok? ==>
        && id in old(recipes) && text.Some?
        && reply.status == 201
        && reply.value.comments == old(recipes)[id].comments + [Comment(caller, text.value, now)]
        && reply.value == old(recipes)[id].(comments := reply.value.comments)
        && recipes == old(recipes)[id := reply.value]
    {
      if id !in recipes {
        return Err(404, RecipeNotFound);
      }
      if text.None? || !Filled(text.value) {
        return Err(500, ErrorAddingComment);
      }
      var recipe := recipes[id];
      var saved := recipe.(comments := recipe.comments + [Comment(caller, text.value, now)]);
      recipes := recipes[id := saved];
      reply := Ok(201, saved);
    }
  }
}
