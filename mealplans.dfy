/**
 * The meal-plan controller over an in-memory plan collection: reading, creating,
 * updating and deleting a user's plans behind the ownership guard, and flipping the
 * purchased flag of one shopping-list entry. Creating a plan derives its calorie total
 * and its shopping list from the recipes its meals reference.
 */
module MealPlans {
  import opened Common
  import opened Schema
  import opened ShoppingList

  const PlanNotFound: string := "Meal plan not found"
  const NotAuthorized: string := "Not authorized"
  const ItemNotFound: string := "Shopping list item not found"
  const PlanRemoved: string := "Meal plan removed"

  /** Stands for the message of an error thrown inside the handler; its text is not modelled. */
  const ThrownMessage: string := "error.message"

  // ---------------------------------------------------------------- shopping-list entries

  /**
   * The entries a consolidated shopping list is stored as: each item nested under
   * `ingredient`, with a fresh id and `purchased` at its schema default, false.
   */
  function Nest(list: seq<Item>, firstId: ItemId): (entries: seq<ShoppingListEntry>)
    ensures |entries| == |list|
    ensures forall i :: 0 <= i < |list| ==> entries[i].id == firstId + i && !entries[i].purchased
  {
    seq(|list|, i requires 0 <= i < |list| =>
      ShoppingListEntry(firstId + i, ItemIngredient(Some(list[i].name), Some(list[i].amount), Some(list[i].unit)), false))
  }

  /**
   * The items a client reads back from stored entries; `None` when an entry lacks the
   * name, amount or unit of its ingredient.
   */
  function Unnest(entries: seq<ShoppingListEntry>): (r: Option<seq<Item>>)
    ensures r.Some? ==> |r.value| == |entries|
  {
    if entries == [] then Some([])
    else
      var e := entries[0].ingredient;
      var rest := Unnest(entries[1..]);
      if Complete(e) && rest.Some? then
        Some([Item(e.name.value, e.amount.value, e.unit.value)] + rest.value)
      else
        None
  }

  predicate Complete(g: ItemIngredient) {
    g.name.Some? && g.amount.Some? && g.unit.Some?
  }

  lemma {:induction false} NestRoundTrip(list: seq<Item>, firstId: ItemId)
    ensures Unnest(Nest(list, firstId)) == Some(list)
  {
    if list != [] {
      var entries := Nest(list, firstId);
      NestRoundTrip(list[1..], firstId + 1);
      assert entries[1..] == Nest(list[1..], firstId + 1);
      assert Complete(entries[0].ingredient);
      assert list == [Item(list[0].name, list[0].amount, list[0].unit)] + list[1..];
    }
  }

  /**
   * The entries as the controller actually hands them to the schema: flat
   * `{name, amount, unit}` objects. The entry schema declares only `ingredient` and
   * `purchased`, and strict mode drops every other property, so each stored entry keeps
   * an empty ingredient.
   */
  function CastFlatItems(list: seq<Item>, firstId: ItemId): (entries: seq<ShoppingListEntry>)
    ensures |entries| == |list|
    ensures forall i :: 0 <= i < |list| ==> entries[i].id == firstId + i && !entries[i].purchased
  {
    seq(|list|, i requires 0 <= i < |list| => ShoppingListEntry(firstId + i, ItemIngredient(None, None, None), false))
  }

  /** Stored as written, a non-empty shopping list cannot be read back: its ingredients are gone. */
  lemma FlatItemsLoseIngredients(list: seq<Item>, firstId: ItemId)
    requires list != []
    ensures Unnest(CastFlatItems(list, firstId)) == None
    ensures forall i :: 0 <= i < |list| ==> CastFlatItems(list, firstId)[i].ingredient.name.None?
  {
    UnnestNeedsComplete(CastFlatItems(list, firstId), 0);
  }

  /** One entry without a complete ingredient makes the whole list unreadable. */
  lemma {:induction false} UnnestNeedsComplete(entries: seq<ShoppingListEntry>, i: int)
    requires 0 <= i < |entries| && !Complete(entries[i].ingredient)
    ensures Unnest(entries) == None
  {
    if i > 0 {
      UnnestNeedsComplete(entries[1..], i - 1);
    }
  }

  predicate DistinctIds(list: seq<ShoppingListEntry>) {
    forall i, j :: 0 <= i < j < |list| ==> list[i].id != list[j].id
  }

  /** Position of the first entry with the given id (`shoppingList.id(...)`), or -1. */
  function IndexOfItem(list: seq<ShoppingListEntry>, itemId: ItemId): (r: int)
    ensures -1 <= r < |list|
    ensures r >= 0 ==> list[r].id == itemId && forall j :: 0 <= j < r ==> list[j].id != itemId
    ensures r < 0 ==> forall j :: 0 <= j < |list| ==> list[j].id != itemId
  {
    if list == [] then -1
    else if list[0].id == itemId then 0
    else
      var r := IndexOfItem(list[1..], itemId);
      if r < 0 then -1 else r + 1
  }

  /** Flips `purchased` on the entry with the given id; `None` when there is no such entry. */
  function FlipPurchased(list: seq<ShoppingListEntry>, itemId: ItemId): (r: Option<seq<ShoppingListEntry>>)
    ensures r.None? <==> forall j :: 0 <= j < |list| ==> list[j].id != itemId
    ensures r.Some? ==> |r.value| == |list|
  {
    var i := IndexOfItem(list, itemId);
    if i < 0 then None else Some(list[i := list[i].(purchased := !list[i].purchased)])
  }

  /**
   * A flip changes the purchased flag of the entry with that id and nothing else: ids
   * and ingredients stay, and every other entry is untouched.
   */
  lemma FlipChangesOnlyThatItem(list: seq<ShoppingListEntry>, itemId: ItemId)
    requires DistinctIds(list)
    requires FlipPurchased(list, itemId).Some?
    ensures var l := FlipPurchased(list, itemId).value;
      forall j :: 0 <= j < |list| ==>
        && l[j].id == list[j].id
        && l[j].ingredient == list[j].ingredient
        && (l[j].purchased == !list[j].purchased <==> list[j].id == itemId)
        && (list[j].id != itemId ==> l[j] == list[j])
    ensures DistinctIds(FlipPurchased(list, itemId).value)
  {
    var i := IndexOfItem(list, itemId);
    forall j | 0 <= j < |list| && j != i ensures list[j].id != itemId {
      if j < i { } else { assert list[i].id != list[j].id; }
    }
  }

  /** Flipping the same entry twice restores the list. */
  lemma FlipTwice(list: seq<ShoppingListEntry>, itemId: ItemId)
    requires FlipPurchased(list, itemId).Some?
    ensures FlipPurchased(FlipPurchased(list, itemId).value, itemId) == Some(list)
  {
    var i := IndexOfItem(list, itemId);
    var l := FlipPurchased(list, itemId).value;
    assert forall j :: 0 <= j < |l| ==> l[j].id == list[j].id;
    assert IndexOfItem(l, itemId) == i;
    assert l[i := l[i].(purchased := !l[i].purchased)] == list;
  }

  /** The owner filter of the plan list: the ids of the caller's plans. */
  function PlansOf(plans: map<PlanId, MealPlan>, caller: UserId): (ids: set<PlanId>)
    ensures forall id :: id in ids <==> id in plans && plans[id].user == caller
  {
    set id | id in plans && plans[id].user == caller
  }

  /** The recipe references a create body's meals carry, in meal order, repeats kept. */
  function RecipeRefs(meals: seq<MealInput>): (ids: seq<RecipeId>)
    ensures forall id :: id in ids <==> exists i :: 0 <= i < |meals| && meals[i].recipe == Some(id)
  {
    if meals == [] then []
    else (if meals[0].recipe.Some? then [meals[0].recipe.value] else []) + RecipeRefs(meals[1..])
  }

  /**
   * The plan `createMealPlan` stores for a body whose meals are given: the recipes the
   * meals reference, fetched from `collection` with `$in`, their calories summed and their
   * ingredients consolidated into entries numbered from `firstItem`, nothing purchased.
   * Whether the schema accepts it is `NewMealPlan`'s condition on the body and the total.
   */
  function PlanFor(caller: UserId, body: MealPlanBody, collection: seq<RecipeDoc>, firstItem: ItemId): (p: Option<MealPlan>)
    requires body.meals.Some?
    ensures p.Some? ==>
      var recipes := FetchIn(collection, RecipeRefs(body.meals.value));
      && p.value.user == caller
      && p.value.totalCalories == TotalCalories(recipes)
      && Unnest(p.value.shoppingList) == Some(Consolidate(Flatten(recipes)))
      && (forall i :: 0 <= i < |p.value.shoppingList| ==>
            p.value.shoppingList[i].id == firstItem + i && !p.value.shoppingList[i].purchased)
    ensures p.Some? ==> ValidMealPlan(p.value) && DistinctIds(p.value.shoppingList)
  {
    var recipes := FetchIn(collection, RecipeRefs(body.meals.value));
    var items := Consolidate(Flatten(recipes));
    NestRoundTrip(items, firstItem);
    NewMealPlan(body, caller, TotalCalories(recipes), Nest(items, firstItem))
  }

  /** The derivation as the handler runs it: fetch, sum, the dictionary walk, nesting, the schema cast. */
  method BuildPlan(caller: UserId, body: MealPlanBody, collection: seq<RecipeDoc>, firstItem: ItemId) returns (created: Option<MealPlan>)
    requires body.meals.Some?
    ensures created == PlanFor(caller, body, collection, firstItem)
  {
    var recipes := FetchIn(collection, RecipeRefs(body.meals.value));
    var total := TotalCalories(recipes);
    var items := GenerateShoppingList(recipes);
    var entries := Nest(items, firstItem);
    created := NewMealPlan(body, caller, total, entries);
  }

  // ---------------------------------------------------------------- the plan collection

  class MealPlanStore {
    var plans: map<PlanId, MealPlan>
    /** The next unused document id; plan and entry ids are drawn from it. */
    var nextId: nat

    ghost predicate Valid()
      reads this
    {
      forall id :: id in plans ==> id < nextId && ValidMealPlan(plans[id]) && DistinctIds(plans[id].shoppingList)
    }

    constructor ()
      ensures Valid() && plans == map[]
    {
      plans := map[];
      nextId := 0;
    }

    /** The caller's plans (the listing's sort order is not modelled). */
    method GetMealPlans(caller: UserId) returns (ids: set<PlanId>)
      ensures forall id :: id in ids <==> id in plans && plans[id].user == caller
    {
      ids := PlansOf(plans, caller);
    }

    method GetMealPlanById(caller: UserId, id: PlanId) returns (reply: Reply<MealPlan>)
      ensures id !in plans ==> reply == Err(404, PlanNotFound)
      ensures id in plans && plans[id].user != caller ==> reply == Err(401, NotAuthorized)
      ensures id in plans && plans[id].user == caller ==> reply == Ok(200, plans[id])
    {
      if id !in plans {
        return Err(404, PlanNotFound);
      }
      if plans[id].user != caller {
        return Err(401, NotAuthorized);
      }
      reply := Ok(200, plans[id]);
    }

    /**
     * Fetches the referenced recipes from `collection` with `$in`, sums their calories,
     * consolidates their ingredients into the shopping list and stores the new plan.
     */
    method CreateMealPlan(caller: UserId, body: MealPlanBody, collection: seq<RecipeDoc>) returns (reply: Reply<MealPlan>)
      requires Valid()
      modifies this
      ensures Valid()
      ensures body.meals.None? ==> reply.Err? && reply.status == 500
      ensures reply.Err? ==> reply.status == 500 && plans == old(plans)
      ensures body.meals.Some? ==>
        var created := PlanFor(caller, body, collection, old(nextId) + 1);
        && (reply.Ok? <==> created.Some?)
        && (reply.Ok? ==> reply.value == created.value)
      ensures reply.Ok? ==>
        var recipes := FetchIn(collection, RecipeRefs(body.meals.value));
        && reply.status == 201
        && old(nextId) !in old(plans)
        && plans == old(plans)[old(nextId) := reply.value]
        && reply.value.user == caller
        && reply.value.totalCalories == TotalCalories(recipes)
        && Unnest(reply.value.shoppingList) == Some(Consolidate(Flatten(recipes)))
        && forall i :: 0 <= i < |reply.value.shoppingList| ==> !reply.value.shoppingList[i].purchased
    {
      if body.meals.None? {
        return Err(500, ThrownMessage);
      }
      var created := BuildPlan(caller, body, collection, nextId + 1);
      if created.None? {
        return Err(500, ThrownMessage);
      }
      plans := plans[nextId := created.value];
      nextId := nextId + 1 + |created.value.shoppingList|;
      reply := Ok(201, created.value);
    }

    /**
     * Applies the body to the caller's plan with the schema's validators on. The body is
     * passed through unfiltered: it may change the owner, and the calorie total and
     * shopping list are not recomputed.
     */
    method UpdateMealPlan(caller: UserId, id: PlanId, patch: MealPlanPatch) returns (reply: Reply<MealPlan>)
      requires Valid()
      modifies this
      ensures Valid() && nextId == old(nextId)
      ensures id !in old(plans) ==> reply == Err(404, PlanNotFound)
      ensures id in old(plans) && old(plans)[id].user != caller ==> reply == Err(401, NotAuthorized)
      ensures reply.Err? ==> plans == old(plans)
      ensures id in old(plans) && old(plans)[id].user == caller ==>
        match PatchMealPlan(old(plans)[id], patch)
        case None => reply.Err? && reply.status == 500
        case Some(p) => reply == Ok(200, p) && plans == old(plans)[id := p]
    {
      if id !in plans {
        return Err(404, PlanNotFound);
      }
      if plans[id].user != caller {
        return Err(401, NotAuthorized);
      }
      var updated := PatchMealPlan(plans[id], patch);
      if updated.None? {
        return Err(500, ThrownMessage);
      }
      plans := plans[id := updated.value];
      reply := Ok(200, updated.value);
    }

    method DeleteMealPlan(caller: UserId, id: PlanId) returns (reply: Reply<string>)
      requires Valid()
      modifies this
      ensures Valid() && nextId == old(nextId)
      ensures id !in old(plans) ==> reply == Err(404, PlanNotFound) && plans == old(plans)
      ensures id in old(plans) && old(plans)[id].user != caller ==> reply == Err(401, NotAuthorized) && plans == old(plans)
      ensures id in old(plans) && old(plans)[id].user == caller ==>
        reply == Ok(200, PlanRemoved) && plans == old(plans) - {id}
    {
      if id !in plans {
        return Err(404, PlanNotFound);
      }
      if plans[id].user != caller {
        return Err(401, NotAuthorized);
      }
      plans := plans - {id};
      reply := Ok(200, PlanRemoved);
    }

    /** Flips `purchased` on one entry of the caller's plan and saves the plan. */
    method UpdateShoppingListItem(caller: UserId, id: PlanId, itemId: ItemId) returns (reply: Reply<MealPlan>)
      requires Valid()
      modifies this
      ensures Valid() && nextId == old(nextId)
      ensures id !in old(plans) ==> reply == Err(404, PlanNotFound)
      ensures id in old(plans) && old(plans)[id].user != caller ==> reply == Err(401, NotAuthorized)
      ensures id in old(plans) && old(plans)[id].user == caller ==>
        match FlipPurchased(old(plans)[id].shoppingList, itemId)
        case None => reply == Err(404, ItemNotFound)
        case Some(l) => reply == Ok(200, old(plans)[id].(shoppingList := l)) && plans == old(plans)[id := reply.value]
      ensures reply.Err? ==> plans == old(plans)
    {
      if id !in plans {
        return Err(404, PlanNotFound);
      }
      var plan := plans[id];
      if plan.user != caller {
        return Err(401, NotAuthorized);
      }
      var flipped := FlipPurchased(plan.shoppingList, itemId);
      if flipped.None? {
        return Err(404, ItemNotFound);
      }
      FlipChangesOnlyThatItem(plan.shoppingList, itemId);
      var saved := plan.(shoppingList := flipped.value);
      plans := plans[id := saved];
      reply := Ok(200, saved);
    }
  }

  /** Toggling the same entry twice through the store restores the plan. */
  method ToggleTwiceRestores(store: MealPlanStore, caller: UserId, id: PlanId, itemId: ItemId)
    requires store.Valid()
    requires id in store.plans && store.plans[id].user == caller
    modifies store
    ensures store.plans == old(store.plans)
  {
    var first := store.UpdateShoppingListItem(caller, id, itemId);
    if first.Ok? {
      FlipTwice(old(store.plans)[id].shoppingList, itemId);
      var second := store.UpdateShoppingListItem(caller, id, itemId);
      assert store.plans[id] == old(store.plans)[id];
    }
  }
}
