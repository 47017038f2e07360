/**
 * Meal-plan derivation: the shopping list built from the fetched recipes, and their
 * calorie total.
 *
 * generateShoppingList walks every ingredient of every recipe in order and files it in a
 * dictionary under the string key `name + "-" + unit`: a key seen before has its amount
 * increased, a new key gets a fresh entry. The list is the dictionary's values in
 * insertion order. (Every key contains '-', so none is an array index and JavaScript keeps
 * the keys in insertion order; no property inherited from Object.prototype has a '-' in
 * its name, so the presence test sees only entries the loop made.)
 */
module ShoppingList {
  import opened Common
  import opened Schema

  /** One line of the generated list: the flat record `{name, amount, unit}`. */
  datatype Item = Item(name: string, amount: real, unit: string)

  /** The dictionary key an ingredient is filed under. */
  function Key(name: string, unit: string): string {
    name + "-" + unit
  }

  function IngredientKey(i: Ingredient): string {
    Key(i.name, i.unit)
  }

  function ItemKey(x: Item): string {
    Key(x.name, x.unit)
  }

  // ---------------------------------------------------------------- the string key

  predicate NoDash(s: string) {
    forall i :: 0 <= i < |s| ==> s[i] != '-'
  }

  /** No unit of the enumeration contains a '-'. */
  lemma UnitsHaveNoDash(u: string)
    requires u in Units
    ensures NoDash(u)
  {
  }

  /** A key has a '-' right after the name and none after it when the unit has none. */
  lemma DashesOfKey(n: string, u: string)
    requires NoDash(u)
    ensures Key(n, u)[|n|] == '-'
    ensures forall p :: |n| < p < |Key(n, u)| ==> Key(n, u)[p] != '-'
  {
    forall p | |n| < p < |Key(n, u)|
      ensures Key(n, u)[p] != '-'
    {
      assert Key(n, u)[p] == u[p - |n| - 1];
    }
  }

  /**
   * When neither unit contains a '-', the string key determines the (name, unit) pair:
   * the unit is what follows the last '-'. Names may contain '-'.
   */
  lemma KeyInjective(n1: string, u1: string, n2: string, u2: string)
    requires NoDash(u1) && NoDash(u2)
    requires Key(n1, u1) == Key(n2, u2)
    ensures n1 == n2 && u1 == u2
  {
    var k := Key(n1, u1);
    DashesOfKey(n1, u1);
    DashesOfKey(n2, u2);
    assert |n1| == |n2|;
    assert n1 == k[..|n1|] == n2;
    assert u1 == k[|n1| + 1..] == u2;
  }

  /** Pairs from the schema's unit enumeration never share a key. */
  lemma KeyInjectiveOnUnits(n1: string, u1: string, n2: string, u2: string)
    requires u1 in Units && u2 in Units
    ensures Key(n1, u1) == Key(n2, u2) <==> n1 == n2 && u1 == u2
  {
    UnitsHaveNoDash(u1);
    UnitsHaveNoDash(u2);
    if Key(n1, u1) == Key(n2, u2) {
      KeyInjective(n1, u1, n2, u2);
    }
  }

  // ---------------------------------------------------------------- the reference fold

  /** Every ingredient of every recipe, recipe by recipe, in order. */
  function Flatten(recipes: seq<Recipe>): seq<Ingredient> {
    if recipes == [] then []
    else Flatten(recipes[..|recipes| - 1]) + recipes[|recipes| - 1].ingredients
  }

  /** The position of the entry filed under key `k`, or -1. */
  function IndexOfKey(list: seq<Item>, k: string): (r: int)
    ensures -1 <= r < |list|
    ensures r >= 0 ==> ItemKey(list[r]) == k && forall j :: 0 <= j < r ==> ItemKey(list[j]) != k
    ensures r < 0 ==> forall j :: 0 <= j < |list| ==> ItemKey(list[j]) != k
  {
    if list == [] then -1
    else if ItemKey(list[0]) == k then 0
    else
      var r := IndexOfKey(list[1..], k);
      if r < 0 then -1 else r + 1
  }

  /** Files one ingredient: add its amount to the entry with its key, or append a new entry. */
  function Merge(list: seq<Item>, i: Ingredient): seq<Item> {
    var at := IndexOfKey(list, IngredientKey(i));
    if at < 0 then list + [Item(i.name, i.amount, i.unit)]
    else list[at := list[at].(amount := list[at].amount + i.amount)]
  }

  predicate KeysDistinct(list: seq<Item>) {
    forall i, j :: 0 <= i < j < |list| ==> ItemKey(list[i]) != ItemKey(list[j])
  }

  /** The list generateShoppingList returns for this ingredient sequence. */
  function Consolidate(ings: seq<Ingredient>): (list: seq<Item>)
    ensures |list| <= |ings|
    ensures KeysDistinct(list)
  {
    if ings == [] then []
    else Merge(Consolidate(ings[..|ings| - 1]), ings[|ings| - 1])
  }

  lemma ConsolidateSnoc(ings: seq<Ingredient>, i: Ingredient)
    ensures Consolidate(ings + [i]) == Merge(Consolidate(ings), i)
  {
    assert (ings + [i])[..|ings|] == ings;
  }

  // ---------------------------------------------------------------- the imperative walk

  /** The dictionary's values in insertion order (`Object.values`). */
  function ValuesInOrder(table: map<string, Item>, order: seq<string>): (vs: seq<Item>)
    requires forall k :: k in order ==> k in table
    ensures |vs| == |order|
    ensures forall i :: 0 <= i < |order| ==> vs[i] == table[order[i]]
  {
    seq(|order|, i requires 0 <= i < |order| => table[order[i]])
  }

  /** The key order lists each key of the dictionary once, and each entry sits under its own key. */
  ghost predicate Indexed(table: map<string, Item>, order: seq<string>) {
    && (forall k :: k in table <==> k in order)
    && (forall i, j :: 0 <= i < j < |order| ==> order[i] != order[j])
    && (forall k :: k in table ==> ItemKey(table[k]) == k)
  }

  /**
   * `Object.values` of an indexed dictionary yields each of its values once: the values'
   * keys are the key order itself, so no two values share a key, and every value of the
   * dictionary is among them.
   */
  lemma ValuesKeyed(table: map<string, Item>, order: seq<string>)
    requires Indexed(table, order)
    ensures ItemKeys(ValuesInOrder(table, order)) == order
    ensures KeysDistinct(ValuesInOrder(table, order))
    ensures forall x :: x in ValuesInOrder(table, order) <==> x in table.Values
  {
    var vs := ValuesInOrder(table, order);
    forall x | x in table.Values
      ensures x in vs
    {
      var k :| k in table && table[k] == x;
      var i :| 0 <= i < |order| && order[i] == k;
      assert vs[i] == x;
    }
  }

  /** The dictionary and its key order hold exactly the fold of the ingredients walked so far. */
  ghost predicate TableHolds(table: map<string, Item>, order: seq<string>, done: seq<Ingredient>) {
    Indexed(table, order) && ValuesInOrder(table, order) == Consolidate(done)
  }

  /** In an indexed dictionary the key listed at `idx` is first found at `idx` among the values. */
  lemma FoundAtOrder(table: map<string, Item>, order: seq<string>, idx: int)
    requires Indexed(table, order)
    requires 0 <= idx < |order|
    ensures IndexOfKey(ValuesInOrder(table, order), order[idx]) == idx
  {
    var vs := ValuesInOrder(table, order);
    assert forall j :: 0 <= j < |vs| ==> ItemKey(vs[j]) == order[j];
  }

  lemma IndexedAfterUpdate(table: map<string, Item>, order: seq<string>, key: string, x: Item)
    requires Indexed(table, order)
    requires key in table && ItemKey(x) == key
    ensures Indexed(table[key := x], order)
  {
  }

  lemma IndexedAfterAppend(table: map<string, Item>, order: seq<string>, key: string, x: Item)
    requires Indexed(table, order)
    requires key !in table && ItemKey(x) == key
    ensures Indexed(table[key := x], order + [key])
  {
  }

  /** Filing under a key already listed at `idx` adds to that entry. */
  lemma MergeExisting(list: seq<Item>, key: string, ing: Ingredient, idx: int)
    requires key == IngredientKey(ing)
    requires 0 <= idx < |list| && IndexOfKey(list, key) == idx
    ensures Merge(list, ing) == list[idx := list[idx].(amount := list[idx].amount + ing.amount)]
  {
  }

  /** Replacing the entry under the key listed at `idx` replaces that value only. */
  lemma ValuesAfterUpdate(table: map<string, Item>, order: seq<string>, idx: int, key: string, x: Item)
    requires forall k :: k in order ==> k in table
    requires forall i, j :: 0 <= i < j < |order| ==> order[i] != order[j]
    requires 0 <= idx < |order| && order[idx] == key
    ensures ValuesInOrder(table[key := x], order) == ValuesInOrder(table, order)[idx := x]
  {
    var vs, vs' := ValuesInOrder(table, order), ValuesInOrder(table[key := x], order);
    forall i | 0 <= i < |order|
      ensures vs'[i] == vs[idx := x][i]
    {
      if i != idx {
        assert order[i] != order[idx];
      }
    }
  }

  /** Filing a new key appends its value at the end. */
  lemma ValuesAfterAppend(table: map<string, Item>, order: seq<string>, key: string, x: Item)
    requires forall k :: k in order ==> k in table
    requires key !in table
    ensures ValuesInOrder(table[key := x], order + [key]) == ValuesInOrder(table, order) + [x]
  {
    var vs, vs' := ValuesInOrder(table, order), ValuesInOrder(table[key := x], order + [key]);
    forall i | 0 <= i < |order|
      ensures vs'[i] == vs[i]
    {
      assert (order + [key])[i] == order[i];
    }
  }

  lemma StepExisting(table: map<string, Item>, order: seq<string>, done: seq<Ingredient>, ing: Ingredient, key: string, x: Item)
    requires TableHolds(table, order, done)
    requires key == IngredientKey(ing) && key in table
    requires x == table[key].(amount := table[key].amount + ing.amount)
    ensures Indexed(table[key := x], order)
    ensures ValuesInOrder(table[key := x], order) == Consolidate(done + [ing])
  {
    var c := Consolidate(done);
    var idx :| 0 <= idx < |order| && order[idx] == key;
    FoundAtOrder(table, order, idx);
    MergeExisting(c, key, ing, idx);
    ValuesAfterUpdate(table, order, idx, key, x);
    ConsolidateSnoc(done, ing);
    assert c[idx] == table[key];
    assert x == c[idx].(amount := c[idx].amount + ing.amount);
    calc {
      ValuesInOrder(table[key := x], order);
      ValuesInOrder(table, order)[idx := x];
      c[idx := x];
      c[idx := c[idx].(amount := c[idx].amount + ing.amount)];
      Merge(c, ing);
      Consolidate(done + [ing]);
    }
    IndexedAfterUpdate(table, order, key, x);
  }

  lemma StepNew(table: map<string, Item>, order: seq<string>, done: seq<Ingredient>, ing: Ingredient, key: string, x: Item)
    requires TableHolds(table, order, done)
    requires key == IngredientKey(ing) && key !in table
    requires x == Item(ing.name, ing.amount, ing.unit)
    ensures Indexed(table[key := x], order + [key])
    ensures ValuesInOrder(table[key := x], order + [key]) == Consolidate(done + [ing])
  {
    var c := Consolidate(done);
    ConsolidateSnoc(done, ing);
    assert forall j :: 0 <= j < |c| ==> ItemKey(c[j]) == order[j];
    assert IndexOfKey(c, key) < 0;
    ValuesAfterAppend(table, order, key, x);
    IndexedAfterAppend(table, order, key, x);
  }

  lemma FlattenStep(recipes: seq<Recipe>, r: int)
    requires 0 <= r < |recipes|
    ensures Flatten(recipes[..r + 1]) == Flatten(recipes[..r]) + recipes[r].ingredients
  {
    assert recipes[..r + 1][..r] == recipes[..r];
  }

  lemma PrefixStep(done: seq<Ingredient>, ings: seq<Ingredient>, j: int)
    requires 0 <= j < |ings|
    ensures done + ings[..j + 1] == done + ings[..j] + [ings[j]]
  {
    assert ings[..j + 1] == ings[..j] + [ings[j]];
  }

  /** The inner walk: files one recipe's ingredients into the dictionary, in order. */
  method FileIngredients(table0: map<string, Item>, order0: seq<string>, ghost done: seq<Ingredient>, ings: seq<Ingredient>)
    returns (table: map<string, Item>, order: seq<string>)
    requires TableHolds(table0, order0, done)
    ensures TableHolds(table, order, done + ings)
  {
    table, order := table0, order0;
    var j := 0;
    ghost var walked := done;
    assert done + ings[..j] == done;
    while j < |ings|
      invariant 0 <= j <= |ings|
      invariant walked == done + ings[..j]
      invariant TableHolds(table, order, walked)
    {
      var ing := ings[j];
      var key := IngredientKey(ing);
      if key in table {
        var x := table[key].(amount := table[key].amount + ing.amount);
        StepExisting(table, order, walked, ing, key, x);
        table := table[key := x];
      } else {
        var x := Item(ing.name, ing.amount, ing.unit);
        StepNew(table, order, walked, ing, key, x);
        table := table[key := x];
        order := order + [key];
      }
      PrefixStep(done, ings, j);
      walked := walked + [ing];
      j := j + 1;
    }
    assert ings[..j] == ings;
  }

  /** generateShoppingList: the outer walk over the recipes, then the values in insertion order. */
  method GenerateShoppingList(recipes: seq<Recipe>) returns (list: seq<Item>)
    ensures list == Consolidate(Flatten(recipes))
  {
    var table: map<string, Item> := map[];
    var order: seq<string> := [];
    var r := 0;
    while r < |recipes|
      invariant 0 <= r <= |recipes|
      invariant TableHolds(table, order, Flatten(recipes[..r]))
    {
      FlattenStep(recipes, r);
      table, order := FileIngredients(table, order, Flatten(recipes[..r]), recipes[r].ingredients);
      r := r + 1;
    }
    assert recipes[..r] == recipes;
    list := ValuesInOrder(table, order);
  }

  // ---------------------------------------------------------------- what the fold means

  function Keys(ings: seq<Ingredient>): (ks: seq<string>)
    ensures |ks| == |ings| && forall i :: 0 <= i < |ings| ==> ks[i] == IngredientKey(ings[i])
  {
    seq(|ings|, i requires 0 <= i < |ings| => IngredientKey(ings[i]))
  }

  function ItemKeys(list: seq<Item>): (ks: seq<string>)
    ensures |ks| == |list| && forall i :: 0 <= i < |list| ==> ks[i] == ItemKey(list[i])
  {
    seq(|list|, i requires 0 <= i < |list| => ItemKey(list[i]))
  }

  /** The distinct elements of `ks`, each at the position of its first occurrence, in order. */
  function FirstAppearances(ks: seq<string>): seq<string> {
    if ks == [] then []
    else
      var prefix := ks[..|ks| - 1];
      if ks[|ks| - 1] in prefix then FirstAppearances(prefix)
      else FirstAppearances(prefix) + [ks[|ks| - 1]]
  }

  predicate Distinct(ks: seq<string>) {
    forall i, j :: 0 <= i < j < |ks| ==> ks[i] != ks[j]
  }

  lemma {:induction false} FirstAppearancesFacts(ks: seq<string>)
    ensures forall k :: k in FirstAppearances(ks) <==> k in ks
    ensures Distinct(FirstAppearances(ks))
    ensures |FirstAppearances(ks)| <= |ks|
    ensures |FirstAppearances(ks)| == |ks| <==> Distinct(ks)
  {
    if ks != [] {
      var prefix := ks[..|ks| - 1];
      var last := ks[|ks| - 1];
      FirstAppearancesFacts(prefix);
      assert ks == prefix + [last];
      if last in prefix {
        var i :| 0 <= i < |prefix| && prefix[i] == last;
        assert ks[i] == ks[|ks| - 1];
      } else {
        if Distinct(prefix) {
          assert Distinct(ks);
        }
        if Distinct(ks) {
          assert forall i, j :: 0 <= i < j < |prefix| ==> prefix[i] == ks[i] && prefix[j] == ks[j];
        }
      }
    }
  }

  /** Sum of the amounts of the ingredients filed under key `k`, in order. */
  function KeySum(ings: seq<Ingredient>, k: string): real {
    if ings == [] then 0.0
    else
      var last := ings[|ings| - 1];
      KeySum(ings[..|ings| - 1], k) + (if IngredientKey(last) == k then last.amount else 0.0)
  }

  /** Sum of the amounts of the ingredients with exactly this name and unit, in order. */
  function PairSum(ings: seq<Ingredient>, name: string, unit: string): real {
    if ings == [] then 0.0
    else
      var last := ings[|ings| - 1];
      PairSum(ings[..|ings| - 1], name, unit) + (if last.name == name && last.unit == unit then last.amount else 0.0)
  }

  /** The generated list's keys are the input's keys, each once, in order of first appearance. */
  lemma {:induction false} ConsolidateKeys(ings: seq<Ingredient>)
    ensures ItemKeys(Consolidate(ings)) == FirstAppearances(Keys(ings))
  {
    if ings != [] {
      var prefix := ings[..|ings| - 1];
      var ing := ings[|ings| - 1];
      var key := IngredientKey(ing);
      assert ings == prefix + [ing];
      ConsolidateKeys(prefix);
      ConsolidateSnoc(prefix, ing);
      FoundIffSeen(prefix, key);
      ItemKeysMerge(Consolidate(prefix), ing);
      assert Keys(ings) == Keys(prefix) + [key];
      assert Keys(ings)[..|ings| - 1] == Keys(prefix);
    }
  }

  /** Filing keeps the list's keys, and appends the ingredient's key when it was not there. */
  lemma ItemKeysMerge(list: seq<Item>, ing: Ingredient)
    ensures IndexOfKey(list, IngredientKey(ing)) >= 0 ==> ItemKeys(Merge(list, ing)) == ItemKeys(list)
    ensures IndexOfKey(list, IngredientKey(ing)) < 0 ==> ItemKeys(Merge(list, ing)) == ItemKeys(list) + [IngredientKey(ing)]
  {
    var at := IndexOfKey(list, IngredientKey(ing));
    if at >= 0 {
      assert ItemKeys(Merge(list, ing))[at] == ItemKeys(list)[at];
    }
  }

  /** The key of the next ingredient is found in the list so far exactly when an earlier ingredient had it. */
  lemma FoundIffSeen(prefix: seq<Ingredient>, key: string)
    requires ItemKeys(Consolidate(prefix)) == FirstAppearances(Keys(prefix))
    ensures IndexOfKey(Consolidate(prefix), key) >= 0 <==> key in Keys(prefix)
  {
    var c := Consolidate(prefix);
    FirstAppearancesFacts(Keys(prefix));
    var at := IndexOfKey(c, key);
    if at >= 0 {
      assert key == ItemKeys(c)[at];
    }
    if key in Keys(prefix) {
      var p :| 0 <= p < |c| && ItemKeys(c)[p] == key;
    }
  }

  /** Each entry's amount is the sum of the amounts of the ingredients filed under its key. */
  lemma {:induction false} ConsolidateSums(ings: seq<Ingredient>)
    ensures forall i :: 0 <= i < |Consolidate(ings)| ==>
      Consolidate(ings)[i].amount == KeySum(ings, ItemKey(Consolidate(ings)[i]))
  {
    if ings != [] {
      var prefix := ings[..|ings| - 1];
      var ing := ings[|ings| - 1];
      ConsolidateSums(prefix);
      assert ings == prefix + [ing];
      forall i | 0 <= i < |Consolidate(ings)|
        ensures Consolidate(ings)[i].amount == KeySum(ings, ItemKey(Consolidate(ings)[i]))
      {
        SumsStep(prefix, ing, i);
      }
    }
  }

  lemma SumsStep(prefix: seq<Ingredient>, ing: Ingredient, i: int)
    requires forall i :: 0 <= i < |Consolidate(prefix)| ==>
      Consolidate(prefix)[i].amount == KeySum(prefix, ItemKey(Consolidate(prefix)[i]))
    requires 0 <= i < |Consolidate(prefix + [ing])|
    ensures Consolidate(prefix + [ing])[i].amount == KeySum(prefix + [ing], ItemKey(Consolidate(prefix + [ing])[i]))
  {
    var ings := prefix + [ing];
    var key := IngredientKey(ing);
    ConsolidateSnoc(prefix, ing);
    assert ings[..|ings| - 1] == prefix;
    var c := Consolidate(prefix);
    var out := Consolidate(ings);
    var at := IndexOfKey(c, key);
    var k := ItemKey(out[i]);
    assert KeySum(ings, k) == KeySum(prefix, k) + (if key == k then ing.amount else 0.0);
    if i < |c| && i != at {
      assert out[i] == c[i];
      if at >= 0 {
        assert ItemKey(c[at]) == key;
      }
      assert k != key;
    } else if i == at {
      assert out[i].amount == c[i].amount + ing.amount;
    } else {
      assert out[i] == Item(ing.name, ing.amount, ing.unit);
      ConsolidateKeys(prefix);
      FoundIffSeen(prefix, key);
      KeySumAbsent(prefix, key);
    }
  }

  /** The ingredient at `j` is the first one filed under its key. */
  ghost predicate FirstOfKey(ings: seq<Ingredient>, j: int)
    requires 0 <= j < |ings|
  {
    forall j' :: 0 <= j' < j ==> IngredientKey(ings[j']) != IngredientKey(ings[j])
  }

  /** `x` has the name and unit of the first ingredient filed under its key. */
  ghost predicate NamedByFirst(ings: seq<Ingredient>, x: Item) {
    exists j :: 0 <= j < |ings| && FirstOfKey(ings, j) && ings[j].name == x.name && ings[j].unit == x.unit
  }

  /** Each entry carries the name and unit of the first ingredient filed under its key. */
  lemma {:induction false} ConsolidateFirstSeen(ings: seq<Ingredient>)
    ensures forall i :: 0 <= i < |Consolidate(ings)| ==> NamedByFirst(ings, Consolidate(ings)[i])
  {
    if ings != [] {
      var prefix := ings[..|ings| - 1];
      var ing := ings[|ings| - 1];
      ConsolidateFirstSeen(prefix);
      assert ings == prefix + [ing];
      forall i | 0 <= i < |Consolidate(ings)|
        ensures NamedByFirst(ings, Consolidate(ings)[i])
      {
        FirstSeenStep(prefix, ing, i);
      }
    }
  }

  lemma FirstSeenStep(prefix: seq<Ingredient>, ing: Ingredient, i: int)
    requires forall i :: 0 <= i < |Consolidate(prefix)| ==> NamedByFirst(prefix, Consolidate(prefix)[i])
    requires 0 <= i < |Consolidate(prefix + [ing])|
    ensures NamedByFirst(prefix + [ing], Consolidate(prefix + [ing])[i])
  {
    var ings := prefix + [ing];
    var key := IngredientKey(ing);
    ConsolidateSnoc(prefix, ing);
    var c := Consolidate(prefix);
    var out := Consolidate(ings);
    if i < |c| {
      assert out[i].name == c[i].name && out[i].unit == c[i].unit;
      assert NamedByFirst(prefix, c[i]);
      var j :| 0 <= j < |prefix| && FirstOfKey(prefix, j) && prefix[j].name == c[i].name && prefix[j].unit == c[i].unit;
      assert ings[j] == prefix[j];
      assert FirstOfKey(ings, j) by {
        forall j' | 0 <= j' < j ensures IngredientKey(ings[j']) != IngredientKey(ings[j]) {
          assert ings[j'] == prefix[j'];
        }
      }
      assert ings[j].name == out[i].name && ings[j].unit == out[i].unit;
    } else {
      var j := |prefix|;
      assert out[i] == Item(ing.name, ing.amount, ing.unit);
      ConsolidateKeys(prefix);
      FoundIffSeen(prefix, key);
      assert FirstOfKey(ings, j) by {
        forall j' | 0 <= j' < j ensures IngredientKey(ings[j']) != key {
          assert Keys(prefix)[j'] == IngredientKey(ings[j']);
        }
      }
      assert ings[j].name == out[i].name && ings[j].unit == out[i].unit;
    }
  }

  lemma {:induction false} KeySumAbsent(ings: seq<Ingredient>, k: string)
    requires k !in Keys(ings)
    ensures KeySum(ings, k) == 0.0
  {
    if ings != [] {
      var prefix := ings[..|ings| - 1];
      assert Keys(prefix) == Keys(ings)[..|ings| - 1];
      KeySumAbsent(prefix, k);
      assert Keys(ings)[|ings| - 1] == IngredientKey(ings[|ings| - 1]);
    }
  }

  /** The list is never longer than the ingredient sequence, and as long exactly when no key repeats. */
  lemma ConsolidateLength(ings: seq<Ingredient>)
    ensures |Consolidate(ings)| <= |ings|
    ensures |Consolidate(ings)| == |ings| <==> Distinct(Keys(ings))
  {
    ConsolidateKeys(ings);
    FirstAppearancesFacts(Keys(ings));
    assert |ItemKeys(Consolidate(ings))| == |Consolidate(ings)|;
  }

  predicate UnitsValid(ings: seq<Ingredient>) {
    forall j :: 0 <= j < |ings| ==> ings[j].unit in Units
  }

  lemma {:induction false} KeySumIsPairSum(ings: seq<Ingredient>, name: string, unit: string)
    requires UnitsValid(ings) && unit in Units
    ensures KeySum(ings, Key(name, unit)) == PairSum(ings, name, unit)
  {
    if ings != [] {
      var last := ings[|ings| - 1];
      KeySumIsPairSum(ings[..|ings| - 1], name, unit);
      KeyInjectiveOnUnits(last.name, last.unit, name, unit);
    }
  }

  /** With the schema's units every entry has a unit of the enumeration. */
  lemma EntryUnitsValid(ings: seq<Ingredient>)
    requires UnitsValid(ings)
    ensures forall i :: 0 <= i < |Consolidate(ings)| ==> Consolidate(ings)[i].unit in Units
  {
    ConsolidateFirstSeen(ings);
    var out := Consolidate(ings);
    forall i | 0 <= i < |out| ensures out[i].unit in Units {
      assert NamedByFirst(ings, out[i]);
      var j :| 0 <= j < |ings| && FirstOfKey(ings, j) && ings[j].name == out[i].name && ings[j].unit == out[i].unit;
    }
  }

  /** Every ingredient's key has an entry. */
  lemma EntryForKey(ings: seq<Ingredient>, j: int) returns (i: int)
    requires 0 <= j < |ings|
    ensures 0 <= i < |Consolidate(ings)| && ItemKey(Consolidate(ings)[i]) == IngredientKey(ings[j])
  {
    ConsolidateKeys(ings);
    FirstAppearancesFacts(Keys(ings));
    var out := Consolidate(ings);
    assert Keys(ings)[j] in FirstAppearances(Keys(ings));
    i :| 0 <= i < |out| && ItemKeys(out)[i] == IngredientKey(ings[j]);
  }

  /**
   * With the schema's units, grouping by the string key is grouping by the (name, unit)
   * pair: every pair of the input has an entry, and no two entries share a pair; so the
   * same name in two units gives two entries.
   */
  lemma ConsolidateCoversPairs(ings: seq<Ingredient>)
    requires UnitsValid(ings)
    ensures forall j :: 0 <= j < |ings| ==>
      exists i :: 0 <= i < |Consolidate(ings)| && Consolidate(ings)[i].name == ings[j].name && Consolidate(ings)[i].unit == ings[j].unit
    ensures forall i, i' :: 0 <= i < i' < |Consolidate(ings)| ==>
      (Consolidate(ings)[i].name, Consolidate(ings)[i].unit) != (Consolidate(ings)[i'].name, Consolidate(ings)[i'].unit)
  {
    var out := Consolidate(ings);
    EntryUnitsValid(ings);
    forall j | 0 <= j < |ings|
      ensures exists i :: 0 <= i < |out| && out[i].name == ings[j].name && out[i].unit == ings[j].unit
    {
      var i := EntryForKey(ings, j);
      KeyInjectiveOnUnits(out[i].name, out[i].unit, ings[j].name, ings[j].unit);
    }
  }

  /** With the schema's units, each entry's amount is the sum of the amounts of its (name, unit) pair. */
  lemma ConsolidatePairSums(ings: seq<Ingredient>)
    requires UnitsValid(ings)
    ensures forall i :: 0 <= i < |Consolidate(ings)| ==>
      Consolidate(ings)[i].amount == PairSum(ings, Consolidate(ings)[i].name, Consolidate(ings)[i].unit)
  {
    var out := Consolidate(ings);
    ConsolidateSums(ings);
    EntryUnitsValid(ings);
    forall i | 0 <= i < |out|
      ensures out[i].amount == PairSum(ings, out[i].name, out[i].unit)
    {
      KeySumIsPairSum(ings, out[i].name, out[i].unit);
    }
  }

  /** Outside the unit enumeration two different pairs can share a key and are then merged. */
  lemma KeyCollisionOutsideUnits()
    ensures Key("a-b", "c") == Key("a", "b-c")
    ensures Consolidate([Ingredient("a-b", 1.0, "c"), Ingredient("a", 2.0, "b-c")]) == [Item("a-b", 3.0, "c")]
  {
    var first := [Ingredient("a-b", 1.0, "c")];
    assert [Ingredient("a-b", 1.0, "c"), Ingredient("a", 2.0, "b-c")] == first + [Ingredient("a", 2.0, "b-c")];
    ConsolidateSnoc(first, Ingredient("a", 2.0, "b-c"));
    ConsolidateSnoc([], Ingredient("a-b", 1.0, "c"));
    assert Key("a-b", "c") == "a-b-c" == Key("a", "b-c");
  }

  // ---------------------------------------------------------------- calories and the fetch

  /** `recipes.reduce((sum, recipe) => sum + recipe.calories, 0)`. */
  function TotalCalories(recipes: seq<Recipe>): real {
    if recipes == [] then 0.0
    else TotalCalories(recipes[..|recipes| - 1]) + recipes[|recipes| - 1].calories
  }

  lemma {:induction false} TotalCaloriesAppend(a: seq<Recipe>, b: seq<Recipe>)
    ensures TotalCalories(a + b) == TotalCalories(a) + TotalCalories(b)
  {
    if b != [] {
      assert (a + b)[..|a + b| - 1] == a + b[..|b| - 1];
      TotalCaloriesAppend(a, b[..|b| - 1]);
    } else {
      assert a + b == a;
    }
  }

  /** With every recipe's calories non-negative, as the schema requires, so is the total. */
  lemma {:induction false} TotalCaloriesNonNegative(recipes: seq<Recipe>)
    requires forall i :: 0 <= i < |recipes| ==> recipes[i].calories >= 0.0
    ensures TotalCalories(recipes) >= 0.0
  {
    if recipes != [] {
      TotalCaloriesNonNegative(recipes[..|recipes| - 1]);
    }
  }

  /** A stored recipe with its id, as the collection holds it. */
  datatype RecipeDoc = RecipeDoc(id: RecipeId, recipe: Recipe)

  /**
   * `Recipe.find({_id: {$in: ids}})`: the collection's documents whose id is listed, in
   * collection order, each once however often its id is listed.
   */
  function FetchIn(collection: seq<RecipeDoc>, ids: seq<RecipeId>): seq<Recipe> {
    if collection == [] then []
    else (if collection[0].id in ids then [collection[0].recipe] else []) + FetchIn(collection[1..], ids)
  }

  /** The fetch depends only on which ids are listed, not on how often or in what order. */
  lemma {:induction false} FetchInIgnoresRepeats(collection: seq<RecipeDoc>, ids: seq<RecipeId>, ids': seq<RecipeId>)
    requires forall x :: x in ids <==> x in ids'
    ensures FetchIn(collection, ids) == FetchIn(collection, ids')
  {
    if collection != [] {
      FetchInIgnoresRepeats(collection[1..], ids, ids');
    }
  }

  /** Meals referencing recipe A (300 kcal) twice and B (500 kcal) once total 800, not 1100. */
  lemma RepeatedRecipeCountsOnce(a: Recipe, b: Recipe)
    requires a.calories == 300.0 && b.calories == 500.0
    ensures TotalCalories(FetchIn([RecipeDoc(1, a), RecipeDoc(2, b)], [1, 1, 2])) == 800.0
  {
    var c := [RecipeDoc(1, a), RecipeDoc(2, b)];
    var ids := [1, 1, 2];
    assert c[1..] == [RecipeDoc(2, b)] && c[1..][1..] == [];
    assert FetchIn(c[1..][1..], ids) == [];
    assert 2 in ids && FetchIn(c[1..], ids) == [b];
    assert 1 in ids && FetchIn(c, ids) == [a, b];
    assert [a, b][..1] == [a] && [a][..0] == [];
    assert TotalCalories([a]) == 300.0;
    assert TotalCalories([a, b]) == 800.0;
  }
}
