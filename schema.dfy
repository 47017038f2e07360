/**
 * The two persisted document kinds, Recipe and MealPlan, with the value rules their
 * schemas enforce when a document is created or updated: required fields, enumerations,
 * lower bounds and defaults. Request bodies are modelled too, field by field, with
 * `None` for a property the client left out; casting a body into a document keeps only
 * the properties the schema declares.
 */
module Schema {
  import opened Common

  // ---------------------------------------------------------------- enumerations

  /** The units an ingredient may be measured in. */
  const Units: set<string> := {"g", "kg", "ml", "l", "cup", "tbsp", "tsp", "piece", "pinch"}

  const Difficulties: set<string> := {"easy", "medium", "hard"}

  /** Dietary tags a stored recipe or meal plan may carry (six values; no "low-carb"). */
  const DietaryTags: set<string> := {"vegetarian", "vegan", "keto", "paleo", "gluten-free", "dairy-free"}

  const Days: set<string> := {"monday", "tuesday", "wednesday", "thursday", "friday", "saturday", "sunday"}

  const MealTypes: set<string> := {"breakfast", "lunch", "dinner", "snack"}

  const DefaultImage: string := "default-recipe.jpg"

  /** Mongoose's `required` check on a String path: the value must be present and non-empty. */
  predicate Filled(s: string) { s != "" }

  // ---------------------------------------------------------------- the `trim` setter

  /** The characters JavaScript's `String.prototype.trim` strips: white space and line terminators. */
  predicate IsSpace(c: char) {
    || c == ' '
    || '\t' <= c <= '\r'
    || c == '\U{00A0}' || c == '\U{1680}'
    || '\U{2000}' <= c <= '\U{200A}'
    || c == '\U{2028}' || c == '\U{2029}' || c == '\U{202F}' || c == '\U{205F}' || c == '\U{3000}'
    || c == '\U{FEFF}'
  }

  /**
   * The `trim` option of a String path: the stored value is the written one with the
   * white space at both ends dropped, one character at a time.
   */
  function Trim(s: string): (t: string)
    ensures |t| <= |s|
    ensures t == [] || (!IsSpace(t[0]) && !IsSpace(t[|t| - 1]))
  {
    if s != [] && IsSpace(s[0]) then Trim(s[1..])
    else if s != [] && IsSpace(s[|s| - 1]) then Trim(s[..|s| - 1])
    else s
  }

  /** Drops the leading white space: what is left is a suffix that starts with a non-space. */
  function TrimStart(s: string): (t: string)
    ensures |t| <= |s| && t == s[|s| - |t|..]
    ensures forall i :: 0 <= i < |s| - |t| ==> IsSpace(s[i])
    ensures t == [] || !IsSpace(t[0])
  {
    if s != [] && IsSpace(s[0]) then TrimStart(s[1..]) else s
  }

  /** Drops the trailing white space: what is left is a prefix that ends with a non-space. */
  function TrimEnd(s: string): (t: string)
    ensures |t| <= |s| && t == s[..|t|]
    ensures forall i :: |t| <= i < |s| ==> IsSpace(s[i])
    ensures t == [] || !IsSpace(t[|t| - 1])
  {
    if s != [] && IsSpace(s[|s| - 1]) then TrimEnd(s[..|s| - 1]) else s
  }

  /**
   * Dropping white space from either end in any interleaving gives the value that drops
   * all the leading white space and then all the trailing: the longest unpadded piece.
   */
  lemma {:induction false} TrimIsStartThenEnd(s: string)
    ensures Trim(s) == TrimEnd(TrimStart(s))
    decreases |s|
  {
    if s != [] && IsSpace(s[0]) {
      TrimIsStartThenEnd(s[1..]);
    } else if s != [] && IsSpace(s[|s| - 1]) {
      var u := s[..|s| - 1];
      TrimIsStartThenEnd(u);
      assert u != [] && u[0] == s[0];
      assert TrimStart(u) == u;
      assert TrimStart(s) == s;
    }
  }

  /** A value without padding is kept as it is, and trimming twice is trimming once. */
  lemma TrimIdempotent(s: string)
    ensures s == [] || (!IsSpace(s[0]) && !IsSpace(s[|s| - 1])) ==> Trim(s) == s
    ensures Trim(Trim(s)) == Trim(s)
  {
  }

  /** A value trims to the empty string exactly when it consists of white space only. */
  lemma TrimBlank(s: string)
    ensures Trim(s) == [] <==> forall i :: 0 <= i < |s| ==> IsSpace(s[i])
  {
    TrimIsStartThenEnd(s);
  }

  function TrimEach(xs: seq<string>): (ys: seq<string>)
    ensures |ys| == |xs|
    ensures forall i :: 0 <= i < |xs| ==> ys[i] == Trim(xs[i])
  {
    if xs == [] then [] else [Trim(xs[0])] + TrimEach(xs[1..])
  }

  // ---------------------------------------------------------------- recipes

  datatype Ingredient = Ingredient(name: string, amount: real, unit: string)

  datatype Comment = Comment(user: UserId, text: string, createdAt: int)

  /** A stored recipe; `image == None` is a stored null. */
  datatype Recipe = Recipe(
    title: string,
    description: string,
    ingredients: seq<Ingredient>,
    instructions: seq<string>,
    prepTime: real,
    cookTime: real,
    servings: real,
    difficulty: string,
    tags: seq<string>,
    dietaryTags: seq<string>,
    calories: real,
    image: Option<string>,
    author: UserId,
    likes: seq<UserId>,
    comments: seq<Comment>)

  /** Name and unit are required and the unit is one of the enumeration; the amount has no bound. */
  predicate ValidIngredient(i: Ingredient) {
    Filled(i.name) && i.unit in Units
  }

  predicate ValidRecipe(r: Recipe) {
    RecipeScalarsValid(r) && RecipeListsValid(r)
  }

  /** The schema rules on the recipe's single-valued properties. */
  predicate RecipeScalarsValid(r: Recipe) {
    && Filled(r.title)
    && Filled(r.description)
    && r.prepTime >= 0.0
    && r.cookTime >= 0.0
    && r.servings >= 1.0
    && r.difficulty in Difficulties
    && r.calories >= 0.0
  }

  /** The schema rules on the recipe's array properties. */
  predicate RecipeListsValid(r: Recipe) {
    && (forall i :: 0 <= i < |r.ingredients| ==> ValidIngredient(r.ingredients[i]))
    && (forall i :: 0 <= i < |r.instructions| ==> Filled(r.instructions[i]))
    && (forall i :: 0 <= i < |r.dietaryTags| ==> r.dietaryTags[i] in DietaryTags)
    && (forall i :: 0 <= i < |r.comments| ==> Filled(r.comments[i].text))
  }

  /** A document property as a write supplies it: left out, set to null, or set to a value. */
  datatype Field<T> = Undefined | Null | Present(value: T)

  /** The stored image: the schema default replaces only a missing value, never an explicit null. */
  function StoredImage(f: Field<string>): Option<string> {
    match f
    case Undefined => Some(DefaultImage)
    case Null => None
    case Present(path) => Some(path)
  }

  datatype IngredientInput = IngredientInput(name: Option<string>, amount: Option<real>, unit: Option<string>)

  datatype CommentInput = CommentInput(user: Option<UserId>, text: Option<string>, createdAt: Option<int>)

  /**
   * The recipe properties a request body may carry. The controllers spread the body into
   * the write, so it may also name an author and preset the likes and comments.
   */
  datatype RecipeBody = RecipeBody(
    author: Option<UserId>,
    title: Option<string>,
    description: Option<string>,
    ingredients: Option<seq<IngredientInput>>,
    instructions: Option<seq<string>>,
    prepTime: Option<real>,
    cookTime: Option<real>,
    servings: Option<real>,
    difficulty: Option<string>,
    tags: Option<seq<string>>,
    dietaryTags: Option<seq<string>>,
    calories: Option<real>,
    likes: Option<seq<UserId>>,
    comments: Option<seq<CommentInput>>)

  /** What the ingredient schema demands of a body ingredient, its name taken after trimming. */
  predicate IngredientInputOk(x: IngredientInput) {
    x.name.Some? && x.amount.Some? && x.unit.Some? && Filled(Trim(x.name.value)) && x.unit.value in Units
  }

  predicate CommentInputOk(c: CommentInput) {
    c.user.Some? && c.text.Some? && Filled(c.text.value)
  }

  /**
   * Casts body ingredients, trimming each name; fails when one of them lacks a name, an
   * amount or a unit.
   */
  function CastIngredients(xs: seq<IngredientInput>): (r: Option<seq<Ingredient>>)
    ensures r.Some? <==> forall i :: 0 <= i < |xs| ==> xs[i].name.Some? && xs[i].amount.Some? && xs[i].unit.Some?
    ensures r.Some? ==> |r.value| == |xs|
    ensures r.Some? ==> forall i :: 0 <= i < |xs| ==>
      r.value[i] == Ingredient(Trim(xs[i].name.value), xs[i].amount.value, xs[i].unit.value)
  {
    if xs == [] then Some([])
    else
      var x := xs[0];
      var rest := CastIngredients(xs[1..]);
      if x.name.Some? && x.amount.Some? && x.unit.Some? && rest.Some? then
        Some([Ingredient(Trim(x.name.value), x.amount.value, x.unit.value)] + rest.value)
      else
        None
  }

  /**
   * Casts body comments, stamping those without a date with `now` (the schema's
   * `Date.now` default); fails when one of them lacks its user or its text.
   */
  function CastComments(xs: seq<CommentInput>, now: int): (r: Option<seq<Comment>>)
    ensures r.Some? <==> forall i :: 0 <= i < |xs| ==> xs[i].user.Some? && xs[i].text.Some?
    ensures r.Some? ==> |r.value| == |xs|
    ensures r.Some? ==> forall i :: 0 <= i < |xs| ==>
      r.value[i] == Comment(xs[i].user.value, xs[i].text.value, if xs[i].createdAt.Some? then xs[i].createdAt.value else now)
  {
    if xs == [] then Some([])
    else
      var x := xs[0];
      var rest := CastComments(xs[1..], now);
      if x.user.Some? && x.text.Some? && rest.Some? then
        Some([Comment(x.user.value, x.text.value, if x.createdAt.Some? then x.createdAt.value else now)] + rest.value)
      else
        None
  }

  /** The cast ingredients all validate exactly when every body ingredient meets the ingredient schema. */
  lemma CastIngredientsValid(xs: seq<IngredientInput>)
    ensures (CastIngredients(xs).Some? && forall i :: 0 <= i < |xs| ==> ValidIngredient(CastIngredients(xs).value[i]))
      <==> forall i :: 0 <= i < |xs| ==> IngredientInputOk(xs[i])
  {
  }

  /** The cast comments all carry text exactly when every body comment meets the comment schema. */
  lemma CastCommentsValid(xs: seq<CommentInput>, now: int)
    ensures (CastComments(xs, now).Some? && forall i :: 0 <= i < |xs| ==> Filled(CastComments(xs, now).value[i].text))
      <==> forall i :: 0 <= i < |xs| ==> CommentInputOk(xs[i])
  {
  }

  /** The value a write supplies for a property, or the stored one when the write leaves it out. */
  function Pick<T>(o: Option<T>, stored: T): T {
    if o.Some? then o.value else stored
  }

  function OrEmpty<T>(o: Option<seq<T>>): seq<T> {
    if o.Some? then o.value else []
  }

  /** The properties `Recipe.create` demands. */
  predicate RecipeRequiredPresent(b: RecipeBody) {
    && b.title.Some? && b.description.Some?
    && b.prepTime.Some? && b.cookTime.Some? && b.servings.Some?
    && b.difficulty.Some? && b.calories.Some?
  }

  /**
   * Every property the body carries meets its schema rule, strings taken after their
   * `trim` setter. These are the paths a validated write checks.
   */
  predicate RecipeFieldsOk(b: RecipeBody) {
    ScalarFieldsOk(b) && ListFieldsOk(b)
  }

  predicate ScalarFieldsOk(b: RecipeBody) {
    && (b.title.Some? ==> Filled(Trim(b.title.value)))
    && (b.description.Some? ==> Filled(b.description.value))
    && (b.prepTime.Some? ==> b.prepTime.value >= 0.0)
    && (b.cookTime.Some? ==> b.cookTime.value >= 0.0)
    && (b.servings.Some? ==> b.servings.value >= 1.0)
    && (b.difficulty.Some? ==> b.difficulty.value in Difficulties)
    && (b.calories.Some? ==> b.calories.value >= 0.0)
  }

  predicate ListFieldsOk(b: RecipeBody) {
    && (b.ingredients.Some? ==> forall i :: 0 <= i < |b.ingredients.value| ==> IngredientInputOk(b.ingredients.value[i]))
    && (b.instructions.Some? ==> forall i :: 0 <= i < |b.instructions.value| ==> Filled(b.instructions.value[i]))
    && (b.dietaryTags.Some? ==> forall i :: 0 <= i < |b.dietaryTags.value| ==> b.dietaryTags.value[i] in DietaryTags)
    && (b.comments.Some? ==> forall i :: 0 <= i < |b.comments.value| ==> CommentInputOk(b.comments.value[i]))
  }

  /** The stored recipe with each property the body carries (already cast) in place of the stored one. */
  function Patched(r: Recipe, b: RecipeBody, image: Option<string>, ings: seq<Ingredient>, comments: seq<Comment>): Recipe {
    r.(
      author := Pick(b.author, r.author),
      title := if b.title.Some? then Trim(b.title.value) else r.title,
      description := Pick(b.description, r.description),
      ingredients := ings,
      instructions := Pick(b.instructions, r.instructions),
      prepTime := Pick(b.prepTime, r.prepTime),
      cookTime := Pick(b.cookTime, r.cookTime),
      servings := Pick(b.servings, r.servings),
      difficulty := Pick(b.difficulty, r.difficulty),
      tags := if b.tags.Some? then TrimEach(b.tags.value) else r.tags,
      dietaryTags := Pick(b.dietaryTags, r.dietaryTags),
      calories := Pick(b.calories, r.calories),
      image := image,
      likes := Pick(b.likes, r.likes),
      comments := comments)
  }

  /**
   * A patched recipe that meets the schema comes from a body whose properties meet their
   * rules; a stored recipe that meets the schema, patched by such a body, still does.
   */
  lemma PatchedRecipeValid(r: Recipe, b: RecipeBody, image: Option<string>, ings: seq<Ingredient>, comments: seq<Comment>, now: int)
    requires b.ingredients.None? ==> ings == r.ingredients
    requires b.ingredients.Some? ==> CastIngredients(b.ingredients.value) == Some(ings)
    requires b.comments.None? ==> comments == r.comments
    requires b.comments.Some? ==> CastComments(b.comments.value, now) == Some(comments)
    ensures ValidRecipe(Patched(r, b, image, ings, comments)) ==> RecipeFieldsOk(b)
    ensures ValidRecipe(r) && RecipeFieldsOk(b) ==> ValidRecipe(Patched(r, b, image, ings, comments))
  {
    var p := Patched(r, b, image, ings, comments);
    PatchedScalarsValid(b, r, p);
    PatchedListsValid(b, r, p, now);
  }

  lemma PatchedScalarsValid(b: RecipeBody, r: Recipe, p: Recipe)
    requires p.title == (if b.title.Some? then Trim(b.title.value) else r.title)
    requires p.description == Pick(b.description, r.description)
    requires p.prepTime == Pick(b.prepTime, r.prepTime)
    requires p.cookTime == Pick(b.cookTime, r.cookTime)
    requires p.servings == Pick(b.servings, r.servings)
    requires p.difficulty == Pick(b.difficulty, r.difficulty)
    requires p.calories == Pick(b.calories, r.calories)
    ensures RecipeScalarsValid(p) ==> ScalarFieldsOk(b)
    ensures RecipeScalarsValid(r) && ScalarFieldsOk(b) ==> RecipeScalarsValid(p)
  {
  }

  lemma PatchedListsValid(b: RecipeBody, r: Recipe, p: Recipe, now: int)
    requires b.ingredients.None? ==> p.ingredients == r.ingredients
    requires b.ingredients.Some? ==> CastIngredients(b.ingredients.value) == Some(p.ingredients)
    requires p.instructions == Pick(b.instructions, r.instructions)
    requires p.dietaryTags == Pick(b.dietaryTags, r.dietaryTags)
    requires b.comments.None? ==> p.comments == r.comments
    requires b.comments.Some? ==> CastComments(b.comments.value, now) == Some(p.comments)
    ensures RecipeListsValid(p) ==> ListFieldsOk(b)
    ensures RecipeListsValid(r) && ListFieldsOk(b) ==> RecipeListsValid(p)
  {
    if b.ingredients.Some? {
      CastIngredientsValid(b.ingredients.value);
    }
    if b.comments.Some? {
      CastCommentsValid(b.comments.value, now);
    }
  }

  /** A recipe built from a body with every required property meets the schema exactly when the body's properties do. */
  lemma CreatedRecipeValid(b: RecipeBody, p: Recipe, now: int)
    requires RecipeRequiredPresent(b)
    requires p.title == Trim(b.title.value) && p.description == b.description.value
    requires CastIngredients(OrEmpty(b.ingredients)) == Some(p.ingredients)
    requires p.instructions == OrEmpty(b.instructions)
    requires p.prepTime == b.prepTime.value && p.cookTime == b.cookTime.value
    requires p.servings == b.servings.value && p.difficulty == b.difficulty.value
    requires p.dietaryTags == OrEmpty(b.dietaryTags) && p.calories == b.calories.value
    requires CastComments(OrEmpty(b.comments), now) == Some(p.comments)
    ensures ValidRecipe(p) <==> RecipeFieldsOk(b)
  {
    assert RecipeScalarsValid(p) <==> ScalarFieldsOk(b);
    CastIngredientsValid(OrEmpty(b.ingredients));
    CastCommentsValid(OrEmpty(b.comments), now);
    assert RecipeListsValid(p) <==> ListFieldsOk(b);
  }

  /**
   * `Recipe.create` on a body together with the author and image the controller adds,
   * comments without a date stamped `now`: the document exactly when every required
   * property is present and every property meets its rule. Each stored property is the
   * body's, after the `trim` setters; array properties the body leaves out start empty.
   */
  function NewRecipe(b: RecipeBody, author: UserId, image: Field<string>, now: int): (r: Option<Recipe>)
    ensures r.Some? <==> RecipeRequiredPresent(b) && RecipeFieldsOk(b)
    ensures r.Some? ==> ValidRecipe(r.value)
    ensures r.Some? ==>
      && r.value.title == Trim(b.title.value)
      && r.value.description == b.description.value
      && r.value.instructions == OrEmpty(b.instructions)
      && r.value.prepTime == b.prepTime.value
      && r.value.cookTime == b.cookTime.value
      && r.value.servings == b.servings.value
      && r.value.difficulty == b.difficulty.value
      && r.value.tags == TrimEach(OrEmpty(b.tags))
      && r.value.dietaryTags == OrEmpty(b.dietaryTags)
      && r.value.calories == b.calories.value
    ensures r.Some? ==>
      && CastIngredients(OrEmpty(b.ingredients)).Some?
      && r.value.ingredients == CastIngredients(OrEmpty(b.ingredients)).value
      && CastComments(OrEmpty(b.comments), now).Some?
      && r.value.comments == CastComments(OrEmpty(b.comments), now).value
      && r.value.likes == OrEmpty(b.likes)
      && r.value.image == StoredImage(image)
      && r.value.author == author
  {
    if b.title.None? || b.description.None? || b.prepTime.None? || b.cookTime.None? || b.servings.None?
      || b.difficulty.None? || b.calories.None? then None
    else
      var ings := CastIngredients(OrEmpty(b.ingredients));
      var comments := CastComments(OrEmpty(b.comments), now);
      CastIngredientsValid(OrEmpty(b.ingredients));
      CastCommentsValid(OrEmpty(b.comments), now);
      if ings.None? || comments.None? then None
      else
        var r := Recipe(Trim(b.title.value), b.description.value, ings.value, OrEmpty(b.instructions),
                        b.prepTime.value, b.cookTime.value, b.servings.value, b.difficulty.value,
                        TrimEach(OrEmpty(b.tags)), OrEmpty(b.dietaryTags), b.calories.value,
                        StoredImage(image), author, OrEmpty(b.likes), comments.value);
        CreatedRecipeValid(b, r, now);
        if ValidRecipe(r) then Some(r) else None
  }

  /**
   * `findByIdAndUpdate` with validators on: every property the body carries replaces the
   * stored one (the author, likes and comments included), after the same `trim` setters;
   * the image is set to `image`; the update is refused when the result breaks the schema.
   * On a stored recipe that meets the schema, that is exactly when a property the body
   * carries breaks its rule.
   */
  function PatchRecipe(r: Recipe, b: RecipeBody, image: Option<string>, now: int): (r': Option<Recipe>)
    ensures r'.Some? ==> ValidRecipe(r'.value) && RecipeFieldsOk(b)
    ensures ValidRecipe(r) && RecipeFieldsOk(b) ==> r'.Some?
    ensures r'.Some? ==>
      && r'.value.title == (if b.title.Some? then Trim(b.title.value) else r.title)
      && r'.value.description == Pick(b.description, r.description)
      && r'.value.instructions == Pick(b.instructions, r.instructions)
      && r'.value.prepTime == Pick(b.prepTime, r.prepTime)
      && r'.value.cookTime == Pick(b.cookTime, r.cookTime)
      && r'.value.servings == Pick(b.servings, r.servings)
      && r'.value.difficulty == Pick(b.difficulty, r.difficulty)
      && r'.value.tags == (if b.tags.Some? then TrimEach(b.tags.value) else r.tags)
      && r'.value.dietaryTags == Pick(b.dietaryTags, r.dietaryTags)
      && r'.value.calories == Pick(b.calories, r.calories)
    ensures r'.Some? ==>
      && (b.ingredients.None? ==> r'.value.ingredients == r.ingredients)
      && (b.ingredients.Some? ==> CastIngredients(b.ingredients.value) == Some(r'.value.ingredients))
      && (b.comments.None? ==> r'.value.comments == r.comments)
      && (b.comments.Some? ==> CastComments(b.comments.value, now) == Some(r'.value.comments))
      && r'.value.likes == Pick(b.likes, r.likes)
      && r'.value.image == image
      && r'.value.author == Pick(b.author, r.author)
  {
    var ings := if b.ingredients.Some? then CastIngredients(b.ingredients.value) else Some(r.ingredients);
    var comments := if b.comments.Some? then CastComments(b.comments.value, now) else Some(r.comments);
    if ings.None? || comments.None? then None
    else
      var p := Patched(r, b, image, ings.value, comments.value);
      PatchedRecipeValid(r, b, image, ings.value, comments.value, now);
      if ValidRecipe(p) then Some(p) else None
  }

  /** The ingredient amount has no lower bound: a recipe needing -1 g of flour is stored. */
  lemma NegativeAmountAccepted(author: UserId, now: int)
    ensures
      var b := RecipeBody(None, Some("Bread"), Some("Plain"), Some([IngredientInput(Some("flour"), Some(-1.0), Some("g"))]),
                          None, Some(0.0), Some(0.0), Some(1.0), Some("easy"), None, None, Some(0.0), None, None);
      NewRecipe(b, author, Null, now).Some?
  {
    var b := RecipeBody(None, Some("Bread"), Some("Plain"), Some([IngredientInput(Some("flour"), Some(-1.0), Some("g"))]),
                        None, Some(0.0), Some(0.0), Some(1.0), Some("easy"), None, None, Some(0.0), None, None);
    TrimIdempotent("Bread");
    TrimIdempotent("flour");
    assert ScalarFieldsOk(b);
    assert IngredientInputOk(b.ingredients.value[0]);
    assert ListFieldsOk(b);
  }

  /** The name is trimmed before `required` looks at it, so a blank name refuses the update. */
  lemma BlankNameRefused(r: Recipe, now: int)
    ensures
      var b := RecipeBody(None, None, None, Some([IngredientInput(Some(" "), Some(1.0), Some("g"))]),
                          None, None, None, None, None, None, None, None, None, None);
      PatchRecipe(r, b, r.image, now).None?
  {
    TrimBlank(" ");
  }

  // ---------------------------------------------------------------- meal plans

  /**
   * A meal as a request body carries it. `kind` and `recipeText` stand for the body's
   * `type` and `recipeId` properties, which the meal-plan validator reads but the schema
   * does not declare (the schema reads `mealType` and `recipe`).
   */
  datatype MealInput = MealInput(
    day: Option<string>,
    mealType: Option<string>,
    recipe: Option<RecipeId>,
    notes: Option<string>,
    kind: Option<string>,
    recipeText: Option<string>)

  datatype MealSlot = MealSlot(day: string, mealType: string, recipe: RecipeId, notes: Option<string>)

  /** The nested `ingredient` object of a stored shopping-list entry; the schema constrains none of its fields. */
  datatype ItemIngredient = ItemIngredient(name: Option<string>, amount: Option<real>, unit: Option<string>)

  /** A stored shopping-list entry: its own id, the nested ingredient and the purchased flag. */
  datatype ShoppingListEntry = ShoppingListEntry(id: ItemId, ingredient: ItemIngredient, purchased: bool)

  datatype MealPlan = MealPlan(
    user: UserId,
    weekStartDate: string,
    meals: seq<MealSlot>,
    totalCalories: real,
    dietaryPreferences: seq<string>,
    budget: real,
    shoppingList: seq<ShoppingListEntry>)

  predicate ValidMealSlot(m: MealSlot) {
    m.day in Days && m.mealType in MealTypes
  }

  predicate ValidMealPlan(p: MealPlan) {
    && (forall i :: 0 <= i < |p.meals| ==> ValidMealSlot(p.meals[i]))
    && p.totalCalories >= 0.0
    && PreferencesOk(p.dietaryPreferences)
    && p.budget >= 0.0
  }

  predicate PreferencesOk(xs: seq<string>) {
    forall i :: 0 <= i < |xs| ==> xs[i] in DietaryTags
  }

  /** What the meal schema demands of a body meal. */
  predicate MealInputOk(m: MealInput) {
    m.day.Some? && m.mealType.Some? && m.recipe.Some? && m.day.value in Days && m.mealType.value in MealTypes
  }

  /** Casts body meals, keeping only the schema's properties; fails when day, mealType or recipe is missing. */
  function CastMeals(xs: seq<MealInput>): (r: Option<seq<MealSlot>>)
    ensures r.Some? <==> forall i :: 0 <= i < |xs| ==> xs[i].day.Some? && xs[i].mealType.Some? && xs[i].recipe.Some?
    ensures r.Some? ==> |r.value| == |xs|
    ensures r.Some? ==> forall i :: 0 <= i < |xs| ==>
      r.value[i] == MealSlot(xs[i].day.value, xs[i].mealType.value, xs[i].recipe.value, xs[i].notes)
  {
    if xs == [] then Some([])
    else
      var x := xs[0];
      var rest := CastMeals(xs[1..]);
      if x.day.Some? && x.mealType.Some? && x.recipe.Some? && rest.Some? then
        Some([MealSlot(x.day.value, x.mealType.value, x.recipe.value, x.notes)] + rest.value)
      else
        None
  }

  /** The cast meals all validate exactly when every body meal meets the meal schema. */
  lemma CastMealsValid(xs: seq<MealInput>)
    ensures (CastMeals(xs).Some? && forall i :: 0 <= i < |xs| ==> ValidMealSlot(CastMeals(xs).value[i]))
      <==> forall i :: 0 <= i < |xs| ==> MealInputOk(xs[i])
  {
  }

  /** The meal-plan properties a create request body may carry. */
  datatype MealPlanBody = MealPlanBody(
    weekStartDate: Option<string>,
    meals: Option<seq<MealInput>>,
    dietaryPreferences: Option<seq<string>>,
    budget: Option<real>)

  /**
   * `MealPlan.create` on a body together with the owner, calorie total and shopping list
   * the controller adds: the document exactly when the week start and a budget of at least
   * 0 are present, the calorie total is at least 0, every meal meets the meal schema and
   * every preference is a dietary tag. Each stored property is the body's.
   */
  function NewMealPlan(b: MealPlanBody, user: UserId, totalCalories: real, list: seq<ShoppingListEntry>): (p: Option<MealPlan>)
    ensures p.Some? <==>
      && b.weekStartDate.Some? && b.budget.Some? && b.budget.value >= 0.0 && totalCalories >= 0.0
      && (forall i :: 0 <= i < |OrEmpty(b.meals)| ==> MealInputOk(OrEmpty(b.meals)[i]))
      && PreferencesOk(OrEmpty(b.dietaryPreferences))
    ensures p.Some? ==> ValidMealPlan(p.value) && p.value.user == user
    ensures p.Some? ==> p.value.totalCalories == totalCalories && p.value.shoppingList == list
    ensures p.Some? ==> b.weekStartDate == Some(p.value.weekStartDate) && b.budget == Some(p.value.budget)
    ensures p.Some? ==> CastMeals(OrEmpty(b.meals)) == Some(p.value.meals)
    ensures p.Some? ==> p.value.dietaryPreferences == OrEmpty(b.dietaryPreferences)
    ensures totalCalories < 0.0 ==> p.None?
  {
    var meals := CastMeals(OrEmpty(b.meals));
    CastMealsValid(OrEmpty(b.meals));
    if b.weekStartDate.None? || b.budget.None? || meals.None? then None
    else
      var p := MealPlan(user, b.weekStartDate.value, meals.value, totalCalories,
                        OrEmpty(b.dietaryPreferences), b.budget.value, list);
      if ValidMealPlan(p) then Some(p) else None
  }

  /**
   * The meal-plan properties an update request body may carry. The body is passed to the
   * store unfiltered, so it may also set the owner.
   */
  datatype MealPlanPatch = MealPlanPatch(
    user: Option<UserId>,
    weekStartDate: Option<string>,
    meals: Option<seq<MealInput>>,
    totalCalories: Option<real>,
    dietaryPreferences: Option<seq<string>>,
    budget: Option<real>)

  /** Every property the update body carries meets its schema rule. */
  predicate MealPlanPatchOk(b: MealPlanPatch) {
    && (b.meals.Some? ==> forall i :: 0 <= i < |b.meals.value| ==> MealInputOk(b.meals.value[i]))
    && (b.totalCalories.Some? ==> b.totalCalories.value >= 0.0)
    && (b.dietaryPreferences.Some? ==> PreferencesOk(b.dietaryPreferences.value))
    && (b.budget.Some? ==> b.budget.value >= 0.0)
  }

  /**
   * `findByIdAndUpdate` with validators on: each property the body carries replaces the
   * stored one, and the update is refused when the result breaks the schema. On a stored
   * plan that meets the schema, that is exactly when a property the body carries breaks its rule.
   */
  function PatchMealPlan(p: MealPlan, b: MealPlanPatch): (p': Option<MealPlan>)
    ensures p'.Some? ==> ValidMealPlan(p'.value) && MealPlanPatchOk(b)
    ensures ValidMealPlan(p) && MealPlanPatchOk(b) ==> p'.Some?
    ensures p'.Some? ==> p'.value.shoppingList == p.shoppingList
    ensures p'.Some? && b.totalCalories.None? ==> p'.value.totalCalories == p.totalCalories
    ensures p'.Some? ==> p'.value.user == (Pick(b.user, p.user))
    ensures p'.Some? ==>
      && p'.value.weekStartDate == Pick(b.weekStartDate, p.weekStartDate)
      && (b.meals.None? ==> p'.value.meals == p.meals)
      && (b.meals.Some? ==> CastMeals(b.meals.value) == Some(p'.value.meals))
      && p'.value.totalCalories == Pick(b.totalCalories, p.totalCalories)
      && p'.value.dietaryPreferences == Pick(b.dietaryPreferences, p.dietaryPreferences)
      && p'.value.budget == Pick(b.budget, p.budget)
  {
    var meals := if b.meals.Some? then CastMeals(b.meals.value) else Some(p.meals);
    CastMealsValid(OrEmpty(b.meals));
    if meals.None? then None
    else
      var q := p.(
        user := Pick(b.user, p.user),
        weekStartDate := Pick(b.weekStartDate, p.weekStartDate),
        meals := meals.value,
        totalCalories := Pick(b.totalCalories, p.totalCalories),
        dietaryPreferences := Pick(b.dietaryPreferences, p.dietaryPreferences),
        budget := Pick(b.budget, p.budget));
      if ValidMealPlan(q) then Some(q) else None
  }
}
