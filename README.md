# Recipe and meal-plan backend: a verified model of its core

This Dafny project models the core of a recipe-sharing and meal-planning web backend:

- **Meal-plan derivation.** A new plan fetches the recipes its meals reference. It adds up their calories and consolidates every ingredient into a shopping list: one entry per `name-unit` key, amounts summed, entries in order of first appearance. One entry's `purchased` flag can be flipped later. Every plan operation first checks that the plan exists and that the caller owns it.
- **Recipe mutations.** Create, update and delete recipes; only the author may update or delete. A like toggles on and off. Comments are appended. The listing filter is built from the query string, and the `dietaryTags` parameter is split on commas.
- **Read-path cache.** A middleware answers a repeated GET from a key-value store with expiring entries. On a miss it runs the route handler and stores what the handler sends.
- **Value rules.** These are the request-body rule sets and the 400 gate in front of them. They also cover the enumerations, lower bounds and defaults of the two stored document kinds.

The modules follow the source files:

| module | file | models |
|---|---|---|
| `Common` | `common.dfy` | ids, `Option`, the status/message reply |
| `Schema` | `schema.dfy` | `src/models/Recipe.js`, `src/models/MealPlan.js`: documents, validity, casting a body into a document |
| `ShoppingList` | `shopping.dfy` | `generateShoppingList`, the calorie sum and the `$in` fetch of `src/controllers/mealPlanController.js` |
| `MealPlans` | `mealplans.dfy` | the handlers of `src/controllers/mealPlanController.js` over a plan collection |
| `Recipes` | `recipes.dfy` | the handlers of `src/controllers/recipeController.js` over a recipe collection |
| `Cache` | `cache.dfy` | `src/middleware/cache.js` |
| `Validation` | `validation.dfy` | `src/middleware/validate.js` |

**How the state is modelled.**
- The schema's `trim` setters (ingredient name, title, tags) run on creates and on validated updates alike. A name or title made of white space only is therefore refused.
- The document stores are classes whose fields are maps from id to document. Each handler is a method that changes those maps and returns the HTTP status with either the document or the message.
- `generateShoppingList` is an imperative method. Its dictionary is a `map` plus the key insertion order. It is proved equal to a reference fold, `Consolidate`, and the lemmas state what that fold means.
- The cache store is a class holding a map of entries with expiry times. The clock is a parameter.
- JSON text is symbolic: a `Text` is the serialization of a `Value`.
- JavaScript numbers are `real`. Document ids are natural numbers.

**Where the code and its design description disagree, the model follows the code:**
- Recipes are fetched with `$in`, so a recipe that several meals reference counts once, in the calories and in the shopping list. The design description counts it once per reference (300 + 300 + 500 = 1100); the code gives 800 (`ShoppingList.RepeatedRecipeCountsOnce`).
- The code never invalidates cache entries on a write; entries only expire. There is also no plan regeneration that carries `purchased` flags forward. The model has neither.
- The recipe validator admits the dietary tag `low-carb`, which the schema refuses. It also admits any non-blank unit, while the schema admits only nine.
- The meal validator reads `type` and `recipeId`, while the schema stores `mealType` and `recipe`.
- The schema's default image is applied only when the image is missing. `createRecipe` always sets it, to `null` when no file was uploaded, so the default never applies through the controller.
- `updateMealPlan` passes the body through unfiltered. It can change the owner, and it does not recompute the calorie total or the shopping list.
- Two defects keep the files from loading as written:
  - `src/middleware/validate.js` never imports `body`.
  - The export block of `src/controllers/recipeController.js` names identifiers it never declares.

  The model assumes the evidently intended definitions. The meal-plan routes never apply the validators, and no route applies the cache middleware; the model covers both as written.

## Model

| member | source | states |
|---|---|---|
| `Schema.TrimIsStartThenEnd` | src/models/Recipe.js:24 | the `trim` setter's result is the value with all its leading and then all its trailing white space dropped (JavaScript's white-space and line-terminator characters) |
| `Schema.TrimIdempotent` | src/models/Recipe.js:7 | a value without padding is stored unchanged, and trimming a trimmed value changes nothing |
| `Schema.TrimBlank` | src/models/Recipe.js:4-8 | a value trims to the empty string, which `required` refuses, exactly when it is all white space |
| `Schema.CastIngredients` | src/models/Recipe.js:3-18 | casting body ingredients succeeds exactly when every ingredient has a name, an amount and a unit, and keeps them one for one, in order, each name trimmed |
| `Schema.CastIngredientsValid` | src/models/Recipe.js:3-18 | the cast ingredients all meet the ingredient schema exactly when every body ingredient has a name that is not blank once trimmed, an amount, and a unit from the nine |
| `Schema.CastComments` | src/models/Recipe.js:81-95 | casting body comments succeeds exactly when each has a user and a text, keeps them one for one, and dates an undated one `now` |
| `Schema.CastCommentsValid` | src/models/Recipe.js:81-95 | the cast comments all carry text exactly when every body comment has a user and a non-empty text |
| `Schema.CreatedRecipeValid` | src/models/Recipe.js:20-95 | a recipe built from a body with every required property meets the schema exactly when each of the body's properties meets its rule |
| `Schema.PatchedRecipeValid` | src/controllers/recipeController.js:106-110 | a patched recipe that meets the schema comes from a body whose properties all meet their rules; a stored recipe that meets the schema, patched by such a body, still meets it |
| `Schema.NewRecipe` | src/models/Recipe.js:20-95 | a create is accepted exactly when title, description, prepTime, cookTime, servings, difficulty and calories are present and every property the body carries meets its rule (trimmed title non-blank, ingredient and comment rules, unit, difficulty and dietary-tag enumerations, prepTime/cookTime/calories ≥ 0, servings ≥ 1); the stored recipe meets the schema, takes every property from the body (title and tags trimmed, ingredients and comments cast, missing arrays empty, likes and comments as the body presets them), the author given, and the image default only when the image is missing |
| `Schema.PatchRecipe` | src/controllers/recipeController.js:101-110 | an update that succeeds meets the schema and has a body whose every property meets its rule; on a stored recipe that meets the schema, such a body always succeeds; every property the body carries replaces the stored one (title and tags trimmed, ingredients and comments cast, the author, likes and comments included) and every other is kept, and the image is the chosen one |
| `Schema.CastMeals` | src/models/MealPlan.js:13-30 | casting meals succeeds exactly when each has a day, a meal type and a recipe, and keeps them one for one |
| `Schema.CastMealsValid` | src/models/MealPlan.js:13-30 | the cast meals all meet the meal schema exactly when every body meal has a weekday, a meal type from the four and a recipe |
| `Schema.NewMealPlan` | src/models/MealPlan.js:3-55 | a create is accepted exactly when the week start and a budget ≥ 0 are present, the calorie total is ≥ 0, every meal has a weekday, a meal type and a recipe, and every dietary preference is one of the six tags; the stored plan meets the schema, belongs to the given user, and takes the week start, budget, cast meals and preferences from the body and the calorie total and list given |
| `Schema.PatchMealPlan` | src/controllers/mealPlanController.js:87-91 | an update that succeeds meets the schema and has a body whose every property meets its rule; on a stored plan that meets the schema, such a body always succeeds; each property the body carries (the owner included) replaces the stored one, every other is kept, and the shopping list is never touched |
| `ShoppingList.KeyInjective` | src/controllers/mealPlanController.js:158 | two `name-unit` keys whose units contain no `-` are equal only for equal names and units |
| `ShoppingList.KeyInjectiveOnUnits` | src/models/Recipe.js:13-17 | for units from the schema's enumeration, keys are equal exactly when name and unit are equal |
| `ShoppingList.KeyCollisionOutsideUnits` | src/controllers/mealPlanController.js:158 | without the unit enumeration, `a-b`/`c` and `a`/`b-c` share a key and are merged into one entry |
| `ShoppingList.IndexOfKey` | src/controllers/mealPlanController.js:159 | the lookup finds the first entry with the key, or reports that no entry has it |
| `ShoppingList.Consolidate` | src/controllers/mealPlanController.js:153-172 | the consolidated list is no longer than the ingredient list and no two entries share a key (so the empty input gives the empty list) |
| `ShoppingList.ValuesKeyed` | src/controllers/mealPlanController.js:171 | `Object.values` of the dictionary yields one value per key in insertion order: the values' keys are the key order, no two values share a key, and every value of the dictionary is among them |
| `ShoppingList.FileIngredients` | src/controllers/mealPlanController.js:157-168 | filing one recipe's ingredients into the dictionary keeps it equal to the reference fold over everything filed so far |
| `ShoppingList.GenerateShoppingList` | src/controllers/mealPlanController.js:153-172 | the dictionary walk returns exactly the reference fold over the recipes' ingredients, in recipe order |
| `ShoppingList.FirstAppearancesFacts` | src/controllers/mealPlanController.js:171 | first appearances keep every key once, lose none, and are as long as the input exactly when it has no repeats |
| `ShoppingList.ConsolidateKeys` | src/controllers/mealPlanController.js:154-171 | the entries' keys are the input's keys in order of first appearance |
| `ShoppingList.ConsolidateSums` | src/controllers/mealPlanController.js:159-160 | each entry's amount is the sum of the amounts of all ingredients with its key |
| `ShoppingList.ConsolidateFirstSeen` | src/controllers/mealPlanController.js:161-166 | each entry takes its name and unit from the first ingredient filed under its key |
| `ShoppingList.ConsolidateLength` | src/controllers/mealPlanController.js:154-171 | the list is at most as long as the input, and exactly as long when no key repeats |
| `ShoppingList.KeySumIsPairSum` | src/controllers/mealPlanController.js:158 | with schema units, summing by string key is summing by (name, unit) pair |
| `ShoppingList.ConsolidateCoversPairs` | src/controllers/mealPlanController.js:158-167 | with schema units, every (name, unit) pair of the input has an entry and no two entries share a pair, so the same name in different units stays separate |
| `ShoppingList.ConsolidatePairSums` | src/controllers/mealPlanController.js:156-169 | with schema units, each entry's amount is the sum over all ingredients with its name and unit |
| `ShoppingList.TotalCaloriesAppend` | src/controllers/mealPlanController.js:53 | the calorie sum of two recipe lists is the sum of their sums |
| `ShoppingList.TotalCaloriesNonNegative` | src/controllers/mealPlanController.js:53 | the calorie sum is at least 0 when every recipe's calories are |
| `ShoppingList.FetchInIgnoresRepeats` | src/controllers/mealPlanController.js:50-51 | the `$in` fetch depends only on which ids are referenced, not on how often or in what order |
| `ShoppingList.RepeatedRecipeCountsOnce` | src/controllers/mealPlanController.js:50-53 | meals referencing a 300-calorie recipe twice and a 500-calorie recipe once total 800 |
| `MealPlans.Nest` | src/models/MealPlan.js:45-55 | stored entries get consecutive fresh ids and `purchased` false, one per consolidated item |
| `MealPlans.NestRoundTrip` | src/models/MealPlan.js:45-55 | the nested entries read back as exactly the consolidated items |
| `MealPlans.CastFlatItems` | src/controllers/mealPlanController.js:162-166 | the flat items as written are stored as entries with fresh ids and `purchased` false |
| `MealPlans.FlatItemsLoseIngredients` | src/controllers/mealPlanController.js:162-166 | stored as written, a non-empty list has no ingredient names and cannot be read back |
| `MealPlans.IndexOfItem` | src/controllers/mealPlanController.js:138 | the item lookup finds the first entry with the id, or reports that none has it |
| `MealPlans.FlipPurchased` | src/controllers/mealPlanController.js:138-144 | the flip fails exactly when no entry has the id, and keeps the list length otherwise |
| `MealPlans.FlipChangesOnlyThatItem` | src/controllers/mealPlanController.js:143 | the flip changes the purchased flag of the entry with the id and nothing else, and keeps ids distinct |
| `MealPlans.FlipTwice` | src/controllers/mealPlanController.js:143-144 | flipping the same entry twice restores the list |
| `MealPlans.RecipeRefs` | src/controllers/mealPlanController.js:50 | the fetched ids are exactly the recipes the meals reference |
| `MealPlans.MealPlanStore.GetMealPlans` | src/controllers/mealPlanController.js:7-17 | returns exactly the caller's plans |
| `MealPlans.MealPlanStore.GetMealPlanById` | src/controllers/mealPlanController.js:22-40 | 404 for a missing plan, 401 for another user's plan, the plan otherwise |
| `MealPlans.PlanFor` | src/controllers/mealPlanController.js:49-62 | the plan a create stores belongs to the caller, meets the schema, carries the fetched recipes' calorie sum, and its entries have consecutive ids, nothing purchased, and read back as the recipes' consolidated ingredients |
| `MealPlans.MealPlanStore.CreateMealPlan` | src/controllers/mealPlanController.js:45-69 | without meals, 500 and nothing stored; otherwise the plan is stored under a fresh id exactly when the schema accepts the derived plan, and the reply is that plan: the caller's, whose calories are the fetched recipes' sum and whose list reads back as their consolidated ingredients, nothing purchased; any failure stores nothing |
| `MealPlans.MealPlanStore.UpdateMealPlan` | src/controllers/mealPlanController.js:74-97 | 404 and 401 guards leave the store unchanged; otherwise the patched plan replaces the stored one, or 500 and nothing changes when the schema refuses it |
| `MealPlans.MealPlanStore.DeleteMealPlan` | src/controllers/mealPlanController.js:102-120 | 404 and 401 guards leave the store unchanged; otherwise exactly that plan is removed |
| `MealPlans.MealPlanStore.UpdateShoppingListItem` | src/controllers/mealPlanController.js:125-150 | 404 and 401 guards, then 404 for an unknown item id, all leaving the store unchanged; otherwise only the flipped list changes |
| `MealPlans.ToggleTwiceRestores` | src/controllers/mealPlanController.js:143-144 | toggling the same item twice through the store restores the plans |
| `Recipes.IndexOfUser` | src/controllers/recipeController.js:156 | `indexOf` gives the first position of the user, and -1 exactly when the user has not liked |
| `Recipes.ToggledLikes` | src/controllers/recipeController.js:156-161 | an absent user is appended; for a present user exactly the like at the user's first position is removed |
| `Recipes.ToggleRemovesFirst` | src/controllers/recipeController.js:156-161 | whatever position holds a user's first like, a toggle removes exactly that like and keeps the rest in order |
| `Recipes.ToggleKeepsOthers` | src/controllers/recipeController.js:156-161 | other users' likes keep their order and multiplicity |
| `Recipes.ToggleCounts` | src/controllers/recipeController.js:156-161 | the likes length changes by exactly one, the caller's count by one in the toggled direction, everybody else's not at all |
| `Recipes.ToggleTwice` | src/controllers/recipeController.js:156-161 | while each user likes at most once, a toggle keeps that, flips the caller's membership, and two toggles give back the same likes (exactly the same when the caller had not liked) |
| `Recipes.Split` | src/controllers/recipeController.js:23 | splitting yields at least one piece, and no piece holds the separator |
| `Recipes.JoinSplit` | src/controllers/recipeController.js:23 | joining the pieces with commas gives back the parameter |
| `Recipes.SplitJoin` | src/controllers/recipeController.js:23 | comma-free pieces are recovered by splitting their join |
| `Recipes.BuildRecipeQuery` | src/controllers/recipeController.js:10-30 | each clause is present exactly when its parameter is truthy (so no parameters gives the empty filter); tags are the comma-split parameter and difficulty is an equality |
| `Recipes.FilterSelection` | src/controllers/recipeController.js:11-30 | the empty filter selects every recipe; a difficulty filter selects exactly that difficulty |
| `Recipes.SingleTagSelects` | src/controllers/recipeController.js:22-25 | a comma-free tag selects exactly the recipes carrying it |
| `Recipes.RecipeStore.GetRecipeById` | src/controllers/recipeController.js:46-61 | 404 for a missing recipe, the recipe otherwise |
| `Recipes.RecipeStore.CreateRecipe` | src/controllers/recipeController.js:66-83 | 201 with a fresh recipe exactly when the schema accepts the body with the caller as author and the upload (or null) as image, and the stored recipe is that one, likes and comments as the body presets them; otherwise 500 and nothing stored |
| `Recipes.RecipeStore.UpdateRecipe` | src/controllers/recipeController.js:88-118 | 404 and 401 guards leave the store unchanged; on the author's recipe the update succeeds exactly when every property the body carries meets its rule, and then the patched recipe replaces the stored one; without an upload the stored image is kept; a refused update answers 500 and changes nothing |
| `Recipes.RecipeStore.DeleteRecipe` | src/controllers/recipeController.js:123-143 | 404 and 401 guards leave the store unchanged; otherwise exactly that recipe is removed |
| `Recipes.RecipeStore.ToggleLike` | src/controllers/recipeController.js:148-170 | 404 leaves the store unchanged; otherwise only the recipe's likes change, to the toggled likes |
| `Recipes.RecipeStore.AddComment` | src/controllers/recipeController.js:175-197 | 404, or 500 for a missing or empty text, leave the store unchanged; a present recipe with a non-empty text always gets the comment: exactly one comment by the caller, dated now, is appended and nothing else changes |
| `Cache.CacheKey` | src/middleware/cache.js:10 | the key is the `cache:` prefix followed by the URL |
| `Cache.CacheKeyInjective` | src/middleware/cache.js:10 | identical URLs share a key and different URLs get different keys |
| `Cache.AsWrittenHitDiffers` | src/middleware/cache.js:13-25 | an entry stored as written is served as a JSON string, not as the body first sent |
| `Cache.CorrectedHitSame` | src/middleware/cache.js:13-25 | an entry stored as the text sent is served as exactly that text |
| `Cache.LiveAfterSetex` | src/middleware/cache.js:13-14 | after storing a text with a positive duration, reading the key is a hit with that text exactly until the duration has passed, and every other key reads as before |
| `Cache.CacheStore.Handle` | src/middleware/cache.js:4-31 | a non-GET runs the handler and leaves the store untouched; a store failure goes to the error handler; a hit is served with status 200 without running the handler; a miss runs it, sends its status and body, and stores the body, error bodies included, until now + duration |
| `Cache.RepeatedGet` | src/middleware/cache.js:13-27 | a GET repeated before expiry is served, without the handler, with the body the first one sent and status 200, even when the first answer was an error status such as 404 |
| `Validation.ParseIntText` | src/middleware/validate.js:22-26 | printing an integer and reading it as `isInt` does gives it back |
| `Validation.IntValue` | src/middleware/validate.js:22-26 | a whole number is read as itself |
| `Validation.Optional` | src/middleware/validate.js:31-42 | an optional rule reports nothing for an undefined property and otherwise reports exactly when the rule fails |
| `Validation.EachReports` | src/middleware/validate.js:17-21 | a wildcard rule reports nothing exactly when every reached value passes, and each report names a failing element |
| `Validation.Validate` | src/middleware/validate.js:3-9 | 400 with the whole error list exactly when it is non-empty; otherwise the request goes on |
| `Validation.RecipeTextErrors` | src/middleware/validate.js:14-15 | no error exactly when title and description are non-blank |
| `Validation.IngredientErrorsIff` | src/middleware/validate.js:16-19 | no error exactly when ingredients is an array whose every element has a non-blank name, a numeric amount and a non-blank unit |
| `Validation.InstructionErrors` | src/middleware/validate.js:20-21 | no error exactly when instructions is an array of non-blank strings |
| `Validation.QuantityErrors` | src/middleware/validate.js:22-26 | no error exactly when prepTime, cookTime, calories are integers ≥ 0, servings an integer ≥ 1 and difficulty easy, medium or hard |
| `Validation.TagErrors` | src/middleware/validate.js:27-29 | no error exactly when dietaryTags is an array of tags from the seven-value set |
| `Validation.RecipeCreateErrorsIff` | src/middleware/validate.js:13-30 | the create rules report nothing exactly when every rule holds |
| `Validation.RecipeCreateBounds` | src/middleware/validate.js:22-26 | an accepted create body has integer times and calories ≥ 0, servings ≥ 1 and a schema difficulty |
| `Validation.RecipeUpdateRules` | src/middleware/validate.js:31-42 | an empty body passes, any body the create rules accept passes, and a property that is present meets the create bound |
| `Validation.RulesWiderThanSchema` | src/middleware/validate.js:27-29 | `low-carb` passes the tag rule yet no valid recipe carries it; the tag set strictly contains the schema's; a unit like `cups` passes the unit rule yet fails the schema |
| `Validation.MealPlanCreateBounds` | src/middleware/validate.js:47-57 | an accepted body has a meal array whose days are weekdays and whose types are meal types, and a budget given as a number is ≥ 0 |
| `Validation.MealFieldNamesDisagree` | src/middleware/validate.js:52-54 | a meal shaped as the schema wants fails the meal-type rule, and a meal shaped as the rules want cannot be stored |
| `Validation.MealPlanUpdateIgnoresOthers` | src/middleware/validate.js:58-62 | a body without the three checked properties passes, and a negative budget does not |
| `Validation.Contains` | src/middleware/validate.js:73-78 | the character-class test holds exactly when some character lies in the range |
| `Validation.PasswordRule` | src/middleware/validate.js:70-78 | a password passes exactly when it has at least 8 characters, a digit, a lower-case and an upper-case letter; at most four errors |
| `Validation.PasswordExamples` | src/middleware/validate.js:70-78 | the empty password fails and `Passw0rd` passes |
| `Validation.UserRegisterPassword` | src/middleware/validate.js:66-80 | an accepted registration carries a password that meets the password rule |
| `Validation.UserLoginPassword` | src/middleware/validate.js:81-84 | with a valid email, login passes exactly when the password is non-empty |

## Left out

- Persistence is not modelled. Mongoose's `find`, `populate`, `sort`, `save` and `deleteOne`, and MongoDB itself, are replaced by maps from id to document. Populated references are returned as ids. The listing's sort orders and the text search's regular-expression matching are not modelled; search matching is a parameter of `Recipes.Selects`.
- Concurrency between requests is not modelled, so lost updates in read-modify-write handlers cannot appear. The handlers run one at a time.
- The Redis client, its networking and `setex` timing are not modelled. The store is a map with explicit expiry and an explicit clock. A store that refuses a non-positive expiry stores nothing.
- The cache store is either up or down for a whole request. A write that fails after a successful read is not modelled.
- The response object is not modelled: replacing `res.send` and the `this` binding of the original `send`. The body sent through it is the outcome's `sent` text.
- Error messages of thrown exceptions are not modelled. A failure inside the meal-plan handlers answers 500 with a placeholder message.
- Logging, authentication, file upload, the rate limiter, route wiring and server start-up are not modelled. The caller's id and the uploaded file path are parameters.
- Numbers are not modelled exactly:
  - JavaScript numbers are `real`, with no floating-point rounding.
  - Integral numbers print as their decimal digits, with no exponent form for very large values.
  - A date is a string. Its parsing into a `Date` is not modelled.
- The library checks `isNumeric`, `isEmail`, `isISO8601`, `isMongoId`, `trim`, reading a float from a string, and the string form of a fractional number or an array are parameters.
  - The `trim` sanitizer rewrites the body for later handlers; that rewrite is not modelled.
  - A wildcard over an object's keys (rather than an array's elements) is not modelled.
  - String length is counted in characters, not UTF-16 code units.
- `Schema.PatchRecipe`: a body `image` is not modelled, because both recipe handlers override it. A body property set to null is not modelled either: a property is left out or carries a value.
- `Recipes.BuildRecipeQuery`: query parameters are modelled as strings only. The query-string parser can also produce arrays and objects, and none of those shapes is modelled. A repeated `dietaryTags` makes `split` throw, which answers 500. `difficulty[$ne]=x` puts an operator into the filter. An array `search` reaches `$regex`.
- Ids are natural numbers, so a malformed id is not modelled. On such an id `findById` throws a cast error, which every handler's catch answers with 500.
- Document timestamps (`timestamps: true`) and the ids Mongoose gives ingredient and comment subdocuments are not modelled.
- `Schema.PatchMealPlan`: a body that sets `shoppingList` directly is not modelled.
- `MealPlans.MealPlanStore.CreateMealPlan`: uses the corrected entry shape (see Findings). It reports a missing recipe reference as the schema's 500, without modelling how `$in` casts an undefined id.
- `Recipes.RecipeStore.DeleteRecipe`: removes the recipe as the controller intends. Whether `recipe.remove()` exists depends on the Mongoose version, which the source does not pin.
- `Cache.CacheStore.Handle`: stores the corrected entry (see Findings). It treats every sent body as JSON text, which holds because the handlers respond only through `res.json`.

## Findings

| source | as written | input that shows it | evidently intended | confidence | as-written member | corrected member |
|---|---|---|---|---|---|---|
| src/middleware/cache.js:15-22 | `res.json` serializes the data and hands the text to the wrapped `send`, which serializes it again before storing; a hit parses once and `res.json` serializes again, so the client receives a JSON string literal | any GET that misses and is then repeated: first body `{"a":1}`, second body `"{\"a\":1}"` | store the text that was sent, so a hit sends the same body | not executed | `Cache.AsWrittenHitDiffers` (entry `Cache.EntryAsWritten`) | `Cache.CorrectedHitSame` (entry `Cache.EntryCorrected`, used by `Cache.CacheStore.Handle`) |
| src/controllers/mealPlanController.js:162-166 | shopping-list items are flat `{name, amount, unit}` objects, but the entry schema (src/models/MealPlan.js:45-50) nests them under `ingredient`; strict mode drops the unknown properties, so stored entries lose name, amount and unit | a plan whose one recipe has ingredient `flour, 200, g`: the stored entry has an empty `ingredient` | nest each item under `ingredient` | not executed | `MealPlans.FlatItemsLoseIngredients` (entries `MealPlans.CastFlatItems`) | `MealPlans.NestRoundTrip` (entries `MealPlans.Nest`, used by `MealPlans.MealPlanStore.CreateMealPlan`) |
