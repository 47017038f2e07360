/**
 * The request-body rule sets and the gate that answers 400 when any rule failed. A body
 * is a map from property name to a JSON value; each rule set yields the list of errors
 * its rules report, in rule order, and the gate turns a non-empty list into the answer.
 *
 * Library checks whose definitions lie outside this model (string trimming, `isNumeric`,
 * `isEmail`, `isISO8601`, `isMongoId`, reading a float from a string, the string form of
 * a fractional number or of an array) come in through `Library`.
 */
module Validation {
  import opened Common
  import opened Schema

  datatype Value = Absent | Null | Text(s: string) | Number(x: real) | Items(elems: seq<Value>) | Record(fields: map<string, Value>)

  type Body = map<string, Value>

  /** One reported failure: the rule's path, the element index for a wildcard path, and the message. */
  datatype ValidationError = ValidationError(path: string, index: Option<nat>, message: string)

  datatype Library = Library(
    trim: string -> string,
    fractionText: real -> string,
    arrayText: seq<Value> -> string,
    isNumeric: string -> bool,
    isEmail: string -> bool,
    isISO8601: string -> bool,
    isMongoId: string -> bool,
    floatValue: string -> Option<real>)

  /** The dietary tags the recipe rules admit: seven values, `low-carb` among them. */
  const ValidatorDietaryTags: set<string> := {"vegetarian", "vegan", "gluten-free", "dairy-free", "low-carb", "keto", "paleo"}

  // ---------------------------------------------------------------- reading values

  function Get(fields: map<string, Value>, name: string): Value {
    if name in fields then fields[name] else Absent
  }

  /** The values a wildcard path `name.*` reaches: the elements of an array, none otherwise. */
  function Elements(v: Value): seq<Value> {
    if v.Items? then v.elems else []
  }

  /** The values a wildcard path `name.*.field` reaches, one per array element. */
  function FieldOfEach(v: Value, field: string): (vs: seq<Value>)
    ensures |vs| == |Elements(v)|
  {
    seq(|Elements(v)|, i requires 0 <= i < |Elements(v)| =>
      if Elements(v)[i].Record? then Get(Elements(v)[i].fields, field) else Absent)
  }

  predicate Digit(c: char) {
    '0' <= c <= '9'
  }

  predicate AllDigits(s: string) {
    |s| >= 1 && forall i :: 0 <= i < |s| ==> Digit(s[i])
  }

  function DigitsValue(s: string): nat
    requires forall i :: 0 <= i < |s| ==> Digit(s[i])
  {
    if s == [] then 0
    else
      assert Digit(s[|s| - 1]);
      DigitsValue(s[..|s| - 1]) * 10 + (s[|s| - 1] as int - '0' as int)
  }

  /** Decimal digits of a natural number. */
  function NatText(n: nat): (s: string)
    ensures AllDigits(s)
  {
    if n < 10 then [('0' as int + n) as char] else NatText(n / 10) + [('0' as int + n % 10) as char]
  }

  function IntText(n: int): string {
    if n < 0 then "-" + NatText(-n) else NatText(n)
  }

  /** `isInt` without options: an optional sign and at least one decimal digit, leading zeros allowed. */
  function ParseInt(s: string): Option<int> {
    if |s| >= 1 && (s[0] == '-' || s[0] == '+') && AllDigits(s[1..]) then
      var magnitude: int := DigitsValue(s[1..]);
      Some(if s[0] == '-' then -magnitude else magnitude)
    else if AllDigits(s) then Some(DigitsValue(s))
    else None
  }

  lemma {:induction false} DigitsOfNatText(n: nat)
    ensures DigitsValue(NatText(n)) == n
  {
    if n >= 10 {
      var s := NatText(n);
      DigitsOfNatText(n / 10);
      assert s[..|s| - 1] == NatText(n / 10);
    }
  }

  /** Printing an integer and reading it back gives the integer. */
  lemma ParseIntText(n: int)
    ensures ParseInt(IntText(n)) == Some(n)
  {
    if n < 0 {
      DigitsOfNatText(-n);
      assert IntText(n)[1..] == NatText(-n);
    } else {
      DigitsOfNatText(n);
    }
  }

  predicate Integral(x: real) {
    x == x.Floor as real
  }

  /** The string a validator sees: `String(value)`, and "" for undefined and null. */
  function TextOf(v: Value, lib: Library): string {
    match v
    case Absent => ""
    case Null => ""
    case Text(s) => s
    case Number(x) => if Integral(x) then IntText(x.Floor) else lib.fractionText(x)
    case Items(es) => lib.arrayText(es)
    case Record(_) => "[object Object]"
  }

  /** The integer `isInt` reads, if any; a fractional number is never an integer. */
  function IntValue(v: Value, lib: Library): (n: Option<int>)
    ensures v.Number? && Integral(v.x) ==> n == Some(v.x.Floor)
  {
    if v.Number? then
      if Integral(v.x) then (ParseIntText(v.x.Floor); Some(v.x.Floor)) else None
    else ParseInt(TextOf(v, lib))
  }

  /** `isInt({ min })`. */
  predicate IsIntAtLeast(v: Value, lib: Library, min: int) {
    IntValue(v, lib).Some? && IntValue(v, lib).value >= min
  }

  /** `isFloat({ min })`. */
  predicate IsFloatAtLeast(v: Value, lib: Library, min: real) {
    match v
    case Number(x) => x >= min
    case _ => lib.floatValue(TextOf(v, lib)).Some? && lib.floatValue(TextOf(v, lib)).value >= min
  }

  /** `trim().notEmpty()`. */
  predicate FilledTrimmed(v: Value, lib: Library) {
    lib.trim(TextOf(v, lib)) != ""
  }

  predicate IsIn(v: Value, lib: Library, allowed: set<string>) {
    TextOf(v, lib) in allowed
  }

  // ---------------------------------------------------------------- reporting

  /** A single rule: no error when it holds, one error otherwise. */
  function Check(ok: bool, path: string, message: string): (errs: seq<ValidationError>)
    ensures errs == [] <==> ok
    ensures |errs| <= 1
  {
    if ok then [] else [ValidationError(path, None, message)]
  }

  /** `optional()`: the rule is skipped when the property is undefined. */
  function Optional(v: Value, ok: bool, path: string, message: string): (errs: seq<ValidationError>)
    ensures errs == [] <==> v.Absent? || ok
  {
    if v.Absent? then [] else Check(ok, path, message)
  }

  /** A wildcard rule: one error, with its index, for each reached value the rule rejects. */
  function Each(vs: seq<Value>, ok: Value -> bool, path: string, message: string): (errs: seq<ValidationError>)
    ensures |errs| <= |vs|
  {
    if vs == [] then []
    else
      var last := |vs| - 1;
      Each(vs[..last], ok, path, message) + (if ok(vs[last]) then [] else [ValidationError(path, Some(last), message)])
  }

  /** A wildcard rule reports nothing exactly when every reached value passes, and each report names a failing value. */
  lemma {:induction false} EachReports(vs: seq<Value>, ok: Value -> bool, path: string, message: string)
    ensures Each(vs, ok, path, message) == [] <==> forall i :: 0 <= i < |vs| ==> ok(vs[i])
    ensures forall e :: e in Each(vs, ok, path, message) ==>
      e.path == path && e.message == message && e.index.Some? && e.index.value < |vs| && !ok(vs[e.index.value])
  {
    if vs != [] {
      var last := |vs| - 1;
      EachReports(vs[..last], ok, path, message);
      assert forall i :: 0 <= i < last ==> vs[..last][i] == vs[i];
    }
  }

  // ---------------------------------------------------------------- the gate

  datatype GateOutcome = Rejected(status: int, errors: seq<ValidationError>) | Next

  /** Answers 400 with the whole error list when it is non-empty, and passes the request on otherwise. */
  function Validate(errors: seq<ValidationError>): (o: GateOutcome)
    ensures o.Rejected? <==> errors != []
    ensures o.Rejected? ==> o.status == 400 && o.errors == errors
  {
    if errors != [] then Rejected(400, errors) else Next
  }

  // ---------------------------------------------------------------- recipe rules

  predicate TextAccepted(b: Body, lib: Library) {
    FilledTrimmed(Get(b, "title"), lib) && FilledTrimmed(Get(b, "description"), lib)
  }

  /** The rules on the recipe's text properties, title and description. */
  function RecipeTextErrors(b: Body, lib: Library): (errs: seq<ValidationError>)
    ensures errs == [] <==> TextAccepted(b, lib)
  {
    Check(FilledTrimmed(Get(b, "title"), lib), "title", "Title is required")
    + Check(FilledTrimmed(Get(b, "description"), lib), "description", "Description is required")
  }

  /** The rules on the ingredient array and the name, amount and unit of each ingredient. */
  function IngredientErrors(b: Body, lib: Library): seq<ValidationError> {
    var ingredients := Get(b, "ingredients");
    Check(ingredients.Items?, "ingredients", "Ingredients must be an array")
    + Each(FieldOfEach(ingredients, "name"), v => FilledTrimmed(v, lib), "ingredients.*.name", "Ingredient name is required")
    + Each(FieldOfEach(ingredients, "amount"), v => lib.isNumeric(TextOf(v, lib)), "ingredients.*.amount", "Amount must be a number")
    + Each(FieldOfEach(ingredients, "unit"), v => FilledTrimmed(v, lib), "ingredients.*.unit", "Unit is required")
  }

  predicate IngredientsAccepted(b: Body, lib: Library) {
    var ingredients := Get(b, "ingredients");
    && ingredients.Items?
    && (forall i :: 0 <= i < |ingredients.elems| ==> FilledTrimmed(FieldOfEach(ingredients, "name")[i], lib))
    && (forall i :: 0 <= i < |ingredients.elems| ==> lib.isNumeric(TextOf(FieldOfEach(ingredients, "amount")[i], lib)))
    && (forall i :: 0 <= i < |ingredients.elems| ==> FilledTrimmed(FieldOfEach(ingredients, "unit")[i], lib))
  }

  lemma IngredientErrorsIff(b: Body, lib: Library)
    ensures IngredientErrors(b, lib) == [] <==> IngredientsAccepted(b, lib)
  {
    var ingredients := Get(b, "ingredients");
    EachReports(FieldOfEach(ingredients, "name"), v => FilledTrimmed(v, lib), "ingredients.*.name", "Ingredient name is required");
    EachReports(FieldOfEach(ingredients, "amount"), v => lib.isNumeric(TextOf(v, lib)), "ingredients.*.amount", "Amount must be a number");
    EachReports(FieldOfEach(ingredients, "unit"), v => FilledTrimmed(v, lib), "ingredients.*.unit", "Unit is required");
  }

  predicate InstructionsAccepted(b: Body, lib: Library) {
    Get(b, "instructions").Items?
    && forall i :: 0 <= i < |Get(b, "instructions").elems| ==> FilledTrimmed(Get(b, "instructions").elems[i], lib)
  }

  /** The rules on the instruction array and each instruction. */
  function InstructionErrors(b: Body, lib: Library): (errs: seq<ValidationError>)
    ensures errs == [] <==> InstructionsAccepted(b, lib)
  {
    EachReports(Elements(Get(b, "instructions")), v => FilledTrimmed(v, lib), "instructions.*", "Instruction cannot be empty");
    Check(Get(b, "instructions").Items?, "instructions", "Instructions must be an array")
    + Each(Elements(Get(b, "instructions")), v => FilledTrimmed(v, lib), "instructions.*", "Instruction cannot be empty")
  }

  predicate QuantitiesAccepted(b: Body, lib: Library) {
    && IsIntAtLeast(Get(b, "prepTime"), lib, 0)
    && IsIntAtLeast(Get(b, "cookTime"), lib, 0)
    && IsIntAtLeast(Get(b, "servings"), lib, 1)
    && IsIn(Get(b, "difficulty"), lib, Difficulties)
    && IsIntAtLeast(Get(b, "calories"), lib, 0)
  }

  /** The rules on the numeric properties and the difficulty. */
  function QuantityErrors(b: Body, lib: Library): (errs: seq<ValidationError>)
    ensures errs == [] <==> QuantitiesAccepted(b, lib)
  {
    Check(IsIntAtLeast(Get(b, "prepTime"), lib, 0), "prepTime", "Prep time must be a positive number")
    + Check(IsIntAtLeast(Get(b, "cookTime"), lib, 0), "cookTime", "Cook time must be a positive number")
    + Check(IsIntAtLeast(Get(b, "servings"), lib, 1), "servings", "Servings must be at least 1")
    + Check(IsIn(Get(b, "difficulty"), lib, Difficulties), "difficulty", "Invalid difficulty level")
    + Check(IsIntAtLeast(Get(b, "calories"), lib, 0), "calories", "Calories must be a positive number")
  }

  predicate TagsAccepted(b: Body, lib: Library) {
    Get(b, "dietaryTags").Items?
    && forall i :: 0 <= i < |Get(b, "dietaryTags").elems| ==> IsIn(Get(b, "dietaryTags").elems[i], lib, ValidatorDietaryTags)
  }

  /** The rules on the dietary-tag array and each tag. */
  function TagErrors(b: Body, lib: Library): (errs: seq<ValidationError>)
    ensures errs == [] <==> TagsAccepted(b, lib)
  {
    EachReports(Elements(Get(b, "dietaryTags")), v => IsIn(v, lib, ValidatorDietaryTags), "dietaryTags.*", "Invalid dietary tag");
    Check(Get(b, "dietaryTags").Items?, "dietaryTags", "Dietary tags must be an array")
    + Each(Elements(Get(b, "dietaryTags")), v => IsIn(v, lib, ValidatorDietaryTags), "dietaryTags.*", "Invalid dietary tag")
  }

  /** Reports gathered from several rule groups are none exactly when each group's are none. */
  lemma AllEmpty<T>(a: seq<T>, b: seq<T>, c: seq<T>, d: seq<T>, e: seq<T>)
    ensures a + b + c + d + e == [] <==> a == [] && b == [] && c == [] && d == [] && e == []
  {
    assert |a + b + c + d + e| == |a| + |b| + |c| + |d| + |e|;
  }

  /** The recipe create rules, in the order they report. */
  function RecipeCreateErrors(b: Body, lib: Library): seq<ValidationError> {
    RecipeTextErrors(b, lib) + IngredientErrors(b, lib) + InstructionErrors(b, lib) + QuantityErrors(b, lib) + TagErrors(b, lib)
  }

  /** What a recipe create body must be for the rules to report nothing. */
  predicate RecipeCreateAccepted(b: Body, lib: Library) {
    && TextAccepted(b, lib)
    && IngredientsAccepted(b, lib)
    && InstructionsAccepted(b, lib)
    && QuantitiesAccepted(b, lib)
    && TagsAccepted(b, lib)
  }

  lemma RecipeCreateErrorsIff(b: Body, lib: Library)
    ensures RecipeCreateErrors(b, lib) == [] <==> RecipeCreateAccepted(b, lib)
  {
    IngredientErrorsIff(b, lib);
    AllEmpty(RecipeTextErrors(b, lib), IngredientErrors(b, lib), InstructionErrors(b, lib), QuantityErrors(b, lib), TagErrors(b, lib));
  }

  /**
   * A create body the rules accept has whole-number times and calories of at least 0,
   * at least one serving, and a difficulty from the schema's enumeration.
   */
  lemma RecipeCreateBounds(b: Body, lib: Library)
    requires RecipeCreateErrors(b, lib) == []
    ensures IntValue(Get(b, "prepTime"), lib).Some? && IntValue(Get(b, "prepTime"), lib).value >= 0
    ensures IntValue(Get(b, "cookTime"), lib).Some? && IntValue(Get(b, "cookTime"), lib).value >= 0
    ensures IntValue(Get(b, "servings"), lib).Some? && IntValue(Get(b, "servings"), lib).value >= 1
    ensures IntValue(Get(b, "calories"), lib).Some? && IntValue(Get(b, "calories"), lib).value >= 0
    ensures TextOf(Get(b, "difficulty"), lib) in Difficulties
  {
    RecipeCreateErrorsIff(b, lib);
  }

  function RecipeUpdateErrors(b: Body, lib: Library): seq<ValidationError> {
    Optional(Get(b, "title"), FilledTrimmed(Get(b, "title"), lib), "title", "Title cannot be empty")
    + Optional(Get(b, "description"), FilledTrimmed(Get(b, "description"), lib), "description", "Description cannot be empty")
    + Optional(Get(b, "ingredients"), Get(b, "ingredients").Items?, "ingredients", "Ingredients must be an array")
    + Optional(Get(b, "instructions"), Get(b, "instructions").Items?, "instructions", "Instructions must be an array")
    + Optional(Get(b, "prepTime"), IsIntAtLeast(Get(b, "prepTime"), lib, 0), "prepTime", "Prep time must be a positive number")
    + Optional(Get(b, "cookTime"), IsIntAtLeast(Get(b, "cookTime"), lib, 0), "cookTime", "Cook time must be a positive number")
    + Optional(Get(b, "servings"), IsIntAtLeast(Get(b, "servings"), lib, 1), "servings", "Servings must be at least 1")
    + Optional(Get(b, "difficulty"), IsIn(Get(b, "difficulty"), lib, Difficulties), "difficulty", "Invalid difficulty level")
    + Optional(Get(b, "calories"), IsIntAtLeast(Get(b, "calories"), lib, 0), "calories", "Calories must be a positive number")
    + Optional(Get(b, "dietaryTags"), Get(b, "dietaryTags").Items?, "dietaryTags", "Dietary tags must be an array")
  }

  /**
   * The update rules accept a body that leaves a property out, and hold every property
   * it does carry to the bound the create rules set: an empty body passes, and so does
   * any body the create rules accept.
   */
  lemma RecipeUpdateRules(b: Body, lib: Library)
    ensures RecipeUpdateErrors(map[], lib) == []
    ensures RecipeCreateErrors(b, lib) == [] ==> RecipeUpdateErrors(b, lib) == []
    ensures RecipeUpdateErrors(b, lib) == [] ==>
      && (Get(b, "prepTime").Absent? || IsIntAtLeast(Get(b, "prepTime"), lib, 0))
      && (Get(b, "cookTime").Absent? || IsIntAtLeast(Get(b, "cookTime"), lib, 0))
      && (Get(b, "servings").Absent? || IsIntAtLeast(Get(b, "servings"), lib, 1))
      && (Get(b, "calories").Absent? || IsIntAtLeast(Get(b, "calories"), lib, 0))
      && (Get(b, "difficulty").Absent? || IsIn(Get(b, "difficulty"), lib, Difficulties))
  {
    RecipeCreateErrorsIff(b, lib);
  }

  /**
   * The tag and unit rules admit values the schema refuses: `low-carb` passes the tag
   * rule but no stored recipe may carry it, and any non-blank unit passes the unit rule
   * though the schema admits only its nine units.
   */
  lemma RulesWiderThanSchema(r: Recipe, i: Ingredient, lib: Library)
    requires lib.trim("cups") == "cups"
    ensures IsIn(Text("low-carb"), lib, ValidatorDietaryTags) && "low-carb" !in DietaryTags
    ensures DietaryTags < ValidatorDietaryTags
    ensures "low-carb" in r.dietaryTags ==> !ValidRecipe(r)
    ensures FilledTrimmed(Text("cups"), lib) && !ValidIngredient(Ingredient("flour", 2.0, "cups"))
  {
    assert "low-carb" in ValidatorDietaryTags;
    if "low-carb" in r.dietaryTags {
      var k :| 0 <= k < |r.dietaryTags| && r.dietaryTags[k] == "low-carb";
    }
  }

  // ---------------------------------------------------------------- meal-plan rules

  function MealPlanCreateErrors(b: Body, lib: Library): seq<ValidationError> {
    var meals := Get(b, "meals");
    Check(lib.isISO8601(TextOf(Get(b, "weekStartDate"), lib)), "weekStartDate", "Invalid date format")
    + Check(meals.Items?, "meals", "Meals must be an array")
    + Each(FieldOfEach(meals, "day"), v => IsIn(v, lib, Days), "meals.*.day", "Invalid day of the week")
    + Each(FieldOfEach(meals, "type"), v => IsIn(v, lib, MealTypes), "meals.*.type", "Invalid meal type")
    + Each(FieldOfEach(meals, "recipeId"), v => lib.isMongoId(TextOf(v, lib)), "meals.*.recipeId", "Invalid recipe ID")
    + Check(Get(b, "dietaryPreferences").Items?, "dietaryPreferences", "Dietary preferences must be an array")
    + Check(IsFloatAtLeast(Get(b, "budget"), lib, 0.0), "budget", "Budget must be a positive number")
  }

  /** A meal-plan create body the rules accept has weekdays, meal types and a budget of at least 0. */
  lemma MealPlanCreateBounds(b: Body, lib: Library)
    requires MealPlanCreateErrors(b, lib) == []
    ensures Get(b, "meals").Items?
    ensures forall i :: 0 <= i < |Get(b, "meals").elems| ==>
      TextOf(FieldOfEach(Get(b, "meals"), "day")[i], lib) in Days
      && TextOf(FieldOfEach(Get(b, "meals"), "type")[i], lib) in MealTypes
    ensures Get(b, "budget").Number? ==> Get(b, "budget").x >= 0.0
  {
    var meals := Get(b, "meals");
    EachReports(FieldOfEach(meals, "day"), v => IsIn(v, lib, Days), "meals.*.day", "Invalid day of the week");
    EachReports(FieldOfEach(meals, "type"), v => IsIn(v, lib, MealTypes), "meals.*.type", "Invalid meal type");
  }

  /**
   * The meal rules read `type` and `recipeId`, the schema `mealType` and `recipe`: a meal
   * shaped as the schema wants fails the meal-type rule, and a meal shaped as the rules
   * want cannot be stored.
   */
  lemma MealFieldNamesDisagree(lib: Library)
    ensures var meal := Record(map["day" := Text("monday"), "mealType" := Text("lunch"), "recipe" := Text("r1")]);
      MealPlanCreateErrors(map["meals" := Items([meal])], lib) != []
    ensures CastMeals([MealInput(Some("monday"), None, None, None, Some("lunch"), Some("r1"))]).None?
  {
    var meal := Record(map["day" := Text("monday"), "mealType" := Text("lunch"), "recipe" := Text("r1")]);
    var b := map["meals" := Items([meal])];
    var types := FieldOfEach(b["meals"], "type");
    assert types[0] == Absent;
    assert !IsIn(types[0], lib, MealTypes) by {
      assert TextOf(Absent, lib) == "";
      assert forall t :: t in MealTypes ==> |t| > 0;
    }
    EachReports(types, v => IsIn(v, lib, MealTypes), "meals.*.type", "Invalid meal type");
    var typeErrors := Each(types, v => IsIn(v, lib, MealTypes), "meals.*.type", "Invalid meal type");
    assert |MealPlanCreateErrors(b, lib)| >= |typeErrors| > 0;
  }

  function MealPlanUpdateErrors(b: Body, lib: Library): seq<ValidationError> {
    Optional(Get(b, "weekStartDate"), lib.isISO8601(TextOf(Get(b, "weekStartDate"), lib)), "weekStartDate", "Invalid date format")
    + Optional(Get(b, "meals"), Get(b, "meals").Items?, "meals", "Meals must be an array")
    + Optional(Get(b, "budget"), IsFloatAtLeast(Get(b, "budget"), lib, 0.0), "budget", "Budget must be a positive number")
  }

  /** The update rules pass any body without the three properties they check, whatever else it carries. */
  lemma MealPlanUpdateIgnoresOthers(b: Body, lib: Library)
    requires "weekStartDate" !in b && "meals" !in b && "budget" !in b
    ensures MealPlanUpdateErrors(b, lib) == []
    ensures MealPlanUpdateErrors(b["budget" := Number(-1.0)], lib) != []
  {
  }

  // ---------------------------------------------------------------- user rules

  /** Whether `s` holds a character in `lo..hi`, as the regular expressions `/\d/`, `/[a-z]/`, `/[A-Z]/` test. */
  function Contains(s: string, lo: char, hi: char): (found: bool)
    ensures found <==> exists i :: 0 <= i < |s| && lo <= s[i] <= hi
  {
    if s == [] then false
    else if lo <= s[0] <= hi then true
    else
      var rest := Contains(s[1..], lo, hi);
      assert rest ==> exists i :: 0 <= i < |s[1..]| && lo <= s[1..][i] <= hi;
      assert (exists i :: 0 <= i < |s| && lo <= s[i] <= hi) ==> exists i :: 0 <= i < |s[1..]| && lo <= s[1..][i] <= hi by {
        if exists i :: 0 <= i < |s| && lo <= s[i] <= hi {
          var i :| 0 <= i < |s| && lo <= s[i] <= hi;
          assert s[1..][i - 1] == s[i];
        }
      }
      rest
  }

  /** The password chain: every failed step reports its own message. */
  function PasswordErrors(password: string): seq<ValidationError> {
    Check(|password| >= 8, "password", "Password must be at least 8 characters long")
    + Check(Contains(password, '0', '9'), "password", "Password must contain at least one number")
    + Check(Contains(password, 'a', 'z'), "password", "Password must contain at least one lowercase letter")
    + Check(Contains(password, 'A', 'Z'), "password", "Password must contain at least one uppercase letter")
  }

  /** A password passes exactly when it has eight characters, a digit, a lower-case and an upper-case letter. */
  lemma PasswordRule(password: string)
    ensures PasswordErrors(password) == [] <==>
      && |password| >= 8
      && (exists i :: 0 <= i < |password| && '0' <= password[i] <= '9')
      && (exists i :: 0 <= i < |password| && 'a' <= password[i] <= 'z')
      && (exists i :: 0 <= i < |password| && 'A' <= password[i] <= 'Z')
    ensures |PasswordErrors(password)| <= 4
  {
  }

  lemma PasswordExamples()
    ensures PasswordErrors("") != [] && PasswordErrors("Passw0rd") == []
  {
    var p := "Passw0rd";
    assert |p| == 8 && p[5] == '0' && p[1] == 'a' && p[0] == 'P';
    PasswordRule(p);
  }

  function UserRegisterErrors(b: Body, lib: Library): seq<ValidationError> {
    Check(FilledTrimmed(Get(b, "name"), lib), "name", "Name is required")
    + Check(lib.isEmail(TextOf(Get(b, "email"), lib)), "email", "Invalid email format")
    + PasswordErrors(TextOf(Get(b, "password"), lib))
    + Check(Get(b, "dietaryPreferences").Items?, "dietaryPreferences", "Dietary preferences must be an array")
  }

  /** A registration the rules accept carries a password that meets the password rule. */
  lemma UserRegisterPassword(b: Body, lib: Library)
    requires UserRegisterErrors(b, lib) == []
    ensures PasswordErrors(TextOf(Get(b, "password"), lib)) == []
    ensures |TextOf(Get(b, "password"), lib)| >= 8
  {
  }

  function UserLoginErrors(b: Body, lib: Library): seq<ValidationError> {
    Check(lib.isEmail(TextOf(Get(b, "email"), lib)), "email", "Invalid email format")
    + Check(TextOf(Get(b, "password"), lib) != "", "password", "Password is required")
  }

  /** Login asks only for a non-empty password, not the registration shape. */
  lemma UserLoginPassword(b: Body, lib: Library)
    requires lib.isEmail(TextOf(Get(b, "email"), lib))
    ensures UserLoginErrors(b, lib) == [] <==> TextOf(Get(b, "password"), lib) != ""
    ensures UserLoginErrors(b["password" := Text("x")], lib) == []
  {
  }
}
