/**
 * The records of the recipe store (backend/recipes/models.py), the
 * uniqueness constraints and minimum-amount validators declared on them, and their
 * `__str__` renderings. Primary keys are natural numbers; a foreign key is
 * the primary key it points to.
 */
module Models {
  import opened Strings

  type UserId = nat
  type RecipeId = nat
  type IngredientId = nat
  type TagId = nat

  /**
   * `MIN_INGREDIENT_AMOUNT` of the recipes' constants module. The constants module
   * is not part of this model; the value 1 is taken from the serializer's
   * `min_value=1` on submitted amounts, the only path by which lines are written.
   */
  const MIN_INGREDIENT_AMOUNT: int := 1

  /** An ingredient: its name and measurement unit (its id is its key in the store). */
  datatype Ingredient = Ingredient(name: string, measurementUnit: string)

  /** `Ingredient.__str__`: "name, unit". */
  function IngredientStr(i: Ingredient): (s: string)
    ensures |s| == |i.name| + 2 + |i.measurementUnit|
    ensures StartsWith(s, i.name + ", ")
    ensures s[|i.name| + 2..] == i.measurementUnit
  {
    i.name + ", " + i.measurementUnit
  }

  /** A recipe row; `tags` is the many-to-many relation to tags. */
  datatype Recipe = Recipe(
    author: UserId,
    name: string,
    text: string,
    image: string,
    cookingTime: int,
    tags: set<TagId>)

  /** An `IngredientInRecipe` row: recipe R needs `amount` of ingredient I. */
  datatype IngredientInRecipe = IngredientInRecipe(recipe: RecipeId, ingredient: IngredientId, amount: int)

  /** An `IngredientInRecipe` row with its ingredient resolved, as `recipe.ingredient_amounts.all()` yields it. */
  datatype IngredientAmount = IngredientAmount(ingredient: Ingredient, amount: int)

  /** `IngredientInRecipe.__str__`: "name - amount unit". */
  function IngredientAmountStr(ia: IngredientAmount): (s: string)
    ensures var name, unit := ia.ingredient.name, ia.ingredient.measurementUnit;
      && StartsWith(s, name + " - ")
      && EndsWith(s, " " + unit)
      && |s| >= |name| + 3 + 1 + 1 + |unit|
      && CanonicalInt(s[|name| + 3..|s| - 1 - |unit|])
      && ParseInt(s[|name| + 3..|s| - 1 - |unit|]) == ia.amount
  {
    var name, amount, unit := ia.ingredient.name, IntToString(ia.amount), ia.ingredient.measurementUnit;
    ThreeParts(name + " - ", amount, " " + unit);
    IntToStringRoundTrip(ia.amount);
    (name + " - ") + amount + (" " + unit)
  }

  /** The parts of `a + m + b` can be cut back out of it. */
  lemma ThreeParts<T>(a: seq<T>, m: seq<T>, b: seq<T>)
    ensures (a + m + b)[..|a|] == a
    ensures (a + m + b)[|a|..|a| + |m|] == m
    ensures (a + m + b)[|a| + |m|..] == b
  {
  }

  /** A `Favorite` or a `ShoppingCart` row: the pair (user, recipe). */
  datatype UserRecipe = UserRecipe(user: UserId, recipe: RecipeId)

  /** A `Subscription` row: `user` follows `author`. */
  datatype Subscription = Subscription(user: UserId, author: UserId)

  /** The `unique_favorite` and `unique_shopping_cart` constraints: no row occurs twice. */
  predicate NoDuplicates<T(==)>(rows: seq<T>) {
    forall i, j :: 0 <= i < j < |rows| ==> rows[i] != rows[j]
  }

  /** `unique_ingredient`: no two ingredients share both name and measurement unit. */
  predicate UniqueIngredients(ingredients: map<IngredientId, Ingredient>) {
    forall a, b :: a in ingredients && b in ingredients && a != b ==> ingredients[a] != ingredients[b]
  }

  /** `unique_ingredient_in_recipe`: a recipe lists a given ingredient at most once. */
  predicate UniqueIngredientInRecipe(lines: seq<IngredientInRecipe>) {
    forall i, j :: 0 <= i < j < |lines| ==>
      lines[i].recipe != lines[j].recipe || lines[i].ingredient != lines[j].ingredient
  }

  /**
   * What the `amount` field's `MinValueValidator` asks of every line: at least
   * `MIN_INGREDIENT_AMOUNT`. Django runs such validators only on validation, not on
   * save; the rows satisfy it because every write goes through the serializer.
   */
  predicate AmountsAtLeastMinimum(lines: seq<IngredientInRecipe>) {
    forall i :: 0 <= i < |lines| ==> lines[i].amount >= MIN_INGREDIENT_AMOUNT
  }

  lemma CommaEndsName(i: Ingredient)
    ensures IngredientStr(i)[|i.name|] == ','
  {
  }

  /**
   * `Ingredient.__str__` tells ingredients apart as long as their names hold
   * no comma: the first comma of the rendering ends the name.
   */
  lemma IngredientStrInjective(a: Ingredient, b: Ingredient)
    requires ',' !in a.name && ',' !in b.name
    requires IngredientStr(a) == IngredientStr(b)
    ensures a == b
  {
    var s := IngredientStr(a);
    if |a.name| < |b.name| {
      CommaEndsName(a);
      assert false;
    } else if |b.name| < |a.name| {
      CommaEndsName(b);
      assert false;
    }
    assert a.name == s[..|a.name|] == b.name;
    assert a.measurementUnit == s[|a.name| + 2..] == b.measurementUnit;
  }
}
