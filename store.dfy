/**
 * The database behind the views, as an abstract finite store: one field per
 * table, rows in insertion order. `Valid` collects the uniqueness
 * constraints the database enforces for backend/recipes/models.py, the
 * minimum amount its `MinValueValidator` asks for (which holds because every
 * line is written through the serializer, not because saving checks it) and
 * the foreign keys the views rely on.
 */
module Store {
  import opened Models

  /** Every row of a user-recipe table points at an existing user and an existing recipe. */
  predicate RowsExist(rows: seq<UserRecipe>, users: set<UserId>, recipes: map<RecipeId, Recipe>) {
    forall row :: row in rows ==> row.user in users && row.recipe in recipes
  }

  /** The constraints the tables keep, stated on the tables' contents. */
  predicate Consistent(
    users: set<UserId>,
    ingredients: map<IngredientId, Ingredient>,
    recipes: map<RecipeId, Recipe>,
    ingredientLines: seq<IngredientInRecipe>,
    favorites: seq<UserRecipe>,
    shoppingCart: seq<UserRecipe>,
    subscriptions: seq<Subscription>)
  {
    && UniqueIngredients(ingredients)
    && UniqueIngredientInRecipe(ingredientLines)
    && AmountsAtLeastMinimum(ingredientLines)
    && (forall i :: 0 <= i < |ingredientLines| ==>
          ingredientLines[i].recipe in recipes && ingredientLines[i].ingredient in ingredients)
    && (forall r :: r in recipes ==> recipes[r].author in users)
    && NoDuplicates(favorites) && RowsExist(favorites, users, recipes)
    && NoDuplicates(shoppingCart) && RowsExist(shoppingCart, users, recipes)
    && NoDuplicates(subscriptions)
    && (forall s :: s in subscriptions ==> s.user in users && s.author in users)
  }

  class Database {
    var users: set<UserId>
    var ingredients: map<IngredientId, Ingredient>
    var recipes: map<RecipeId, Recipe>
    var ingredientLines: seq<IngredientInRecipe>
    var favorites: seq<UserRecipe>
    var shoppingCart: seq<UserRecipe>
    var subscriptions: seq<Subscription>

    ghost predicate UserRecipeRowsExist(rows: seq<UserRecipe>)
      reads this
    {
      RowsExist(rows, users, recipes)
    }

    ghost predicate Valid()
      reads this
    {
      Consistent(users, ingredients, recipes, ingredientLines, favorites, shoppingCart, subscriptions)
    }

    /** An empty database. */
    constructor ()
      ensures Valid()
      ensures users == {} && ingredients == map[] && recipes == map[]
      ensures ingredientLines == [] && favorites == [] && shoppingCart == [] && subscriptions == []
    {
      users := {};
      ingredients := map[];
      recipes := map[];
      ingredientLines := [];
      favorites := [];
      shoppingCart := [];
      subscriptions := [];
    }
  }
}
