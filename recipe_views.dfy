/**
 * `RecipeViewSet` of backend/recipes/views.py: the favorite and shopping-cart
 * relation endpoints, the shopping-list download and the action-to-permission
 * table. Each request runs as one atomic step on the store.
 */
module RecipeViews {
  import opened Wrappers
  import opened Strings
  import opened Models
  import opened Http
  import opened Relations
  import opened ShoppingList
  import opened ShoppingListProperties
  import opened Store
  import opened Serializers

  /** The two user-recipe tables the relation endpoints work on. */
  datatype Relation = FavoriteRelation | ShoppingCartRelation

  function Rows(db: Database, rel: Relation): seq<UserRecipe>
    reads db
  {
    match rel
    case FavoriteRelation => db.favorites
    case ShoppingCartRelation => db.shoppingCart
  }

  function Other(rel: Relation): Relation {
    match rel
    case FavoriteRelation => ShoppingCartRelation
    case ShoppingCartRelation => FavoriteRelation
  }

  const AlreadyFavorite: string := "Рецепт уже в избранном"
  const NotFavorite: string := "Рецепт не найден в избранном"
  const AlreadyInCart: string := "Рецепт уже в списке покупок"
  const NotInCart: string := "Рецепт отсутствует в списке покупок"
  const CartEmpty: string := "Список покупок пуст"

  // ---------------------------------------------------------------------
  // `_add_relation` and `_remove_relation` as transitions of one table

  /**
   * `_add_relation`: 404 when the recipe does not exist (before the table is
   * looked at), 400 with a `detail` message when the pair is already stored,
   * otherwise the pair is stored and 201. Only a 201 changes the table, and it
   * adds exactly the pair.
   */
  function AddOutcome(rows: seq<UserRecipe>, recipeExists: bool, pair: UserRecipe, errorMessage: string)
    : (o: (Response, seq<UserRecipe>))
    ensures o.0 == NotFound <==> !recipeExists
    ensures o.0 == BadRequest("detail", errorMessage) <==> recipeExists && pair in rows
    ensures o.0 == Created(pair.recipe) <==> recipeExists && pair !in rows
    ensures !o.0.Created? ==> o.1 == rows
    ensures multiset(o.1) == multiset(rows) + (if o.0.Created? then multiset{pair} else multiset{})
    ensures NoDuplicates(rows) ==> NoDuplicates(o.1)
  {
    if !recipeExists then (NotFound, rows)
    else if pair in rows then (BadRequest("detail", errorMessage), rows)
    else
      assert NoDuplicates(rows) ==> NoDuplicates(rows + [pair]) by {
        if NoDuplicates(rows) {
          forall i, j | 0 <= i < j < |rows + [pair]| ensures (rows + [pair])[i] != (rows + [pair])[j] {
            if j == |rows| {
              assert (rows + [pair])[i] == rows[i];
            }
          }
        }
      }
      (Created(pair.recipe), rows + [pair])
  }

  /**
   * `_remove_relation`: 400 with a `detail` message when the pair is not
   * stored (whether or not the recipe exists), otherwise every matching row is
   * deleted and 204. Only a 204 changes the table, and it removes only the pair.
   */
  function RemoveOutcome(rows: seq<UserRecipe>, pair: UserRecipe, errorMessage: string)
    : (o: (Response, seq<UserRecipe>))
    ensures o.0 == NoContent <==> pair in rows
    ensures o.0 == BadRequest("detail", errorMessage) <==> pair !in rows
    ensures !o.0.NoContent? ==> o.1 == rows
    ensures multiset(o.1) == multiset(rows)[pair := 0]
    ensures NoDuplicates(rows) ==> NoDuplicates(o.1) && |o.1| == |rows| - (if pair in rows then 1 else 0)
  {
    if pair !in rows then
      assert multiset(rows)[pair := 0] == multiset(rows);
      (BadRequest("detail", errorMessage), rows)
    else
      assert NoDuplicates(rows) ==> NoDuplicates(Without(rows, pair)) && |Without(rows, pair)| == |rows| - 1 by {
        if NoDuplicates(rows) {
          WithoutNoDuplicates(rows, pair);
        }
      }
      (NoContent, Without(rows, pair))
  }

  /** Adding a pair and then removing it gives back the table exactly, order included. */
  lemma AddThenRemove(rows: seq<UserRecipe>, pair: UserRecipe, addMessage: string, removeMessage: string)
    requires pair !in rows
    ensures AddOutcome(rows, true, pair, addMessage).0 == Created(pair.recipe)
    ensures RemoveOutcome(AddOutcome(rows, true, pair, addMessage).1, pair, removeMessage) == (NoContent, rows)
  {
    WithoutAppended(rows, pair);
  }

  /** Removing a stored pair and adding it again restores the table's contents (the row moves to the end). */
  lemma RemoveThenAdd(rows: seq<UserRecipe>, pair: UserRecipe, addMessage: string, removeMessage: string)
    requires NoDuplicates(rows) && pair in rows
    ensures var removed := RemoveOutcome(rows, pair, removeMessage).1;
      && removed == Without(rows, pair)
      && AddOutcome(removed, true, pair, addMessage).0 == Created(pair.recipe)
      && multiset(AddOutcome(removed, true, pair, addMessage).1) == multiset(rows)
  {
    NoDuplicatesOnce(rows, pair);
  }

  /** The relation endpoints touch only the requesting user's rows: every other user's rows stay as they were, in order. */
  lemma OtherUsersUntouched(rows: seq<UserRecipe>, recipeExists: bool, pair: UserRecipe, other: UserId, message: string)
    requires other != pair.user
    ensures RecipesOf(AddOutcome(rows, recipeExists, pair, message).1, other) == RecipesOf(rows, other)
    ensures RecipesOf(RemoveOutcome(rows, pair, message).1, other) == RecipesOf(rows, other)
  {
    AppendOtherUser(rows, pair, other);
    WithoutOtherUser(rows, pair, other);
  }

  // ---------------------------------------------------------------------
  // The endpoints

  /** `_add_relation` on the store: the chosen table makes the `AddOutcome` transition, nothing else changes. */
  method AddRelation(db: Database, rel: Relation, user: UserId, pk: RecipeId, errorMessage: string)
    returns (resp: Response)
    requires db.Valid() && user in db.users
    modifies db`favorites, db`shoppingCart
    ensures db.Valid()
    ensures (resp, Rows(db, rel)) == AddOutcome(old(Rows(db, rel)), pk in db.recipes, UserRecipe(user, pk), errorMessage)
    ensures Rows(db, Other(rel)) == old(Rows(db, Other(rel)))
  {
    if pk !in db.recipes {
      return NotFound;
    }
    var pair := UserRecipe(user, pk);
    if pair in Rows(db, rel) {
      return BadRequest("detail", errorMessage);
    }
    match rel {
      case FavoriteRelation =>
        db.favorites := AddOutcome(db.favorites, true, pair, errorMessage).1;
      case ShoppingCartRelation =>
        db.shoppingCart := AddOutcome(db.shoppingCart, true, pair, errorMessage).1;
    }
    resp := Created(pk);
  }

  /** `_remove_relation` on the store: the chosen table makes the `RemoveOutcome` transition, nothing else changes. */
  method RemoveRelation(db: Database, rel: Relation, user: UserId, pk: RecipeId, errorMessage: string)
    returns (resp: Response)
    requires db.Valid()
    modifies db`favorites, db`shoppingCart
    ensures db.Valid()
    ensures (resp, Rows(db, rel)) == RemoveOutcome(old(Rows(db, rel)), UserRecipe(user, pk), errorMessage)
    ensures Rows(db, Other(rel)) == old(Rows(db, Other(rel)))
  {
    var pair := UserRecipe(user, pk);
    if pair !in Rows(db, rel) {
      return BadRequest("detail", errorMessage);
    }
    match rel {
      case FavoriteRelation =>
        db.favorites := Without(db.favorites, pair);
      case ShoppingCartRelation =>
        db.shoppingCart := Without(db.shoppingCart, pair);
    }
    WithoutNoDuplicates(old(Rows(db, rel)), pair);
    resp := NoContent;
  }

  /** POST .../favorite/ */
  method Favorite(db: Database, user: UserId, pk: RecipeId) returns (resp: Response)
    requires db.Valid() && user in db.users
    modifies db`favorites, db`shoppingCart
    ensures db.Valid()
    ensures (resp, db.favorites) == AddOutcome(old(db.favorites), pk in db.recipes, UserRecipe(user, pk), AlreadyFavorite)
    ensures db.shoppingCart == old(db.shoppingCart)
  {
    resp := AddRelation(db, FavoriteRelation, user, pk, AlreadyFavorite);
  }

  /** DELETE .../favorite/ */
  method DeleteFavorite(db: Database, user: UserId, pk: RecipeId) returns (resp: Response)
    requires db.Valid()
    modifies db`favorites, db`shoppingCart
    ensures db.Valid()
    ensures (resp, db.favorites) == RemoveOutcome(old(db.favorites), UserRecipe(user, pk), NotFavorite)
    ensures db.shoppingCart == old(db.shoppingCart)
  {
    resp := RemoveRelation(db, FavoriteRelation, user, pk, NotFavorite);
  }

  /** POST .../shopping_cart/ */
  method ShoppingCart(db: Database, user: UserId, pk: RecipeId) returns (resp: Response)
    requires db.Valid() && user in db.users
    modifies db`favorites, db`shoppingCart
    ensures db.Valid()
    ensures (resp, db.shoppingCart) == AddOutcome(old(db.shoppingCart), pk in db.recipes, UserRecipe(user, pk), AlreadyInCart)
    ensures db.favorites == old(db.favorites)
  {
    resp := AddRelation(db, ShoppingCartRelation, user, pk, AlreadyInCart);
  }

  /** DELETE .../shopping_cart/ */
  method DeleteShoppingCart(db: Database, user: UserId, pk: RecipeId) returns (resp: Response)
    requires db.Valid()
    modifies db`favorites, db`shoppingCart
    ensures db.Valid()
    ensures (resp, db.shoppingCart) == RemoveOutcome(old(db.shoppingCart), UserRecipe(user, pk), NotInCart)
    ensures db.favorites == old(db.favorites)
  {
    resp := RemoveRelation(db, ShoppingCartRelation, user, pk, NotInCart);
  }

  /**
   * Removing a recipe that does not exist is answered 400 (the pair cannot be
   * stored), not 404: `_remove_relation` does not look the recipe up.
   */
  lemma RemoveMissingRecipe(db: Database, rel: Relation, user: UserId, pk: RecipeId, message: string)
    requires db.Valid() && pk !in db.recipes
    ensures RemoveOutcome(Rows(db, rel), UserRecipe(user, pk), message) == (BadRequest("detail", message), Rows(db, rel))
  {
    assert db.UserRecipeRowsExist(Rows(db, rel));
  }

  // ---------------------------------------------------------------------
  // The shopping-list download

  /** Line `i` of the table belongs to `recipe` and resolves to `ia`. */
  predicate ResolvesTo(lines: seq<IngredientInRecipe>, ingredients: map<IngredientId, Ingredient>,
                       recipe: RecipeId, i: int, ia: IngredientAmount)
  {
    && 0 <= i < |lines| && lines[i].recipe == recipe && lines[i].ingredient in ingredients
    && ia == IngredientAmount(ingredients[lines[i].ingredient], lines[i].amount)
  }

  /** Some line of the table belongs to `recipe` and resolves to `ia`. */
  ghost predicate FromRow(lines: seq<IngredientInRecipe>, ingredients: map<IngredientId, Ingredient>,
                          recipe: RecipeId, ia: IngredientAmount)
  {
    exists i :: ResolvesTo(lines, ingredients, recipe, i, ia)
  }

  /**
   * `recipe.ingredient_amounts.all()` with each line's ingredient resolved:
   * the lines of `recipe`, in table order.
   */
  function AmountsOf(lines: seq<IngredientInRecipe>, ingredients: map<IngredientId, Ingredient>, recipe: RecipeId)
    : (r: seq<IngredientAmount>)
    requires forall i :: 0 <= i < |lines| ==> lines[i].ingredient in ingredients
    ensures |r| <= |lines|
  {
    if lines == [] then []
    else
      var n := |lines| - 1;
      var line := lines[n];
      AmountsOf(lines[..n], ingredients, recipe) +
        (if line.recipe == recipe then [IngredientAmount(ingredients[line.ingredient], line.amount)] else [])
  }

  /**
   * The resolved lines are exactly the table rows of that recipe: each comes
   * from such a row, and each such row appears.
   */
  lemma {:induction false} AmountsOfRows(lines: seq<IngredientInRecipe>, ingredients: map<IngredientId, Ingredient>, recipe: RecipeId)
    requires forall i :: 0 <= i < |lines| ==> lines[i].ingredient in ingredients
    ensures forall ia :: ia in AmountsOf(lines, ingredients, recipe) <==> FromRow(lines, ingredients, recipe, ia)
    decreases |lines|
  {
    if lines != [] {
      var n := |lines| - 1;
      var init := AmountsOf(lines[..n], ingredients, recipe);
      AmountsOfRows(lines[..n], ingredients, recipe);
      var line := lines[n];
      forall ia | ia in AmountsOf(lines, ingredients, recipe) ensures FromRow(lines, ingredients, recipe, ia) {
        if ia in init {
          var i :| ResolvesTo(lines[..n], ingredients, recipe, i, ia);
          assert lines[..n][i] == lines[i];
          assert ResolvesTo(lines, ingredients, recipe, i, ia);
        } else {
          assert ResolvesTo(lines, ingredients, recipe, n, ia);
        }
      }
      forall ia | FromRow(lines, ingredients, recipe, ia) ensures ia in AmountsOf(lines, ingredients, recipe) {
        var i :| ResolvesTo(lines, ingredients, recipe, i, ia);
        if i < n {
          assert lines[..n][i] == lines[i];
          assert ResolvesTo(lines[..n], ingredients, recipe, i, ia);
          assert ia in init;
        }
      }
    }
  }

  /** Resolving keeps table order: it distributes over concatenation of tables. */
  lemma {:induction false} AmountsOfAppend(a: seq<IngredientInRecipe>, b: seq<IngredientInRecipe>,
                                           ingredients: map<IngredientId, Ingredient>, recipe: RecipeId)
    requires forall i :: 0 <= i < |a| ==> a[i].ingredient in ingredients
    requires forall i :: 0 <= i < |b| ==> b[i].ingredient in ingredients
    ensures forall i :: 0 <= i < |a + b| ==> (a + b)[i].ingredient in ingredients
    ensures AmountsOf(a + b, ingredients, recipe) == AmountsOf(a, ingredients, recipe) + AmountsOf(b, ingredients, recipe)
    decreases |b|
  {
    if b == [] {
      assert a + b == a;
    } else {
      var n := |b| - 1;
      assert (a + b)[..|a| + n] == a + b[..n];
      assert (a + b)[|a| + n] == b[n];
      AmountsOfAppend(a, b[..n], ingredients, recipe);
    }
  }

  /** `amounts` is `value` with each submitted id replaced by the ingredient it names. */
  predicate ResolvedAs(amounts: seq<IngredientAmount>, value: seq<IngredientInput>, ingredients: map<IngredientId, Ingredient>) {
    && |amounts| == |value|
    && forall k :: 0 <= k < |value| ==>
      && 0 <= value[k].id && value[k].id in ingredients
      && amounts[k] == IngredientAmount(ingredients[value[k].id], value[k].amount)
  }

  lemma ResolvedAsAppend(a1: seq<IngredientAmount>, v1: seq<IngredientInput>,
                         a2: seq<IngredientAmount>, v2: seq<IngredientInput>, ingredients: map<IngredientId, Ingredient>)
    requires ResolvedAs(a1, v1, ingredients) && ResolvedAs(a2, v2, ingredients)
    ensures ResolvedAs(a1 + a2, v1 + v2, ingredients)
  {
    forall k | 0 <= k < |v1 + v2|
      ensures && 0 <= (v1 + v2)[k].id && (v1 + v2)[k].id in ingredients
              && (a1 + a2)[k] == IngredientAmount(ingredients[(v1 + v2)[k].id], (v1 + v2)[k].amount)
    {
      if k >= |v1| {
        assert (v1 + v2)[k] == v2[k - |v1|] && (a1 + a2)[k] == a2[k - |v1|];
      }
    }
  }

  /**
   * The download reads a recipe's lines as the serializer reads them back
   * (`LinesOf`), with each ingredient id resolved to its ingredient.
   */
  lemma {:induction false} AmountsOfLines(lines: seq<IngredientInRecipe>, ingredients: map<IngredientId, Ingredient>, recipe: RecipeId)
    requires forall i :: 0 <= i < |lines| ==> lines[i].ingredient in ingredients
    ensures ResolvedAs(AmountsOf(lines, ingredients, recipe), LinesOf(lines, recipe), ingredients)
    decreases |lines|
  {
    if lines != [] {
      var n := |lines| - 1;
      AmountsOfLines(lines[..n], ingredients, recipe);
      var line := lines[n];
      if line.recipe == recipe {
        ResolvedAsAppend(AmountsOf(lines[..n], ingredients, recipe), LinesOf(lines[..n], recipe),
                         [IngredientAmount(ingredients[line.ingredient], line.amount)],
                         [IngredientInput(line.ingredient, line.amount)], ingredients);
      } else {
        assert AmountsOf(lines, ingredients, recipe) == AmountsOf(lines[..n], ingredients, recipe);
        assert LinesOf(lines, recipe) == LinesOf(lines[..n], recipe);
      }
    }
  }

  /**
   * After `create` appends a new recipe's rows, that recipe's shopping-list
   * lines are the submitted lines, in submitted order, each with its ingredient.
   */
  lemma CreatedRecipeAmounts(recipes: map<RecipeId, Recipe>, lines: seq<IngredientInRecipe>,
                             ingredients: map<IngredientId, Ingredient>, recipe: RecipeId, value: seq<IngredientInput>)
    requires forall i :: 0 <= i < |lines| ==> lines[i].recipe in recipes && lines[i].ingredient in ingredients
    requires recipe !in recipes
    requires forall k :: 0 <= k < |value| ==> value[k].id >= 0 && value[k].id in ingredients
    ensures forall i :: 0 <= i < |lines + NewLines(recipe, value)| ==>
      (lines + NewLines(recipe, value))[i].ingredient in ingredients
    ensures ResolvedAs(AmountsOf(lines + NewLines(recipe, value), ingredients, recipe), value, ingredients)
  {
    var all := lines + NewLines(recipe, value);
    assert forall i :: 0 <= i < |all| ==> all[i].ingredient in ingredients by {
      forall i | 0 <= i < |all| ensures all[i].ingredient in ingredients {
        if i >= |lines| {
          assert all[i] == NewLines(recipe, value)[i - |lines|];
        }
      }
    }
    AmountsOfLines(all, ingredients, recipe);
    CreatedLinesReadBack(recipes, lines, recipe, value);
  }

  /** The user's cart rows, in table order, each with its recipe's resolved ingredient lines. */
  function UserCart(db: Database, user: UserId): (cart: seq<CartItem>)
    reads db
    requires db.Valid()
    ensures |cart| == |RecipesOf(db.shoppingCart, user)|
    ensures forall i :: 0 <= i < |cart| ==>
      && cart[i].recipe == RecipesOf(db.shoppingCart, user)[i]
      && (forall ia :: ia in cart[i].ingredientAmounts <==>
            FromRow(db.ingredientLines, db.ingredients, cart[i].recipe, ia))
    ensures forall i :: 0 <= i < |cart| ==>
      ResolvedAs(cart[i].ingredientAmounts, LinesOf(db.ingredientLines, cart[i].recipe), db.ingredients)
  {
    var ids := RecipesOf(db.shoppingCart, user);
    var lines := db.ingredientLines;
    var ingredients := db.ingredients;
    AmountsOfEach(lines, ingredients, ids);
    seq(|ids|, i requires 0 <= i < |ids| => CartItem(ids[i], AmountsOf(lines, ingredients, ids[i])))
  }

  lemma AmountsOfEach(lines: seq<IngredientInRecipe>, ingredients: map<IngredientId, Ingredient>, ids: seq<RecipeId>)
    requires forall i :: 0 <= i < |lines| ==> lines[i].ingredient in ingredients
    ensures forall i, ia :: 0 <= i < |ids| ==>
      (ia in AmountsOf(lines, ingredients, ids[i]) <==> FromRow(lines, ingredients, ids[i], ia))
    ensures forall i :: 0 <= i < |ids| ==>
      ResolvedAs(AmountsOf(lines, ingredients, ids[i]), LinesOf(lines, ids[i]), ingredients)
  {
    forall i | 0 <= i < |ids| {
      AmountsOfRows(lines, ingredients, ids[i]);
    }
    forall i | 0 <= i < |ids| {
      AmountsOfLines(lines, ingredients, ids[i]);
    }
  }

  /** `'shopping_cart_{}.txt'.format(request.user.id)`. */
  function CartFileName(user: UserId): (name: string)
    ensures StartsWith(name, "shopping_cart_") && EndsWith(name, ".txt") && |name| >= 19
    ensures CanonicalNat(name[14..|name| - 4]) && ParseNat(name[14..|name| - 4]) == user
  {
    var digits := NatToString(user);
    var name := "shopping_cart_" + digits + ".txt";
    assert name[14..|name| - 4] == digits;
    ParseNatToString(user);
    name
  }

  /**
   * `download_shopping_cart`: 400 `{'detail': 'Список покупок пуст'}` when the
   * user has no cart rows, without building the list; otherwise a text
   * attachment named after the user whose content is the aggregated list.
   */
  method DownloadShoppingCart(db: Database, user: UserId) returns (resp: Response)
    requires db.Valid()
    ensures resp.BadRequest? <==> RecipesOf(db.shoppingCart, user) == []
    ensures RecipesOf(db.shoppingCart, user) == [] ==> resp == BadRequest("detail", CartEmpty)
    ensures RecipesOf(db.shoppingCart, user) != [] ==>
      resp == Attachment(CartFileName(user), "attachment; filename=\"" + CartFileName(user) + "\"",
                         ShoppingListText(UserCart(db, user)))
  {
    if RecipesOf(db.shoppingCart, user) == [] {
      return BadRequest("detail", CartEmpty);
    }
    var content := GenerateShoppingCartFile(UserCart(db, user));
    var filename := CartFileName(user);
    resp := Attachment(filename, "attachment; filename=\"" + filename + "\"", content);
  }

  /** On a consistent store every total of a downloaded list is at least `MIN_INGREDIENT_AMOUNT`. */
  lemma DownloadTotalsPositive(db: Database, user: UserId)
    requires db.Valid()
    ensures forall i :: 0 <= i < |Entries(UserCart(db, user))| ==> Entries(UserCart(db, user))[i].amount >= 1
  {
    var cart := UserCart(db, user);
    forall i, j | 0 <= i < |cart| && 0 <= j < |cart[i].ingredientAmounts|
      ensures cart[i].ingredientAmounts[j].amount >= 1
    {
      var amounts := cart[i].ingredientAmounts;
      assert amounts == AmountsOf(db.ingredientLines, db.ingredients, cart[i].recipe);
      AmountsOfRows(db.ingredientLines, db.ingredients, cart[i].recipe);
      assert amounts[j] in amounts;
      var l :| ResolvesTo(db.ingredientLines, db.ingredients, cart[i].recipe, l, amounts[j]);
    }
    TotalsPositive(cart);
  }

  // ---------------------------------------------------------------------
  // Permissions

  /** `RecipeViewSet.get_permissions` as written: a table keyed on `self.action` alone. */
  function RecipePermission(action: string): (p: Permission)
    ensures p == IsAuthenticated <==> action in ["create", "favorite", "shopping_cart"]
    ensures p == IsAuthorOrReadOnly <==> action in ["update", "partial_update", "destroy"]
    ensures p == AllowAny <==> action !in ["create", "favorite", "shopping_cart", "update", "partial_update", "destroy"]
  {
    if action in ["create", "favorite", "shopping_cart"] then IsAuthenticated
    else if action in ["update", "partial_update", "destroy"] then IsAuthorOrReadOnly
    else AllowAny
  }

  /**
   * The `permission_classes` the `@action` decorators declare. The DELETE
   * handlers registered with `.mapping.delete` run under the action names
   * `delete_favorite` and `delete_shopping_cart` and share the declaring
   * action's keyword arguments.
   */
  function DeclaredPermission(action: string): Option<Permission> {
    if action in ["favorite", "delete_favorite", "shopping_cart", "delete_shopping_cart", "download_shopping_cart"]
    then Some(IsAuthenticated)
    else None
  }

  /**
   * As written, `get_permissions` overrides the declared classes, so three
   * actions declared for authenticated users only are open to anyone.
   */
  lemma DeclaredPermissionIgnored()
    ensures DeclaredPermission("delete_favorite") == Some(IsAuthenticated) && RecipePermission("delete_favorite") == AllowAny
    ensures DeclaredPermission("delete_shopping_cart") == Some(IsAuthenticated) && RecipePermission("delete_shopping_cart") == AllowAny
    ensures DeclaredPermission("download_shopping_cart") == Some(IsAuthenticated) && RecipePermission("download_shopping_cart") == AllowAny
  {
  }

  /** `get_permissions` with the declared classes honoured, falling back to the table for the other actions. */
  function RecipePermissionCorrected(action: string): (p: Permission)
    ensures DeclaredPermission(action).Some? ==> p == DeclaredPermission(action).value
    ensures DeclaredPermission(action).None? ==> p == RecipePermission(action)
  {
    match DeclaredPermission(action)
    case Some(declared) => declared
    case None => RecipePermission(action)
  }

  /**
   * The corrected table differs from the one as written exactly on the three
   * actions that were open by mistake, and requires authentication there.
   */
  lemma CorrectedPermissionDiffers(action: string)
    ensures RecipePermissionCorrected(action) != RecipePermission(action) <==>
      action in ["delete_favorite", "delete_shopping_cart", "download_shopping_cart"]
    ensures action in ["delete_favorite", "delete_shopping_cart", "download_shopping_cart"] ==>
      RecipePermissionCorrected(action) == IsAuthenticated
  {
  }
}
