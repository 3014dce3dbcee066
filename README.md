# foodgram recipe backend — a verified Dafny model

foodgram is a recipe-sharing web service. Users publish recipes, each built
from ingredient lines ("Мука — 2 кг"). They mark recipes as favorites, put
recipes in a shopping cart and subscribe to authors. The service can also
export the cart as a plain-text shopping list.

This project models the part of the Django backend where that behaviour is
decided, and proves its properties:

- **The shopping-list aggregator** (`generate_shopping_cart_file`) is the
  centre of the model (`ShoppingList`, `ShoppingListProperties`).
  - It is written as the imperative algorithm it is: a dictionary filled in
    nested loops, the keys sorted, and lines appended under a header.
  - It is proved equal to a declarative specification, `ShoppingListText`.
  - About that specification the model proves: the exact header, one line
    per (name, unit) key, strictly ascending code-point order, the exact
    line format, totals that are per-key sums, positivity, independence from
    the order of cart entries and of recipe lines, and concrete outputs.
- **The store** (`Store.Database`) is a class with one field per table.
  - `Valid` collects the tables' unique constraints, the minimum amount
    the `amount` field's validator asks for, and the foreign keys the views
    depend on. The database enforces the unique constraints itself. The
    minimum holds because every line is written through the serializer,
    whose `min_value=1` refuses smaller amounts.
  - Every state-changing operation is proved to keep `Valid`.
- **The favorite and shopping-cart endpoints** (`RecipeViews`) are
  transitions over a table of (user, recipe) pairs, together with the
  download endpoint and the action-to-permission table.
- **The subscription endpoint** (`UserViews`): self-subscription is refused,
  duplicates are refused, and removing an absent subscription is refused.
  The module also holds the users' permission table.
- **The recipe filters** (`Filters`): `is_favorited` and
  `is_in_shopping_cart`.
- **The recipe serializer** (`Serializers`):
  - the ingredient, tag and required-key validators;
  - the `data:image…;base64,` header split;
  - `create` and `update`, which write the recipe row and replace its
    ingredient lines.

Shared modules:
- `Wrappers`: `Option` and `Result`.
- `Strings`: Python's `str(int)`, `str.split`, `str.join` and code-point
  string comparison.
- `Models`: the records, their constraints and their `__str__` renderings.
- `Http`: the response and permission vocabulary.
- `Relations`: deleting rows from a table, and one user's rows.

How the model represents the framework:
- The ORM is an abstract finite store.
- Each request is one atomic step on it.
- Base64 decoding and `uuid4()` are parameters of the function that uses
  them.

The aggregator does not check for an empty cart: given one, it returns the
header alone (`HeaderFirst`). The view checks `cart.exists()` before it
calls the aggregator and answers an empty cart with 400
(`DownloadShoppingCart`).

## Model

| member | source | states |
|---|---|---|
| Models.IngredientStr | backend/recipes/models.py:55-56 | An ingredient renders as its name, then `, `, then exactly its unit. |
| Models.IngredientStrInjective | backend/recipes/models.py:55-56 | Two ingredients whose names hold no comma and whose renderings are equal are the same ingredient. |
| Models.IngredientAmountStr | backend/recipes/models.py:144-147 | An ingredient line renders as its name and ` - `, then a canonical decimal numeral that reads back as the amount, then a space and its unit. |
| ShoppingList.KeyLessIrreflexive | backend/recipes/utils.py:16 | The (name, unit) tuple order never puts a key before itself. |
| ShoppingList.KeyLessTransitive | backend/recipes/utils.py:16 | The tuple order is transitive. |
| ShoppingList.KeyLessTotal | backend/recipes/utils.py:16 | Any two distinct keys are ordered one way or the other. |
| ShoppingList.SortedKeysSpec | backend/recipes/utils.py:16 | The sorted keys are exactly the dictionary's keys, each once, strictly ascending. |
| ShoppingList.AscendingUnique | backend/recipes/utils.py:16 | Two strictly ascending key lists with the same members are equal, so the result of `sorted` is unique. |
| ShoppingList.SortKeys | backend/recipes/utils.py:16 | The method returns the ascending list of the dictionary's keys. |
| ShoppingList.TalliesAdd | backend/recipes/utils.py:12 | One `ing_dict[key] += amount` step keeps the dictionary equal to the per-key sums of the lines seen so far. |
| ShoppingList.TallyCart | backend/recipes/utils.py:5-12 | After the nested loops, the dictionary's keys are exactly the (name, unit) keys of the cart's lines, and each value is the sum of that key's amounts. |
| ShoppingList.TallyRecipe | backend/recipes/utils.py:9-12 | The inner loop over one recipe's ingredient lines turns a tally of the lines seen so far into a tally of those lines followed by this recipe's lines. |
| ShoppingList.GenerateShoppingCartFile | backend/recipes/utils.py:4-19 | The text built by tally, sort and render equals the specification `ShoppingListText` of the cart. |
| ShoppingList.EntriesFromTotals | backend/recipes/utils.py:14-17 | The rendered entries are the dictionary's keys in ascending order, each with its dictionary value. |
| ShoppingListProperties.TotalAppend | backend/recipes/utils.py:7-12 | A key's total over two line lists joined is the sum of the two totals. |
| ShoppingListProperties.TotalPermutation | backend/recipes/utils.py:7-12 | A key's total does not depend on the order of the lines. |
| ShoppingListProperties.ExplodeMembers | backend/recipes/utils.py:7-11 | The lines tallied are exactly the ingredient lines of the cart's recipes. |
| ShoppingListProperties.TotalsPositive | backend/recipes/utils.py:12 | If every cart line has amount at least 1, every rendered total is at least 1. |
| ShoppingListProperties.HeaderFirst | backend/recipes/utils.py:14-19 | The text starts with `Список покупок:\r\n`; a cart with no lines yields only that header. |
| ShoppingListProperties.ShoppingListShape | backend/recipes/utils.py:12-17 | There are 1 + (number of distinct keys) lines, and each key appears in exactly one of them. The keys are strictly ascending. Each line is `name - total unit\r\n`, with the key's full sum as the total. |
| ShoppingListProperties.ShoppingListDetermined | backend/recipes/utils.py:14-19 | Any ascending, complete and correctly summed list of entries renders to exactly the output lines. |
| ShoppingListProperties.UnitsNotMerged | backend/recipes/utils.py:11 | The same name with two units gives two separate entries, each with its own total. |
| ShoppingListProperties.LineBreakCount | backend/recipes/utils.py:14-19 | When no name or unit holds a line feed, the text holds exactly 1 + (number of keys) line feeds. |
| ShoppingListProperties.SameLinesSameText | backend/recipes/utils.py:7-19 | Two carts whose line lists are permutations of each other render the same text. |
| ShoppingListProperties.CartOrderIrrelevant | backend/recipes/utils.py:7-19 | Permuting the cart entries does not change the text. |
| ShoppingListProperties.RecipeLineOrderIrrelevant | backend/recipes/utils.py:9-12 | Permuting the lines within each recipe does not change the text. |
| ShoppingListProperties.SingleLineCart | backend/recipes/utils.py:17 | A one-line cart renders as the header plus that line's `IngredientInRecipe.__str__` and CRLF. |
| ShoppingListProperties.FlourAndSugarExample | backend/recipes/utils.py:4-19 | Flour 2 kg in one recipe and flour 3 kg plus sugar 100 g in another give `Список покупок:\r\nМука - 5 кг\r\nСахар - 100 г\r\n`. |
| Relations.Without | backend/recipes/views.py:78 | Deleting a row removes every copy of it and keeps all other rows. |
| Relations.WithoutNoDuplicates | backend/recipes/views.py:78 | On a table without duplicates, deleting a present row shortens it by one and keeps it duplicate-free. |
| Relations.RecipesOf | backend/recipes/filters.py:26 | A recipe is listed for a user exactly when the table holds that (user, recipe) row. |
| RecipeViews.AddOutcome | backend/recipes/views.py:53-66 | A missing recipe gives 404. A present pair gives 400 with `detail`. Otherwise 201 and exactly that pair is added. Only a 201 changes the table, and no duplicate is ever created. |
| RecipeViews.RemoveOutcome | backend/recipes/views.py:68-79 | An absent pair gives 400 with `detail` and no change. A present pair gives 204, and only that pair is removed. Uniqueness is kept. |
| RecipeViews.AddThenRemove | backend/recipes/views.py:53-79 | Adding a new pair and then removing it restores the table exactly. |
| RecipeViews.RemoveThenAdd | backend/recipes/views.py:53-79 | Removing a stored pair and adding it back restores the table's contents. |
| Relations.NoDuplicatesOnce | backend/recipes/models.py:172-177 | A table kept free of duplicates by its unique constraint holds each stored pair exactly once. |
| RecipeViews.OtherUsersUntouched | backend/recipes/views.py:87-136 | Adding or removing one user's pair leaves every other user's rows as they were. |
| RecipeViews.AddRelation | backend/recipes/views.py:53-66 | On the store, the chosen table makes the `AddOutcome` transition, the other table is unchanged, and the store stays valid. |
| RecipeViews.RemoveRelation | backend/recipes/views.py:68-79 | On the store, the chosen table makes the `RemoveOutcome` transition, the other table is unchanged, and the store stays valid. |
| RecipeViews.Favorite | backend/recipes/views.py:81-96 | POST favorite adds to the favorites table with message `Рецепт уже в избранном`. |
| RecipeViews.DeleteFavorite | backend/recipes/views.py:98-107 | DELETE favorite removes from the favorites table with message `Рецепт не найден в избранном`. |
| RecipeViews.ShoppingCart | backend/recipes/views.py:109-125 | POST shopping_cart adds to the cart table with message `Рецепт уже в списке покупок`. |
| RecipeViews.DeleteShoppingCart | backend/recipes/views.py:127-136 | DELETE shopping_cart removes from the cart table with message `Рецепт отсутствует в списке покупок`. |
| RecipeViews.RemoveMissingRecipe | backend/recipes/views.py:68-79 | Removing a recipe that does not exist is answered 400, not 404, and changes nothing. |
| RecipeViews.AmountsOf | backend/recipes/views.py:145-149 | A recipe's resolved ingredient lines are no more than the table's rows. |
| RecipeViews.AmountsOfRows | backend/recipes/views.py:145-149 | A resolved line is in a recipe's list exactly when some table row of that recipe resolves to it. |
| RecipeViews.AmountsOfAppend | backend/recipes/views.py:145-149 | Reading lines from two joined tables gives the two readings joined, so the lines keep table order. |
| RecipeViews.AmountsOfLines | backend/recipes/views.py:145-149 | The download reads a recipe's lines exactly as the serializer reads them back, each ingredient id resolved to its ingredient, in table order. |
| RecipeViews.CreatedRecipeAmounts | backend/recipes/serializers.py:202-221 | After `create`, the new recipe's lines in the download are the submitted lines, in submitted order, each with its ingredient. |
| RecipeViews.UserCart | backend/recipes/views.py:145-149 | The cart handed to the aggregator has one entry per cart row of the user, in table order. Each entry's lines are the recipe's lines as the serializer reads them back (`LinesOf`), each once, in table order, with every ingredient id resolved. |
| RecipeViews.CartFileName | backend/recipes/views.py:159 | The file name is `shopping_cart_`, then the user id as a canonical decimal numeral (no leading zero), then `.txt`; the id reads back from it. |
| RecipeViews.DownloadShoppingCart | backend/recipes/views.py:144-166 | An empty cart gives 400 `Список покупок пуст` and no list. Any other cart gives an attachment named after the user whose content is the aggregated list. |
| RecipeViews.DownloadTotalsPositive | backend/recipes/models.py:129-131 | On a valid store, every total in a downloaded list is at least 1. |
| RecipeViews.RecipePermission | backend/recipes/views.py:46-51 | `create`, `favorite` and `shopping_cart` need authentication. `update`, `partial_update` and `destroy` need author-or-read-only. Every other action allows anyone. |
| RecipeViews.DeclaredPermissionIgnored | backend/recipes/views.py:98-143 | The three handlers declared for authenticated users only are open to anyone. |
| RecipeViews.RecipePermissionCorrected | backend/recipes/views.py:46-51 | A declared permission class wins; otherwise the table decides. |
| RecipeViews.CorrectedPermissionDiffers | backend/recipes/views.py:46-51 | The corrected table differs from the written one exactly on the three open actions, and there it requires authentication. |
| Filters.KeepIn | backend/recipes/filters.py:27 | `filter(id__in=ids)` keeps exactly the queryset members listed in `ids`, never adding any. |
| Filters.KeepInMembership | backend/recipes/filters.py:27 | The filter depends only on which ids are listed, not on their order or repetition. |
| Filters.KeepInPrefix | backend/recipes/filters.py:27 | The filter keeps the queryset's order. |
| Filters.Applies | backend/recipes/filters.py:25 | The filter's condition: a non-zero value and an authenticated requester. |
| Filters.FilterByUserRows | backend/recipes/filters.py:24-34 | A non-zero value with no request raises `AttributeError`, and nothing else raises. A zero value or an anonymous requester leaves the queryset unchanged. Otherwise the filter keeps exactly the recipes the requester has a row for. A result is always a sub-multiset of the queryset. |
| Filters.FilterIsFavorited | backend/recipes/filters.py:24-28 | `is_favorited` keeps exactly the requester's favorites, when it applies, and raises `AttributeError` for a non-zero value without a request. |
| Filters.FilterIsInShoppingCart | backend/recipes/filters.py:30-34 | `is_in_shopping_cart` keeps exactly the requester's cart recipes, when it applies, and raises `AttributeError` for a non-zero value without a request. |
| Filters.OtherUsersRowsIrrelevant | backend/recipes/filters.py:24-34 | Other users' favorites and cart rows never affect either filter's result. |
| UserViews.SubscribeOutcome | backend/users/views.py:125-160 | A missing author gives 404. POST refuses the requester themself, then an existing subscription (400 `errors`), and otherwise adds exactly the pair (201). DELETE refuses an absent pair (400) and otherwise removes only it (204). Only 201 and 204 change the table; uniqueness and no self-subscription are kept. |
| UserViews.SubscribeThenUnsubscribe | backend/users/views.py:125-160 | Subscribing and then unsubscribing restores the table exactly. |
| UserViews.SubscribeTwice | backend/users/views.py:134-142 | A second POST is refused and leaves the table as the first one left it. |
| UserViews.Subscribe | backend/users/views.py:120-160 | On the store, the subscription table makes the `SubscribeOutcome` transition and the store stays valid. |
| UserViews.UserPermission | backend/users/views.py:26-31 | `me`, `set_password` and `set_avatar` need authentication, `create` allows anyone, and no action gets author-or-read-only. |
| UserViews.UserPermissionHonoursDeclared | backend/users/views.py:26-31 | The user table agrees with the declared classes on every action. |
| UserViews.UserWritesOpen | backend/users/views.py:17-31 | `update`, `partial_update` and `destroy` of the user view set get `AllowAny`. |
| UserViews.UserPermissionCorrected | backend/users/views.py:26-31 | The intended table: the three write actions need authentication, every other action is as written. |
| UserViews.CorrectedUserPermissionDiffers | backend/users/views.py:26-31 | The corrected table differs from the written one exactly on the three write actions, and requires authentication exactly for the five declaring actions and the writes. |
| Serializers.ToInternalValue | backend/recipes/serializers.py:19-32 | Input that is not a `data:image` string passes through unchanged. Otherwise: not exactly two parts around `;base64,`, or a failed decode, gives the error. Success gives the decoded bytes in a file `<uuid>.<ext>`, where `ext` is the header's text after its last `/` (all of it when it has none). |
| Serializers.DataUrlRoundTrip | backend/recipes/serializers.py:19-28 | `data:image/<type>;base64,<payload>` becomes the decoded payload in a file named `<uuid>.<type>`. |
| Serializers.MissingMarkerRefused | backend/recipes/serializers.py:20-30 | A `data:image` string in which `;base64,` does not occur is refused, whatever the decoder. |
| Serializers.IngredientsMessage | backend/recipes/serializers.py:162-178 | The missing-ingredients message is `Ингредиенты с id `, then the `repr` of the missing ids, then ` не найдены`. The empty-list and repeated-id errors carry the texts written at lines 165 and 170. The amount error carries the framework's `min_value` message in its Russian translation (see Left out). |
| Serializers.ListRepr | backend/recipes/serializers.py:177 | `repr` of a list of ids starts with `[` and ends with `]`; the empty list is `[]`. |
| Serializers.ListReprSnoc | backend/recipes/serializers.py:177 | `repr` grows one id at a time: one id gives `[` + `str(x)` + `]`, and each further id replaces the closing bracket by `, ` + `str(x)` + `]`. With the empty case this fixes the text for every list. |
| Strings.JoinSnoc | backend/recipes/utils.py:19 | Joining one more piece appends the separator and that piece. |
| Serializers.MissingMessageExample | backend/recipes/serializers.py:176-178 | Missing ids 3 and 17 give `Ингредиенты с id [3, 17] не найдены`. |
| Serializers.DistinctCount | backend/recipes/serializers.py:168 | `len(ids) == len(set(ids))` holds exactly when no id repeats. |
| Serializers.MissingIds | backend/recipes/serializers.py:173-174 | The missing list holds exactly the submitted ids that name no ingredient. |
| Serializers.MissingIdsAppend | backend/recipes/serializers.py:173-174 | The comprehension distributes over concatenation, so the missing ids keep input order. |
| Serializers.MissingIdsSingle | backend/recipes/serializers.py:173-174 | A single id is kept exactly when no ingredient has it. |
| Serializers.ValidateIngredients | backend/recipes/serializers.py:162-179 | An empty list is refused first, then a repeated id. A list of distinct ids with unknown ones is refused with exactly `MissingIds` of its ids, in input order. Success means distinct ids that all exist, and the input is returned unchanged. |
| Serializers.ValidateIngredientsField | backend/recipes/serializers.py:133-179 | Any amount below 1 is refused before `validate_ingredients` runs; when every amount is accepted, the result, error or success, is exactly that of `validate_ingredients`. |
| Serializers.IngredientsFieldAccepts | backend/recipes/serializers.py:133-179 | The field accepts exactly the non-empty lists of distinct, existing ids with amounts of at least 1, unchanged. |
| Serializers.ValidateTags | backend/recipes/serializers.py:181-189 | An empty list is refused. A non-empty list is accepted, unchanged, exactly when no tag repeats. |
| Serializers.Validate | backend/recipes/serializers.py:191-200 | A missing `ingredients` key is reported first, then a missing `tags` key; otherwise the data is returned unchanged. |
| Serializers.NewLines | backend/recipes/serializers.py:202-209 | One row per submitted line, in order, for the given recipe. |
| Serializers.AddIngredients | backend/recipes/serializers.py:202-210 | The loop appends exactly `NewLines` to the ingredient table. |
| Serializers.LinesOfAppend | backend/recipes/serializers.py:210 | Reading a recipe's lines from two joined tables gives the two readings joined. |
| Serializers.LinesOfNew | backend/recipes/serializers.py:202-210 | The rows built for a recipe read back as the submitted list; other recipes see none of them. |
| Serializers.LinesOfRemoved | backend/recipes/serializers.py:232 | After the delete, the recipe has no lines and every other recipe keeps its own. |
| Serializers.LinesOfAbsent | backend/recipes/serializers.py:215-220 | A recipe no row mentions has no lines. |
| Serializers.RemoveLinesOf | backend/recipes/serializers.py:232 | The delete keeps exactly the rows of other recipes. |
| Serializers.LinesOf | backend/recipes/serializers.py:232-233 | A recipe's lines as the serializer reads them back: its rows, in table order, no more of them than rows. |
| Serializers.ReplaceLines | backend/recipes/serializers.py:232-233 | The recipe's old rows are deleted and the submitted lines appended for it. |
| Serializers.ReplaceLinesExact | backend/recipes/serializers.py:232-233 | After `update`, the recipe's lines are exactly the submitted list, and every other recipe's lines are unchanged. |
| Serializers.RemoveKeepsConstraints | backend/recipes/serializers.py:232 | The delete keeps the uniqueness, minimum-amount and foreign-key constraints. |
| Serializers.AppendNewKeepsConstraints | backend/recipes/serializers.py:202-210 | Appending accepted lines for a recipe with no rows keeps those constraints. |
| Serializers.Patched | backend/recipes/serializers.py:227-231 | Submitted fields replace stored ones, absent ones stay, the author never changes, and the tags become the submitted set. |
| Serializers.Create | backend/recipes/serializers.py:212-221 | A new recipe by the requester with the submitted tags. Its lines read back as exactly the submitted list, and the store stays valid. |
| Serializers.Update | backend/recipes/serializers.py:223-235 | The recipe row is patched and its lines replaced. They read back as the submitted list, other recipes keep theirs, and the store stays valid. |
| Serializers.CreateKeepsConsistent | backend/recipes/serializers.py:212-221 | Storing a new recipe by an existing user with accepted lines keeps every table constraint: unique (recipe, ingredient) pairs, amounts of at least 1, and foreign keys that resolve. |
| Serializers.UpdateKeepsConsistent | backend/recipes/serializers.py:223-235 | Patching a recipe (same author) and replacing its lines with accepted ones keeps every table constraint. |
| Store.Consistent | backend/recipes/models.py:48-53 | The tables' constraints: unique (name, unit) ingredients and (recipe, ingredient) lines, amounts of at least `MIN_INGREDIENT_AMOUNT`, unique favorite, cart and subscription rows, and foreign keys that resolve. |
| Store.Database.Valid | backend/recipes/models.py:129-142 | The store's tables satisfy `Consistent`. |
| Strings.Less | backend/recipes/utils.py:16 | Python's string comparison: code point by code point, a proper prefix first. |
| ShoppingList.KeyLess | backend/recipes/utils.py:16 | The order `sorted` puts (name, unit) tuples in: by name, then by unit. |
| Strings.Split | backend/recipes/serializers.py:22-23 | `str.split(sep)` always yields at least one piece. |
| Strings.SplitNoOccurrence | backend/recipes/serializers.py:22 | A string in which the separator does not occur splits into itself alone. |
| Strings.SplitLastPiece | backend/recipes/serializers.py:23 | `split('/')[-1]` is the suffix after the last `/`, or the whole string when there is none. |
| Strings.JoinSplit | backend/recipes/serializers.py:22-23 | Joining the pieces of a split with the separator gives the string back. |
| Strings.IntToString | backend/recipes/utils.py:17 | `str(n)` is non-empty and begins with `-` exactly when `n` is negative. |
| Strings.IntToStringRoundTrip | backend/recipes/utils.py:17 | `str(n)` is a canonical numeral that reads back as `n`. |
| Strings.IntToStringOnto | backend/recipes/utils.py:17 | Every canonical numeral is `str` of the number it denotes. |
| ShoppingListProperties.ConcatIsJoin | backend/recipes/utils.py:19 | `''.join(lines)` of the aggregator is `str.join` with the empty separator. |
| RecipeViews.DeclaredPermission | backend/recipes/views.py:81-143 | The permission class each `@action` decorator declares. |
| UserViews.DeclaredUserPermission | backend/users/views.py:19-123 | `super().get_permissions()`: `IsAuthenticated` for the five actions whose `@action` declares it (lines 36, 45, 60, 88, 123), otherwise the class's `[AllowAny]` (line 19). |

## Left out

- The tag table, and the check by `PrimaryKeyRelatedField` that submitted tags exist: tags are plain ids here.
- `MIN_INGREDIENT_AMOUNT` is taken to be 1, the bound of the serializer's `min_value=1`. The constants module that defines it is not part of this model.
- `MIN_COOKING_TIME` and the cooking-time validator: the constants module is not part of this model, and cooking time feeds no modelled property.
- `IsAuthorOrReadOnly` itself: the permission class's file is not part of this model. Only which actions get it is modelled.
- `Meta.ordering` of the favorites, cart and recipe tables: tables keep insertion order. `CartOrderIrrelevant` shows that the order does not affect the shopping list.
- Primary keys that are not numbers: `pk` is a natural number here, so a malformed URL is not modelled.
- The image validation the framework's `ImageField` runs after `to_internal_value`: it is library code.
- Base64 decoding and `uuid4()`: they are parameters of `Serializers.ToInternalValue`.
- `transaction.atomic` and concurrent requests: each request is one atomic step on the store.
- The admin modules and `duplicate_recipe`: they are configuration and an ORM save loop.
- The user serializers (passwords, tokens, `recipes_limit` slicing): they are framework and library calls.
- Response bodies built by serializers (`to_representation`, absolute URLs): 201 responses carry only the primary key.
- Serializers.ValidateIngredientsField: reports one error kind for any amount below 1. It does not model the per-item error list the framework builds, nor the rejection of non-integer input (the fields are typed here).
- Serializers.ValidateIngredientsField: accepts any amount of at least 1, however large, as the serializer's `IntegerField(min_value=1)` does; it has no `max_value`. The `PositiveIntegerField` column holds amounts only up to 2147483647 on the databases Django supports, so in the source a larger amount passes validation and then fails at the database write. The model has no integer width and accepts it.
- Serializers.Create: stores any accepted amount and promises it reads back. In the source an amount above 2147483647 makes `bulk_create` fail, so the request ends in an error instead.
- Serializers.Update: as `Create`, an amount above 2147483647 is stored by the model, while in the source it makes the database write fail.
- Serializers.IngredientsMessage: the amount error's text, `Убедитесь, что это значение больше либо равно 1.`, is the framework's `min_value` message as translated for a Russian locale. The locale setting and the translation catalog are not part of this model; the text is assumed.
- Serializers.Create: the new recipe's primary key is a parameter that must be unused. The database chooses it in the source.
- The subscription table's database constraints: `Store.Database.Valid` keeps the table duplicate-free, with rows between existing users, and `Subscribe` proves that the endpoint keeps this. `SubscribeOutcome` also keeps the table free of self-subscriptions.
- The 500 error an anonymous user gets on the three actions left open (see Findings): the ORM's failure on an anonymous user is not modelled.

## Findings

| source | as written | input that shows it | evidently intended | confidence | as-written member | corrected member |
|---|---|---|---|---|---|---|
| backend/recipes/views.py:46-51 | `get_permissions` returns `AllowAny` for every action outside its two lists. It never consults the `permission_classes` that the `@action` decorators declare. So `delete_favorite`, `delete_shopping_cart` and `download_shopping_cart` (all declared `IsAuthenticated`) are open to anonymous users. | An anonymous `DELETE /api/recipes/1/favorite/` or `GET /api/recipes/download_shopping_cart/` passes the permission check. | The declared `IsAuthenticated` applies, so the request is refused with 401. | not executed | RecipeViews.DeclaredPermissionIgnored | RecipeViews.RecipePermissionCorrected |
| backend/users/views.py:17-31 | `UserViewSet` is a `ModelViewSet` whose class permission is `[AllowAny]`, and `get_permissions` falls back to it for every action outside its two lists. So `update`, `partial_update` and `destroy` on a user are open to anyone. | An anonymous `DELETE /api/users/1/` or `PATCH /api/users/1/` passes the permission check, provided the URL configuration routes the view set with its default methods. | Writes to a user are refused to anonymous requesters. The view set defines no handler of its own for them, and user data is otherwise changed only through the authenticated `me`, `set_password` and `set_avatar`. | not executed; low, because the routing is not part of this model | UserViews.UserWritesOpen | UserViews.UserPermissionCorrected |
