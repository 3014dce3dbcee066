/**
 * `RecipeFilter.filter_is_favorited` and `filter_is_in_shopping_cart` of
 * backend/recipes/filters.py. A queryset is the sequence of recipe ids it
 * yields, in its order; the filter value is the decimal `NumberFilter` parsed.
 * `request` is the filterset's `request` attribute: django-filter's
 * `FilterSet.__init__` always sets it, to `None` when the filterset is built
 * without a request, so `hasattr(self, 'request')` always holds.
 */
module Filters {
  import opened Wrappers
  import opened Models
  import opened Http
  import opened Relations

  /** What a filter method raises instead of returning a queryset. */
  datatype FilterError =
    /** `None.user`: the `AttributeError` of reading the user of a missing request. */
    | NoneHasNoUser

  /** `value and hasattr(self, 'request') and self.request.user.is_authenticated` holds. */
  predicate Applies(value: real, request: Option<Requester>) {
    value != 0.0 && request.Some? && request.value.Authenticated?
  }

  /** The condition reaches `self.request.user` while `self.request` is `None`. */
  predicate Raises(value: real, request: Option<Requester>) {
    value != 0.0 && request.None?
  }

  /** `queryset.filter(id__in=ids)`: the queryset's recipes whose id is among `ids`, in queryset order. */
  function KeepIn(queryset: seq<RecipeId>, ids: seq<RecipeId>): (r: seq<RecipeId>)
    ensures forall x :: x in r <==> x in queryset && x in ids
    ensures multiset(r) <= multiset(queryset)
  {
    if queryset == [] then []
    else
      var n := |queryset| - 1;
      assert queryset == queryset[..n] + [queryset[n]];
      KeepIn(queryset[..n], ids) + (if queryset[n] in ids then [queryset[n]] else [])
  }

  /** Only which ids are listed matters, not their order or repetition. */
  lemma {:induction false} KeepInMembership(queryset: seq<RecipeId>, ids1: seq<RecipeId>, ids2: seq<RecipeId>)
    requires forall x :: x in ids1 <==> x in ids2
    ensures KeepIn(queryset, ids1) == KeepIn(queryset, ids2)
    decreases |queryset|
  {
    if queryset != [] {
      KeepInMembership(queryset[..|queryset| - 1], ids1, ids2);
    }
  }

  /**
   * The body the two filter methods share: when the filter applies, the
   * queryset's recipes that the requester has a row for in `rows`; with a
   * non-zero value and no request, an `AttributeError`; otherwise the
   * queryset untouched.
   */
  function FilterByUserRows(queryset: seq<RecipeId>, value: real, request: Option<Requester>, rows: seq<UserRecipe>)
    : (r: Result<seq<RecipeId>, FilterError>)
    ensures r.Failure? <==> Raises(value, request)
    ensures !Applies(value, request) && !Raises(value, request) ==> r == Success(queryset)
    ensures Applies(value, request) ==> r.Success?
    ensures Applies(value, request) && r.Success? ==>
      forall x :: x in r.value <==> x in queryset && UserRecipe(request.value.id, x) in rows
    ensures r.Success? ==> multiset(r.value) <= multiset(queryset)
  {
    if value == 0.0 then Success(queryset)
    else match request
      case None => Failure(NoneHasNoUser)
      case Some(requester) =>
        if requester.Authenticated? then Success(KeepIn(queryset, RecipesOf(rows, requester.id)))
        else Success(queryset)
  }

  /** `filter_is_favorited`: filtering by the favorites table. */
  function FilterIsFavorited(queryset: seq<RecipeId>, value: real, request: Option<Requester>, favorites: seq<UserRecipe>)
    : (r: Result<seq<RecipeId>, FilterError>)
    ensures r.Failure? <==> Raises(value, request)
    ensures !Applies(value, request) && !Raises(value, request) ==> r == Success(queryset)
    ensures Applies(value, request) ==> r.Success?
    ensures Applies(value, request) && r.Success? ==>
      forall x :: x in r.value <==> x in queryset && UserRecipe(request.value.id, x) in favorites
    ensures r.Success? ==> multiset(r.value) <= multiset(queryset)
  {
    FilterByUserRows(queryset, value, request, favorites)
  }

  /** `filter_is_in_shopping_cart`: filtering by the shopping-cart table. */
  function FilterIsInShoppingCart(queryset: seq<RecipeId>, value: real, request: Option<Requester>, cart: seq<UserRecipe>)
    : (r: Result<seq<RecipeId>, FilterError>)
    ensures r.Failure? <==> Raises(value, request)
    ensures !Applies(value, request) && !Raises(value, request) ==> r == Success(queryset)
    ensures Applies(value, request) ==> r.Success?
    ensures Applies(value, request) && r.Success? ==>
      forall x :: x in r.value <==> x in queryset && UserRecipe(request.value.id, x) in cart
    ensures r.Success? ==> multiset(r.value) <= multiset(queryset)
  {
    FilterByUserRows(queryset, value, request, cart)
  }

  /**
   * Only the requester's own rows matter: two tables that agree on which
   * recipes the requester has give the same result, in the same order, whatever
   * the other users' rows are.
   */
  lemma OtherUsersRowsIrrelevant(queryset: seq<RecipeId>, value: real, request: Option<Requester>,
                                 rows1: seq<UserRecipe>, rows2: seq<UserRecipe>)
    requires request.Some? && request.value.Authenticated? ==>
      forall x :: UserRecipe(request.value.id, x) in rows1 <==> UserRecipe(request.value.id, x) in rows2
    ensures FilterIsFavorited(queryset, value, request, rows1) == FilterIsFavorited(queryset, value, request, rows2)
    ensures FilterIsInShoppingCart(queryset, value, request, rows1) == FilterIsInShoppingCart(queryset, value, request, rows2)
  {
    if Applies(value, request) {
      KeepInMembership(queryset, RecipesOf(rows1, request.value.id), RecipesOf(rows2, request.value.id));
    }
  }

  /** Unfolding `KeepIn` at the queryset's last recipe. */
  lemma KeepInSnoc(queryset: seq<RecipeId>, ids: seq<RecipeId>)
    requires queryset != []
    ensures var m := |queryset| - 1;
      KeepIn(queryset, ids) == KeepIn(queryset[..m], ids) + (if queryset[m] in ids then [queryset[m]] else [])
  {
  }

  /** The filter keeps the queryset's order: filtering a prefix gives a prefix of the result. */
  lemma {:induction false} KeepInPrefix(queryset: seq<RecipeId>, ids: seq<RecipeId>, n: nat)
    requires n <= |queryset|
    ensures KeepIn(queryset[..n], ids) <= KeepIn(queryset, ids)
    decreases |queryset|
  {
    if n < |queryset| {
      var init := queryset[..|queryset| - 1];
      assert init[..n] == queryset[..n];
      KeepInPrefix(init, ids, n);
      KeepInSnoc(queryset, ids);
      var extra := if queryset[|queryset| - 1] in ids then [queryset[|queryset| - 1]] else [];
      assert KeepIn(init, ids) <= KeepIn(init, ids) + extra;
    } else {
      assert queryset[..n] == queryset;
    }
  }
}
