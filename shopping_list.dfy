/**
 * The shopping-list aggregator of backend/recipes/utils.py.
 *
 * `GenerateShoppingCartFile` follows the source step by step: it explodes
 * every cart entry into its ingredient lines, adds each amount into a
 * dictionary keyed by (name, measurement unit), sorts the keys and renders
 * one CRLF-terminated line per key under a fixed header. It is proved
 * equal to `ShoppingListText`, a declarative description of the list: the
 * header, then one line per distinct key in ascending code-point order,
 * carrying the sum of that key's amounts. The lemmas below state what the
 * list promises: the header, one line per key, the order, the exact line
 * format, the sums, and independence from the order of the input.
 */
module ShoppingList {
  import opened Strings
  import opened Models

  /** One cart entry as the aggregator reads it: `item.recipe.ingredient_amounts.all()`. */
  datatype CartItem = CartItem(recipe: RecipeId, ingredientAmounts: seq<IngredientAmount>)

  /** The grouping key `(ing.name, ing.measurement_unit)`. */
  datatype Key = Key(name: string, unit: string)

  /** One ingredient line of one cart recipe, or one aggregated entry: a key and an amount. */
  datatype Item = Item(key: Key, amount: int)

  const HeaderTitle: string := "Список покупок:"
  const Header: string := HeaderTitle + "\r\n"

  // ---------------------------------------------------------------------
  // The order `sorted` uses on keys: tuples compare by name, then by unit.

  predicate KeyLess(a: Key, b: Key) {
    Less(a.name, b.name) || (a.name == b.name && Less(a.unit, b.unit))
  }

  lemma KeyLessIrreflexive(a: Key)
    ensures !KeyLess(a, a)
  {
    LessIrreflexive(a.name);
    LessIrreflexive(a.unit);
  }

  lemma KeyLessTransitive(a: Key, b: Key, c: Key)
    requires KeyLess(a, b) && KeyLess(b, c)
    ensures KeyLess(a, c)
  {
    if Less(a.name, b.name) && Less(b.name, c.name) {
      LessTransitive(a.name, b.name, c.name);
    } else if a.name == b.name && b.name == c.name {
      LessTransitive(a.unit, b.unit, c.unit);
    }
  }

  lemma KeyLessTotal(a: Key, b: Key)
    requires a != b
    ensures KeyLess(a, b) || KeyLess(b, a)
  {
    if a.name != b.name {
      LessTotal(a.name, b.name);
    } else {
      LessTotal(a.unit, b.unit);
    }
  }

  predicate StrictlyAscending(keys: seq<Key>) {
    forall i, j :: 0 <= i < j < |keys| ==> KeyLess(keys[i], keys[j])
  }

  predicate IsLeast(m: Key, s: set<Key>) {
    m in s && forall k :: k in s ==> k == m || KeyLess(m, k)
  }

  lemma {:induction false} LeastExists(s: set<Key>)
    requires s != {}
    ensures exists m :: IsLeast(m, s)
    decreases |s|
  {
    var x :| x in s;
    if s != {x} {
      var rest := s - {x};
      LeastExists(rest);
      var m :| IsLeast(m, rest);
      if KeyLess(x, m) {
        forall k | k in s
          ensures k == x || KeyLess(x, k)
        {
          if k != x && k != m {
            KeyLessTransitive(x, m, k);
          }
        }
        assert IsLeast(x, s);
      } else {
        KeyLessTotal(x, m);
        assert IsLeast(m, s);
      }
    } else {
      assert IsLeast(x, s);
    }
  }

  lemma LeastUnique(a: Key, b: Key, s: set<Key>)
    requires IsLeast(a, s) && IsLeast(b, s)
    ensures a == b
  {
    if a != b {
      KeyLessTransitive(a, b, a);
      KeyLessIrreflexive(a);
    }
  }

  /** The keys of a finite set in ascending order: what `sorted` returns for them. */
  ghost function SortedKeys(s: set<Key>): seq<Key>
    decreases |s|
  {
    if s == {} then []
    else
      LeastExists(s);
      var m :| IsLeast(m, s);
      [m] + SortedKeys(s - {m})
  }

  /** `SortedKeys` lists exactly the keys of the set, each once, in ascending order. */
  lemma {:induction false} SortedKeysSpec(s: set<Key>)
    ensures var r := SortedKeys(s);
      StrictlyAscending(r) && |r| == |s| && forall k :: k in r <==> k in s
    decreases |s|
  {
    if s != {} {
      var r := SortedKeys(s);
      var m := r[0];
      assert IsLeast(m, s) && r == [m] + SortedKeys(s - {m});
      SortedKeysSpec(s - {m});
      forall i, j | 0 <= i < j < |r| ensures KeyLess(r[i], r[j]) {
        if i == 0 {
          assert r[j] in SortedKeys(s - {m});
        }
      }
    }
  }

  lemma HeadIn(s: seq<Key>)
    ensures s != [] ==> s[0] in s
  {
  }

  /** Two ascending sequences with the same elements are the same sequence. */
  lemma {:induction false} AscendingUnique(a: seq<Key>, b: seq<Key>)
    requires StrictlyAscending(a) && StrictlyAscending(b)
    requires forall k :: k in a <==> k in b
    ensures a == b
    decreases |a|
  {
    if a != [] && b != [] {
      var s := set k | k in a;
      assert IsLeast(a[0], s) by {
        forall k | k in s ensures k == a[0] || KeyLess(a[0], k) {
          var i :| 0 <= i < |a| && a[i] == k;
        }
      }
      assert IsLeast(b[0], s) by {
        forall k | k in s ensures k == b[0] || KeyLess(b[0], k) {
          var i :| 0 <= i < |b| && b[i] == k;
        }
      }
      LeastUnique(a[0], b[0], s);
      forall k ensures k in a[1..] <==> k in b[1..] {
        if k in a[1..] {
          var i :| 1 <= i < |a| && a[i] == k;
          KeyLessIrreflexive(k);
          assert k in b;
          var j :| 0 <= j < |b| && b[j] == k;
          assert j != 0;
          assert b[1..][j - 1] == k;
        }
        if k in b[1..] {
          var j :| 1 <= j < |b| && b[j] == k;
          KeyLessIrreflexive(k);
          assert k in a;
          var i :| 0 <= i < |a| && a[i] == k;
          assert i != 0;
          assert a[1..][i - 1] == k;
        }
      }
      AscendingUnique(a[1..], b[1..]);
      assert a == [a[0]] + a[1..] && b == [b[0]] + b[1..];
    } else if a != [] {
      HeadIn(a);
      assert false;
    } else if b != [] {
      HeadIn(b);
      assert false;
    }
  }

  // ---------------------------------------------------------------------
  // The declarative description of the list.

  function KeyOf(ia: IngredientAmount): Key {
    Key(ia.ingredient.name, ia.ingredient.measurementUnit)
  }

  /** One ingredient line as a (key, amount) item. */
  function LineItem(ia: IngredientAmount): Item {
    Item(KeyOf(ia), ia.amount)
  }

  /** The lines of one recipe as (key, amount) items, in the recipe's order. */
  function Items(amounts: seq<IngredientAmount>): (r: seq<Item>)
    ensures |r| == |amounts|
    ensures forall i :: 0 <= i < |r| ==> r[i] == LineItem(amounts[i])
  {
    if amounts == [] then []
    else Items(amounts[..|amounts| - 1]) + [LineItem(amounts[|amounts| - 1])]
  }

  /** Every ingredient line of every cart recipe, cart entry by cart entry. */
  function Explode(cart: seq<CartItem>): seq<Item> {
    if cart == [] then []
    else Explode(cart[..|cart| - 1]) + Items(cart[|cart| - 1].ingredientAmounts)
  }

  /** The sum of the amounts of the items with key `k`. */
  function Total(items: seq<Item>, k: Key): int {
    if items == [] then 0
    else Total(items[..|items| - 1], k) + (if items[|items| - 1].key == k then items[|items| - 1].amount else 0)
  }

  /** The distinct keys among the items. */
  function KeysOf(items: seq<Item>): set<Key> {
    set i | 0 <= i < |items| :: items[i].key
  }

  /** The aggregated entries: every distinct key once, ascending, with its total. */
  ghost function Entries(cart: seq<CartItem>): seq<Item> {
    var items := Explode(cart);
    var keys := SortedKeys(KeysOf(items));
    seq(|keys|, i requires 0 <= i < |keys| => Item(keys[i], Total(items, keys[i])))
  }

  /** `f'{name} - {amount} {unit}\r\n'`. */
  function RenderLine(e: Item): string {
    e.key.name + " - " + IntToString(e.amount) + " " + e.key.unit + "\r\n"
  }

  /** One rendered line per entry, in the entries' order. */
  function RenderEach(entries: seq<Item>): seq<string> {
    seq(|entries|, i requires 0 <= i < |entries| => RenderLine(entries[i]))
  }

  /** The header followed by one rendered line per entry. */
  function RenderLines(entries: seq<Item>): seq<string> {
    [Header] + RenderEach(entries)
  }

  /** `''.join(lines)`. */
  function Concat(lines: seq<string>): string {
    if lines == [] then "" else lines[0] + Concat(lines[1..])
  }

  ghost function ShoppingListLines(cart: seq<CartItem>): seq<string> {
    RenderLines(Entries(cart))
  }

  ghost function ShoppingListText(cart: seq<CartItem>): string {
    Concat(ShoppingListLines(cart))
  }

  // ---------------------------------------------------------------------
  // The source's algorithm.

  /** Unfolding `SortedKeys` at its least element. */
  lemma SortedKeysLeast(s: set<Key>, m: Key)
    requires IsLeast(m, s)
    ensures SortedKeys(s) == [m] + SortedKeys(s - {m})
  {
    var r := SortedKeys(s);
    SortedKeysSpec(s);
    assert r[0] in s;
    forall k | k in s ensures k == r[0] || KeyLess(r[0], k) {
      var i :| 0 <= i < |r| && r[i] == k;
    }
    LeastUnique(m, r[0], s);
  }

  /** `sorted` on the dictionary's keys, by repeatedly taking the least remaining key. */
  method SortKeys(keys: set<Key>) returns (sorted: seq<Key>)
    ensures sorted == SortedKeys(keys)
  {
    sorted := [];
    var rest := keys;
    while rest != {}
      invariant sorted + SortedKeys(rest) == SortedKeys(keys)
      decreases |rest|
    {
      LeastExists(rest);
      var m :| IsLeast(m, rest);
      SortedKeysLeast(rest, m);
      sorted := sorted + [m];
      rest := rest - {m};
    }
  }

  /** `totals` holds, for every key among `items`, the sum of its amounts, and no other key. */
  ghost predicate Tallies(totals: map<Key, int>, items: seq<Item>) {
    totals.Keys == KeysOf(items) && forall k :: k in totals ==> totals[k] == Total(items, k)
  }

  /** `ing_dict[key] += amount` keeps the dictionary a tally of the lines seen so far. */
  lemma TalliesAdd(totals: map<Key, int>, items: seq<Item>, x: Item)
    requires Tallies(totals, items)
    ensures Tallies(totals[x.key := (if x.key in totals then totals[x.key] else 0) + x.amount], items + [x])
  {
    KeysOfSnoc(items, x);
    TotalSnoc(items, x);
    if x.key !in totals {
      TotalAbsent(items, x.key);
    }
  }

  /** The first half of `generate_shopping_cart_file`: fill `ing_dict` from the cart. */
  method TallyCart(shoppingCart: seq<CartItem>) returns (ingDict: map<Key, int>)
    ensures Tallies(ingDict, Explode(shoppingCart))
  {
    ingDict := map[];
    for i := 0 to |shoppingCart|
      invariant Tallies(ingDict, Explode(shoppingCart[..i]))
    {
      ingDict := TallyRecipe(ingDict, Explode(shoppingCart[..i]), shoppingCart[i].ingredientAmounts);
      ExplodePrefix(shoppingCart, i + 1);
    }
    ExplodePrefix(shoppingCart, |shoppingCart|);
  }

  /**
   * The inner loop of `generate_shopping_cart_file`: `ing_dict[key] += amount`
   * for each ingredient line of one recipe, which extends the tally by that
   * recipe's lines.
   */
  method TallyRecipe(ingDict: map<Key, int>, ghost seen: seq<Item>, amounts: seq<IngredientAmount>)
    returns (updated: map<Key, int>)
    requires Tallies(ingDict, seen)
    ensures Tallies(updated, seen + Items(amounts))
  {
    updated := ingDict;
    ItemsPrefix(amounts, 0);
    assert seen + Items(amounts[..0]) == seen;
    for j := 0 to |amounts|
      invariant Tallies(updated, seen + Items(amounts[..j]))
    {
      var ing := amounts[j].ingredient;
      var key := Key(ing.name, ing.measurementUnit);
      ghost var done, x := Items(amounts[..j]), LineItem(amounts[j]);
      ItemsPrefix(amounts, j + 1);
      AppendAssoc(seen, done, [x]);
      TalliesAdd(updated, seen + done, x);
      assert x.key == key && x.amount == amounts[j].amount;
      updated := updated[key := (if key in updated then updated[key] else 0) + amounts[j].amount];
    }
    ItemsPrefix(amounts, |amounts|);
  }

  /** `Items` over a prefix of a recipe's lines: empty, one more line than the shorter prefix, or all of them. */
  lemma ItemsPrefix(amounts: seq<IngredientAmount>, j: int)
    requires 0 <= j <= |amounts|
    ensures j == 0 ==> Items(amounts[..j]) == []
    ensures j > 0 ==> Items(amounts[..j]) == Items(amounts[..j - 1]) + [LineItem(amounts[j - 1])]
    ensures j == |amounts| ==> Items(amounts[..j]) == Items(amounts)
  {
    PrefixFacts(amounts, j);
  }

  /** `Explode` over a prefix of the cart: one more recipe than the shorter prefix, or the whole cart. */
  lemma ExplodePrefix(cart: seq<CartItem>, i: int)
    requires 0 <= i <= |cart|
    ensures i > 0 ==> Explode(cart[..i]) == Explode(cart[..i - 1]) + Items(cart[i - 1].ingredientAmounts)
    ensures i == |cart| ==> Explode(cart[..i]) == Explode(cart)
  {
    PrefixFacts(cart, i);
  }

  /** Rendering one more entry appends its line. */
  lemma RenderEachSnoc(entries: seq<Item>, i: int)
    requires 0 <= i < |entries|
    ensures RenderEach(entries[..i + 1]) == RenderEach(entries[..i]) + [RenderLine(entries[i])]
  {
    var a, b := RenderEach(entries[..i + 1]), RenderEach(entries[..i]) + [RenderLine(entries[i])];
    assert |a| == |b|;
    forall k | 0 <= k < |a| ensures a[k] == b[k] {
      if k < i {
        assert b[k] == RenderEach(entries[..i])[k];
      }
    }
  }

  lemma AppendAssoc<T>(a: seq<T>, b: seq<T>, c: seq<T>)
    ensures a + (b + c) == (a + b) + c
  {
  }

  lemma PrefixFacts<T>(s: seq<T>, j: int)
    requires 0 <= j <= |s|
    ensures j == 0 ==> s[..j] == []
    ensures j > 0 ==> s[..j][..j - 1] == s[..j - 1] && s[..j][j - 1] == s[j - 1]
    ensures j == |s| ==> s[..j] == s
  {
  }

  /** `generate_shopping_cart_file`: tally, sort the keys, render one line per key under the header. */
  method GenerateShoppingCartFile(shoppingCart: seq<CartItem>) returns (text: string)
    ensures text == ShoppingListText(shoppingCart)
  {
    var ingDict := TallyCart(shoppingCart);
    var keys := SortKeys(ingDict.Keys);
    ghost var entries := Entries(shoppingCart);
    EntriesFromTotals(shoppingCart, ingDict);
    var lines := [Header];
    for i := 0 to |keys|
      invariant lines == [Header] + RenderEach(entries[..i])
    {
      RenderEachSnoc(entries, i);
      AppendAssoc([Header], RenderEach(entries[..i]), [RenderLine(entries[i])]);
      lines := lines + [RenderLine(Item(keys[i], ingDict[keys[i]]))];
    }
    text := Concat(lines);
    PrefixFacts(entries, |keys|);
  }

  /** The entries are the dictionary's keys in ascending order, each with its dictionary total. */
  lemma EntriesFromTotals(cart: seq<CartItem>, totals: map<Key, int>)
    requires Tallies(totals, Explode(cart))
    ensures var keys := SortedKeys(totals.Keys); var e := Entries(cart);
      |e| == |keys| && forall j :: 0 <= j < |e| ==> keys[j] in totals && e[j] == Item(keys[j], totals[keys[j]])
  {
    SortedKeysSpec(totals.Keys);
  }

  lemma KeysOfSnoc(items: seq<Item>, x: Item)
    ensures KeysOf(items + [x]) == KeysOf(items) + {x.key}
  {
    var s := items + [x];
    forall k | k in KeysOf(items) ensures k in KeysOf(s) {
      var i :| 0 <= i < |items| && items[i].key == k;
      assert s[i].key == k;
    }
    assert s[|items|].key == x.key;
  }

  /** A key that no item carries totals zero. */
  lemma {:induction false} TotalAbsent(items: seq<Item>, k: Key)
    requires k !in KeysOf(items)
    ensures Total(items, k) == 0
  {
    if items != [] {
      var init := items[..|items| - 1];
      assert KeysOf(init) <= KeysOf(items) by {
        forall x | x in KeysOf(init) ensures x in KeysOf(items) {
          var i :| 0 <= i < |init| && init[i].key == x;
          assert items[i].key == x;
        }
      }
      TotalAbsent(init, k);
      assert items[|items| - 1].key in KeysOf(items);
    }
  }

  lemma TotalSnoc(items: seq<Item>, x: Item)
    ensures forall k :: Total(items + [x], k) == Total(items, k) + (if x.key == k then x.amount else 0)
  {
    assert (items + [x])[..|items|] == items;
  }
}
