/**
 * What the exported shopping list promises, proved about `ShoppingListText`
 * (which `GenerateShoppingCartFile` is proved to compute).
 */
module ShoppingListProperties {
  import opened Strings
  import opened Models
  import opened ShoppingList

  // ---------------------------------------------------------------------
  // Sums

  lemma SplitAt<T>(s: seq<T>, j: int)
    requires 0 <= j < |s|
    ensures s == (s[..j] + [s[j]]) + s[j + 1..]
  {
  }

  lemma RemoveAt<T>(s: seq<T>, j: int)
    requires 0 <= j < |s|
    ensures multiset(s) == multiset(s[..j] + s[j + 1..]) + multiset{s[j]}
  {
    assert s == s[..j] + [s[j]] + s[j + 1..];
  }

  /** Taking the last element off one of two permutations and one occurrence of it off the other leaves permutations. */
  lemma PermutationRemove<T>(a: seq<T>, b: seq<T>, j: int)
    requires multiset(a) == multiset(b)
    requires |a| > 0 && 0 <= j < |b| && b[j] == a[|a| - 1]
    ensures multiset(a[..|a| - 1]) == multiset(b[..j] + b[j + 1..])
  {
    var n := |a| - 1;
    RemoveAt(a, n);
    RemoveAt(b, j);
    assert a[..n] + a[n + 1..] == a[..n];
    var x := b[j];
    forall y ensures multiset(a[..n])[y] == multiset(b[..j] + b[j + 1..])[y] {
      assert multiset(a)[y] == multiset(a[..n])[y] + multiset{x}[y];
      assert multiset(b)[y] == multiset(b[..j] + b[j + 1..])[y] + multiset{x}[y];
    }
  }

  /** Totals add up over concatenated line lists: a key's total is the sum over all cart recipes. */
  lemma {:induction false} TotalAppend(a: seq<Item>, b: seq<Item>, k: Key)
    ensures Total(a + b, k) == Total(a, k) + Total(b, k)
    decreases |b|
  {
    if b == [] {
      assert a + b == a;
    } else {
      var init := b[..|b| - 1];
      assert (a + b)[..|a + b| - 1] == a + init;
      TotalAppend(a, init, k);
    }
  }

  /** A key's total does not depend on the order of the lines. */
  lemma {:induction false} TotalPermutation(a: seq<Item>, b: seq<Item>, k: Key)
    requires multiset(a) == multiset(b)
    ensures Total(a, k) == Total(b, k)
    decreases |a|
  {
    if a == [] {
      assert |b| == |multiset(b)| == 0;
    } else {
      var n := |a| - 1;
      var x := a[n];
      assert a == a[..n] + [x];
      assert x in multiset(b) by { assert x in multiset(a); }
      var j :| 0 <= j < |b| && b[j] == x;
      var rest := b[..j] + b[j + 1..];
      assert b == b[..j] + [x] + b[j + 1..];
      PermutationRemove(a, b, j);
      TotalPermutation(a[..n], rest, k);
      TotalAppend(b[..j], [x], k);
      TotalAppend(b[..j] + [x], b[j + 1..], k);
      TotalAppend(b[..j], b[j + 1..], k);
      assert [x][..0] == [];
    }
  }

  lemma KeysPermutation(a: seq<Item>, b: seq<Item>)
    requires multiset(a) == multiset(b)
    ensures KeysOf(a) == KeysOf(b)
  {
    forall k | k in KeysOf(a) ensures k in KeysOf(b) {
      var i :| 0 <= i < |a| && a[i].key == k;
      assert a[i] in multiset(b);
      var j :| 0 <= j < |b| && b[j] == a[i];
    }
    forall k | k in KeysOf(b) ensures k in KeysOf(a) {
      var j :| 0 <= j < |b| && b[j].key == k;
      assert b[j] in multiset(a);
      var i :| 0 <= i < |a| && a[i] == b[j];
    }
  }

  /** Every exploded item is a line of some cart recipe, and every such line is exploded. */
  lemma {:induction false} ExplodeMembers(cart: seq<CartItem>)
    ensures forall x :: x in Explode(cart) <==>
      exists i, j :: 0 <= i < |cart| && 0 <= j < |cart[i].ingredientAmounts| &&
        x == LineItem(cart[i].ingredientAmounts[j])
  {
    forall x ensures x in Explode(cart) <==>
      exists i, j :: 0 <= i < |cart| && 0 <= j < |cart[i].ingredientAmounts| &&
        x == LineItem(cart[i].ingredientAmounts[j])
    {
      if x in Explode(cart) {
        ExplodeMemberFromCart(cart, x);
      }
      if exists i, j :: (0 <= i < |cart| && 0 <= j < |cart[i].ingredientAmounts| &&
                         x == LineItem(cart[i].ingredientAmounts[j]))
      {
        var i, j :| 0 <= i < |cart| && 0 <= j < |cart[i].ingredientAmounts| &&
          x == LineItem(cart[i].ingredientAmounts[j]);
        CartLineExploded(cart, i, j);
      }
    }
  }

  /** Every line of the exploded cart comes from some ingredient line of some recipe. */
  lemma {:induction false} ExplodeMemberFromCart(cart: seq<CartItem>, x: Item)
    requires x in Explode(cart)
    ensures exists i, j :: (0 <= i < |cart| && 0 <= j < |cart[i].ingredientAmounts| &&
                            x == LineItem(cart[i].ingredientAmounts[j]))
    decreases |cart|
  {
    var n := |cart| - 1;
    var init := cart[..n];
    var amounts := cart[n].ingredientAmounts;
    ExplodeSnoc(cart);
    if x in Explode(init) {
      ExplodeMemberFromCart(init, x);
      var i, j :| 0 <= i < |init| && 0 <= j < |init[i].ingredientAmounts| &&
        x == LineItem(init[i].ingredientAmounts[j]);
      assert cart[i] == init[i];
    } else {
      assert x in Items(amounts);
      var j :| 0 <= j < |amounts| && Items(amounts)[j] == x;
      assert x == LineItem(cart[n].ingredientAmounts[j]);
    }
  }

  /** Every ingredient line of every recipe in the cart is a line of the exploded cart. */
  lemma {:induction false} CartLineExploded(cart: seq<CartItem>, i: int, j: int)
    requires 0 <= i < |cart| && 0 <= j < |cart[i].ingredientAmounts|
    ensures LineItem(cart[i].ingredientAmounts[j]) in Explode(cart)
    decreases |cart|
  {
    var n := |cart| - 1;
    var init := cart[..n];
    ExplodeSnoc(cart);
    if i < n {
      assert init[i] == cart[i];
      CartLineExploded(init, i, j);
    } else {
      var amounts := cart[n].ingredientAmounts;
      assert Items(amounts)[j] == LineItem(amounts[j]);
      assert Items(amounts)[j] in Items(amounts);
    }
  }

  lemma {:induction false} TotalNonNegative(items: seq<Item>, k: Key)
    requires forall i :: 0 <= i < |items| ==> items[i].amount >= 0
    ensures Total(items, k) >= 0
  {
    if items != [] {
      TotalNonNegative(items[..|items| - 1], k);
    }
  }

  lemma {:induction false} TotalPositive(items: seq<Item>, k: Key)
    requires forall i :: 0 <= i < |items| ==> items[i].amount >= 1
    requires k in KeysOf(items)
    ensures Total(items, k) >= 1
  {
    var n := |items| - 1;
    var init := items[..n];
    if items[n].key == k {
      TotalNonNegative(init, k);
    } else {
      var i :| 0 <= i < |items| && items[i].key == k;
      assert init[i].key == k;
      TotalPositive(init, k);
    }
  }

  /** When every submitted amount is at least 1, every rendered total is at least 1. */
  lemma TotalsPositive(cart: seq<CartItem>)
    requires forall i, j :: 0 <= i < |cart| && 0 <= j < |cart[i].ingredientAmounts| ==>
      cart[i].ingredientAmounts[j].amount >= 1
    ensures forall i :: 0 <= i < |Entries(cart)| ==> Entries(cart)[i].amount >= 1
  {
    var items := Explode(cart);
    ExplodeMembers(cart);
    assert forall i :: 0 <= i < |items| ==> items[i].amount >= 1 by {
      forall i | 0 <= i < |items| ensures items[i].amount >= 1 {
        assert items[i] in items;
      }
    }
    SortedKeysSpec(KeysOf(items));
    forall i | 0 <= i < |Entries(cart)| ensures Entries(cart)[i].amount >= 1 {
      TotalPositive(items, Entries(cart)[i].key);
    }
  }

  // ---------------------------------------------------------------------
  // Shape of the list

  /** On a non-empty list, `Concat` is `Join` with the empty separator: `''.join(lines)`. */
  lemma {:induction false} ConcatIsJoin(lines: seq<string>)
    requires |lines| >= 1
    ensures Concat(lines) == Join(lines, "")
    decreases |lines|
  {
    if |lines| > 1 {
      ConcatIsJoin(lines[1..]);
    } else {
      assert lines[1..] == [];
    }
  }

  lemma ConcatCons(x: string, rest: seq<string>)
    ensures Concat([x] + rest) == x + Concat(rest)
  {
    assert ([x] + rest)[1..] == rest;
  }

  /**
   * The text starts with the header line; a cart whose recipes list no
   * ingredient line (an empty cart in particular) yields the header alone.
   */
  lemma HeaderFirst(cart: seq<CartItem>)
    ensures StartsWith(ShoppingListText(cart), Header)
    ensures ShoppingListLines(cart)[0] == Header
    ensures Explode(cart) == [] ==> ShoppingListText(cart) == Header
  {
    var entries := Entries(cart);
    var rest := seq(|entries|, i requires 0 <= i < |entries| => RenderLine(entries[i]));
    assert ShoppingListLines(cart) == [Header] + rest;
    ConcatCons(Header, rest);
    if Explode(cart) == [] {
      assert KeysOf(Explode(cart)) == {};
      SortedKeysSpec({});
      assert rest == [];
    }
  }

  /** The entries list every distinct key once, ascending, each with its total. */
  lemma EntriesShape(cart: seq<CartItem>)
    ensures var e := Entries(cart); var items := Explode(cart);
      && |e| == |KeysOf(items)|
      && (forall k :: k in KeysOf(items) <==> exists i :: 0 <= i < |e| && e[i].key == k)
      && (forall i, j :: 0 <= i < j < |e| ==> KeyLess(e[i].key, e[j].key))
      && (forall i :: 0 <= i < |e| ==> e[i].amount == Total(items, e[i].key))
  {
    var items := Explode(cart);
    var keys := SortedKeys(KeysOf(items));
    SortedKeysSpec(KeysOf(items));
    var e := Entries(cart);
    assert forall i :: 0 <= i < |e| ==> e[i] == Item(keys[i], Total(items, keys[i]));
    forall k | k in KeysOf(items) ensures exists i :: 0 <= i < |e| && e[i].key == k {
      var i :| 0 <= i < |keys| && keys[i] == k;
      assert e[i].key == k;
    }
    forall k | exists i :: 0 <= i < |e| && e[i].key == k ensures k in KeysOf(items) {
      var i :| 0 <= i < |e| && e[i].key == k;
      assert keys[i] in keys;
    }
  }

  /** Rendering puts the header first and then one line per entry, in order. */
  lemma RenderLinesShape(entries: seq<Item>)
    ensures |RenderLines(entries)| == 1 + |entries|
    ensures RenderLines(entries)[0] == Header
    ensures forall i :: 1 <= i < |RenderLines(entries)| ==> RenderLines(entries)[i] == RenderLine(entries[i - 1])
  {
    ConsIndex(Header, RenderEach(entries));
  }

  lemma ConsIndex<T>(h: T, t: seq<T>)
    ensures |[h] + t| == 1 + |t| && ([h] + t)[0] == h
    ensures forall i :: 1 <= i < 1 + |t| ==> ([h] + t)[i] == t[i - 1]
  {
  }

  /**
   * The lines are the header and then one line per distinct key, in strictly
   * ascending (name, unit) order, each `name - total unit` with CRLF, where the
   * total is the sum of that key's amounts over all ingredient lines of the cart.
   */
  lemma ShoppingListShape(cart: seq<CartItem>)
    ensures var lines := ShoppingListLines(cart); var e := Entries(cart); var items := Explode(cart);
      && |lines| == 1 + |KeysOf(items)|
      && lines[0] == Header
      && |e| == |KeysOf(items)|
      && (forall k :: k in KeysOf(items) <==> exists i :: 0 <= i < |e| && e[i].key == k)
      && (forall i, j :: 0 <= i < j < |e| ==> KeyLess(e[i].key, e[j].key))
      && (forall i :: 0 <= i < |e| ==> e[i].amount == Total(items, e[i].key))
      && (forall i :: 1 <= i < |lines| ==>
            lines[i] == e[i - 1].key.name + " - " + IntToString(e[i - 1].amount) + " " + e[i - 1].key.unit + "\r\n")
  {
    EntriesShape(cart);
    RenderLinesShape(Entries(cart));
  }

  /**
   * The shape determines the list: any ascending list of entries that has
   * exactly the cart's keys, each with its total, renders to the same lines.
   */
  lemma ShoppingListDetermined(cart: seq<CartItem>, entries: seq<Item>)
    requires forall i, j :: 0 <= i < j < |entries| ==> KeyLess(entries[i].key, entries[j].key)
    requires forall k :: k in KeysOf(Explode(cart)) <==> exists i :: 0 <= i < |entries| && entries[i].key == k
    requires forall i :: 0 <= i < |entries| ==> entries[i].amount == Total(Explode(cart), entries[i].key)
    ensures RenderLines(entries) == ShoppingListLines(cart)
  {
    var items := Explode(cart);
    var keys := SortedKeys(KeysOf(items));
    SortedKeysSpec(KeysOf(items));
    var mine := seq(|entries|, i requires 0 <= i < |entries| => entries[i].key);
    assert StrictlyAscending(mine);
    forall k ensures k in mine <==> k in keys {
      if k in mine {
        var i :| 0 <= i < |mine| && mine[i] == k;
        assert entries[i].key == k;
      }
      if k in keys {
        var i :| 0 <= i < |entries| && entries[i].key == k;
        assert mine[i] == k;
      }
    }
    AscendingUnique(mine, keys);
    var e := Entries(cart);
    forall i | 0 <= i < |entries| ensures entries[i] == e[i] {
      assert mine[i] == keys[i];
    }
    assert entries == e;
  }

  /** Two ingredients with the same name and different units get two separate lines. */
  lemma UnitsNotMerged(cart: seq<CartItem>, name: string, unit1: string, unit2: string)
    requires unit1 != unit2
    requires Key(name, unit1) in KeysOf(Explode(cart)) && Key(name, unit2) in KeysOf(Explode(cart))
    ensures exists i, j ::
      && 0 <= i < |Entries(cart)| && 0 <= j < |Entries(cart)| && i != j
      && Entries(cart)[i] == Item(Key(name, unit1), Total(Explode(cart), Key(name, unit1)))
      && Entries(cart)[j] == Item(Key(name, unit2), Total(Explode(cart), Key(name, unit2)))
  {
    ShoppingListShape(cart);
    var e := Entries(cart);
    var i :| 0 <= i < |e| && e[i].key == Key(name, unit1);
    var j :| 0 <= j < |e| && e[j].key == Key(name, unit2);
    assert i != j;
  }

  /**
   * The list has exactly 1 + (number of distinct keys) line breaks, provided
   * no ingredient name or unit itself holds a line break.
   */
  lemma LineBreakCount(cart: seq<CartItem>)
    requires forall i, j :: 0 <= i < |cart| && 0 <= j < |cart[i].ingredientAmounts| ==>
      '\n' !in cart[i].ingredientAmounts[j].ingredient.name &&
      '\n' !in cart[i].ingredientAmounts[j].ingredient.measurementUnit
    ensures CountChar(ShoppingListText(cart), '\n') == 1 + |KeysOf(Explode(cart))|
  {
    var items := Explode(cart);
    ExplodeMembers(cart);
    ShoppingListShape(cart);
    var e := Entries(cart);
    forall i | 0 <= i < |e| ensures CountChar(RenderLine(e[i]), '\n') == 1 {
      var k := e[i].key;
      assert k in KeysOf(items);
      var x :| 0 <= x < |items| && items[x].key == k;
      assert items[x] in items;
      RenderLineBreak(e[i]);
    }
    RenderedBreaks(e);
  }

  /** A rendered line holds exactly one line break when the name and the unit hold none. */
  lemma RenderLineBreak(e: Item)
    requires '\n' !in e.key.name && '\n' !in e.key.unit
    ensures CountChar(RenderLine(e), '\n') == 1
  {
    var k := e.key;
    var s := IntToString(e.amount);
    assert '\n' !in s by {
      if e.amount < 0 {
        assert s == "-" + NatToString(-e.amount);
      }
    }
    CountCharAbsent(k.name, '\n');
    CountCharAbsent(" - ", '\n');
    CountCharAbsent(s, '\n');
    CountCharAbsent(" ", '\n');
    CountCharAbsent(k.unit, '\n');
    CountCharAppend(k.name, " - ", '\n');
    CountCharAppend(k.name + " - ", s, '\n');
    CountCharAppend(k.name + " - " + s, " ", '\n');
    CountCharAppend(k.name + " - " + s + " ", k.unit, '\n');
    CountCharAppend(k.name + " - " + s + " " + k.unit, "\r\n", '\n');
    LineEndBreak();
  }

  lemma RenderedBreaks(e: seq<Item>)
    requires forall i :: 0 <= i < |e| ==> CountChar(RenderLine(e[i]), '\n') == 1
    ensures CountChar(Concat(RenderLines(e)), '\n') == 1 + |e|
  {
    var lines := RenderLines(e);
    RenderLinesShape(e);
    HeaderBreaks();
    assert forall i :: 0 <= i < |lines| ==> CountChar(lines[i], '\n') == 1;
    OneBreakEach(lines);
  }

  lemma HeaderBreaks()
    ensures CountChar(Header, '\n') == 1
  {
    TitleHasNoBreak();
    LineEndBreak();
    CountCharAppend(HeaderTitle, "\r\n", '\n');
  }

  lemma TitleHasNoBreak()
    ensures CountChar(HeaderTitle, '\n') == 0
  {
    CountCharAbsent(HeaderTitle, '\n');
  }

  lemma LineEndBreak()
    ensures CountChar("\r\n", '\n') == 1
  {
    assert "\r\n"[1..] == "\n";
    assert "\n"[1..] == [];
  }

  /** Joining lines that each hold one line break gives one line break per line. */
  lemma {:induction false} OneBreakEach(lines: seq<string>)
    requires forall i :: 0 <= i < |lines| ==> CountChar(lines[i], '\n') == 1
    ensures CountChar(Concat(lines), '\n') == |lines|
    decreases |lines|
  {
    if lines != [] {
      OneBreakEach(lines[1..]);
      CountCharAppend(lines[0], Concat(lines[1..]), '\n');
    }
  }

  // ---------------------------------------------------------------------
  // Independence from the order of the input

  /** Only the multiset of (key, amount) lines matters. */
  lemma SameLinesSameText(c1: seq<CartItem>, c2: seq<CartItem>)
    requires multiset(Explode(c1)) == multiset(Explode(c2))
    ensures ShoppingListText(c1) == ShoppingListText(c2)
  {
    var a, b := Explode(c1), Explode(c2);
    KeysPermutation(a, b);
    var keys := SortedKeys(KeysOf(a));
    forall i | 0 <= i < |keys| ensures Total(a, keys[i]) == Total(b, keys[i]) {
      TotalPermutation(a, b, keys[i]);
    }
    var e1, e2 := Entries(c1), Entries(c2);
    assert |e1| == |e2| == |keys|;
    forall i | 0 <= i < |keys| ensures e1[i] == e2[i] {
      assert e1[i] == Item(keys[i], Total(a, keys[i]));
      assert e2[i] == Item(keys[i], Total(b, keys[i]));
    }
    assert e1 == e2;
  }

  /** Unfolding `Explode` at the cart's last entry. */
  lemma ExplodeSnoc(cart: seq<CartItem>)
    requires cart != []
    ensures Explode(cart) == Explode(cart[..|cart| - 1]) + Items(cart[|cart| - 1].ingredientAmounts)
  {
  }

  lemma {:induction false} ExplodeAppend(a: seq<CartItem>, b: seq<CartItem>)
    ensures Explode(a + b) == Explode(a) + Explode(b)
    decreases |b|
  {
    if b == [] {
      assert a + b == a;
    } else {
      var n := |b| - 1;
      var ab := a + b;
      assert ab[..|ab| - 1] == a + b[..n];
      assert ab[|ab| - 1] == b[n];
      ExplodeSnoc(ab);
      ExplodeSnoc(b);
      ExplodeAppend(a, b[..n]);
      var last := Items(b[n].ingredientAmounts);
      assert Explode(ab) == (Explode(a) + Explode(b[..n])) + last;
      assert (Explode(a) + Explode(b[..n])) + last == Explode(a) + (Explode(b[..n]) + last);
    }
  }

  lemma {:induction false} ExplodePermutation(c1: seq<CartItem>, c2: seq<CartItem>)
    requires multiset(c1) == multiset(c2)
    ensures multiset(Explode(c1)) == multiset(Explode(c2))
    decreases |c1|
  {
    if c1 == [] {
      assert |c2| == |multiset(c2)| == 0;
    } else {
      var n := |c1| - 1;
      var x := c1[n];
      assert x in multiset(c2) by { assert x in multiset(c1); }
      var j :| 0 <= j < |c2| && c2[j] == x;
      var p, q := c2[..j], c2[j + 1..];
      SplitAt(c2, j);
      PermutationRemove(c1, c2, j);
      ExplodePermutation(c1[..n], p + q);
      var line := Items(x.ingredientAmounts);
      ExplodeSnoc(c1);
      ExplodeSnoc([x]);
      assert [x][..0] == [];
      ExplodeAppend(p, [x]);
      ExplodeAppend(p + [x], q);
      ExplodeAppend(p, q);
      assert Explode(c2) == (Explode(p) + line) + Explode(q);
      assert Explode(c1) == Explode(c1[..n]) + line;
      calc {
        multiset(Explode(c1));
        multiset(Explode(c1[..n])) + multiset(line);
        multiset(Explode(p + q)) + multiset(line);
        multiset(Explode(p)) + multiset(Explode(q)) + multiset(line);
        multiset(Explode(c2));
      }
    }
  }

  /** Reordering the cart entries leaves the text unchanged. */
  lemma CartOrderIrrelevant(c1: seq<CartItem>, c2: seq<CartItem>)
    requires multiset(c1) == multiset(c2)
    ensures ShoppingListText(c1) == ShoppingListText(c2)
  {
    ExplodePermutation(c1, c2);
    SameLinesSameText(c1, c2);
  }

  lemma {:induction false} ItemsPermutation(a: seq<IngredientAmount>, b: seq<IngredientAmount>)
    requires multiset(a) == multiset(b)
    ensures multiset(Items(a)) == multiset(Items(b))
    decreases |a|
  {
    if a == [] {
      assert |b| == |multiset(b)| == 0;
    } else {
      var n := |a| - 1;
      var x := a[n];
      assert x in multiset(b) by { assert x in multiset(a); }
      var j :| 0 <= j < |b| && b[j] == x;
      PermutationRemove(a, b, j);
      ItemsPermutation(a[..n], b[..j] + b[j + 1..]);
      ItemsRemoveAt(b, j);
      ItemsSnoc(a);
    }
  }

  /** Taking one line out of a recipe takes its item out of the recipe's items. */
  lemma ItemsRemoveAt(b: seq<IngredientAmount>, j: int)
    requires 0 <= j < |b|
    ensures multiset(Items(b)) == multiset(Items(b[..j] + b[j + 1..])) + multiset{LineItem(b[j])}
  {
    var p, q, y := b[..j], b[j + 1..], LineItem(b[j]);
    SplitAt(b, j);
    ItemsAppend(p, [b[j]]);
    ItemsAppend(p + [b[j]], q);
    ItemsAppend(p, q);
    assert Items([b[j]]) == [y];
    var ip, iq := Items(p), Items(q);
    assert Items(b) == (ip + [y]) + iq;
    assert multiset(Items(b)) == multiset(ip) + multiset{y} + multiset(iq);
    assert multiset(Items(p + q)) == multiset(ip) + multiset(iq);
  }

  /** Unfolding `Items` at the last line. */
  lemma ItemsSnoc(amounts: seq<IngredientAmount>)
    requires amounts != []
    ensures Items(amounts) == Items(amounts[..|amounts| - 1]) + [LineItem(amounts[|amounts| - 1])]
  {
  }

  lemma ItemsAppend(a: seq<IngredientAmount>, b: seq<IngredientAmount>)
    ensures Items(a + b) == Items(a) + Items(b)
  {
  }

  /** Reordering the ingredient lines inside any of the cart recipes leaves the text unchanged. */
  lemma RecipeLineOrderIrrelevant(c1: seq<CartItem>, c2: seq<CartItem>)
    requires |c1| == |c2|
    requires forall i :: 0 <= i < |c1| ==> multiset(c1[i].ingredientAmounts) == multiset(c2[i].ingredientAmounts)
    ensures ShoppingListText(c1) == ShoppingListText(c2)
  {
    ExplodeLinePermutation(c1, c2);
    SameLinesSameText(c1, c2);
  }

  lemma {:induction false} ExplodeLinePermutation(c1: seq<CartItem>, c2: seq<CartItem>)
    requires |c1| == |c2|
    requires forall i :: 0 <= i < |c1| ==> multiset(c1[i].ingredientAmounts) == multiset(c2[i].ingredientAmounts)
    ensures multiset(Explode(c1)) == multiset(Explode(c2))
    decreases |c1|
  {
    if c1 != [] {
      var n := |c1| - 1;
      ExplodeLinePermutation(c1[..n], c2[..n]);
      ItemsPermutation(c1[n].ingredientAmounts, c2[n].ingredientAmounts);
    }
  }

  // ---------------------------------------------------------------------
  // Concrete lists

  /** A cart holding one recipe with one ingredient line: the header, then that line's `__str__` and CRLF. */
  lemma SingleLineCart(recipe: RecipeId, ia: IngredientAmount)
    ensures ShoppingListLines([CartItem(recipe, [ia])]) == [Header, IngredientAmountStr(ia) + "\r\n"]
  {
    var cart := [CartItem(recipe, [ia])];
    var x := LineItem(ia);
    SingleLineExplode(recipe, ia);
    forall k ensures k in KeysOf(Explode(cart)) <==> exists i :: 0 <= i < |[x]| && [x][i].key == k {
      if k in KeysOf([x]) {
        assert [x][0].key == k;
      }
    }
    ShoppingListDetermined(cart, [x]);
    assert RenderLine(x) == IngredientAmountStr(ia) + "\r\n";
    assert RenderLines([x]) == [Header, RenderLine(x)];
  }

  lemma SingleLineExplode(recipe: RecipeId, ia: IngredientAmount)
    ensures Explode([CartItem(recipe, [ia])]) == [LineItem(ia)]
    ensures Total([LineItem(ia)], KeyOf(ia)) == ia.amount
  {
    var cart := [CartItem(recipe, [ia])];
    assert cart[..0] == [];
    assert Items([ia]) == [LineItem(ia)];
    assert [LineItem(ia)][..0] == [];
  }

  /**
   * Two recipes, one with 2 kg of flour, the other with 3 kg of flour and 100 g
   * of sugar, export as exactly three lines.
   */
  lemma FlourAndSugarExample()
    ensures ShoppingListText([
      CartItem(1, [IngredientAmount(Ingredient("Мука", "кг"), 2)]),
      CartItem(2, [IngredientAmount(Ingredient("Мука", "кг"), 3), IngredientAmount(Ingredient("Сахар", "г"), 100)])
    ]) == "Список покупок:\r\nМука - 5 кг\r\nСахар - 100 г\r\n"
  {
    var cart := [
      CartItem(1, [IngredientAmount(Ingredient("Мука", "кг"), 2)]),
      CartItem(2, [IngredientAmount(Ingredient("Мука", "кг"), 3), IngredientAmount(Ingredient("Сахар", "г"), 100)])
    ];
    ExampleLines(cart);
    ConcatThree(Header, "Мука - 5 кг\r\n", "Сахар - 100 г\r\n");
    ExampleText();
  }

  lemma ExampleText()
    ensures Header + "Мука - 5 кг\r\n" + "Сахар - 100 г\r\n" == "Список покупок:\r\nМука - 5 кг\r\nСахар - 100 г\r\n"
  {
  }

  lemma ExampleKeyOrder()
    ensures KeyLess(Key("Мука", "кг"), Key("Сахар", "г"))
  {
    assert "Мука"[0] == 'М' && "Сахар"[0] == 'С';
  }

  lemma ConcatThree(a: string, b: string, c: string)
    ensures Concat([a, b, c]) == a + b + c
  {
    ConcatCons(a, [b, c]);
    ConcatCons(b, [c]);
    ConcatCons(c, []);
    assert [a, b, c] == [a] + [b, c] && [b, c] == [b] + [c] && [c] == [c] + [];
  }

  lemma ExampleLines(cart: seq<CartItem>)
    requires cart == [
      CartItem(1, [IngredientAmount(Ingredient("Мука", "кг"), 2)]),
      CartItem(2, [IngredientAmount(Ingredient("Мука", "кг"), 3), IngredientAmount(Ingredient("Сахар", "г"), 100)])
    ]
    ensures ShoppingListLines(cart) == [Header, "Мука - 5 кг\r\n", "Сахар - 100 г\r\n"]
  {
    var flour := Key("Мука", "кг");
    var sugar := Key("Сахар", "г");
    ExampleExplode(cart);
    var items := [Item(flour, 2), Item(flour, 3), Item(sugar, 100)];
    ExampleTotals(items, flour, sugar);
    var entries := [Item(flour, 5), Item(sugar, 100)];
    ExampleKeyOrder();
    forall k ensures k in KeysOf(Explode(cart)) <==> exists i :: 0 <= i < |entries| && entries[i].key == k {
      if k == flour {
        assert entries[0].key == k;
      } else if k == sugar {
        assert entries[1].key == k;
      }
    }
    ShoppingListDetermined(cart, entries);
    ExampleRender(flour, sugar);
  }

  lemma ExampleExplode(cart: seq<CartItem>)
    requires cart == [
      CartItem(1, [IngredientAmount(Ingredient("Мука", "кг"), 2)]),
      CartItem(2, [IngredientAmount(Ingredient("Мука", "кг"), 3), IngredientAmount(Ingredient("Сахар", "г"), 100)])
    ]
    ensures Explode(cart) == [Item(Key("Мука", "кг"), 2), Item(Key("Мука", "кг"), 3), Item(Key("Сахар", "г"), 100)]
  {
    var a := cart[0].ingredientAmounts;
    var b := cart[1].ingredientAmounts;
    assert cart[..1] == [cart[0]] && [cart[0]][..0] == [];
    assert Explode([cart[0]]) == Items(a);
    assert Explode(cart) == Items(a) + Items(b);
  }

  lemma ExampleTotals(items: seq<Item>, flour: Key, sugar: Key)
    requires flour != sugar
    requires items == [Item(flour, 2), Item(flour, 3), Item(sugar, 100)]
    ensures KeysOf(items) == {flour, sugar}
    ensures Total(items, flour) == 5 && Total(items, sugar) == 100
  {
    assert items[0].key == flour && items[2].key == sugar;
    var two := [Item(flour, 2), Item(flour, 3)];
    var one := [Item(flour, 2)];
    assert items[..2] == two && two[..1] == one && one[..0] == [];
    assert Total(one, flour) == 2 && Total(one, sugar) == 0;
    assert Total(two, flour) == 5 && Total(two, sugar) == 0;
  }

  lemma ExampleRender(flour: Key, sugar: Key)
    requires flour == Key("Мука", "кг") && sugar == Key("Сахар", "г")
    ensures RenderLines([Item(flour, 5), Item(sugar, 100)]) == [Header, "Мука - 5 кг\r\n", "Сахар - 100 г\r\n"]
  {
    assert IntToString(5) == "5";
    assert IntToString(100) == "100" by {
      assert NatToString(1) == "1";
      assert NatToString(10) == "1" + "0";
      assert NatToString(100) == "10" + "0";
    }
    assert RenderLine(Item(flour, 5)) == "Мука - 5 кг\r\n";
    assert RenderLine(Item(sugar, 100)) == "Сахар - 100 г\r\n";
  }
}
