/**
 * The recipe-input side of backend/recipes/serializers.py: the header split of
 * `Base64ImageField`, the bounds of a submitted ingredient line, the
 * `validate_ingredients` / `validate_tags` / `validate` checks of
 * `RecipeCreateSerializer`, and its `create` and `update`, which write the
 * recipe row and replace its ingredient lines in the store.
 */
module Serializers {
  import opened Wrappers
  import opened Strings
  import opened Models
  import opened Store
  import opened Relations

  // ---------------------------------------------------------------------
  // Base64ImageField

  const DataImagePrefix: string := "data:image"
  const Base64Marker: string := ";base64,"
  const InvalidImage: string := "Неверный формат Base64 изображения"

  /** What the image field receives: a text value, or an already decoded file. */
  datatype ImageData = Text(text: string) | File(content: seq<bv8>, name: string)

  /** The values `to_internal_value` rewrites: strings starting with `data:image`. */
  predicate IsDataUrl(data: ImageData) {
    data.Text? && StartsWith(data.text, DataImagePrefix)
  }

  /**
   * `Base64ImageField.to_internal_value`, up to the hand-over to the image
   * field of the framework. A data URL must split on `;base64,` into exactly a
   * header and a payload; the file is named `<uuid>.<ext>`, `ext` being the
   * header after its last `/`; `decode` (base64 decoding, which may reject the
   * payload) and `uuid` (a fresh `uuid4()`) are parameters. Anything else is
   * passed on untouched.
   */
  function ToInternalValue(data: ImageData, decode: string -> Option<seq<bv8>>, uuid: string)
    : (r: Result<ImageData, string>)
    ensures !IsDataUrl(data) ==> r == Success(data)
    ensures IsDataUrl(data) && |Split(data.text, Base64Marker)| != 2 ==> r == Failure(InvalidImage)
    ensures IsDataUrl(data) && |Split(data.text, Base64Marker)| == 2 ==>
      (r.Success? <==> decode(Split(data.text, Base64Marker)[1]).Some?)
    ensures r.Failure? ==> r.error == InvalidImage
    ensures IsDataUrl(data) && r.Success? ==>
      && r.value.File?
      && r.value.content == decode(Split(data.text, Base64Marker)[1]).value
      && StartsWith(r.value.name, uuid + ".")
      && var header, ext := Split(data.text, Base64Marker)[0], r.value.name[|uuid| + 1..];
      // `ext` is the longest suffix of the header without a '/'
      && '/' !in ext
      && EndsWith(header, ext)
      && (|ext| == |header| || header[|header| - |ext| - 1] == '/')
  {
    if !IsDataUrl(data) then Success(data)
    else
      var parts := Split(data.text, Base64Marker);
      if |parts| != 2 then Failure(InvalidImage)
      else
        var header := parts[0];
        var pieces := Split(header, "/");
        var ext := pieces[|pieces| - 1];
        SplitOnCharParts(header, '/');
        SplitLastPiece(header, '/');
        match decode(parts[1])
        case None => Failure(InvalidImage)
        case Some(bytes) =>
          var name := uuid + "." + ext;
          assert name[|uuid| + 1..] == ext;
          Success(File(bytes, name))
  }

  /** A string without the separator's first character is one piece. */
  lemma {:induction false} SplitNoSeparator(s: string, sep: string)
    requires |sep| > 0 && sep[0] !in s
    ensures Split(s, sep) == [s]
    decreases |s|
  {
    if |s| >= |sep| {
      assert s[..|sep|][0] == s[0];
      SplitNoSeparator(s[1..], sep);
      assert [s[0]] + s[1..] == s;
    }
  }

  /** A first piece without the separator's first character is cut off at the first separator. */
  lemma {:induction false} SplitAfterFirst(a: string, sep: string, b: string)
    requires |sep| > 0 && sep[0] !in a
    ensures Split(a + sep + b, sep) == [a] + Split(b, sep)
    decreases |a|
  {
    var s := a + sep + b;
    if a == [] {
      assert s[..|sep|] == sep;
      assert s[|sep|..] == b;
    } else {
      assert s[..|sep|][0] == a[0];
      assert s[1..] == a[1..] + sep + b;
      SplitAfterFirst(a[1..], sep, b);
      assert [a[0]] + a[1..] == a;
    }
  }

  /**
   * Round trip with the data URLs browsers produce: `data:image/<type>;base64,<payload>`
   * becomes the decoded payload in a file named `<uuid>.<type>`, provided
   * neither the type nor the payload holds a `;` (the base64 alphabet has none).
   */
  lemma DataUrlRoundTrip(imageType: string, payload: string, decode: string -> Option<seq<bv8>>,
                         bytes: seq<bv8>, uuid: string)
    requires '/' !in imageType && ';' !in imageType && ';' !in payload
    requires decode(payload) == Some(bytes)
    ensures ToInternalValue(Text("data:image/" + imageType + ";base64," + payload), decode, uuid)
      == Success(File(bytes, uuid + "." + imageType))
  {
    var header := "data:image/" + imageType;
    var text := header + Base64Marker + payload;
    assert "data:image/" + imageType + ";base64," + payload == text;
    assert ';' !in "data:image/";
    assert ';' !in header;
    SplitAfterFirst(header, Base64Marker, payload);
    SplitNoSeparator(payload, Base64Marker);
    assert Split(text, Base64Marker) == [header, payload];
    assert '/' !in "data:image";
    assert header == "data:image" + "/" + imageType;
    SplitAfterFirst("data:image", "/", imageType);
    SplitNoSeparator(imageType, "/");
    assert text[..|DataImagePrefix|] == DataImagePrefix;
  }

  /** A data URL in which `;base64,` does not occur is refused whatever the decoder. */
  lemma MissingMarkerRefused(text: string, decode: string -> Option<seq<bv8>>, uuid: string)
    requires StartsWith(text, DataImagePrefix) && !Occurs(Base64Marker, text)
    ensures ToInternalValue(Text(text), decode, uuid) == Failure(InvalidImage)
  {
    SplitNoOccurrence(text, Base64Marker);
  }

  // ---------------------------------------------------------------------
  // Ingredient lines

  /** One submitted ingredient line: `IngredientInRecipeCreateSerializer`. */
  datatype IngredientInput = IngredientInput(id: int, amount: int)

  /** `[item['id'] for item in value]`. */
  function Ids(value: seq<IngredientInput>): (ids: seq<int>)
    ensures |ids| == |value|
    ensures forall k :: 0 <= k < |value| ==> ids[k] == value[k].id
  {
    seq(|value|, k requires 0 <= k < |value| => value[k].id)
  }

  /** `amount = IntegerField(min_value=1)`: a submitted amount is accepted exactly when it is at least 1. */
  predicate AmountAccepted(line: IngredientInput) {
    line.amount >= 1
  }

  /** The reasons `validate_ingredients` (and the line fields before it) refuse an ingredient list. */
  datatype IngredientsError =
    | AmountBelowMinimum
    | NoIngredients
    | RepeatedIngredients
    | MissingIngredients(ids: seq<int>)

  /** Python's `repr` of a list of integers: `"[" + ", ".join(map(str, ids)) + "]"`. */
  function ListRepr(ids: seq<int>): (s: string)
    ensures |s| >= 2 && s[0] == '[' && s[|s| - 1] == ']'
    ensures ids == [] ==> s == "[]"
  {
    if ids == [] then "[]" else "[" + Join(IntStrings(ids), ", ") + "]"
  }

  /** `map(str, ids)`. */
  function IntStrings(ids: seq<int>): (r: seq<string>)
    ensures |r| == |ids|
    ensures forall k :: 0 <= k < |ids| ==> r[k] == IntToString(ids[k])
  {
    seq(|ids|, k requires 0 <= k < |ids| => IntToString(ids[k]))
  }

  const MissingPrefix: string := "Ингредиенты с id "
  const MissingSuffix: string := " не найдены"

  /**
   * The message each error carries; the one for missing ingredients is the
   * `repr` of the missing ids between a fixed prefix and suffix. The amount
   * error's text is the framework's `min_value` message in its Russian
   * translation, which depends on the locale and is assumed here.
   */
  function IngredientsMessage(e: IngredientsError): (m: string)
    ensures e.MissingIngredients? ==>
      && StartsWith(m, MissingPrefix)
      && EndsWith(m, MissingSuffix)
      && |m| >= |MissingPrefix| + |MissingSuffix|
      && m[|MissingPrefix|..|m| - |MissingSuffix|] == ListRepr(e.ids)
    ensures e == AmountBelowMinimum ==> m == "Убедитесь, что это значение больше либо равно 1."
    ensures e == NoIngredients ==> m == "Нужно добавить хотя бы один ингредиент"
    ensures e == RepeatedIngredients ==> m == "Ингредиенты не должны повторяться"
  {
    match e
    case AmountBelowMinimum => "Убедитесь, что это значение больше либо равно 1."
    case NoIngredients => "Нужно добавить хотя бы один ингредиент"
    case RepeatedIngredients => "Ингредиенты не должны повторяться"
    case MissingIngredients(ids) =>
      var m := MissingPrefix + ListRepr(ids) + MissingSuffix;
      assert m[|MissingPrefix|..|m| - |MissingSuffix|] == ListRepr(ids);
      assert m[|m| - |MissingSuffix|..] == MissingSuffix;
      m
  }

  /**
   * `repr` built one id at a time: a single id is `[` + `str(x)` + `]`, and
   * each further id replaces the closing bracket by `, ` + `str(x)` + `]`.
   * With `ListRepr([]) == "[]"` this determines `ListRepr` on every list.
   */
  lemma ListReprSnoc(ids: seq<int>, x: int)
    ensures ids == [] ==> ListRepr(ids + [x]) == "[" + IntToString(x) + "]"
    ensures ids != [] ==>
      ListRepr(ids + [x]) == ListRepr(ids)[..|ListRepr(ids)| - 1] + ", " + IntToString(x) + "]"
  {
    IntStringsSnoc(ids, x);
    if ids == [] {
      assert ids + [x] == [x];
      assert IntStrings([x]) == [IntToString(x)];
    } else {
      var j, q := Join(IntStrings(ids), ", "), IntToString(x);
      assert ListRepr(ids) == "[" + j + "]";
      JoinSnoc(IntStrings(ids), q, ", ");
      assert ListRepr(ids + [x]) == "[" + (j + ", " + q) + "]";
      Rebracket("[", j, ", ", q, "]");
    }
  }

  lemma IntStringsSnoc(ids: seq<int>, x: int)
    ensures IntStrings(ids + [x]) == IntStrings(ids) + [IntToString(x)]
  {
  }

  /** Reopening `o + j + c` at its last element and closing it again after `sep + p`. */
  lemma Rebracket<T>(o: seq<T>, j: seq<T>, sep: seq<T>, p: seq<T>, c: seq<T>)
    requires |c| == 1
    ensures (o + j + c)[..|o + j + c| - 1] + sep + p + c == o + (j + sep + p) + c
  {
    assert (o + j + c)[..|o + j + c| - 1] == o + j;
  }

  lemma MissingMessageExample()
    ensures IngredientsMessage(MissingIngredients([3, 17])) == "Ингредиенты с id [3, 17] не найдены"
  {
    ListReprExample();
  }

  lemma ListReprExample()
    ensures ListRepr([3, 17]) == "[3, 17]"
  {
    assert IntToString(3) == "3";
    assert IntToString(17) == "17";
    var parts := IntStrings([3, 17]);
    assert parts == ["3", "17"];
    assert parts[1..] == ["17"];
    assert Join(parts, ", ") == "3" + ", " + "17";
  }

  /** `set(ids)`. */
  function Distinct(ids: seq<int>): set<int> {
    set x | x in ids
  }

  /** `len(ids) == len(set(ids))` holds exactly when no id occurs twice. */
  lemma {:induction false} DistinctCount(ids: seq<int>)
    ensures |Distinct(ids)| <= |ids|
    ensures |Distinct(ids)| == |ids| <==> NoDuplicates(ids)
    decreases |ids|
  {
    if ids != [] {
      var head, rest := ids[0], ids[1..];
      assert ids == [head] + rest;
      DistinctCount(rest);
      NoDuplicatesCons(head, rest);
      assert Distinct(ids) == {head} + Distinct(rest);
      if head in rest {
        assert Distinct(ids) == Distinct(rest);
      } else {
        assert head !in Distinct(rest);
      }
    }
  }

  /** `[i for i in ids if i not in existing]`: the ids with no ingredient, in input order. */
  function MissingIds(ids: seq<int>, existing: set<IngredientId>): (r: seq<int>)
    ensures forall x :: x in r <==> x in ids && x !in existing
    ensures |r| <= |ids|
  {
    if ids == [] then []
    else (if ids[0] in existing then [] else [ids[0]]) + MissingIds(ids[1..], existing)
  }

  /** The comprehension keeps input order: it distributes over concatenation. */
  lemma {:induction false} MissingIdsAppend(a: seq<int>, b: seq<int>, existing: set<IngredientId>)
    ensures MissingIds(a + b, existing) == MissingIds(a, existing) + MissingIds(b, existing)
    decreases |a|
  {
    if a != [] {
      assert (a + b)[1..] == a[1..] + b;
      MissingIdsAppend(a[1..], b, existing);
    } else {
      assert a + b == b;
    }
  }

  /** One id is kept exactly when no ingredient has it. */
  lemma MissingIdsSingle(x: int, existing: set<IngredientId>)
    ensures MissingIds([x], existing) == if x in existing then [] else [x]
  {
    assert [x][1..] == [];
  }

  /** Every id names an existing ingredient. */
  predicate AllExist(ids: seq<int>, existing: set<IngredientId>) {
    forall x :: x in ids ==> x in existing
  }

  /**
   * `validate_ingredients`: an empty list is refused first, then a list that
   * repeats an id, then one naming ingredients that do not exist (all of
   * them, in input order); an accepted list is returned unchanged.
   */
  function ValidateIngredients(value: seq<IngredientInput>, existing: set<IngredientId>)
    : (r: Result<seq<IngredientInput>, IngredientsError>)
    ensures value == [] ==> r == Failure(NoIngredients)
    ensures value != [] ==> (r == Failure(RepeatedIngredients) <==> !NoDuplicates(Ids(value)))
    ensures value != [] && NoDuplicates(Ids(value)) ==>
      (r.Success? <==> AllExist(Ids(value), existing))
    ensures r.Failure? && r.error.MissingIngredients? ==>
      r.error.ids != [] && forall x :: x in r.error.ids <==> x in Ids(value) && x !in existing
    ensures value != [] && NoDuplicates(Ids(value)) && !AllExist(Ids(value), existing) ==>
      r == Failure(MissingIngredients(MissingIds(Ids(value), existing)))
    ensures r.Success? ==> r.value == value
  {
    if value == [] then Failure(NoIngredients)
    else
      var ids := Ids(value);
      DistinctCount(ids);
      if |ids| != |Distinct(ids)| then Failure(RepeatedIngredients)
      else
        var missing := MissingIds(ids, existing);
        if missing != [] then
          assert missing[0] in missing;
          Failure(MissingIngredients(missing))
        else
          assert AllExist(ids, existing) by {
            forall x | x in ids ensures x in existing {
              assert x !in missing;
            }
          }
          Success(value)
  }

  /**
   * The `ingredients` field as a whole: each line's `amount` bound is checked
   * before `validate_ingredients` runs.
   */
  function ValidateIngredientsField(value: seq<IngredientInput>, existing: set<IngredientId>)
    : (r: Result<seq<IngredientInput>, IngredientsError>)
    ensures r == Failure(AmountBelowMinimum) <==> exists k :: 0 <= k < |value| && !AmountAccepted(value[k])
    ensures (forall k :: 0 <= k < |value| ==> AmountAccepted(value[k])) ==>
      r == ValidateIngredients(value, existing)
  {
    if exists k :: 0 <= k < |value| && !AmountAccepted(value[k]) then Failure(AmountBelowMinimum)
    else ValidateIngredients(value, existing)
  }

  /**
   * Ingredient lines the field accepted: non-empty, distinct existing ids,
   * amounts of at least 1.
   */
  predicate AcceptedLines(value: seq<IngredientInput>, existing: set<IngredientId>) {
    && value != []
    && NoDuplicates(Ids(value))
    && AllExist(Ids(value), existing)
    && forall k :: 0 <= k < |value| ==> AmountAccepted(value[k])
  }

  /** The field accepts exactly the well-formed lists, and hands them on unchanged. */
  lemma IngredientsFieldAccepts(value: seq<IngredientInput>, existing: set<IngredientId>)
    ensures ValidateIngredientsField(value, existing).Success? <==> AcceptedLines(value, existing)
    ensures ValidateIngredientsField(value, existing).Success? ==>
      ValidateIngredientsField(value, existing).value == value
  {
  }

  // ---------------------------------------------------------------------
  // Tags and required keys

  const NoTags: string := "Нужен хотя бы один тег"
  const RepeatedTags: string := "Теги не должны повторяться"

  /**
   * `validate_tags`: one pass with a `seen` set, refusing the list at the
   * first tag seen before. An empty list is refused first; an accepted list is
   * returned unchanged.
   */
  method ValidateTags(value: seq<TagId>) returns (r: Result<seq<TagId>, string>)
    ensures value == [] ==> r == Failure(NoTags)
    ensures value != [] ==> (r.Success? <==> NoDuplicates(value))
    ensures value != [] && r.Failure? ==> r.error == RepeatedTags
    ensures r.Success? ==> r.value == value
  {
    if value == [] {
      return Failure(NoTags);
    }
    var seen: set<TagId> := {};
    for i := 0 to |value|
      invariant seen == set k | 0 <= k < i :: value[k]
      invariant NoDuplicates(value[..i])
    {
      if value[i] in seen {
        var k :| 0 <= k < i && value[k] == value[i];
        assert !NoDuplicates(value);
        return Failure(RepeatedTags);
      }
      seen := seen + {value[i]};
      assert value[..i + 1] == value[..i] + [value[i]];
    }
    assert value[..|value|] == value;
    return Success(value);
  }

  const Required: string := "Это поле обязательно."

  /** The recipe payload as far as `validate` looks at it: which of the two list keys are present. */
  datatype RecipeInput = RecipeInput(ingredients: Option<seq<IngredientInput>>, tags: Option<seq<TagId>>)

  /**
   * `validate`: the `ingredients` key is required, then the `tags` key; each
   * error names its key. Accepted data is returned unchanged.
   */
  function Validate(data: RecipeInput): (r: Result<RecipeInput, (string, string)>)
    ensures r.Success? <==> data.ingredients.Some? && data.tags.Some?
    ensures data.ingredients.None? ==> r == Failure(("ingredients", Required))
    ensures data.ingredients.Some? && data.tags.None? ==> r == Failure(("tags", Required))
    ensures r.Success? ==> r.value == data
  {
    if data.ingredients.None? then Failure(("ingredients", Required))
    else if data.tags.None? then Failure(("tags", Required))
    else Success(data)
  }

  // ---------------------------------------------------------------------
  // Writing a recipe's ingredient lines

  /** The `IngredientInRecipe` rows `_add_ingredients` builds for `recipe`, one per submitted line, in order. */
  function NewLines(recipe: RecipeId, value: seq<IngredientInput>): (lines: seq<IngredientInRecipe>)
    requires forall k :: 0 <= k < |value| ==> value[k].id >= 0
    ensures |lines| == |value|
    ensures forall k :: 0 <= k < |value| ==>
      lines[k] == IngredientInRecipe(recipe, value[k].id, value[k].amount)
  {
    seq(|value|, k requires 0 <= k < |value| => IngredientInRecipe(recipe, value[k].id, value[k].amount))
  }

  /** `recipe.ingredient_amounts.all()` as submitted lines: the recipe's rows in table order. */
  function LinesOf(lines: seq<IngredientInRecipe>, recipe: RecipeId): (r: seq<IngredientInput>)
    ensures |r| <= |lines|
  {
    if lines == [] then []
    else
      var n := |lines| - 1;
      LinesOf(lines[..n], recipe)
        + (if lines[n].recipe == recipe then [IngredientInput(lines[n].ingredient, lines[n].amount)] else [])
  }

  /** `recipe.ingredient_amounts.all().delete()`: the rows of every other recipe, in order. */
  function RemoveLinesOf(lines: seq<IngredientInRecipe>, recipe: RecipeId): (r: seq<IngredientInRecipe>)
    ensures forall l :: l in r <==> l in lines && l.recipe != recipe
  {
    if lines == [] then []
    else
      var n := |lines| - 1;
      assert lines == lines[..n] + [lines[n]];
      RemoveLinesOf(lines[..n], recipe) + (if lines[n].recipe != recipe then [lines[n]] else [])
  }

  lemma {:induction false} LinesOfAppend(a: seq<IngredientInRecipe>, b: seq<IngredientInRecipe>, recipe: RecipeId)
    ensures LinesOf(a + b, recipe) == LinesOf(a, recipe) + LinesOf(b, recipe)
    decreases |b|
  {
    if b == [] {
      assert a + b == a;
    } else {
      var n := |b| - 1;
      assert (a + b)[..|a| + n] == a + b[..n];
      assert (a + b)[|a| + n] == b[n];
      LinesOfAppend(a, b[..n], recipe);
    }
  }

  /** Reading back the rows `_add_ingredients` built gives the submitted lines; other recipes see none. */
  lemma {:induction false} LinesOfNew(recipe: RecipeId, value: seq<IngredientInput>, other: RecipeId)
    requires forall k :: 0 <= k < |value| ==> value[k].id >= 0
    ensures LinesOf(NewLines(recipe, value), recipe) == value
    ensures other != recipe ==> LinesOf(NewLines(recipe, value), other) == []
    decreases |value|
  {
    if value != [] {
      var n := |value| - 1;
      assert NewLines(recipe, value)[..n] == NewLines(recipe, value[..n]);
      LinesOfNew(recipe, value[..n], other);
      assert value == value[..n] + [value[n]];
    }
  }

  /** Deleting a recipe's rows leaves it none and leaves every other recipe's rows as they were. */
  lemma {:induction false} LinesOfRemoved(lines: seq<IngredientInRecipe>, recipe: RecipeId, other: RecipeId)
    ensures LinesOf(RemoveLinesOf(lines, recipe), recipe) == []
    ensures other != recipe ==> LinesOf(RemoveLinesOf(lines, recipe), other) == LinesOf(lines, other)
    decreases |lines|
  {
    if lines != [] {
      var n := |lines| - 1;
      LinesOfRemoved(lines[..n], recipe, other);
      var kept := if lines[n].recipe != recipe then [lines[n]] else [];
      LinesOfAppend(RemoveLinesOf(lines[..n], recipe), kept, recipe);
      LinesOfAppend(RemoveLinesOf(lines[..n], recipe), kept, other);
      assert LinesOf(kept, recipe) == [] by {
        assert kept == [] || ([] + kept)[..0] == [];
      }
    }
  }

  /** `update`'s rewrite of the ingredient table: the recipe's rows dropped, then the new ones appended. */
  function ReplaceLines(lines: seq<IngredientInRecipe>, recipe: RecipeId, value: seq<IngredientInput>)
    : seq<IngredientInRecipe>
    requires forall k :: 0 <= k < |value| ==> value[k].id >= 0
  {
    RemoveLinesOf(lines, recipe) + NewLines(recipe, value)
  }

  /**
   * `update` replaces the recipe's ingredient lines wholesale: read back, they
   * are exactly the submitted list; every other recipe keeps its own.
   */
  lemma ReplaceLinesExact(lines: seq<IngredientInRecipe>, recipe: RecipeId, value: seq<IngredientInput>, other: RecipeId)
    requires forall k :: 0 <= k < |value| ==> value[k].id >= 0
    ensures LinesOf(ReplaceLines(lines, recipe, value), recipe) == value
    ensures other != recipe ==> LinesOf(ReplaceLines(lines, recipe, value), other) == LinesOf(lines, other)
  {
    LinesOfAppend(RemoveLinesOf(lines, recipe), NewLines(recipe, value), recipe);
    LinesOfAppend(RemoveLinesOf(lines, recipe), NewLines(recipe, value), other);
    LinesOfRemoved(lines, recipe, other);
    LinesOfNew(recipe, value, other);
  }

  // ---------------------------------------------------------------------
  // The table constraints under create and update

  /** Every row names a recipe of `recipeIds` and an ingredient of `ingredientIds`. */
  predicate LinesResolve(lines: seq<IngredientInRecipe>, recipeIds: set<RecipeId>, ingredientIds: set<IngredientId>) {
    forall i :: 0 <= i < |lines| ==> lines[i].recipe in recipeIds && lines[i].ingredient in ingredientIds
  }

  /** Deleting one recipe's rows keeps the uniqueness, minimum-amount and foreign-key constraints. */
  lemma {:induction false} RemoveKeepsConstraints(lines: seq<IngredientInRecipe>, recipe: RecipeId,
                                                  recipeIds: set<RecipeId>, ingredientIds: set<IngredientId>)
    requires UniqueIngredientInRecipe(lines) && AmountsAtLeastMinimum(lines)
    requires LinesResolve(lines, recipeIds, ingredientIds)
    ensures UniqueIngredientInRecipe(RemoveLinesOf(lines, recipe))
    ensures AmountsAtLeastMinimum(RemoveLinesOf(lines, recipe))
    ensures LinesResolve(RemoveLinesOf(lines, recipe), recipeIds, ingredientIds)
    decreases |lines|
  {
    if lines != [] {
      var n := |lines| - 1;
      var front := lines[..n];
      assert UniqueIngredientInRecipe(front) by {
        forall i, j | 0 <= i < j < |front|
          ensures front[i].recipe != front[j].recipe || front[i].ingredient != front[j].ingredient
        {
          assert front[i] == lines[i] && front[j] == lines[j];
        }
      }
      RemoveKeepsConstraints(front, recipe, recipeIds, ingredientIds);
      var r0 := RemoveLinesOf(front, recipe);
      var r := RemoveLinesOf(lines, recipe);
      if lines[n].recipe != recipe {
        assert r == r0 + [lines[n]];
        forall i, j | 0 <= i < j < |r|
          ensures r[i].recipe != r[j].recipe || r[i].ingredient != r[j].ingredient
        {
          if j == |r0| {
            assert r[i] in r0;
            var k :| 0 <= k < n && front[k] == r[i];
            assert lines[k] == r[i] && lines[n] == r[j];
          } else {
            assert r[i] == r0[i] && r[j] == r0[j];
          }
        }
        forall i | 0 <= i < |r| ensures r[i].amount >= MIN_INGREDIENT_AMOUNT {
          if i < |r0| {
            assert r[i] == r0[i];
          }
        }
        forall i | 0 <= i < |r| ensures r[i].recipe in recipeIds && r[i].ingredient in ingredientIds {
          if i < |r0| {
            assert r[i] == r0[i];
          }
        }
      } else {
        assert r == r0;
      }
    }
  }

  /** A recipe no row mentions reads back no lines. */
  lemma {:induction false} LinesOfAbsent(lines: seq<IngredientInRecipe>, recipe: RecipeId)
    requires forall i :: 0 <= i < |lines| ==> lines[i].recipe != recipe
    ensures LinesOf(lines, recipe) == []
    decreases |lines|
  {
    if lines != [] {
      LinesOfAbsent(lines[..|lines| - 1], recipe);
    }
  }

  /**
   * Appending the rows of accepted ingredient lines for a recipe that has no
   * rows yet keeps the uniqueness, minimum-amount and foreign-key constraints:
   * what `validate_ingredients` and the amount bound check is what the table
   * needs.
   */
  lemma AppendNewKeepsConstraints(lines: seq<IngredientInRecipe>, recipe: RecipeId, value: seq<IngredientInput>,
                                  recipeIds: set<RecipeId>, ingredientIds: set<IngredientId>)
    requires UniqueIngredientInRecipe(lines) && AmountsAtLeastMinimum(lines)
    requires LinesResolve(lines, recipeIds, ingredientIds)
    requires forall i :: 0 <= i < |lines| ==> lines[i].recipe != recipe
    requires recipe in recipeIds
    requires AcceptedLines(value, ingredientIds)
    ensures forall k :: 0 <= k < |value| ==> value[k].id >= 0
    ensures UniqueIngredientInRecipe(lines + NewLines(recipe, value))
    ensures AmountsAtLeastMinimum(lines + NewLines(recipe, value))
    ensures LinesResolve(lines + NewLines(recipe, value), recipeIds, ingredientIds)
  {
    var ids := Ids(value);
    forall k | 0 <= k < |value| ensures value[k].id >= 0 && value[k].id in ingredientIds {
      assert ids[k] in ids;
    }
    var added := NewLines(recipe, value);
    var all := lines + added;
    forall i, j | 0 <= i < j < |all|
      ensures all[i].recipe != all[j].recipe || all[i].ingredient != all[j].ingredient
    {
      if j < |lines| {
        assert all[i] == lines[i] && all[j] == lines[j];
      } else if i >= |lines| {
        assert all[i] == added[i - |lines|] && all[j] == added[j - |lines|];
        assert ids[i - |lines|] != ids[j - |lines|];
      } else {
        assert all[i] == lines[i] && all[j] == added[j - |lines|];
      }
    }
    forall i | 0 <= i < |all|
      ensures all[i].amount >= MIN_INGREDIENT_AMOUNT
      ensures all[i].recipe in recipeIds && all[i].ingredient in ingredientIds
    {
      if i < |lines| {
        assert all[i] == lines[i];
      } else {
        assert all[i] == added[i - |lines|];
        assert AmountAccepted(value[i - |lines|]);
      }
    }
  }

  /** `_add_ingredients`: builds the rows one by one, then stores them with one `bulk_create`. */
  method AddIngredients(db: Database, recipe: RecipeId, value: seq<IngredientInput>)
    requires forall k :: 0 <= k < |value| ==> value[k].id >= 0
    modifies db`ingredientLines
    ensures db.ingredientLines == old(db.ingredientLines) + NewLines(recipe, value)
  {
    var items: seq<IngredientInRecipe> := [];
    for k := 0 to |value|
      invariant items == NewLines(recipe, value[..k])
    {
      items := items + [IngredientInRecipe(recipe, value[k].id, value[k].amount)];
    }
    assert value[..|value|] == value;
    db.ingredientLines := db.ingredientLines + items;
  }

  /** The plain recipe fields of a request; `None` where a partial update leaves a field out. */
  datatype RecipeFields = RecipeFields(
    name: Option<string>,
    text: Option<string>,
    image: Option<string>,
    cookingTime: Option<int>)

  /**
   * The `setattr` loop and `tags.set` of `update`: submitted fields replace
   * the stored ones, absent fields keep their value, the author never
   * changes, and the tags become exactly the submitted ones.
   */
  function Patched(r: Recipe, fields: RecipeFields, tags: seq<TagId>): (p: Recipe)
    ensures p.author == r.author
    ensures p.tags == set t | t in tags
    ensures fields.name.None? ==> p.name == r.name
    ensures fields.text.None? ==> p.text == r.text
    ensures fields.image.None? ==> p.image == r.image
    ensures fields.cookingTime.None? ==> p.cookingTime == r.cookingTime
    ensures fields.name.Some? ==> p.name == fields.name.value
    ensures fields.text.Some? ==> p.text == fields.text.value
    ensures fields.image.Some? ==> p.image == fields.image.value
    ensures fields.cookingTime.Some? ==> p.cookingTime == fields.cookingTime.value
  {
    Recipe(
      r.author,
      if fields.name.Some? then fields.name.value else r.name,
      if fields.text.Some? then fields.text.value else r.text,
      if fields.image.Some? then fields.image.value else r.image,
      if fields.cookingTime.Some? then fields.cookingTime.value else r.cookingTime,
      set t | t in tags)
  }

  /**
   * Adding a recipe by an existing author under an unused key, with accepted
   * ingredient lines, keeps every table constraint.
   */
  lemma CreateKeepsConsistent(users: set<UserId>, ingredients: map<IngredientId, Ingredient>,
                              recipes: map<RecipeId, Recipe>, lines: seq<IngredientInRecipe>,
                              favorites: seq<UserRecipe>, shoppingCart: seq<UserRecipe>,
                              subscriptions: seq<Subscription>,
                              recipe: RecipeId, row: Recipe, value: seq<IngredientInput>)
    requires Consistent(users, ingredients, recipes, lines, favorites, shoppingCart, subscriptions)
    requires recipe !in recipes && row.author in users
    requires AcceptedLines(value, ingredients.Keys)
    ensures forall k :: 0 <= k < |value| ==> value[k].id >= 0
    ensures Consistent(users, ingredients, recipes[recipe := row], lines + NewLines(recipe, value),
                       favorites, shoppingCart, subscriptions)
  {
    var updated := recipes[recipe := row];
    forall i | 0 <= i < |lines| ensures lines[i].recipe != recipe && lines[i].recipe in updated {
      assert lines[i].recipe in recipes;
    }
    AppendNewKeepsConstraints(lines, recipe, value, updated.Keys, ingredients.Keys);
    assert RowsExist(favorites, users, updated) && RowsExist(shoppingCart, users, updated);
  }

  /**
   * Patching a recipe's row without changing its author and replacing its
   * ingredient lines with accepted ones keeps every table constraint.
   */
  lemma UpdateKeepsConsistent(users: set<UserId>, ingredients: map<IngredientId, Ingredient>,
                              recipes: map<RecipeId, Recipe>, lines: seq<IngredientInRecipe>,
                              favorites: seq<UserRecipe>, shoppingCart: seq<UserRecipe>,
                              subscriptions: seq<Subscription>,
                              recipe: RecipeId, row: Recipe, value: seq<IngredientInput>)
    requires Consistent(users, ingredients, recipes, lines, favorites, shoppingCart, subscriptions)
    requires recipe in recipes && row.author == recipes[recipe].author
    requires AcceptedLines(value, ingredients.Keys)
    ensures forall k :: 0 <= k < |value| ==> value[k].id >= 0
    ensures Consistent(users, ingredients, recipes[recipe := row], ReplaceLines(lines, recipe, value),
                       favorites, shoppingCart, subscriptions)
  {
    var updated := recipes[recipe := row];
    assert updated.Keys == recipes.Keys;
    RemoveKeepsConstraints(lines, recipe, updated.Keys, ingredients.Keys);
    var kept := RemoveLinesOf(lines, recipe);
    forall i | 0 <= i < |kept| ensures kept[i].recipe != recipe {
      assert kept[i] in kept;
    }
    AppendNewKeepsConstraints(kept, recipe, value, updated.Keys, ingredients.Keys);
    assert RowsExist(favorites, users, updated) && RowsExist(shoppingCart, users, updated);
  }

  /** The lines of a recipe that had none read back, after `_add_ingredients`, as the submitted list. */
  lemma CreatedLinesReadBack(recipes: map<RecipeId, Recipe>, lines: seq<IngredientInRecipe>, recipe: RecipeId,
                             value: seq<IngredientInput>)
    requires forall i :: 0 <= i < |lines| ==> lines[i].recipe in recipes
    requires recipe !in recipes
    requires forall k :: 0 <= k < |value| ==> value[k].id >= 0
    ensures LinesOf(lines + NewLines(recipe, value), recipe) == value
  {
    LinesOfAbsent(lines, recipe);
    LinesOfAppend(lines, NewLines(recipe, value), recipe);
    LinesOfNew(recipe, value, recipe);
  }

  /**
   * `create`: a new recipe row by the requester (its fresh primary key is a
   * parameter), tagged with the submitted tags, and one ingredient row per
   * submitted line. Its lines read back as exactly the submitted list.
   */
  method Create(db: Database, author: UserId, recipe: RecipeId, name: string, text: string, image: string,
                cookingTime: int, ingredients: seq<IngredientInput>, tags: seq<TagId>)
    requires db.Valid() && author in db.users && recipe !in db.recipes
    requires AcceptedLines(ingredients, db.ingredients.Keys)
    modifies db`recipes, db`ingredientLines
    ensures db.Valid()
    ensures db.recipes == old(db.recipes)[recipe := Recipe(author, name, text, image, cookingTime, set t | t in tags)]
    ensures forall k :: 0 <= k < |ingredients| ==> ingredients[k].id >= 0
    ensures db.ingredientLines == old(db.ingredientLines) + NewLines(recipe, ingredients)
    ensures LinesOf(db.ingredientLines, recipe) == ingredients
  {
    var row := Recipe(author, name, text, image, cookingTime, set t | t in tags);
    CreateKeepsConsistent(db.users, db.ingredients, db.recipes, db.ingredientLines, db.favorites,
                          db.shoppingCart, db.subscriptions, recipe, row, ingredients);
    CreatedLinesReadBack(db.recipes, db.ingredientLines, recipe, ingredients);
    db.recipes := db.recipes[recipe := row];
    AddIngredients(db, recipe, ingredients);
  }

  /**
   * `update`: the recipe row patched, then its ingredient rows replaced
   * wholesale. Read back, the recipe's lines are exactly the submitted list,
   * and every other recipe keeps its lines and its row.
   */
  method Update(db: Database, recipe: RecipeId, fields: RecipeFields, ingredients: seq<IngredientInput>,
                tags: seq<TagId>)
    requires db.Valid() && recipe in db.recipes
    requires AcceptedLines(ingredients, db.ingredients.Keys)
    modifies db`recipes, db`ingredientLines
    ensures db.Valid()
    ensures db.recipes == old(db.recipes)[recipe := Patched(old(db.recipes[recipe]), fields, tags)]
    ensures forall k :: 0 <= k < |ingredients| ==> ingredients[k].id >= 0
    ensures db.ingredientLines == ReplaceLines(old(db.ingredientLines), recipe, ingredients)
    ensures LinesOf(db.ingredientLines, recipe) == ingredients
    ensures forall other :: other != recipe ==>
      LinesOf(db.ingredientLines, other) == LinesOf(old(db.ingredientLines), other)
  {
    var row := Patched(db.recipes[recipe], fields, tags);
    UpdateKeepsConsistent(db.users, db.ingredients, db.recipes, db.ingredientLines, db.favorites,
                          db.shoppingCart, db.subscriptions, recipe, row, ingredients);
    var lines := db.ingredientLines;
    forall other {
      ReplaceLinesExact(lines, recipe, ingredients, other);
    }
    db.recipes := db.recipes[recipe := row];
    db.ingredientLines := RemoveLinesOf(lines, recipe);
    AddIngredients(db, recipe, ingredients);
  }
}
