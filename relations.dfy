/**
 * The two table operations the views perform on join tables: `create`
 * appends a row, `filter(...).delete()` removes the matching rows, and
 * `filter(user=...).values_list('recipe_id')` reads one user's rows.
 */
module Relations {
  import opened Models

  /** The rows other than `row`, in table order. */
  function Without<T(==, !new)>(rows: seq<T>, row: T): (r: seq<T>)
    ensures multiset(r) == multiset(rows)[row := 0]
    ensures forall x :: x in r <==> x in rows && x != row
  {
    if rows == [] then []
    else
      assert rows == [rows[0]] + rows[1..];
      (if rows[0] == row then [] else [rows[0]]) + Without(rows[1..], row)
  }

  /** A table with a first row is duplicate-free exactly when the rest is and does not hold that row. */
  lemma NoDuplicatesCons<T>(x: T, rest: seq<T>)
    ensures NoDuplicates([x] + rest) <==> x !in rest && NoDuplicates(rest)
  {
    var s := [x] + rest;
    if NoDuplicates(s) {
      forall i, j | 0 <= i < j < |rest| ensures rest[i] != rest[j] {
        assert s[i + 1] == rest[i] && s[j + 1] == rest[j];
      }
      forall k | 0 <= k < |rest| ensures rest[k] != x {
        assert s[0] == x && s[k + 1] == rest[k];
      }
    }
    if x !in rest && NoDuplicates(rest) {
      forall i, j | 0 <= i < j < |s| ensures s[i] != s[j] {
        if i == 0 {
          assert s[j] == rest[j - 1];
        } else {
          assert s[i] == rest[i - 1] && s[j] == rest[j - 1];
        }
      }
    }
  }

  /** Deleting keeps the table free of duplicates, and removes exactly one row when the row is present. */
  lemma {:induction false} WithoutNoDuplicates<T(!new)>(rows: seq<T>, row: T)
    requires NoDuplicates(rows)
    ensures NoDuplicates(Without(rows, row))
    ensures |Without(rows, row)| == if row in rows then |rows| - 1 else |rows|
    decreases |rows|
  {
    if rows != [] {
      var head, rest := rows[0], rows[1..];
      assert rows == [head] + rest;
      NoDuplicatesCons(head, rest);
      WithoutNoDuplicates(rest, row);
      var tail := Without(rest, row);
      if head != row {
        assert Without(rows, row) == [head] + tail;
        NoDuplicatesCons(head, tail);
        assert row in rows <==> row in rest;
      } else {
        assert Without(rows, row) == tail;
      }
    }
  }

  /** A table without duplicates holds each of its rows exactly once. */
  lemma {:induction false} NoDuplicatesOnce<T>(rows: seq<T>, row: T)
    requires NoDuplicates(rows) && row in rows
    ensures multiset(rows)[row] == 1
    decreases |rows|
  {
    var head, rest := rows[0], rows[1..];
    assert rows == [head] + rest;
    NoDuplicatesCons(head, rest);
    if head == row {
      assert multiset(rest)[row] == 0;
    } else {
      NoDuplicatesOnce(rest, row);
    }
  }

  /** Deleting a row that was just appended gives the table back. */
  lemma {:induction false} WithoutAppended<T(!new)>(rows: seq<T>, row: T)
    requires row !in rows
    ensures Without(rows + [row], row) == rows
    decreases |rows|
  {
    if rows == [] {
      assert Without([row], row) == [] + Without([], row);
    } else {
      assert (rows + [row])[0] == rows[0];
      assert (rows + [row])[1..] == rows[1..] + [row];
      WithoutAppended(rows[1..], row);
      assert rows == [rows[0]] + rows[1..];
    }
  }

  /** The recipe ids of one user's rows, in table order. */
  function RecipesOf(rows: seq<UserRecipe>, user: UserId): (ids: seq<RecipeId>)
    ensures forall id :: id in ids <==> UserRecipe(user, id) in rows
    ensures |ids| <= |rows|
  {
    if rows == [] then []
    else
      assert rows == [rows[0]] + rows[1..];
      (if rows[0].user == user then [rows[0].recipe] else []) + RecipesOf(rows[1..], user)
  }

  lemma {:induction false} RecipesOfAppend(a: seq<UserRecipe>, b: seq<UserRecipe>, user: UserId)
    ensures RecipesOf(a + b, user) == RecipesOf(a, user) + RecipesOf(b, user)
    decreases |a|
  {
    if a == [] {
      assert a + b == b;
    } else {
      var head := if a[0].user == user then [a[0].recipe] else [];
      assert (a + b)[0] == a[0];
      assert (a + b)[1..] == a[1..] + b;
      assert RecipesOf(a + b, user) == head + RecipesOf(a[1..] + b, user);
      RecipesOfAppend(a[1..], b, user);
      assert RecipesOf(a, user) == head + RecipesOf(a[1..], user);
    }
  }

  /** Appending another user's row does not change this user's rows. */
  lemma AppendOtherUser(rows: seq<UserRecipe>, row: UserRecipe, user: UserId)
    requires row.user != user
    ensures RecipesOf(rows + [row], user) == RecipesOf(rows, user)
  {
    RecipesOfAppend(rows, [row], user);
    assert RecipesOf([row], user) == [] + RecipesOf([], user);
  }

  /** Deleting another user's row does not change this user's rows. */
  lemma {:induction false} WithoutOtherUser(rows: seq<UserRecipe>, row: UserRecipe, user: UserId)
    requires row.user != user
    ensures RecipesOf(Without(rows, row), user) == RecipesOf(rows, user)
    decreases |rows|
  {
    if rows != [] {
      WithoutOtherUser(rows[1..], row, user);
      var head := if rows[0] == row then [] else [rows[0]];
      RecipesOfAppend(head, Without(rows[1..], row), user);
      if rows[0] != row {
        assert RecipesOf(head, user) == RecipesOf([rows[0]], user);
        assert [rows[0]][1..] == [];
      }
    }
  }
}
