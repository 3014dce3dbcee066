/**
 * `UserViewSet` of backend/users/views.py: the `subscribe` endpoint (POST and
 * DELETE) over the subscription table, and the action-to-permission table.
 */
module UserViews {
  import opened Wrappers
  import opened Models
  import opened Http
  import opened Relations
  import opened Store

  const SelfSubscription: string := "Нельзя подписаться на самого себя"
  const AlreadySubscribed: string := "Вы уже подписаны на этого пользователя"
  const NotSubscribed: string := "Вы не подписаны на этого пользователя"

  /** No row of the table subscribes a user to themself. */
  predicate NoSelfSubscriptions(rows: seq<Subscription>) {
    forall s :: s in rows ==> s.user != s.author
  }

  /**
   * `subscribe` on the subscription table. The author is looked up first
   * (404 for both methods). A POST refuses the requester themself, then an
   * existing subscription, each with 400 and an `errors` message, and
   * otherwise stores the pair (201). A DELETE refuses an absent subscription
   * with 400 and otherwise deletes it (204). Only 201 and 204 change the table.
   */
  function SubscribeOutcome(rows: seq<Subscription>, authorExists: bool, user: UserId, author: UserId, verb: Method)
    : (o: (Response, seq<Subscription>))
    ensures o.0 == NotFound <==> !authorExists
    ensures authorExists && verb == Post ==>
      (o.0 == BadRequest("errors", SelfSubscription) <==> author == user)
    ensures authorExists && verb == Post && author != user ==>
      (o.0 == BadRequest("errors", AlreadySubscribed) <==> Subscription(user, author) in rows)
    ensures o.0 == Created(author) <==>
      authorExists && verb == Post && author != user && Subscription(user, author) !in rows
    ensures authorExists && verb == Delete ==>
      (o.0 == BadRequest("errors", NotSubscribed) <==> Subscription(user, author) !in rows)
    ensures o.0 == NoContent <==> authorExists && verb == Delete && Subscription(user, author) in rows
    ensures !o.0.Created? && !o.0.NoContent? ==> o.1 == rows
    ensures o.0.Created? ==> multiset(o.1) == multiset(rows) + multiset{Subscription(user, author)}
    ensures o.0.NoContent? ==> multiset(o.1) == multiset(rows)[Subscription(user, author) := 0]
    ensures NoDuplicates(rows) ==> NoDuplicates(o.1)
    ensures NoSelfSubscriptions(rows) ==> NoSelfSubscriptions(o.1)
  {
    var sub := Subscription(user, author);
    if !authorExists then (NotFound, rows)
    else match verb
      case Post =>
        if author == user then (BadRequest("errors", SelfSubscription), rows)
        else if sub in rows then (BadRequest("errors", AlreadySubscribed), rows)
        else
          assert NoDuplicates(rows) ==> NoDuplicates(rows + [sub]) by {
            if NoDuplicates(rows) {
              forall i, j | 0 <= i < j < |rows + [sub]| ensures (rows + [sub])[i] != (rows + [sub])[j] {
                if j == |rows| {
                  assert (rows + [sub])[i] == rows[i];
                }
              }
            }
          }
          (Created(author), rows + [sub])
      case Delete =>
        if sub !in rows then (BadRequest("errors", NotSubscribed), rows)
        else
          assert NoDuplicates(rows) ==> NoDuplicates(Without(rows, sub)) by {
            if NoDuplicates(rows) {
              WithoutNoDuplicates(rows, sub);
            }
          }
          (NoContent, Without(rows, sub))
  }

  /** Subscribing and then unsubscribing gives back the table exactly. */
  lemma SubscribeThenUnsubscribe(rows: seq<Subscription>, user: UserId, author: UserId)
    requires author != user && Subscription(user, author) !in rows
    ensures SubscribeOutcome(rows, true, user, author, Post).0 == Created(author)
    ensures SubscribeOutcome(SubscribeOutcome(rows, true, user, author, Post).1, true, user, author, Delete) == (NoContent, rows)
  {
    WithoutAppended(rows, Subscription(user, author));
  }

  /** Subscribing twice: the second POST is refused and leaves the table as the first left it. */
  lemma SubscribeTwice(rows: seq<Subscription>, user: UserId, author: UserId)
    requires author != user && Subscription(user, author) !in rows
    ensures var once := SubscribeOutcome(rows, true, user, author, Post).1;
      SubscribeOutcome(once, true, user, author, Post) == (BadRequest("errors", AlreadySubscribed), once)
  {
    assert Subscription(user, author) in rows + [Subscription(user, author)];
  }

  /** `subscribe` on the store: the subscription table makes the `SubscribeOutcome` transition. */
  method Subscribe(db: Database, user: UserId, pk: UserId, verb: Method) returns (resp: Response)
    requires db.Valid() && user in db.users
    modifies db`subscriptions
    ensures db.Valid()
    ensures (resp, db.subscriptions) == SubscribeOutcome(old(db.subscriptions), pk in db.users, user, pk, verb)
  {
    if pk !in db.users {
      return NotFound;
    }
    var author := pk;
    var sub := Subscription(user, author);
    match verb {
      case Post =>
        if author == user {
          return BadRequest("errors", SelfSubscription);
        }
        if sub in db.subscriptions {
          return BadRequest("errors", AlreadySubscribed);
        }
        db.subscriptions := db.subscriptions + [sub];
        assert NoDuplicates(db.subscriptions) by {
          assert SubscribeOutcome(old(db.subscriptions), true, user, author, verb).1 == db.subscriptions;
        }
        resp := Created(author);
      case Delete =>
        if sub !in db.subscriptions {
          return BadRequest("errors", NotSubscribed);
        }
        db.subscriptions := Without(db.subscriptions, sub);
        assert NoDuplicates(db.subscriptions) by {
          assert SubscribeOutcome(old(db.subscriptions), true, user, author, verb).1 == db.subscriptions;
        }
        resp := NoContent;
    }
  }

  // ---------------------------------------------------------------------
  // Permissions

  /**
   * `super().get_permissions()`: the `permission_classes` of the current
   * `@action` if it declares them, else the view set's `[AllowAny]`.
   */
  function DeclaredUserPermission(action: string): Permission {
    if action in ["me", "set_password", "set_avatar", "subscriptions", "subscribe"] then IsAuthenticated
    else AllowAny
  }

  /** `UserViewSet.get_permissions`. */
  function UserPermission(action: string): (p: Permission)
    ensures action in ["me", "set_password", "set_avatar"] ==> p == IsAuthenticated
    ensures action == "create" ==> p == AllowAny
    ensures !p.IsAuthorOrReadOnly?
  {
    if action in ["me", "set_password", "set_avatar"] then IsAuthenticated
    else if action == "create" then AllowAny
    else DeclaredUserPermission(action)
  }

  /** The write actions a `ModelViewSet` routes for a single user. */
  const UserWrites: seq<string> := ["update", "partial_update", "destroy"]

  /**
   * As written, the user view set's write actions fall through to the class's
   * `[AllowAny]`: an anonymous requester passes the permission check for
   * changing or deleting any user.
   */
  lemma UserWritesOpen()
    ensures forall action :: action in UserWrites ==> UserPermission(action) == AllowAny
  {
  }

  /** The evidently intended table: the write actions need an authenticated requester. */
  function UserPermissionCorrected(action: string): (p: Permission)
    ensures action in UserWrites ==> p.IsAuthenticated?
    ensures action !in UserWrites ==> p == UserPermission(action)
  {
    if action in UserWrites then IsAuthenticated else UserPermission(action)
  }

  /**
   * The corrected table differs from the written one exactly on the write
   * actions, and it requires authentication exactly for the five declaring
   * actions and the writes.
   */
  lemma CorrectedUserPermissionDiffers(action: string)
    ensures UserPermissionCorrected(action) != UserPermission(action) <==> action in UserWrites
    ensures UserPermissionCorrected(action) == IsAuthenticated <==>
      action in ["me", "set_password", "set_avatar", "subscriptions", "subscribe"] + UserWrites
  {
    UserPermissionHonoursDeclared(action);
  }

  /**
   * Unlike the recipe view set, this table never loosens an action's declared
   * permission: it agrees with the declared classes on every action, and an
   * action requires authentication exactly when it is one of the five
   * user-only actions.
   */
  lemma UserPermissionHonoursDeclared(action: string)
    ensures UserPermission(action) == DeclaredUserPermission(action)
    ensures UserPermission(action) == IsAuthenticated <==>
      action in ["me", "set_password", "set_avatar", "subscriptions", "subscribe"]
  {
  }
}
