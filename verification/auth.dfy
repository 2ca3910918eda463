/** The Firebase login path: `getOrCreateUser` turns a verified ID token into
    the application's user profile, creating the user (with a starter grant
    and an active starter subscription) on first sight and syncing the
    email-verified flag afterwards.  One transaction: an `Err` leaves the
    store unchanged.
 */
module Auth {
  import opened Wrappers
  import opened Store

  const InvalidUserData := AppError("Invalid user data from authentication provider.", 400)

  /** The credits a new Firebase user starts with. */
  const InitialCredits := 5
  /** The display name used when the token carries none. */
  const DefaultName := "New User"
  /** The plan id of the subscription a new user is given, and the one the
      profile reports when the user has no subscription row. */
  const StarterPlanId := "starter"

  /** The profile sent back to the client. `subscriptionStatus` is the
      status of the user's first subscription row, `"inactive"` without one. */
  datatype UserPayload = UserPayload(
    id: string,
    name: string,
    email: string,
    role: string,
    credits: int,
    verified: bool,
    planId: Option<string>,
    subscriptionStatus: string)

  datatype LoggedIn = LoggedIn(db: Db, user: UserPayload)

  function StatusText(s: SubscriptionStatus): (t: string)
    ensures t == "active" <==> s == Active
  {
    match s
    case Active => "active"
    case Inactive => "inactive"
  }

  /** The row inserted for a first login. */
  function NewUserRow(token: Identity, env: Env): (u: UserRow)
    ensures u.firebaseUid == Some(token.uid) && u.email == token.email
    ensures u.credits == InitialCredits && u.verified == token.emailVerified
    ensures token.name != "" ==> u.name == token.name
    ensures token.name == "" ==> u.name == DefaultName
  {
    UserRow(env.rowId, Some(token.uid), None, token.email,
      if token.name != "" then token.name else DefaultName,
      InitialCredits, token.emailVerified, None, DefaultRole)
  }

  /** The store after step 1-3: the user exists and carries the token's
      verified flag.  Returns the store and the index of the user's row. */
  function EnsureUser(db: Db, token: Identity, env: Env): (r: (Db, nat))
    ensures r.1 < |r.0.users| && r.0.users[r.1].firebaseUid == Some(token.uid)
    ensures r.0.users[r.1].verified == token.emailVerified
    ensures r.0.payments == db.payments && r.0.plans == db.plans && r.0.history == db.history
  {
    match UserByUid(db, token.uid)
    case None =>
      var row := NewUserRow(token, env);
      (db.(users := db.users + [row],
           subscriptions := db.subscriptions + [Subscription(token.uid, Some(StarterPlanId), Active, None)]),
       |db.users|)
    case Some(i) =>
      if db.users[i].verified == token.emailVerified then (db, i)
      else
        (db.(users := UpdateWhere(db.users, (u: UserRow) => u.firebaseUid == Some(token.uid),
                                  (u: UserRow) => u.(verified := token.emailVerified))), i)
  }

  /** `getOrCreateUser`, for the identity the middleware attached. */
  function GetOrCreateUser(db: Db, token: Identity, env: Env): (r: Result<LoggedIn>)
    ensures r.Err? <==> token.uid == "" || token.email == ""
    ensures r.Err? ==> r.error == InvalidUserData
    // a first login inserts the user and an active starter subscription
    ensures r.Ok? && UserByUid(db, token.uid).None? ==>
      (r.value.db.users == db.users + [NewUserRow(token, env)]
      && r.value.db.subscriptions == db.subscriptions + [Subscription(token.uid, Some(StarterPlanId), Active, None)]
      && r.value.user.credits == InitialCredits)
    // a returning user keeps every column but the verified flag, which is
    // rewritten on every row of the uid when the first one disagrees
    ensures r.Ok? && UserByUid(db, token.uid).Some? ==>
      (|r.value.db.users| == |db.users| && r.value.db.subscriptions == db.subscriptions
      && var stale := db.users[UserByUid(db, token.uid).value].verified != token.emailVerified;
      forall k :: 0 <= k < |db.users| ==>
        r.value.db.users[k] == (if stale && db.users[k].firebaseUid == Some(token.uid)
                                then db.users[k].(verified := token.emailVerified) else db.users[k]))
    ensures r.Ok? ==>
      (r.value.db.payments == db.payments && r.value.db.plans == db.plans
      && r.value.db.history == db.history)
    // the profile describes the user's own row, with the token's verified flag
    ensures r.Ok? ==>
      (r.value.user.id == token.uid && r.value.user.verified == token.emailVerified
      && exists k :: (0 <= k < |r.value.db.users|
        && r.value.db.users[k].firebaseUid == Some(token.uid)
        && r.value.db.users[k].credits == r.value.user.credits
        && r.value.db.users[k].email == r.value.user.email))
    // the plan and status come from the user's first subscription row, or
    // fall back to an inactive starter plan when there is none
    ensures r.Ok? && SubscriptionOf(r.value.db, token.uid).Some? ==>
      var sub := r.value.db.subscriptions[SubscriptionOf(r.value.db, token.uid).value];
      r.value.user.planId == sub.planId && r.value.user.subscriptionStatus == StatusText(sub.status)
    ensures r.Ok? && SubscriptionOf(r.value.db, token.uid).None? ==>
      r.value.user.planId == Some(StarterPlanId) && r.value.user.subscriptionStatus == "inactive"
  {
    if token.uid == "" || token.email == "" then Err(InvalidUserData)
    else
      var (db1, i) := EnsureUser(db, token, env);
      var user := db1.users[i];
      var plan := match SubscriptionOf(db1, token.uid)
        case None => (Some(StarterPlanId), "inactive")
        case Some(j) => (db1.subscriptions[j].planId, StatusText(db1.subscriptions[j].status));
      Ok(LoggedIn(db1, UserPayload(token.uid, user.name, user.email, user.role, user.credits,
                                   user.verified, plan.0, plan.1)))
  }

  /** Logging in twice with the same token changes nothing the second time. */
  lemma LoginIdempotent(db: Db, token: Identity, env: Env, env2: Env)
    requires GetOrCreateUser(db, token, env).Ok?
    ensures GetOrCreateUser(GetOrCreateUser(db, token, env).value.db, token, env2).Ok?
    ensures GetOrCreateUser(GetOrCreateUser(db, token, env).value.db, token, env2).value.db
            == GetOrCreateUser(db, token, env).value.db
  {
    var db1 := GetOrCreateUser(db, token, env).value.db;
    var (d, i) := EnsureUser(db, token, env);
    assert db1 == d;
    var k := UserByUid(db1, token.uid);
    assert k.Some?;
    assert db1.users[k.value].verified == token.emailVerified;
  }

  /** A first login grants a non-negative balance and a fresh uid, so the
      store invariants survive every login. */
  lemma LoginPreservesInvariants(db: Db, token: Identity, env: Env)
    requires CreditsNonNegative(db) && UniqueUids(db)
    requires GetOrCreateUser(db, token, env).Ok?
    ensures CreditsNonNegative(GetOrCreateUser(db, token, env).value.db)
    ensures UniqueUids(GetOrCreateUser(db, token, env).value.db)
  {
    var db1 := GetOrCreateUser(db, token, env).value.db;
    if UserByUid(db, token.uid).None? {
      InvariantsUnderInsert(db, db1, NewUserRow(token, env));
    } else {
      InvariantsUnderRowEdit(db, db1);
    }
  }
}
