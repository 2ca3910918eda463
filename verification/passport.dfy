/** The Google OAuth strategy's verify callback: find the user by Google id,
    else link an existing account with the same email, else create a
    verified user with a starter grant and an active starter subscription.
    One transaction: an `Err` leaves the store unchanged.

    The subscription of a user created here is keyed by the new row's own
    `id`, while the Firebase path and every subscription query key it by
    `firebase_uid`; `SubscriptionKeyedByRowId` states the difference.
 */
module Passport {
  import opened Wrappers
  import opened Store

  /** A profile without an email: the verify callback reports a plain
      `Error`, which the error handler turns into the generic 500. */
  const NoEmail := InternalError

  /** The credits a user created by the Google strategy starts with. */
  const InitialCredits := 5
  const GoogleProvider := "google"
  const StarterPlanId := "starter"

  /** The parts of the Google profile the callback reads; `emails` are the
      profile's email values in order. */
  datatype GoogleProfile = GoogleProfile(id: string, displayName: string, emails: seq<string>)

  /** The committed store and the user row handed to `done`. */
  datatype GoogleLogin = GoogleLogin(db: Db, user: UserRow)

  /** `emails?.[0]?.value`, with `""` for a missing one. */
  function FirstEmail(p: GoogleProfile): (e: string)
    ensures |p.emails| > 0 ==> e == p.emails[0]
    ensures |p.emails| == 0 ==> e == ""
  {
    if |p.emails| > 0 then p.emails[0] else ""
  }

  function NewGoogleUser(p: GoogleProfile, env: Env): (u: UserRow)
    ensures u.id == env.rowId && u.googleId == Some(p.id) && u.email == FirstEmail(p)
    ensures u.firebaseUid.None? && u.verified && u.credits == InitialCredits
    ensures u.authProvider == Some(GoogleProvider)
  {
    UserRow(env.rowId, None, Some(p.id), FirstEmail(p), p.displayName, InitialCredits, true,
            Some(GoogleProvider), DefaultRole)
  }

  predicate KnownGoogleId(db: Db, googleId: string) {
    exists k :: 0 <= k < |db.users| && db.users[k].googleId == Some(googleId)
  }

  predicate KnownEmail(db: Db, email: string) {
    exists k :: 0 <= k < |db.users| && db.users[k].email == email
  }

  function Link(u: UserRow, googleId: string): UserRow {
    u.(googleId := Some(googleId), authProvider := Some(GoogleProvider))
  }

  /** The strategy's verify callback. */
  function GoogleVerify(db: Db, p: GoogleProfile, env: Env): (r: Result<GoogleLogin>)
    ensures r.Err? <==> FirstEmail(p) == ""
    ensures r.Err? ==> r.error == NoEmail
    // a known Google id logs in and writes nothing
    ensures r.Ok? && KnownGoogleId(db, p.id) ==>
      (r.value.db == db && r.value.user.googleId == Some(p.id) && r.value.user in db.users)
    // otherwise an existing email is linked: every row with that email gets
    // the Google id and provider, and nothing else changes
    ensures r.Ok? && !KnownGoogleId(db, p.id) && KnownEmail(db, FirstEmail(p)) ==>
      (r.value.db.subscriptions == db.subscriptions && |r.value.db.users| == |db.users|
      && r.value.db.payments == db.payments && r.value.db.history == db.history
      && r.value.db.plans == db.plans
      && r.value.user.googleId == Some(p.id) && r.value.user in r.value.db.users
      && forall k :: 0 <= k < |db.users| ==>
        r.value.db.users[k] == (if db.users[k].email == FirstEmail(p) then Link(db.users[k], p.id)
                                else db.users[k]))
    // otherwise a new, verified user with an active starter subscription
    ensures r.Ok? && !KnownGoogleId(db, p.id) && !KnownEmail(db, FirstEmail(p)) ==>
      (r.value.user == NewGoogleUser(p, env)
      && r.value.db == db.(users := db.users + [NewGoogleUser(p, env)],
           subscriptions := db.subscriptions + [Subscription(env.rowId, Some(StarterPlanId), Active, None)]))
  {
    var email := FirstEmail(p);
    if email == "" then Err(NoEmail)
    else match FirstIndex(db.users, (u: UserRow) => u.googleId == Some(p.id))
      case Some(i) => Ok(GoogleLogin(db, db.users[i]))
      case None =>
        match FirstIndex(db.users, (u: UserRow) => u.email == email)
        case Some(i) =>
          var users := UpdateWhere(db.users, (u: UserRow) => u.email == email, (u: UserRow) => Link(u, p.id));
          Ok(GoogleLogin(db.(users := users), users[i]))
        case None =>
          var row := NewGoogleUser(p, env);
          Ok(GoogleLogin(db.(users := db.users + [row],
                             subscriptions := db.subscriptions + [Subscription(row.id, Some(StarterPlanId), Active, None)]),
                         row))
  }

  /** A second Google login with the same profile finds the user by its
      Google id and writes nothing. */
  lemma GoogleLoginSettles(db: Db, p: GoogleProfile, env: Env, env2: Env)
    requires GoogleVerify(db, p, env).Ok?
    ensures GoogleVerify(GoogleVerify(db, p, env).value.db, p, env2).Ok?
    ensures GoogleVerify(GoogleVerify(db, p, env).value.db, p, env2).value.db
            == GoogleVerify(db, p, env).value.db
  {
    var r := GoogleVerify(db, p, env).value;
    var k :| 0 <= k < |r.db.users| && r.db.users[k] == r.user;
    assert r.db.users[k].googleId == Some(p.id);
  }

  /** A user created by the Google strategy has no Firebase uid, and its
      starter subscription is keyed by the row id: a lookup by that id finds
      it, a lookup by the (absent) Firebase uid cannot. */
  lemma SubscriptionKeyedByRowId(db: Db, p: GoogleProfile, env: Env)
    requires FirstEmail(p) != ""
    requires !KnownGoogleId(db, p.id) && !KnownEmail(db, FirstEmail(p))
    requires forall j :: 0 <= j < |db.subscriptions| ==> db.subscriptions[j].userId != env.rowId
    ensures GoogleVerify(db, p, env).Ok?
    ensures GoogleVerify(db, p, env).value.user.firebaseUid.None?
    ensures ActiveSubscription(GoogleVerify(db, p, env).value.db, env.rowId) == Some(|db.subscriptions|)
  {
    var d := GoogleVerify(db, p, env).value.db;
    assert d.subscriptions[|db.subscriptions|].userId == env.rowId;
  }

  /** The Google strategy never lowers or invents a negative balance and
      never touches a Firebase uid. */
  lemma GoogleVerifyPreservesInvariants(db: Db, p: GoogleProfile, env: Env)
    requires CreditsNonNegative(db) && UniqueUids(db)
    requires GoogleVerify(db, p, env).Ok?
    ensures CreditsNonNegative(GoogleVerify(db, p, env).value.db)
    ensures UniqueUids(GoogleVerify(db, p, env).value.db)
  {
    var d := GoogleVerify(db, p, env).value.db;
    if KnownGoogleId(db, p.id) {
    } else if KnownEmail(db, FirstEmail(p)) {
      InvariantsUnderRowEdit(db, d);
    } else {
      InvariantsUnderInsert(db, d, NewGoogleUser(p, env));
    }
  }
}
