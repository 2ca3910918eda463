/** The credit ledger as a whole: every transaction that writes the store,
    applied in sequence.  A rejected transaction rolls back, so the store
    after a sequence is the store after its committed transactions.

    The ledger invariant: no balance is negative, no Firebase uid has two
    user rows, and no order's description promises a negative credit
    count.  Every transaction keeps it, provided the order requests it is
    given do not ask for a negative pack; the server does not check that
    itself, and `NegativePackLowersBalance` shows what follows when the
    client sends one.
 */
module Ledger {
  import opened Wrappers
  import opened Store
  import opened JsText
  import Studio
  import Payment
  import Auth
  import Passport

  /** One transaction, with the inputs the model takes from outside (the
      generator's answers, the checksum verdict). */
  datatype Op =
    | Login(token: Identity)
    | GoogleLogin(profile: Passport.GoogleProfile)
    | Generate(uid: string, req: Studio.GenerateRequest, results: seq<Studio.ShotResult>)
    | CreateOrder(uid: string, order: Payment.OrderRequest)
    | Callback(payload: Payment.CallbackPayload, checksumValid: bool)

  /** Generator answers, one per shot; pack orders whose description does
      not promise a negative number of credits. */
  predicate WellFormed(op: Op) {
    match op
    case Generate(_, req, results) => req.concept.Some? ==> |results| == |req.concept.value.shots|
    case CreateOrder(_, order) =>
      order.planId != "" || NoDebit(Payment.PackDescription(Payment.Rendered(order.credits)))
    case _ => true
  }

  /** The credit count an order's description promises, if it is a pack. */
  function PromisedCredits(description: string): Option<int> {
    match Payment.DecodePurchase(description)
    case CreditPurchase(Some(n)) => Some(n)
    case _ => None
  }

  /** The description promises no negative credit count. */
  predicate NoDebit(description: string) {
    PromisedCredits(description).Some? ==> PromisedCredits(description).value >= 0
  }

  ghost predicate PacksNonNegative(db: Db) {
    forall k {:trigger NoDebit(db.payments[k].description)} :: 0 <= k < |db.payments| ==> NoDebit(db.payments[k].description)
  }

  ghost predicate Valid(db: Db) {
    CreditsNonNegative(db) && UniqueUids(db) && PacksNonNegative(db)
  }

  /** One transaction: its committed store, or the store it was given. */
  function Apply(db: Db, op: Op, env: Env): Db
    requires WellFormed(op)
  {
    match op
    case Login(token) =>
      (match Auth.GetOrCreateUser(db, token, env) case Ok(v) => v.db case Err(_) => db)
    case GoogleLogin(profile) =>
      (match Passport.GoogleVerify(db, profile, env) case Ok(v) => v.db case Err(_) => db)
    case Generate(uid, req, results) =>
      (match Studio.GenerateImages(db, uid, req, results, env) case Ok(v) => v.db case Err(_) => db)
    case CreateOrder(uid, order) =>
      (match Payment.CreateOrder(db, uid, order, env) case Ok(v) => v.db case Err(_) => db)
    case Callback(payload, valid) =>
      Payment.HandleCallback(db, payload, valid, env).db
  }

  /** A sequence of transactions, each with its own environment. */
  function ApplyAll(db: Db, ops: seq<(Op, Env)>): Db
    requires forall k :: 0 <= k < |ops| ==> WellFormed(ops[k].0)
    decreases |ops|
  {
    if |ops| == 0 then db else ApplyAll(Apply(db, ops[0].0, ops[0].1), ops[1..])
  }

  // ---------------------------------------------------------------------
  // Preservation, one transaction at a time

  /** For an integer pack count, well-formed means not negative. */
  lemma CountOrderWellFormed(uid: string, order: Payment.OrderRequest)
    requires order.planId == "" && order.credits.Count?
    ensures WellFormed(CreateOrder(uid, order)) <==> order.credits.n >= 0
  {
    Payment.PackRoundTrip(order.credits.n);
  }

  /** A callback never lowers a balance or touches a uid, given that no
      order promises a negative count. */
  lemma CallbackUsersGrow(db: Db, payload: Payment.CallbackPayload, valid: bool, env: Env)
    requires PacksNonNegative(db)
    ensures var d := Payment.HandleCallback(db, payload, valid, env).db;
      |d.users| == |db.users|
      && forall k :: 0 <= k < |db.users| ==>
        d.users[k].firebaseUid == db.users[k].firebaseUid && d.users[k].credits >= db.users[k].credits
  {
    if valid && payload.status == Payment.TxnSuccess {
      match PaymentByOrder(db, payload.orderId)
      case None =>
      case Some(i) =>
        var order := db.payments[i];
        if order.status == Pending {
          match Payment.DecodePurchase(order.description)
          case PlanPurchase(_) =>
          case CreditPurchase(None) =>
          case CreditPurchase(Some(n)) =>
            assert NoDebit(db.payments[i].description);
            assert n >= 0;
        }
    }
  }

  /** A callback keeps the invariant. */
  lemma CallbackPreservesValid(db: Db, payload: Payment.CallbackPayload, valid: bool, env: Env)
    requires Valid(db)
    ensures Valid(Payment.HandleCallback(db, payload, valid, env).db)
  {
    var d := Payment.HandleCallback(db, payload, valid, env).db;
    CallbackUsersGrow(db, payload, valid, env);
    InvariantsUnderRowEdit(db, d);
  }

  /** Appending an order that promises no negative count keeps the pack
      part of the invariant. */
  lemma PacksUnderAppend(db: Db, d: Db, row: Store.Payment)
    requires PacksNonNegative(db)
    requires d.payments == db.payments + [row]
    requires NoDebit(row.description)
    ensures PacksNonNegative(d)
  {
    forall k | 0 <= k < |d.payments|
      ensures NoDebit(d.payments[k].description)
    {
      if k < |db.payments| {
        assert d.payments[k] == db.payments[k];
        assert NoDebit(db.payments[k].description);
      } else {
        assert d.payments[k] == row;
      }
    }
  }

  /** An order appends one pending row whose description is a plan or a
      pack of the requested, non-negative size. */
  lemma CreateOrderPreservesValid(db: Db, uid: string, order: Payment.OrderRequest, env: Env)
    requires Valid(db) && WellFormed(CreateOrder(uid, order))
    ensures Valid(Apply(db, CreateOrder(uid, order), env))
  {
    var r := Payment.CreateOrder(db, uid, order, env);
    if r.Ok? {
      var d := r.value.db;
      var last := |db.payments|;
      var desc := Payment.PriceOrder(db, order).value.1;
      if order.planId != "" {
        var plan := db.plans[PlanById(db, order.planId).value];
        Payment.PlanDescriptionIsPlan(plan.name, order.isYearly);
      }
      PacksUnderAppend(db, d, d.payments[last]);
    }
  }

  lemma ApplyPreservesValid(db: Db, op: Op, env: Env)
    requires Valid(db) && WellFormed(op)
    ensures Valid(Apply(db, op, env))
  {
    match op
    case Login(token) =>
      if Auth.GetOrCreateUser(db, token, env).Ok? {
        Auth.LoginPreservesInvariants(db, token, env);
        assert Auth.GetOrCreateUser(db, token, env).value.db.payments == db.payments;
      }
    case GoogleLogin(profile) =>
      if Passport.GoogleVerify(db, profile, env).Ok? {
        Passport.GoogleVerifyPreservesInvariants(db, profile, env);
      }
    case Generate(uid, req, results) =>
      if Studio.GenerateImages(db, uid, req, results, env).Ok? {
        Studio.GeneratePreservesInvariants(db, uid, req, results, env);
      }
    case CreateOrder(uid, order) =>
      CreateOrderPreservesValid(db, uid, order, env);
    case Callback(payload, valid) =>
      CallbackPreservesValid(db, payload, valid, env);
  }

  /** The ledger invariant holds after any sequence of well-formed
      transactions, committed or rolled back. */
  lemma {:induction false} ApplyAllPreservesValid(db: Db, ops: seq<(Op, Env)>)
    requires Valid(db)
    requires forall k :: 0 <= k < |ops| ==> WellFormed(ops[k].0)
    ensures Valid(ApplyAll(db, ops))
    decreases |ops|
  {
    if |ops| > 0 {
      ApplyPreservesValid(db, ops[0].0, ops[0].1);
      ApplyAllPreservesValid(Apply(db, ops[0].0, ops[0].1), ops[1..]);
    }
  }

  // ---------------------------------------------------------------------
  // What the server does not check

  /** A pack order for `n` credits on a database without payments creates
      one pending row whose description decodes back to `n`. */
  lemma FirstPackOrder(db: Db, uid: string, n: int, env: Env)
    requires db.payments == []
    requires n != 0
    ensures var order := Payment.CreateOrder(db, uid, Payment.OrderRequest("", false, 1, Payment.Count(n)), env);
      && order.Ok?
      && order.value.db.users == db.users
      && PaymentByOrder(order.value.db, order.value.orderId) == Some(0)
      && order.value.db.payments[0].status == Pending
      && order.value.db.payments[0].userId == uid
      && Payment.DecodePurchase(order.value.db.payments[0].description) == Payment.CreditPurchase(Some(n))
  {
    var req := Payment.OrderRequest("", false, 1, Payment.Count(n));
    var priced := Payment.PriceOrder(db, req);
    assert priced.Ok? && Payment.DecodePurchase(priced.value.1) == Payment.CreditPurchase(Some(n));
    var order := Payment.CreateOrder(db, uid, req, env);
    assert order.value.db.payments[0].description == priced.value.1;
    assert order.value.db.payments[0].orderId == order.value.orderId;
  }

  /** Paying that order adds `n` to the balance of the user who placed it and
      leaves every other user's row as it was. */
  lemma FirstPackPaid(db: Db, uid: string, n: int, env: Env)
    requires db.payments == []
    requires n != 0
    ensures var order := Payment.CreateOrder(db, uid, Payment.OrderRequest("", false, 1, Payment.Count(n)), env);
      && order.Ok?
      && var paid := Payment.HandleCallback(order.value.db,
           Payment.CallbackPayload(order.value.orderId, Payment.TxnSuccess, "T", "ok"), true, env).db;
         && |paid.users| == |db.users|
         && forall k :: 0 <= k < |db.users| ==>
              paid.users[k] == if db.users[k].firebaseUid == Some(uid)
                then db.users[k].(credits := db.users[k].credits + n)
                else db.users[k]
  {
    var order := Payment.CreateOrder(db, uid, Payment.OrderRequest("", false, 1, Payment.Count(n)), env);
    FirstPackOrder(db, uid, n, env);
    Payment.CreditsSettle(order.value.db, Payment.CallbackPayload(order.value.orderId, Payment.TxnSuccess, "T", "ok"), env);
  }

  /** A pack order for -10 credits, paid, takes a valid one-user database
      holding fewer than 10 credits to a negative balance: the credit count
      is the client's and the server trusts it. */
  lemma NegativePackLowersBalance(user: UserRow, env: Env)
    requires user.firebaseUid.Some?
    requires 0 <= user.credits < 10
    ensures var db := Db([user], [], [], [], []);
      var order := Payment.CreateOrder(db, user.firebaseUid.value, Payment.OrderRequest("", false, 1, Payment.Count(-10)), env);
      && Valid(db)
      && order.Ok?
      && var paid := Payment.HandleCallback(order.value.db,
           Payment.CallbackPayload(order.value.orderId, Payment.TxnSuccess, "T", "ok"), true, env).db;
         paid.users[0].credits == user.credits - 10 && !CreditsNonNegative(paid)
  {
    var db := Db([user], [], [], [], []);
    assert Valid(db);
    FirstPackPaid(db, user.firebaseUid.value, -10, env);
    var order := Payment.CreateOrder(db, user.firebaseUid.value, Payment.OrderRequest("", false, 1, Payment.Count(-10)), env);
    var paid := Payment.HandleCallback(order.value.db,
      Payment.CallbackPayload(order.value.orderId, Payment.TxnSuccess, "T", "ok"), true, env).db;
    assert paid.users[0].credits == user.credits - 10;
  }
}
