/** The rows of the backend's PostgreSQL tables, as immutable values.

    Each table is a sequence in insertion order: the controllers read the
    first row a `SELECT ... WHERE` returns (`rows[0]`) and their `UPDATE`s
    rewrite every matching row, and sequences let both be said literally.
    A whole-store value is the database between two transactions; every
    controller transaction is one transition from a store to a store.
 */
module Store {
  import opened Wrappers

  /** A timestamp (`NOW()`), as an instant on a single clock. */
  type Instant = int

  /** One row of `users`. `firebaseUid` is set by the Firebase login path,
      `googleId` and `authProvider` by the Google strategy; `id` is the
      table's own key. */
  datatype UserRow = UserRow(
    id: string,
    firebaseUid: Option<string>,
    googleId: Option<string>,
    email: string,
    name: string,
    credits: int,
    verified: bool,
    authProvider: Option<string>,
    role: string)

  /** The `role` column's default for rows the controllers insert. */
  const DefaultRole := "user"

  datatype SubscriptionStatus = Active | Inactive

  /** One row of `subscriptions`. `planId` is `None` for SQL `NULL`, which
      the payment callback writes when it cannot read a plan name. */
  datatype Subscription = Subscription(
    userId: string,
    planId: Option<string>,
    status: SubscriptionStatus,
    periodEnd: Option<Instant>)

  datatype PaymentStatus = Pending | Success | Failed

  /** One row of `payments`: an order and what the gateway said about it. */
  datatype Payment = Payment(
    id: string,
    userId: string,
    amount: int,
    status: PaymentStatus,
    orderId: string,
    description: string,
    txnId: Option<string>,
    responseData: Option<string>,
    createdAt: Instant)

  /** One row of `plans`: prices are in paise. */
  datatype PlanRow = PlanRow(id: string, name: string, priceMonthly: int, priceYearly: int)

  /** A generated image as the generator returns it and history stores it. */
  datatype Image = Image(src: string, alt: string)

  /** One row of `generation_history`. */
  datatype GenerationRecord = GenerationRecord(
    id: string,
    userId: string,
    theme: string,
    originalImage: string,
    images: seq<Image>,
    createdAt: Instant)

  datatype Db = Db(
    users: seq<UserRow>,
    subscriptions: seq<Subscription>,
    payments: seq<Payment>,
    plans: seq<PlanRow>,
    history: seq<GenerationRecord>)

  /** What a transaction draws from its surroundings: the database clock
      (`NOW()` and `NOW() + INTERVAL '1 month'`), the key the database
      assigns to an inserted row, and a fresh UUID. */
  datatype Env = Env(now: Instant, monthFromNow: Instant, rowId: string, uuid: string)

  /** The identity a verified Firebase ID token carries. */
  datatype Identity = Identity(uid: string, email: string, name: string, emailVerified: bool)

  // ---------------------------------------------------------------------
  // Queries

  /** `SELECT ... FROM users WHERE firebase_uid = $1`, first row. */
  function UserByUid(db: Db, uid: string): (r: Option<nat>)
    ensures r.Some? ==> r.value < |db.users| && db.users[r.value].firebaseUid == Some(uid)
    ensures r.Some? ==> forall j :: 0 <= j < r.value ==> db.users[j].firebaseUid != Some(uid)
    ensures r.None? <==> forall j :: 0 <= j < |db.users| ==> db.users[j].firebaseUid != Some(uid)
  {
    FirstIndex(db.users, (u: UserRow) => u.firebaseUid == Some(uid))
  }

  /** `SELECT plan_id FROM subscriptions WHERE user_id = $1 AND status = 'active'`,
      first row. */
  function ActiveSubscription(db: Db, userId: string): (r: Option<nat>)
    ensures r.Some? ==> (r.value < |db.subscriptions|
      && db.subscriptions[r.value].userId == userId && db.subscriptions[r.value].status == Active)
    ensures r.Some? ==> forall j :: 0 <= j < r.value ==>
      !(db.subscriptions[j].userId == userId && db.subscriptions[j].status == Active)
    ensures r.None? <==> forall j :: 0 <= j < |db.subscriptions| ==>
      !(db.subscriptions[j].userId == userId && db.subscriptions[j].status == Active)
  {
    FirstIndex(db.subscriptions, (s: Subscription) => s.userId == userId && s.status == Active)
  }

  /** `SELECT ... FROM subscriptions WHERE user_id = $1`, first row. */
  function SubscriptionOf(db: Db, userId: string): (r: Option<nat>)
    ensures r.Some? ==> r.value < |db.subscriptions| && db.subscriptions[r.value].userId == userId
    ensures r.Some? ==> forall j :: 0 <= j < r.value ==> db.subscriptions[j].userId != userId
    ensures r.None? <==> forall j :: 0 <= j < |db.subscriptions| ==> db.subscriptions[j].userId != userId
  {
    FirstIndex(db.subscriptions, (s: Subscription) => s.userId == userId)
  }

  /** `SELECT * FROM payments WHERE paytm_order_id = $1`, first row. */
  function PaymentByOrder(db: Db, orderId: string): (r: Option<nat>)
    ensures r.Some? ==> r.value < |db.payments| && db.payments[r.value].orderId == orderId
    ensures r.Some? ==> forall j :: 0 <= j < r.value ==> db.payments[j].orderId != orderId
    ensures r.None? <==> forall j :: 0 <= j < |db.payments| ==> db.payments[j].orderId != orderId
  {
    FirstIndex(db.payments, (p: Payment) => p.orderId == orderId)
  }

  /** `SELECT * FROM plans WHERE id = $1`, first row. */
  function PlanById(db: Db, planId: string): (r: Option<nat>)
    ensures r.Some? ==> r.value < |db.plans| && db.plans[r.value].id == planId
    ensures r.None? <==> forall j :: 0 <= j < |db.plans| ==> db.plans[j].id != planId
  {
    FirstIndex(db.plans, (p: PlanRow) => p.id == planId)
  }

  // ---------------------------------------------------------------------
  // Invariants

  /** No balance is negative. */
  ghost predicate CreditsNonNegative(db: Db) {
    forall i :: 0 <= i < |db.users| ==> db.users[i].credits >= 0
  }

  /** At most one user row per Firebase uid, so that the row a query locks is
      the only row an `UPDATE ... WHERE firebase_uid` touches. */
  ghost predicate UniqueUids(db: Db) {
    forall i, j :: (0 <= i < |db.users| && 0 <= j < |db.users| && i != j
      && db.users[i].firebaseUid.Some?) ==> db.users[i].firebaseUid != db.users[j].firebaseUid
  }

  /** Rewriting user rows without changing their uids or making a balance
      negative keeps both invariants. */
  lemma InvariantsUnderRowEdit(db: Db, d: Db)
    requires CreditsNonNegative(db) && UniqueUids(db)
    requires |d.users| == |db.users|
    requires forall k :: 0 <= k < |db.users| ==>
      d.users[k].firebaseUid == db.users[k].firebaseUid && d.users[k].credits >= 0
    ensures CreditsNonNegative(d) && UniqueUids(d)
  {
  }

  /** Appending a row with a non-negative balance and a uid no row has (or
      none) keeps both invariants. */
  lemma InvariantsUnderInsert(db: Db, d: Db, row: UserRow)
    requires CreditsNonNegative(db) && UniqueUids(db)
    requires d.users == db.users + [row] && row.credits >= 0
    requires forall k :: 0 <= k < |db.users| ==> db.users[k].firebaseUid != row.firebaseUid || row.firebaseUid.None?
    ensures CreditsNonNegative(d) && UniqueUids(d)
  {
    assert forall k :: 0 <= k < |db.users| ==> d.users[k] == db.users[k];
  }
}
