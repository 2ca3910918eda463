/** The payment controller: order creation and the gateway callback.

    `CreateOrder` prices a purchase and writes what was bought into the
    order's free-text description; `HandleCallback` reads the description
    back to decide between a subscription change and a credit top-up.  The
    descriptions and `DecodePurchase` therefore form a text round trip, proved
    below for credit packs of any size and for single-word plan names.

    The callback's checksum verdict is an input (the controller hardcodes it
    to true).  The success branch is one transaction on a row locked
    `FOR UPDATE`; every path that throws inside it returns the store it was
    given.
 */
module Payment {
  import opened Wrappers
  import opened Store
  import opened JsText

  const PlanNotFound := AppError("Plan not found", 404)
  const InvalidOrderDetails := AppError("Invalid order details", 400)
  const OrderPrefix := "ORDER_"
  /** The gateway's `STATUS` value for a completed payment. */
  const TxnSuccess := "TXN_SUCCESS"

  /** The `credits` field of a create-order body as JSON delivers it.
      `NoCredits` is a missing field, `null` or `false`; `Count(n)` is an
      integer; `Text(s)` is any other value, carried as the text a template
      literal renders it to: a string, a fractional number (`2.5`), `true`. */
  datatype CreditsField = NoCredits | Count(n: int) | Text(s: string)

  /** JavaScript truthiness of the field: `0` and `""` are falsy. */
  predicate Truthy(c: CreditsField) {
    match c
    case NoCredits => false
    case Count(n) => n != 0
    case Text(s) => s != ""
  }

  /** `${credits}`. */
  function Rendered(c: CreditsField): string {
    match c
    case NoCredits => ""
    case Count(n) => IntToString(n)
    case Text(s) => s
  }

  /** The body of a create-order request.  `""` and `0` stand for absent
      (falsy) plan ids and amounts; `amount` is in rupees. */
  datatype OrderRequest = OrderRequest(planId: string, isYearly: bool, amount: int, credits: CreditsField)

  /** A created order: the new store, the order id and the amount in rupees
      as sent to the gateway. */
  datatype OrderCreated = OrderCreated(db: Db, orderId: string, amount: string)

  /** What a description says was bought. `PlanPurchase(None)` is a plan
      description whose plan name the regular expression cannot find;
      `CreditPurchase(None)` is one whose leading word is not a number. */
  datatype Purchase = PlanPurchase(planId: Option<string>) | CreditPurchase(credits: Option<int>)

  /** The description of a plan order: `"<name> Plan (Yearly|Monthly)"`. */
  function PlanDescription(name: string, yearly: bool): string {
    name + " Plan (" + (if yearly then "Yearly" else "Monthly") + ")"
  }

  /** The description of a credit-pack order: `"<credits> Credit Pack"`,
      where `credits` is the request's field as rendered text. */
  function PackDescription(credits: string): string {
    credits + " Credit Pack"
  }

  /** The callback's reading of a description: a description containing
      `Plan` names a plan through `/(\w+)\sPlan/`, lower-cased; any other
      names a credit count through `parseInt(description.split(' ')[0])`. */
  function DecodePurchase(description: string): Purchase {
    if Contains(description, "Plan") then
      PlanPurchase(match PlanWord(description) case None => None case Some(w) => Some(ToLowerAscii(w)))
    else
      CreditPurchase(ParseInt(SplitHead(description, " "), AutoRadix))
  }

  // ---------------------------------------------------------------------
  // Round trip

  /** Text made of digits, signs and decimal points. */
  predicate Numeric(num: string) {
    forall i :: 0 <= i < |num| ==> num[i] == '-' || num[i] == '.' || IsDecimalDigit(num[i])
  }

  /** A pack description of numeric text never mentions `Plan`: the only
      `P` of the suffix is followed by `a`. */
  lemma NumericPackHasNoPlan(num: string)
    requires Numeric(num)
    ensures !Contains(PackDescription(num), "Plan")
  {
    var d := PackDescription(num);
    var suffix := " Credit Pack";
    assert d == num + suffix;
    forall j | 0 <= j
      ensures !OccursAt(d, "Plan", j)
    {
      if j + 4 <= |d| {
        if j < |num| {
          assert d[j] == num[j];
        } else {
          var k := j - |num|;
          assert d[j] == suffix[k] && d[j + 1] == suffix[k + 1];
          assert k <= 8;
          assert k == 0 || k == 1 || k == 2 || k == 3 || k == 4 || k == 5 || k == 6 || k == 7 || k == 8;
          assert suffix[k] != 'P' || suffix[k + 1] != 'l';
        }
        assert d[j..j + 4][0] == d[j] && d[j..j + 4][1] == d[j + 1];
      }
    }
  }

  /** The first word of a pack description is the rendered count, when that
      has no space in it. */
  lemma PackDescriptionHead(num: string)
    requires forall i :: 0 <= i < |num| ==> num[i] != ' '
    ensures SplitHead(PackDescription(num), " ") == num
  {
    var d := PackDescription(num);
    assert d == num + " Credit Pack";
    assert d[|num|] == ' ';
    assert d[|num|..|num| + 1] == " ";
    assert OccursAt(d, " ", |num|);
    forall j | 0 <= j < |num|
      ensures !OccursAt(d, " ", j)
    {
      assert d[j] == num[j];
    }
    assert IndexOf(d, " ", 0) == Some(|num|);
  }

  /** Integer credit counts round-trip: the callback credits exactly the
      count the order was created for, for every integer count. */
  lemma PackRoundTrip(n: int)
    ensures DecodePurchase(PackDescription(IntToString(n))) == CreditPurchase(Some(n))
  {
    var num := IntToString(n);
    assert forall i :: 0 <= i < |num| ==> num[i] == '-' || IsDecimalDigit(num[i]);
    NumericPackHasNoPlan(num);
    PackDescriptionHead(num);
    ParseIntOfIntToString(n, AutoRadix);
  }

  lemma MagnitudeStopsAtPoint(ds: string, f: string)
    requires |ds| > 0 && AllRadixDigits(ds, 10)
    ensures ParseMagnitude(ds + "." + f, AutoRadix) == Some(DigitsValue(ds, 10))
  {
    var rest := "." + f;
    var u := ds + rest;
    assert u == ds + "." + f;
    LeadingDigitsOfPrefix(ds, rest, 10);
    assert LeadingDigits(u, 10) == ds;
    assert u[1] == '.' || u[1] == ds[1] by {
      if |ds| == 1 { assert u[1] == rest[0]; } else { assert u[1] == ds[1]; }
    }
    assert !(u[1] == 'x' || u[1] == 'X');
  }

  /** `parseInt` of `n.f` stops at the point. */
  lemma ParseFraction(n: nat, f: string)
    ensures ParseInt(NatToString(n) + "." + f, AutoRadix) == Some(n)
  {
    var ds := NatToString(n);
    var num := ds + "." + f;
    assert IsRadixDigit(num[0], 10) by { assert num[0] == ds[0]; }
    ParseIntUnsigned(num, AutoRadix);
    MagnitudeStopsAtPoint(ds, f);
    NatToStringValue(n);
  }

  lemma FractionNumeric(n: nat, f: string)
    requires AllRadixDigits(f, 10)
    ensures Numeric(NatToString(n) + "." + f)
  {
    var ds := NatToString(n);
    var num := ds + "." + f;
    forall i | 0 <= i < |num|
      ensures num[i] == '-' || num[i] == '.' || IsDecimalDigit(num[i])
    {
      if i < |ds| { assert num[i] == ds[i]; }
      else if i > |ds| { assert num[i] == f[i - |ds| - 1]; }
    }
  }

  /** A fractional credit count `n.f` is read back as its integer part `n`:
      the callback credits fewer credits than the order names. */
  lemma FractionalPackTruncates(n: nat, f: string)
    requires |f| > 0 && AllRadixDigits(f, 10)
    ensures DecodePurchase(PackDescription(NatToString(n) + "." + f)) == CreditPurchase(Some(n))
  {
    var num := NatToString(n) + "." + f;
    FractionNumeric(n, f);
    NumericPackHasNoPlan(num);
    PackDescriptionHead(num);
    ParseFraction(n, f);
  }

  lemma {:induction false} WordRunOverWord(s: string, word: string, i: nat)
    requires StartsWith(s, word) && i <= |word|
    requires forall k :: 0 <= k < |word| ==> IsWordChar(word[k])
    requires |word| < |s| && !IsWordChar(s[|word|])
    ensures WordRunEnd(s, i) == |word|
    decreases |word| - i
  {
    if i < |word| {
      assert s[i] == word[i];
      WordRunOverWord(s, word, i + 1);
    }
  }

  /** Any description that starts with a word, a space and `Plan` buys the
      plan that word names, lower-cased. */
  lemma WordPlanDecodes(name: string, rest: string)
    requires |name| > 0
    requires forall k :: 0 <= k < |name| ==> IsWordChar(name[k])
    ensures DecodePurchase(name + " Plan" + rest) == PlanPurchase(Some(ToLowerAscii(name)))
  {
    var d := name + " Plan" + rest;
    assert d[..|name|] == name;
    assert d[|name|] == ' ';
    assert d[|name| + 1..|name| + 5] == "Plan";
    WordRunOverWord(d, name, 0);
    assert PlanWordAt(d, 0);
    assert d[0..|name|] == name;
    assert OccursAt(d, "Plan", |name| + 1);
    assert IndexOf(d, "Plan", 0).Some?;
  }

  /** Single-word plan names round-trip: the callback recovers the plan
      name, lower-cased. */
  lemma PlanRoundTrip(name: string, yearly: bool)
    requires |name| > 0
    requires forall k :: 0 <= k < |name| ==> IsWordChar(name[k])
    ensures DecodePurchase(PlanDescription(name, yearly)) == PlanPurchase(Some(ToLowerAscii(name)))
  {
    var rest := " (" + (if yearly then "Yearly" else "Monthly") + ")";
    assert PlanDescription(name, yearly) == name + " Plan" + rest;
    WordPlanDecodes(name, rest);
  }

  /** A credit pack whose `credits` is the text `"<word> Plan"` is read by
      the callback as that plan: the pack order activates a subscription. */
  lemma PlanTextBuysPlan(word: string)
    requires |word| > 0
    requires forall k :: 0 <= k < |word| ==> IsWordChar(word[k])
    ensures DecodePurchase(PackDescription(Rendered(Text(word + " Plan")))) == PlanPurchase(Some(ToLowerAscii(word)))
  {
    assert PackDescription(word + " Plan") == word + " Plan" + " Credit Pack";
    WordPlanDecodes(word, " Credit Pack");
  }

  /** A plan description always mentions `Plan`, so the callback never
      credits a pack for it. */
  lemma PlanDescriptionIsPlan(name: string, yearly: bool)
    ensures DecodePurchase(PlanDescription(name, yearly)).PlanPurchase?
  {
    var d := PlanDescription(name, yearly);
    var tail := " Plan (" + (if yearly then "Yearly" else "Monthly") + ")";
    assert d == name + tail;
    assert d[|name| + 1..|name| + 5] == tail[1..5];
    assert OccursAt(d, "Plan", |name| + 1);
  }

  // ---------------------------------------------------------------------
  // Orders

  /** A plan name the regular expression `/(\w+)\sPlan/` reads whole. */
  predicate OneWord(name: string) {
    |name| > 0 && forall k :: 0 <= k < |name| ==> IsWordChar(name[k])
  }

  /** A plan order: the plan's yearly or monthly price, recorded under a
      description the callback reads as that plan. */
  function PlanOrder(plan: PlanRow, yearly: bool): (r: (int, string))
    ensures r.0 == (if yearly then plan.priceYearly else plan.priceMonthly)
    ensures DecodePurchase(r.1).PlanPurchase?
    ensures OneWord(plan.name) ==> DecodePurchase(r.1) == PlanPurchase(Some(ToLowerAscii(plan.name)))
  {
    PlanDescriptionIsPlan(plan.name, yearly);
    var order := (if yearly then plan.priceYearly else plan.priceMonthly, PlanDescription(plan.name, yearly));
    if OneWord(plan.name) then PlanRoundTrip(plan.name, yearly); order else order
  }

  /** A pack order: the amount in whole rupees converted to paise, recorded
      under a description the callback reads back as an integer count. */
  function PackOrder(amount: int, credits: CreditsField): (r: (int, string))
    ensures r.0 % 100 == 0 && r.0 / 100 == amount
    ensures credits.Count? ==> DecodePurchase(r.1) == CreditPurchase(Some(credits.n))
  {
    var paise := amount * 100;
    assert paise % 100 == 0 && paise / 100 == amount;
    if credits.Count? then
      PackRoundTrip(credits.n);
      (paise, PackDescription(IntToString(credits.n)))
    else (paise, PackDescription(Rendered(credits)))
  }

  /** The order to insert: its amount in paise and its description, or the
      rejection.  A plan id wins over pack fields; a pack needs a truthy
      amount and a truthy credits field. */
  function PriceOrder(db: Db, req: OrderRequest): (r: Result<(int, string)>)
    ensures req.planId != "" && PlanById(db, req.planId).None? ==> r == Err(PlanNotFound)
    ensures req.planId == "" && (req.amount == 0 || !Truthy(req.credits)) ==> r == Err(InvalidOrderDetails)
    ensures r.Ok? <==> (req.planId != "" && PlanById(db, req.planId).Some?)
                       || (req.planId == "" && req.amount != 0 && Truthy(req.credits))
    // a plan is charged its yearly or monthly price and recorded as a plan
    ensures r.Ok? && req.planId != "" ==>
      var plan := db.plans[PlanById(db, req.planId).value];
      && r.value.0 == (if req.isYearly then plan.priceYearly else plan.priceMonthly)
      && DecodePurchase(r.value.1).PlanPurchase?
      && (OneWord(plan.name) ==> DecodePurchase(r.value.1) == PlanPurchase(Some(ToLowerAscii(plan.name))))
    // a pack is charged its amount in whole rupees, converted to paise
    ensures r.Ok? && req.planId == "" ==>
      && r.value.0 % 100 == 0 && r.value.0 / 100 == req.amount
      && (req.credits.Count? ==> DecodePurchase(r.value.1) == CreditPurchase(Some(req.credits.n)))
  {
    if req.planId != "" then
      match PlanById(db, req.planId)
      case None => Err(PlanNotFound)
      case Some(i) => Ok(PlanOrder(db.plans[i], req.isYearly))
    else if req.amount != 0 && Truthy(req.credits) then
      Ok(PackOrder(req.amount, req.credits))
    else
      Err(InvalidOrderDetails)
  }

  /** Order creation: one `pending` payment row with an `ORDER_` id is
      appended and nothing else changes; a rejected request inserts nothing. */
  function CreateOrder(db: Db, uid: string, req: OrderRequest, env: Env): (r: Result<OrderCreated>)
    ensures r.Ok? <==> PriceOrder(db, req).Ok?
    ensures r.Err? ==> r == Err(PriceOrder(db, req).error)
    ensures r.Ok? ==>
      var (amount, description) := PriceOrder(db, req).value;
      && r.value.orderId == OrderPrefix + env.uuid
      && r.value.db == db.(payments := db.payments + [Payment(env.rowId, uid, amount, Pending, r.value.orderId,
                                                             description, None, None, env.now)])
      && ParsePaise(r.value.amount) == Some(amount)
  {
    match PriceOrder(db, req)
    case Err(e) => Err(e)
    case Ok((amount, description)) =>
      var orderId := OrderPrefix + env.uuid;
      var row := Payment(env.rowId, uid, amount, Pending, orderId, description, None, None, env.now);
      FormatPaiseRoundTrip(amount);
      Ok(OrderCreated(db.(payments := db.payments + [row]), orderId, FormatPaise(amount)))
  }

  // ---------------------------------------------------------------------
  // Callback

  datatype Redirect = SuccessPage | FailurePage

  /** The fields of the gateway's callback the controller uses; `raw` is the
      whole payload as stored in `response_data`. */
  datatype CallbackPayload = CallbackPayload(orderId: string, status: string, txnId: string, raw: string)

  datatype CallbackResult = CallbackResult(db: Db, redirect: Redirect)

  /** `UPDATE payments SET ... WHERE paytm_order_id = $1`. */
  function UpdateOrder(payments: seq<Payment>, orderId: string, f: Payment -> Payment): (r: seq<Payment>)
    ensures |r| == |payments|
    ensures forall i :: 0 <= i < |payments| && payments[i].orderId == orderId ==> r[i] == f(payments[i])
    ensures forall i :: 0 <= i < |payments| && payments[i].orderId != orderId ==> r[i] == payments[i]
  {
    UpdateWhere(payments, (p: Payment) => p.orderId == orderId, f)
  }

  /** The gateway callback.  An invalid checksum marks the order `failed`.
      A `TXN_SUCCESS` payload locks the order; an order that is no longer
      `pending` is left alone; a pending one becomes `success` and either
      activates the decoded plan until a month from now or adds the decoded
      credits.  Any other status marks the order `failed`, whatever its
      current status.  An unknown order, or a credit description without a
      number, throws inside the transaction and rolls it back. */
  function HandleCallback(db: Db, payload: CallbackPayload, checksumValid: bool, env: Env): (r: CallbackResult)
    ensures r.db.plans == db.plans && r.db.history == db.history
    // rows keep their order ids and descriptions; only status columns move
    ensures |r.db.payments| == |db.payments|
    ensures forall k :: 0 <= k < |db.payments| ==>
      r.db.payments[k].orderId == db.payments[k].orderId
      && r.db.payments[k].description == db.payments[k].description
    ensures !checksumValid || payload.status != TxnSuccess ==>
      r.redirect == FailurePage && r.db.users == db.users && r.db.subscriptions == db.subscriptions
    ensures r.redirect == SuccessPage ==> checksumValid && payload.status == TxnSuccess
    // the failure paths write only the rows of the callback's order id
    ensures !checksumValid ==> forall k :: 0 <= k < |db.payments| ==>
      r.db.payments[k] == if db.payments[k].orderId == payload.orderId then db.payments[k].(status := Failed)
                          else db.payments[k]
    ensures checksumValid && payload.status != TxnSuccess ==> forall k :: 0 <= k < |db.payments| ==>
      r.db.payments[k] == if db.payments[k].orderId == payload.orderId
                          then db.payments[k].(status := Failed, responseData := Some(payload.raw))
                          else db.payments[k]
  {
    var orderId := payload.orderId;
    if !checksumValid then
      CallbackResult(db.(payments := UpdateOrder(db.payments, orderId, (p: Payment) => p.(status := Failed))),
                     FailurePage)
    else if payload.status == TxnSuccess then
      match PaymentByOrder(db, orderId)
      case None => CallbackResult(db, FailurePage)
      case Some(i) =>
        var order := db.payments[i];
        if order.status != Pending then CallbackResult(db, SuccessPage)
        else
          var payments := UpdateOrder(db.payments, orderId,
            (p: Payment) => p.(status := Success, txnId := Some(payload.txnId), responseData := Some(payload.raw)));
          match DecodePurchase(order.description)
          case PlanPurchase(plan) =>
            var subs := UpdateWhere(db.subscriptions, (s: Subscription) => s.userId == order.userId,
              (s: Subscription) => s.(status := Active, planId := plan, periodEnd := Some(env.monthFromNow)));
            CallbackResult(db.(payments := payments, subscriptions := subs), SuccessPage)
          case CreditPurchase(None) => CallbackResult(db, FailurePage)
          case CreditPurchase(Some(n)) =>
            var users := UpdateWhere(db.users, (u: UserRow) => u.firebaseUid == Some(order.userId),
              (u: UserRow) => u.(credits := u.credits + n));
            CallbackResult(db.(payments := payments, users := users), SuccessPage)
    else
      CallbackResult(db.(payments := UpdateOrder(db.payments, orderId,
                           (p: Payment) => p.(status := Failed, responseData := Some(payload.raw)))),
                     FailurePage)
  }

  /** Delivering the same callback twice has the effect of delivering it
      once, on every branch, whatever the clock says the second time. */
  lemma CallbackIdempotent(db: Db, payload: CallbackPayload, checksumValid: bool, env1: Env, env2: Env)
    ensures var once := HandleCallback(db, payload, checksumValid, env1).db;
      HandleCallback(once, payload, checksumValid, env2).db == once
  {
    if checksumValid && payload.status == TxnSuccess {
      SuccessCallbackIdempotent(db, payload, env1, env2);
    } else {
      var once := HandleCallback(db, payload, checksumValid, env1).db;
      var f := if checksumValid then (p: Payment) => p.(status := Failed, responseData := Some(payload.raw))
               else (p: Payment) => p.(status := Failed);
      assert once == db.(payments := UpdateOrder(db.payments, payload.orderId, f));
      assert UpdateOrder(once.payments, payload.orderId, f) == once.payments;
    }
  }

  /** Rewriting rows without touching their order ids keeps the row an
      order id finds. */
  lemma OrderIndexStable(a: Db, b: Db, orderId: string)
    requires |a.payments| == |b.payments|
    requires forall j :: 0 <= j < |a.payments| ==> a.payments[j].orderId == b.payments[j].orderId
    ensures PaymentByOrder(a, orderId) == PaymentByOrder(b, orderId)
  {
  }

  /** A success callback that settles a pending order leaves it `success`
      under the same order id, so a second delivery finds it settled. */
  lemma PendingOrderSettled(db: Db, payload: CallbackPayload, env: Env)
    requires payload.status == TxnSuccess
    requires PaymentByOrder(db, payload.orderId).Some?
    requires db.payments[PaymentByOrder(db, payload.orderId).value].status == Pending
    requires DecodePurchase(db.payments[PaymentByOrder(db, payload.orderId).value].description) != CreditPurchase(None)
    ensures var once := HandleCallback(db, payload, true, env).db;
      PaymentByOrder(once, payload.orderId) == PaymentByOrder(db, payload.orderId)
      && once.payments[PaymentByOrder(db, payload.orderId).value].status == Success
  {
    var once := HandleCallback(db, payload, true, env).db;
    OrderIndexStable(db, once, payload.orderId);
  }

  lemma SuccessCallbackIdempotent(db: Db, payload: CallbackPayload, env1: Env, env2: Env)
    requires payload.status == TxnSuccess
    ensures var once := HandleCallback(db, payload, true, env1).db;
      HandleCallback(once, payload, true, env2).db == once
  {
    match PaymentByOrder(db, payload.orderId)
    case None =>
    case Some(i) =>
      var order := db.payments[i];
      if order.status != Pending {
        SettledOrderUntouched(db, payload, env1);
        SettledOrderUntouched(db, payload, env2);
      } else if DecodePurchase(order.description) != CreditPurchase(None) {
        var once := HandleCallback(db, payload, true, env1).db;
        PendingOrderSettled(db, payload, env1);
        SettledOrderUntouched(once, payload, env2);
      }
  }

  /** A success callback for an order that is no longer pending writes
      nothing and still redirects to the success page. */
  lemma SettledOrderUntouched(db: Db, payload: CallbackPayload, env: Env)
    requires payload.status == TxnSuccess
    requires PaymentByOrder(db, payload.orderId).Some?
    requires db.payments[PaymentByOrder(db, payload.orderId).value].status != Pending
    ensures HandleCallback(db, payload, true, env) == CallbackResult(db, SuccessPage)
  {
  }

  /** The first success callback on a pending order that commits marks
      the order's rows `success` with the gateway's transaction id and
      leaves the rows of other orders alone. */
  lemma SuccessWritesOrderRows(db: Db, payload: CallbackPayload, env: Env)
    requires payload.status == TxnSuccess
    requires PaymentByOrder(db, payload.orderId).Some?
    requires db.payments[PaymentByOrder(db, payload.orderId).value].status == Pending
    ensures var r := HandleCallback(db, payload, true, env);
      r.redirect == SuccessPage ==> forall k :: 0 <= k < |db.payments| ==>
        r.db.payments[k] == if db.payments[k].orderId == payload.orderId
          then db.payments[k].(status := Success, txnId := Some(payload.txnId), responseData := Some(payload.raw))
          else db.payments[k]
  {
    var order := db.payments[PaymentByOrder(db, payload.orderId).value];
    if DecodePurchase(order.description) != CreditPurchase(None) {
      assert HandleCallback(db, payload, true, env).db.payments == UpdateOrder(db.payments, payload.orderId,
        (p: Payment) => p.(status := Success, txnId := Some(payload.txnId), responseData := Some(payload.raw)));
    }
  }

  /** A plan purchase rewrites exactly the owner's subscriptions and no
      user. */
  lemma PlanSettles(db: Db, payload: CallbackPayload, env: Env)
    requires payload.status == TxnSuccess
    requires PaymentByOrder(db, payload.orderId).Some?
    requires db.payments[PaymentByOrder(db, payload.orderId).value].status == Pending
    requires DecodePurchase(db.payments[PaymentByOrder(db, payload.orderId).value].description).PlanPurchase?
    ensures var order := db.payments[PaymentByOrder(db, payload.orderId).value];
      var r := HandleCallback(db, payload, true, env);
      && r.redirect == SuccessPage
      && r.db.users == db.users
      && |r.db.subscriptions| == |db.subscriptions|
      && forall k :: 0 <= k < |db.subscriptions| ==>
           r.db.subscriptions[k] == if db.subscriptions[k].userId == order.userId
             then db.subscriptions[k].(status := Active, planId := DecodePurchase(order.description).planId,
                                       periodEnd := Some(env.monthFromNow))
             else db.subscriptions[k]
  {
    var order := db.payments[PaymentByOrder(db, payload.orderId).value];
    var plan := DecodePurchase(order.description).planId;
    assert HandleCallback(db, payload, true, env).db.subscriptions == UpdateWhere(db.subscriptions,
      (s: Subscription) => s.userId == order.userId,
      (s: Subscription) => s.(status := Active, planId := plan, periodEnd := Some(env.monthFromNow)));
  }

  /** A credit purchase with a number adds it to exactly the owner's rows
      and touches no subscription. */
  lemma CreditsSettle(db: Db, payload: CallbackPayload, env: Env)
    requires payload.status == TxnSuccess
    requires PaymentByOrder(db, payload.orderId).Some?
    requires db.payments[PaymentByOrder(db, payload.orderId).value].status == Pending
    requires DecodePurchase(db.payments[PaymentByOrder(db, payload.orderId).value].description).CreditPurchase?
    requires DecodePurchase(db.payments[PaymentByOrder(db, payload.orderId).value].description).credits.Some?
    ensures var order := db.payments[PaymentByOrder(db, payload.orderId).value];
      var r := HandleCallback(db, payload, true, env);
      && r.redirect == SuccessPage
      && r.db.subscriptions == db.subscriptions
      && |r.db.users| == |db.users|
      && forall k :: 0 <= k < |db.users| ==>
           r.db.users[k] == if db.users[k].firebaseUid == Some(order.userId)
             then db.users[k].(credits := db.users[k].credits + DecodePurchase(order.description).credits.value)
             else db.users[k]
  {
    var order := db.payments[PaymentByOrder(db, payload.orderId).value];
    var n := DecodePurchase(order.description).credits.value;
    assert HandleCallback(db, payload, true, env).db.users == UpdateWhere(db.users,
      (u: UserRow) => u.firebaseUid == Some(order.userId), (u: UserRow) => u.(credits := u.credits + n));
  }

  /** The first success callback on a pending order marks it `success` with
      the gateway's transaction id and applies exactly one of: the plan
      activation (credits untouched) or the credit top-up (subscriptions
      untouched).  Payments of other orders, other users and other users'
      subscriptions stay as they were. */
  lemma FirstSuccessSettles(db: Db, payload: CallbackPayload, env: Env)
    requires payload.status == TxnSuccess
    requires PaymentByOrder(db, payload.orderId).Some?
    requires db.payments[PaymentByOrder(db, payload.orderId).value].status == Pending
    ensures var i := PaymentByOrder(db, payload.orderId).value;
      var order := db.payments[i];
      var r := HandleCallback(db, payload, true, env);
      && (r.redirect == SuccessPage ==>
            && r.db.payments[i] == order.(status := Success, txnId := Some(payload.txnId), responseData := Some(payload.raw))
            && forall k :: 0 <= k < |db.payments| && db.payments[k].orderId != payload.orderId ==>
                 r.db.payments[k] == db.payments[k])
      && (DecodePurchase(order.description).PlanPurchase? ==>
            && r.redirect == SuccessPage
            && r.db.users == db.users
            && |r.db.subscriptions| == |db.subscriptions|
            && forall k :: 0 <= k < |db.subscriptions| ==>
                 r.db.subscriptions[k] == if db.subscriptions[k].userId == order.userId
                   then db.subscriptions[k].(status := Active, planId := DecodePurchase(order.description).planId,
                                             periodEnd := Some(env.monthFromNow))
                   else db.subscriptions[k])
      && (DecodePurchase(order.description) == CreditPurchase(None) ==> r == CallbackResult(db, FailurePage))
      && (DecodePurchase(order.description).CreditPurchase? && DecodePurchase(order.description).credits.Some? ==>
            && r.redirect == SuccessPage
            && r.db.subscriptions == db.subscriptions
            && |r.db.users| == |db.users|
            && forall k :: 0 <= k < |db.users| ==>
                 r.db.users[k] == if db.users[k].firebaseUid == Some(order.userId)
                   then db.users[k].(credits := db.users[k].credits + DecodePurchase(order.description).credits.value)
                   else db.users[k])
  {
    var i := PaymentByOrder(db, payload.orderId).value;
    SuccessWritesOrderRows(db, payload, env);
    match DecodePurchase(db.payments[i].description)
    case PlanPurchase(_) => PlanSettles(db, payload, env);
    case CreditPurchase(None) =>
    case CreditPurchase(Some(_)) => CreditsSettle(db, payload, env);
  }

  /** A failure callback marks the order `failed` even after it succeeded,
      and the credits the success granted stay granted. */
  lemma FailureAfterSuccessFlipsStatus(db: Db, orderId: string, env: Env)
    requires PaymentByOrder(db, orderId).Some?
    requires DecodePurchase(db.payments[PaymentByOrder(db, orderId).value].description).CreditPurchase?
    requires db.payments[PaymentByOrder(db, orderId).value].status == Pending
    requires DecodePurchase(db.payments[PaymentByOrder(db, orderId).value].description).credits.Some?
    ensures var i := PaymentByOrder(db, orderId).value;
      var paid := HandleCallback(db, CallbackPayload(orderId, TxnSuccess, "T1", "ok"), true, env).db;
      var flipped := HandleCallback(paid, CallbackPayload(orderId, "TXN_FAILURE", "", "failed"), true, env).db;
      && paid.payments[i].status == Success
      && flipped.payments[i].status == Failed
      && flipped.users == paid.users
  {
  }
}
