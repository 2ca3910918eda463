/** The read-only history endpoints: a user's successful payments and a
    user's generations, newest first, in the shape the client renders.
 */
module Projections {
  import opened Wrappers
  import opened Store
  import opened JsText
  import opened Sorting

  /** One entry of `getPaymentHistory`; `amount` is rupees with two
      decimals. */
  datatype PaymentItem = PaymentItem(id: string, date: Instant, description: string, amount: string)

  /** One entry of `getHistory`. */
  datatype HistoryItem = HistoryItem(
    id: string,
    timestamp: Instant,
    theme: string,
    images: seq<Image>,
    originalImageBase64: string)

  predicate SettledBy(uid: string, p: Payment) {
    p.userId == uid && p.status == Success
  }

  function ToPaymentItem(p: Payment): PaymentItem {
    PaymentItem(p.id, p.createdAt, p.description, FormatPaise(p.amount))
  }

  /** The listed amount is the stored paise amount as rupees: reading it
      back gives the stored amount. */
  lemma PaymentAmountReadsBack(p: Payment)
    ensures ParsePaise(ToPaymentItem(p).amount) == Some(p.amount)
  {
    FormatPaiseRoundTrip(p.amount);
  }

  function ToHistoryItem(g: GenerationRecord): HistoryItem {
    HistoryItem(g.id, g.createdAt, g.theme, g.images, g.originalImage)
  }

  function PaymentItems(ps: seq<Payment>): (r: seq<PaymentItem>)
    ensures |r| == |ps| && forall i :: 0 <= i < |ps| ==> r[i] == ToPaymentItem(ps[i])
  {
    seq(|ps|, i requires 0 <= i < |ps| => ToPaymentItem(ps[i]))
  }

  function HistoryItems(gs: seq<GenerationRecord>): (r: seq<HistoryItem>)
    ensures |r| == |gs| && forall i :: 0 <= i < |gs| ==> r[i] == ToHistoryItem(gs[i])
  {
    seq(|gs|, i requires 0 <= i < |gs| => ToHistoryItem(gs[i]))
  }

  /** The rows `getPaymentHistory` selects: the user's successful payments. */
  function SettledRows(db: Db, uid: string): (r: seq<Payment>)
    ensures forall i :: 0 <= i < |r| ==> r[i] in db.payments && SettledBy(uid, r[i])
    ensures forall k :: 0 <= k < |db.payments| && SettledBy(uid, db.payments[k]) ==> db.payments[k] in r
    ensures forall p :: multiset(r)[p] == if SettledBy(uid, p) then multiset(db.payments)[p] else 0
  {
    Filter(db.payments, (p: Payment) => SettledBy(uid, p))
  }

  /** `getPaymentHistory`: the user's successful payments, newest first. */
  function PaymentHistory(db: Db, uid: string): (r: seq<PaymentItem>)
    ensures SortedDesc(r, (it: PaymentItem) => it.date)
    ensures |r| == |SettledRows(db, uid)|
    ensures multiset(r) == multiset(PaymentItems(SettledRows(db, uid)))
  {
    SortNewestFirst(PaymentItems(SettledRows(db, uid)), (it: PaymentItem) => it.date)
  }

  lemma SettledItemFromRow(db: Db, uid: string, x: PaymentItem)
    requires x in PaymentItems(SettledRows(db, uid))
    ensures exists k :: 0 <= k < |db.payments| && SettledBy(uid, db.payments[k]) && x == ToPaymentItem(db.payments[k])
  {
    var rows := SettledRows(db, uid);
    var items := PaymentItems(rows);
    var m :| 0 <= m < |items| && items[m] == x;
    var k :| 0 <= k < |db.payments| && db.payments[k] == rows[m];
  }

  /** Every entry of the payment history is one of the user's successful
      payments. */
  lemma PaymentHistorySound(db: Db, uid: string)
    ensures forall i :: 0 <= i < |PaymentHistory(db, uid)| ==>
      exists k :: (0 <= k < |db.payments| && SettledBy(uid, db.payments[k])
        && PaymentHistory(db, uid)[i] == ToPaymentItem(db.payments[k]))
  {
    var r := PaymentHistory(db, uid);
    forall i | 0 <= i < |r|
      ensures exists k :: 0 <= k < |db.payments| && SettledBy(uid, db.payments[k]) && r[i] == ToPaymentItem(db.payments[k])
    {
      assert r[i] in multiset(r);
      SettledItemFromRow(db, uid, r[i]);
    }
  }

  /** Every successful payment of the user is listed in the history. */
  lemma PaymentHistoryComplete(db: Db, uid: string)
    ensures forall k :: 0 <= k < |db.payments| && SettledBy(uid, db.payments[k]) ==>
      ToPaymentItem(db.payments[k]) in PaymentHistory(db, uid)
  {
    var rows := SettledRows(db, uid);
    var items := PaymentItems(rows);
    var r := PaymentHistory(db, uid);
    forall k | 0 <= k < |db.payments| && SettledBy(uid, db.payments[k])
      ensures ToPaymentItem(db.payments[k]) in r
    {
      var m :| 0 <= m < |rows| && rows[m] == db.payments[k];
      assert items[m] == ToPaymentItem(db.payments[k]);
    }
  }

  /** The rows `getHistory` selects: the user's generations. */
  function OwnGenerations(db: Db, uid: string): (r: seq<GenerationRecord>)
    ensures forall i :: 0 <= i < |r| ==> r[i] in db.history && r[i].userId == uid
    ensures forall k :: 0 <= k < |db.history| && db.history[k].userId == uid ==> db.history[k] in r
    ensures forall g :: multiset(r)[g] == if g.userId == uid then multiset(db.history)[g] else 0
  {
    Filter(db.history, (g: GenerationRecord) => g.userId == uid)
  }

  /** `getHistory`: the user's generations, newest first. */
  function GenerationHistory(db: Db, uid: string): (r: seq<HistoryItem>)
    ensures SortedDesc(r, (it: HistoryItem) => it.timestamp)
    ensures |r| == |OwnGenerations(db, uid)|
    ensures multiset(r) == multiset(HistoryItems(OwnGenerations(db, uid)))
  {
    SortNewestFirst(HistoryItems(OwnGenerations(db, uid)), (it: HistoryItem) => it.timestamp)
  }

  lemma OwnItemFromRow(db: Db, uid: string, x: HistoryItem)
    requires x in HistoryItems(OwnGenerations(db, uid))
    ensures exists k :: 0 <= k < |db.history| && db.history[k].userId == uid && x == ToHistoryItem(db.history[k])
  {
    var rows := OwnGenerations(db, uid);
    var items := HistoryItems(rows);
    var m :| 0 <= m < |items| && items[m] == x;
    var k :| 0 <= k < |db.history| && db.history[k] == rows[m];
  }

  /** Every entry of the generation history is one of the user's
      generations. */
  lemma GenerationHistorySound(db: Db, uid: string)
    ensures forall i :: 0 <= i < |GenerationHistory(db, uid)| ==>
      exists k :: (0 <= k < |db.history| && db.history[k].userId == uid
        && GenerationHistory(db, uid)[i] == ToHistoryItem(db.history[k]))
  {
    var r := GenerationHistory(db, uid);
    forall i | 0 <= i < |r|
      ensures exists k :: 0 <= k < |db.history| && db.history[k].userId == uid && r[i] == ToHistoryItem(db.history[k])
    {
      assert r[i] in multiset(r);
      OwnItemFromRow(db, uid, r[i]);
    }
  }

  /** Every generation of the user is listed in the history. */
  lemma GenerationHistoryComplete(db: Db, uid: string)
    ensures forall k :: 0 <= k < |db.history| && db.history[k].userId == uid ==>
      ToHistoryItem(db.history[k]) in GenerationHistory(db, uid)
  {
    var rows := OwnGenerations(db, uid);
    var items := HistoryItems(rows);
    var r := GenerationHistory(db, uid);
    forall k | 0 <= k < |db.history| && db.history[k].userId == uid
      ensures ToHistoryItem(db.history[k]) in r
    {
      var m :| 0 <= m < |rows| && rows[m] == db.history[k];
      assert items[m] == ToHistoryItem(db.history[k]);
    }
  }

  /** A generation that commits is listed in its user's history. */
  lemma NewGenerationListed(db: Db, g: GenerationRecord)
    ensures ToHistoryItem(g) in GenerationHistory(db.(history := db.history + [g]), g.userId)
  {
    var d := db.(history := db.history + [g]);
    assert d.history[|db.history|] == g;
    GenerationHistoryComplete(d, g.userId);
  }
}
