/** The client's fixed tables: the four image styles, the image-count
    options, the subscription plans and the credit packs, and how each
    agrees (or not) with the backend it talks to.
 */
module Catalog {
  import opened Wrappers
  import opened JsText
  import Studio
  import Auth
  import Passport
  import Payment
  import Store

  // ---------------------------------------------------------------------
  // Styles

  datatype EditType = Ecommerce | Lookbook | SocialMedia | Advertising

  /** The enum's values in declaration order (`Object.values(EditType)`). */
  const EditTypes: seq<EditType> := [Ecommerce, Lookbook, SocialMedia, Advertising]

  /** The string each style is sent to the server as. */
  function EditTypeValue(e: EditType): string {
    match e
    case Ecommerce => "E-Commerce"
    case Lookbook => "Catalog / Lookbook"
    case SocialMedia => "Social Media"
    case Advertising => "Advertising / Campaign"
  }

  /** The style a request string names, if any. */
  function EditTypeOf(s: string): (r: Option<EditType>)
    ensures r.Some? ==> EditTypeValue(r.value) == s
    ensures r.None? ==> forall e: EditType :: EditTypeValue(e) != s
  {
    if s == "E-Commerce" then Some(Ecommerce)
    else if s == "Catalog / Lookbook" then Some(Lookbook)
    else if s == "Social Media" then Some(SocialMedia)
    else if s == "Advertising / Campaign" then Some(Advertising)
    else None
  }

  /** Exactly four styles, each listed once, with distinct values that read
      back to the style; the E-Commerce value is the one the server's
      starter-plan check compares against. */
  lemma EditTypeTable()
    ensures |EditTypes| == 4
    ensures forall e: EditType :: e in EditTypes
    ensures forall i, j :: 0 <= i < j < |EditTypes| ==> EditTypeValue(EditTypes[i]) != EditTypeValue(EditTypes[j])
    ensures forall e: EditType :: EditTypeOf(EditTypeValue(e)) == Some(e)
    ensures EditTypeValue(Ecommerce) == Studio.EcommerceStyle
  {
    forall e: EditType ensures e in EditTypes {
      match e
      case Ecommerce => assert EditTypes[0] == e;
      case Lookbook => assert EditTypes[1] == e;
      case SocialMedia => assert EditTypes[2] == e;
      case Advertising => assert EditTypes[3] == e;
    }
  }

  // ---------------------------------------------------------------------
  // Image counts

  datatype ImageCountOption = Basic | Standard | Premium

  /** The `count` text of `IMAGE_COUNT_DETAILS`. */
  function CountLabel(o: ImageCountOption): (s: string)
    ensures |s| > 0 && IsDecimalDigit(s[0])
  {
    match o
    case Basic => "6 images"
    case Standard => "8-10 images"
    case Premium => "12-15 images"
  }

  /** Each count label starts with its smallest count, followed by a
      non-digit: 6, 8 and 12. */
  lemma CountLabelDigits()
    ensures CountLabel(Basic) == NatToString(6) + " images"
    ensures CountLabel(Standard) == NatToString(8) + "-10 images"
    ensures CountLabel(Premium) == NatToString(12) + "-15 images"
  {
    assert NatToString(12) == NatToString(1) + [DecimalChar(2)];
  }

  // ---------------------------------------------------------------------
  // Plans

  datatype PlanTier = Starter | Pro | Business | Enterprise

  /** A plan's generation allowance.  The table writes `-1` for "unlimited";
      here that sentinel is a variant of its own, never a balance. */
  datatype Allowance = Limited(count: nat) | Unlimited

  datatype PlanDetails = PlanDetails(name: string, price: string, allowance: Allowance, featured: bool)

  function PlanName(t: PlanTier): string {
    match t
    case Starter => "Starter"
    case Pro => "Pro"
    case Business => "Business"
    case Enterprise => "Enterprise"
  }

  /** `credits` as the table stores it, sentinel included. */
  function AllowanceField(a: Allowance): (n: int)
    ensures n >= -1
    ensures n == -1 <==> a.Unlimited?
  {
    match a
    case Limited(c) => c
    case Unlimited => -1
  }

  /** Reads a table `credits` value: `-1` is unlimited, any other negative
      number is not an allowance. */
  function AllowanceOf(n: int): (a: Option<Allowance>)
    ensures a.Some? <==> n >= -1
    ensures a.Some? ==> AllowanceField(a.value) == n
  {
    if n == -1 then Some(Unlimited) else if n >= 0 then Some(Limited(n)) else None
  }

  /** Writing an allowance with the sentinel and reading it back is the
      identity. */
  lemma AllowanceRoundTrip(x: Allowance)
    ensures AllowanceOf(AllowanceField(x)) == Some(x)
  {
  }

  function PlanDetailsOf(t: PlanTier): (d: PlanDetails)
    ensures d.name == PlanName(t)
    ensures d.allowance.Unlimited? <==> t == Enterprise
  {
    match t
    case Starter => PlanDetails(PlanName(t), "Free", Limited(5), false)
    case Pro => PlanDetails(PlanName(t), "\U{20B9}1,999", Limited(50), true)
    case Business => PlanDetails(PlanName(t), "\U{20B9}4,999", Limited(200), false)
    case Enterprise => PlanDetails(PlanName(t), "Custom", AllowanceOf(-1).value, false)
  }

  /** The Starter plan advertises the grant both login paths give a new
      user; its display name is not the plan id the server stores, though
      lower-casing it gives that id. */
  lemma StarterMatchesBackend()
    ensures PlanDetailsOf(Starter).allowance == Limited(Auth.InitialCredits)
    ensures PlanDetailsOf(Starter).allowance == Limited(Passport.InitialCredits)
    ensures PlanName(Starter) != Studio.StarterPlan
    ensures ToLowerAscii(PlanName(Starter)) == Studio.StarterPlan
  {
    assert ToLowerAscii(PlanName(Starter))[0] == 's';
  }

  // ---------------------------------------------------------------------
  // Credit packs

  /** A pack; `price` is in rupees. */
  datatype CreditPack = CreditPack(name: string, credits: int, price: int, pricePerCredit: string, featured: bool)

  const CreditPacks: seq<CreditPack> := [
    CreditPack("Refill", 50, 500, "\U{20B9}10 / credit", false),
    CreditPack("Creator", 150, 1200, "\U{20B9}8 / credit", true),
    CreditPack("Agency", 500, 3000, "\U{20B9}6 / credit", false)
  ]

  function PerCreditLabel(rupees: int): string {
    "\U{20B9}" + IntToString(rupees) + " / credit"
  }

  /** The property of one pack: a positive count and price, a whole number
      of rupees per credit, and that number as its label. */
  predicate LabelledPack(p: CreditPack) {
    p.credits > 0 && p.price > 0 && p.price % p.credits == 0
    && p.pricePerCredit == PerCreditLabel(p.price / p.credits)
  }

  /** Every pack has a positive count and price, and its price divides into
      a whole number of rupees per credit that is exactly its label. */
  lemma CreditPackLabels()
    ensures forall i :: 0 <= i < |CreditPacks| ==> LabelledPack(CreditPacks[i])
  {
    forall i | 0 <= i < |CreditPacks|
      ensures LabelledPack(CreditPacks[i])
    {
      if i == 0 {
        assert NatToString(10) == NatToString(1) + [DecimalChar(0)];
      } else if i == 1 {
        assert PerCreditLabel(8) == CreditPacks[1].pricePerCredit;
      } else {
        assert PerCreditLabel(6) == CreditPacks[2].pricePerCredit;
      }
    }
  }

  /** Buying a catalog pack orders `price * 100` paise under a description
      the callback decodes back to the pack's credit count. */
  lemma CatalogPackOrders(db: Store.Db, i: nat)
    requires i < |CreditPacks|
    ensures var req := Payment.OrderRequest("", false, CreditPacks[i].price, Payment.Count(CreditPacks[i].credits));
      && Payment.PriceOrder(db, req).Ok?
      && Payment.PriceOrder(db, req).value.0 == CreditPacks[i].price * 100
      && Payment.DecodePurchase(Payment.PriceOrder(db, req).value.1)
           == Payment.CreditPurchase(Some(CreditPacks[i].credits))
  {
    CreditPackLabels();
    Payment.PackRoundTrip(CreditPacks[i].credits);
  }
}
