/** The studio page and its controls panel on the client: the credit
    estimate, the guards in front of the two API calls, the starter-plan
    style reset, the balance update after a generation, and which style
    options and main button the panel shows.

    The page state the handlers read is a `Session`; each handler's effect
    is a `Step`: nothing, a notification (possibly with a move to the
    pricing page), or one API request.
 */
module Client {
  import opened Wrappers
  import opened JsText
  import opened Catalog
  import Auth
  import Studio
  import Store

  // ---------------------------------------------------------------------
  // Credit estimate

  /** `getMinImageCount` on a count string: `parseInt` of the first digit
      run, or 6 when there is none. */
  function MinCountOf(countString: string): (n: nat)
    ensures FirstDigitRun(countString).None? ==> n == 6
    ensures FirstDigitRun(countString).Some? ==>
      ParseInt(FirstDigitRun(countString).value, Radix10) == Some(n)
  {
    match FirstDigitRun(countString)
    case None => 6
    case Some(ds) => ParseIntOfDigits(ds); DigitsValue(ds, 10)
  }

  /** The count an option costs on the client. */
  function MinImageCount(o: ImageCountOption): nat {
    MinCountOf(CountLabel(o))
  }

  /** A count string that starts with a number written out in decimal and
      continues with a non-digit is read as that number. */
  lemma MinCountOfLabel(k: nat, rest: string)
    requires |rest| > 0 ==> !IsDecimalDigit(rest[0])
    ensures MinCountOf(NatToString(k) + rest) == k
  {
    var s := NatToString(k) + rest;
    assert IsDecimalDigit(s[0]) by { assert s[0] == NatToString(k)[0]; }
    LeadingDigitsOfPrefix(NatToString(k), rest, 10);
    NatToStringValue(k);
  }

  /** Basic costs 6, Standard 8 and Premium 12. */
  lemma MinImageCountTable()
    ensures MinImageCount(Basic) == 6
    ensures MinImageCount(Standard) == 8
    ensures MinImageCount(Premium) == 12
  {
    CountLabelDigits();
    MinCountOfLabel(6, " images");
    MinCountOfLabel(8, "-10 images");
    MinCountOfLabel(12, "-15 images");
  }

  /** The count the client sends as text is the count the server asks the
      concept generator for. */
  lemma ConceptRequestKeepsCount(o: ImageCountOption)
    ensures Studio.RequestedShotCount(IntToString(MinImageCount(o))) == MinImageCount(o)
  {
    MinImageCountTable();
    match o
    case Basic => Studio.RequestedShotCountOfText(6, "");
    case Standard => Studio.RequestedShotCountOfText(8, "");
    case Premium => Studio.RequestedShotCountOfText(12, "");
  }

  predicate HasEnoughCredits(user: Option<Auth.UserPayload>, need: int) {
    user.Some? && user.value.credits >= need
  }

  /** `user?.is_verified ?? false`. */
  predicate IsVerified(user: Option<Auth.UserPayload>) {
    user.Some? && user.value.verified
  }

  // ---------------------------------------------------------------------
  // Handlers

  /** The page state the handlers read; `category` is `None` for a missing
      or empty category. */
  datatype Session = Session(
    user: Option<Auth.UserPayload>,
    image: Option<Studio.SourceImage>,
    concept: Option<Studio.Concept>,
    category: Option<string>,
    editType: EditType,
    imageCount: ImageCountOption,
    customPrompt: string,
    includeModel: bool)

  datatype Step =
    | Silent
    | Notify(message: string)
    | NotifyToPricing(message: string)
    | PostConcept(conceptBody: Studio.ConceptRequest)
    | PostGenerate(generateBody: Studio.GenerateRequest)

  const VerifyForConcepts := "Please verify your email to generate concepts."
  const UploadFirst := "Please upload an image first."
  const VerifyForImages := "Please verify your email to generate images."
  const ConceptFirst := "Please generate a concept first."

  function NeedCreditsToIdeate(n: int): string {
    "You need " + IntToString(n) + " credits. Please purchase more."
  }

  function NeedCreditsToGenerate(n: int): string {
    "You need " + IntToString(n) + " credits for this generation."
  }

  predicate HasCategory(s: Session) {
    s.category.Some? && s.category.value != ""
  }

  /** The page's image as a JSON request body carries it: the base64 text
      and a `File` object, which serialises to `{}`, so the server reads
      no file type. */
  function Serialized(img: Studio.SourceImage): (r: Studio.SourceImage)
    ensures r.base64 == img.base64 && r.fileType == ""
  {
    Studio.SourceImage(img.base64, "")
  }

  /** `handleIdeate`. */
  function HandleIdeate(s: Session): (r: Step)
    // a request goes out exactly when every guard passes
    ensures r.PostConcept? <==>
      (s.user.Some? && IsVerified(s.user) && s.image.Some? && HasEnoughCredits(s.user, MinImageCount(s.imageCount)))
    // the guards in order: signed in, verified, image, balance
    ensures s.user.None? ==> r == Silent
    ensures s.user.Some? && !IsVerified(s.user) ==> r == Notify(VerifyForConcepts)
    ensures IsVerified(s.user) && s.image.None? ==> r == Notify(UploadFirst)
    ensures IsVerified(s.user) && s.image.Some? && !HasEnoughCredits(s.user, MinImageCount(s.imageCount)) ==>
      r.NotifyToPricing?
    // the request asks the server for the count the client charged for
    ensures r.PostConcept? ==>
      (Studio.RequestedShotCount(r.conceptBody.imageCount) == MinImageCount(s.imageCount)
      && r.conceptBody.style == Some(EditTypeValue(s.editType))
      && r.conceptBody.image.Some? && r.conceptBody.image.value.base64 == s.image.value.base64)
  {
    var n := MinImageCount(s.imageCount);
    if s.user.None? then Silent
    else if !IsVerified(s.user) then Notify(VerifyForConcepts)
    else if s.image.None? then Notify(UploadFirst)
    else if !HasEnoughCredits(s.user, n) then NotifyToPricing(NeedCreditsToIdeate(n))
    else
      ConceptRequestKeepsCount(s.imageCount);
      PostConcept(Studio.ConceptRequest(Some(Serialized(s.image.value)), Some(EditTypeValue(s.editType)), IntToString(n),
                                        s.customPrompt, s.includeModel))
  }

  /** `handleGenerate`. */
  function HandleGenerate(s: Session): (r: Step)
    ensures r.PostGenerate? <==>
      (s.user.Some? && IsVerified(s.user) && s.image.Some? && s.concept.Some? && HasCategory(s)
      && HasEnoughCredits(s.user, MinImageCount(s.imageCount)))
    ensures s.user.None? ==> r == Silent
    ensures s.user.Some? && !IsVerified(s.user) ==> r == Notify(VerifyForImages)
    ensures IsVerified(s.user) && (s.image.None? || s.concept.None? || !HasCategory(s)) ==> r == Notify(ConceptFirst)
    ensures (IsVerified(s.user) && s.image.Some? && s.concept.Some? && HasCategory(s)
      && !HasEnoughCredits(s.user, MinImageCount(s.imageCount))) ==> r.NotifyToPricing?
    // what passes the client's guards also passes the server's field check
    ensures r.PostGenerate? && s.image.value.base64 != "" ==> !Studio.MissingFields(r.generateBody)
    ensures r.PostGenerate? ==> r.generateBody.concept == s.concept
    ensures r.PostGenerate? ==> r.generateBody.image.Some? && r.generateBody.image.value.base64 == s.image.value.base64
  {
    var n := MinImageCount(s.imageCount);
    if s.user.None? then Silent
    else if !IsVerified(s.user) then Notify(VerifyForImages)
    else if s.image.None? || s.concept.None? || !HasCategory(s) then Notify(ConceptFirst)
    else if !HasEnoughCredits(s.user, n) then NotifyToPricing(NeedCreditsToGenerate(n))
    else
      PostGenerate(Studio.GenerateRequest(Some(Serialized(s.image.value)), s.concept, s.category.value, Some(EditTypeValue(s.editType)),
                                          s.customPrompt, s.includeModel))
  }

  /** Every concept request the page sends is refused with 400: the body
      never carries a file type, whatever the server's store, classifier or
      concept generator would say. */
  lemma IdeateRequestRefused(db: Store.Db, s: Session, category: string, generated: Option<Studio.Concept>)
    requires HandleIdeate(s).PostConcept?
    ensures Studio.GetConcept(db, s.user.value.id, HandleIdeate(s).conceptBody, category, generated)
      == Err(Studio.ImageRequired)
  {
  }

  /** The client checks the balance against the option's count, the server
      against the number of shots in the concept it is sent.  A request the
      client lets through (balance at least the estimate) is refused with
      402 whenever the concept has more shots than the balance, even when
      the server's copy of the balance is the client's. */
  lemma ServerChargesShotsNotEstimate(db: Store.Db, s: Session, results: seq<Studio.ShotResult>, env: Store.Env)
    requires HandleGenerate(s).PostGenerate? && s.image.value.base64 != ""
    requires s.user.value.id != ""
    requires |results| == |s.concept.value.shots|
    requires Studio.CheckPlanPermissions(db, s.user.value.id, Some(EditTypeValue(s.editType))).Pass?
    requires Store.UserByUid(db, s.user.value.id).Some?
    requires db.users[Store.UserByUid(db, s.user.value.id).value].verified
    requires db.users[Store.UserByUid(db, s.user.value.id).value].credits == s.user.value.credits
    ensures s.user.value.credits >= MinImageCount(s.imageCount)
    ensures |s.concept.value.shots| > s.user.value.credits ==>
      Studio.GenerateImages(db, s.user.value.id, HandleGenerate(s).generateBody, results, env)
        == Err(Studio.NotEnoughCredits)
  {
  }

  // ---------------------------------------------------------------------
  // Effects on the page state

  /** The starter-plan effect: a user whose plan id is `'starter'` and who
      has another style selected is moved back to E-Commerce, with a
      notification (the second component). */
  function StarterReset(user: Option<Auth.UserPayload>, e: EditType): (r: (EditType, bool))
    ensures r.1 <==> user.Some? && user.value.planId == Some(Studio.StarterPlan) && e != Ecommerce
    ensures r.1 ==> r.0 == Ecommerce
    ensures !r.1 ==> r.0 == e
  {
    if user.Some? && user.value.planId == Some(Studio.StarterPlan) && e != Ecommerce then (Ecommerce, true)
    else (e, false)
  }

  /** After the reset, a user the server sees on the starter plan holds a
      style the server's entitlement check accepts, and a second run of the
      effect changes nothing. */
  lemma StarterResetAgreesWithServer(db: Store.Db, user: Auth.UserPayload, e: EditType)
    requires user.id != "" && user.planId == Some(Studio.StarterPlan)
    requires Studio.ActivePlan(db, user.id) == Some(Some(Studio.StarterPlan))
    ensures Studio.CheckPlanPermissions(db, user.id, Some(EditTypeValue(StarterReset(Some(user), e).0))).Pass?
    ensures !StarterReset(Some(user), StarterReset(Some(user), e).0).1
  {
  }

  /** `updateUser({ credits: newCredits })` when the response carries a
      number (`None` stands for anything else). */
  function ApplyNewCredits(user: Option<Auth.UserPayload>, newCredits: Option<int>): (r: Option<Auth.UserPayload>)
    ensures r.None? <==> user.None?
    ensures r.Some? && newCredits.Some? ==> r.value == user.value.(credits := newCredits.value)
    ensures r.Some? && newCredits.None? ==> r == user
  {
    if user.Some? && newCredits.Some? then Some(user.value.(credits := newCredits.value)) else user
  }

  /** After a committed generation, the balance the client shows is the
      balance the store holds. */
  lemma ClientBalanceTracksServer(db: Store.Db, user: Auth.UserPayload, req: Studio.GenerateRequest,
                                  results: seq<Studio.ShotResult>, env: Store.Env)
    requires req.concept.Some? ==> |results| == |req.concept.value.shots|
    requires Studio.GenerateImages(db, user.id, req, results, env).Ok?
    ensures var g := Studio.GenerateImages(db, user.id, req, results, env).value;
      var i := Store.UserByUid(db, user.id).value;
      ApplyNewCredits(Some(user), Some(g.newCredits)).value.credits == g.db.users[i].credits
  {
  }

  // ---------------------------------------------------------------------
  // Controls panel

  /** `userPlan === 'starter' || userPlan === Plan.Starter`. */
  predicate IsStarterPlan(userPlan: Option<string>) {
    userPlan == Some(Studio.StarterPlan) || userPlan == Some(PlanName(Starter))
  }

  datatype StyleOption = StyleOption(value: EditType, text: string, disabled: bool)

  /** The style selector's options, in enum order. */
  function StyleOptions(userPlan: Option<string>): (r: seq<StyleOption>)
    ensures |r| == |EditTypes|
    ensures forall i :: 0 <= i < |r| ==> r[i].value == EditTypes[i] && r[i].text == EditTypeValue(EditTypes[i])
    // on a starter plan only E-Commerce can be picked; otherwise everything
    ensures forall i :: 0 <= i < |r| ==> (r[i].disabled <==> IsStarterPlan(userPlan) && r[i].value != Ecommerce)
  {
    seq(|EditTypes|, i requires 0 <= i < |EditTypes| =>
      StyleOption(EditTypes[i], EditTypeValue(EditTypes[i]), IsStarterPlan(userPlan) && EditTypes[i] != Ecommerce))
  }

  /** For the plan id the server stores, `'starter'`, an option is enabled
      exactly when the server's entitlement check would accept its style.
      The capitalised `'Starter'` is starter to the client only: it
      disables an option the server accepts. */
  lemma StyleOptionsAgainstServer(db: Store.Db, uid: string, i: nat)
    requires uid != "" && i < |EditTypes|
    ensures Studio.ActivePlan(db, uid) == Some(Some(Studio.StarterPlan)) ==>
      (!StyleOptions(Some(Studio.StarterPlan))[i].disabled <==>
        Studio.CheckPlanPermissions(db, uid, Some(EditTypeValue(EditTypes[i]))).Pass?)
    ensures Studio.ActivePlan(db, uid) == Some(Some(PlanName(Starter))) ==>
      (StyleOptions(Some(PlanName(Starter)))[1].disabled
        && Studio.CheckPlanPermissions(db, uid, Some(EditTypeValue(EditTypes[1]))).Pass?)
  {
    EditTypeTable();
  }

  datatype MainAction = IdeateAction | GenerateAction

  datatype MainButton = MainButton(action: MainAction, text: string, disabled: bool)

  /** The panel's main button. */
  function MainButtonOf(hasConcept: bool, creditsNeeded: nat, isLoading: bool, isIdeating: bool,
                        isImageUploaded: bool, disabled: bool, isVerified: bool): (b: MainButton)
    ensures b.action == GenerateAction <==> hasConcept
    ensures b.disabled <==> isLoading || isIdeating || !isImageUploaded || disabled || !isVerified
    // an idle generate button names the number of images it will cost
    ensures !isLoading && !isIdeating && hasConcept ==> Contains(b.text, NatToString(creditsNeeded))
    ensures !isLoading && !isIdeating && !hasConcept ==> b.text == "Generate Concept"
  {
    var busy := isLoading || isIdeating;
    GenerateTextNamesCount(creditsNeeded);
    var text :=
      if busy then (if isIdeating then "Generating Concept..." else "Generating Images...")
      else if hasConcept then GenerateText(creditsNeeded)
      else "Generate Concept";
    MainButton(if hasConcept then GenerateAction else IdeateAction, text,
               busy || !isImageUploaded || disabled || !isVerified)
  }

  function GenerateText(n: nat): string {
    "Generate " + NatToString(n) + " Images"
  }

  lemma GenerateTextNamesCount(n: nat)
    ensures Contains(GenerateText(n), NatToString(n))
  {
    var d := NatToString(n);
    var t := GenerateText(n);
    assert t[9..9 + |d|] == d;
    assert OccursAt(t, d, 9);
  }

  /** The panel as the page wires it: costs from the selected option,
      disabled without a user, verified from the user. */
  function PanelButton(s: Session, isLoading: bool, isIdeating: bool): MainButton {
    MainButtonOf(s.concept.Some?, MinImageCount(s.imageCount), isLoading, isIdeating,
                 s.image.Some?, s.user.None?, IsVerified(s.user))
  }

  /** A click on the enabled button always gets past the sign-in,
      verification and image guards: what remains is the concept and the
      balance. */
  lemma EnabledButtonPassesLoginGuards(s: Session, isLoading: bool, isIdeating: bool)
    requires !PanelButton(s, isLoading, isIdeating).disabled
    ensures PanelButton(s, isLoading, isIdeating).action == IdeateAction ==>
      (HandleIdeate(s).PostConcept? || HandleIdeate(s).NotifyToPricing?)
    ensures PanelButton(s, isLoading, isIdeating).action == GenerateAction ==>
      (HandleGenerate(s).PostGenerate? || HandleGenerate(s).NotifyToPricing? || HandleGenerate(s) == Notify(ConceptFirst))
  {
  }
}
