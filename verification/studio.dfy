/** The studio controller: the plan entitlement check, the concept request,
    and the generation transaction that debits credits.

    `GenerateImages` is one database transaction.  The user row is read
    `FOR UPDATE`, which serialises transactions of the same user, so the
    transaction is modelled as one atomic transition; an `Err` result leaves
    the store as it was (the `ROLLBACK`).  The image generator is an input:
    one `ShotResult` per shot of the concept.
 */
module Studio {
  import opened Wrappers
  import opened Store
  import JsText

  /** The backend's `EditType.Ecommerce`. */
  const EcommerceStyle := "E-Commerce"
  /** The plan id the entitlement check treats as the baseline plan. */
  const StarterPlan := "starter"

  const Unauthorized := AppError("Unauthorized", 401)
  const NoActiveSubscription := AppError("No active subscription found.", 403)
  const StarterStyleOnly :=
    AppError("Your current plan only supports the E-Commerce style. Please upgrade to unlock more styles.", 403)
  const ImageRequired := AppError("Original image with file type is required", 400)
  const ConceptNeedsVerifiedEmail := AppError("Please verify your email to generate concepts.", 403)
  const FieldsRequired := AppError("Image, concept, and category are required", 400)
  const UserNotFound := AppError("User not found.", 404)
  const GenerateNeedsVerifiedEmail := AppError("Please verify your email to generate images.", 403)
  const NotEnoughCredits := AppError("Not enough credits to perform this generation.", 402)
  const NoImagesReturned := AppError("The model did not return any images. Your credits were not used.", 500)

  /** The uploaded image: `""` stands for a missing `base64` or file type. */
  datatype SourceImage = SourceImage(base64: string, fileType: string)

  /** A creative concept: a theme and one description per shot. */
  datatype Concept = Concept(theme: string, shots: seq<string>)

  /** What the image generator did for one shot: it failed (the promise
      rejected), or it returned these images. */
  datatype ShotResult = ShotFailed | ShotImages(images: seq<Image>)

  /** The body of a generation request; `""` stands for a missing category. */
  datatype GenerateRequest = GenerateRequest(
    image: Option<SourceImage>,
    concept: Option<Concept>,
    category: string,
    style: Option<string>,
    customPrompt: string,
    includeModel: bool)

  /** A committed generation: the new store, the images sent back and the
      `newCredits` field of the response. */
  datatype Generated = Generated(db: Db, images: seq<Image>, newCredits: int)

  /** The body of a concept request; `imageCount` is the raw text sent. */
  datatype ConceptRequest = ConceptRequest(
    image: Option<SourceImage>,
    style: Option<string>,
    imageCount: string,
    customPrompt: string,
    includeModel: bool)

  /** A concept response, with the shot count the concept generator was
      asked for. */
  datatype ConceptReply = ConceptReply(category: string, concept: Concept, requestedShots: int)

  // ---------------------------------------------------------------------
  // Entitlement

  /** The plan id of the user's first active subscription row, if there is
      one (the inner `None` is a `NULL` plan id). */
  function ActivePlan(db: Db, uid: string): (r: Option<Option<string>>)
    ensures r.Some? <==> exists j :: (0 <= j < |db.subscriptions|
      && db.subscriptions[j].userId == uid && db.subscriptions[j].status == Active)
    // the plan of the first such row
    ensures r.Some? ==> exists j :: (0 <= j < |db.subscriptions|
      && db.subscriptions[j].userId == uid && db.subscriptions[j].status == Active
      && r.value == db.subscriptions[j].planId
      && forall k :: 0 <= k < j ==> !(db.subscriptions[k].userId == uid && db.subscriptions[k].status == Active))
  {
    match ActiveSubscription(db, uid)
    case None => None
    case Some(j) => Some(db.subscriptions[j].planId)
  }

  /** The entitlement check: a signed-in user with an active subscription may
      use every style, except that the starter plan allows only E-Commerce.
      It reads the store and writes nothing. */
  function CheckPlanPermissions(db: Db, uid: string, style: Option<string>): (r: Outcome)
    ensures r.Fail? ==> r.error.status == 401 || r.error.status == 403
    ensures r == Fail(Unauthorized) <==> uid == ""
    ensures r == Fail(NoActiveSubscription) <==> uid != "" && ActivePlan(db, uid).None?
    ensures r.Pass? <==> (uid != "" && ActivePlan(db, uid).Some?
      && (ActivePlan(db, uid).value == Some(StarterPlan) ==> style == Some(EcommerceStyle)))
  {
    if uid == "" then Fail(Unauthorized)
    else
      match ActivePlan(db, uid)
      case None => Fail(NoActiveSubscription)
      case Some(plan) =>
        if plan == Some(StarterPlan) && style != Some(EcommerceStyle) then Fail(StarterStyleOnly)
        else Pass
  }

  // ---------------------------------------------------------------------
  // Concept

  /** `parseInt(imageCount, 10) || 6`: the shot count the concept generator
      is asked for; `NaN` and `0` fall back to 6. */
  function RequestedShotCount(imageCount: string): (n: int)
    ensures n != 0
  {
    match JsText.ParseInt(imageCount, JsText.Radix10)
    case Some(k) => if k != 0 then k else 6
    case None => 6
  }

  /** A count the client sends as text reaches the concept generator as the
      same number; text without digits becomes 6. */
  lemma RequestedShotCountOfText(n: int, junk: string)
    requires n != 0
    requires forall i :: 0 <= i < |junk| ==> !JsText.IsDecimalDigit(junk[i])
    ensures RequestedShotCount(JsText.IntToString(n)) == n
    ensures RequestedShotCount(junk) == 6
  {
    JsText.ParseIntOfIntToString(n, JsText.Radix10);
    NoDigitsNoNumber(junk);
  }

  lemma {:induction false} NoDigitsNoNumber(s: string)
    requires forall i :: 0 <= i < |s| ==> !JsText.IsDecimalDigit(s[i])
    ensures JsText.ParseInt(s, JsText.Radix10).None?
  {
    var t := JsText.TrimStart(s);
    var signed := |t| > 0 && (t[0] == '-' || t[0] == '+');
    var u := if signed then t[1..] else t;
    assert |u| > 0 ==> u[0] == s[|s| - |u|];
  }

  /** The image check of the concept request: a base64 text and a file
      type. */
  predicate ImagePresent(image: Option<SourceImage>) {
    image.Some? && image.value.base64 != "" && image.value.fileType != ""
  }

  /** The concept request: it validates the image, checks the plan, then the
      verified flag, and only then calls the two generators (`category`, the
      classifier's answer, and `generated`, the concept generator's answer,
      `None` when it threw).  It writes nothing. */
  function GetConcept(db: Db, uid: string, req: ConceptRequest, category: string,
                      generated: Option<Concept>): (r: Result<ConceptReply>)
    ensures !ImagePresent(req.image) ==> r == Err(ImageRequired)
    ensures r.Ok? ==> CheckPlanPermissions(db, uid, req.style).Pass?
    ensures r.Ok? ==> UserByUid(db, uid).Some? && db.users[UserByUid(db, uid).value].verified
    ensures r.Ok? ==> generated == Some(r.value.concept) && r.value.category == category
    ensures r.Ok? ==> r.value.requestedShots == RequestedShotCount(req.imageCount)
    ensures r.Ok? <==> (ImagePresent(req.image) && CheckPlanPermissions(db, uid, req.style).Pass?
      && UserByUid(db, uid).Some? && db.users[UserByUid(db, uid).value].verified && generated.Some?)
  {
    if !ImagePresent(req.image) then
      Err(ImageRequired)
    else
      match CheckPlanPermissions(db, uid, req.style)
      case Fail(e) => Err(e)
      case Pass =>
        var u := UserByUid(db, uid);
        if u.None? || !db.users[u.value].verified then Err(ConceptNeedsVerifiedEmail)
        else
          match generated
          case None => Err(InternalError)
          case Some(c) => Ok(ConceptReply(category, c, RequestedShotCount(req.imageCount)))
  }

  /** The concept request's checks in order: image (400), plan (401/403),
      verified flag (403, also for a missing user row), and a generator that
      throws (500). */
  lemma GetConceptGuardOrder(db: Db, uid: string, req: ConceptRequest, category: string,
                             generated: Option<Concept>)
    ensures ImagePresent(req.image) && CheckPlanPermissions(db, uid, req.style).Fail? ==>
      GetConcept(db, uid, req, category, generated) == Err(CheckPlanPermissions(db, uid, req.style).error)
    ensures (ImagePresent(req.image) && CheckPlanPermissions(db, uid, req.style).Pass?
      && (UserByUid(db, uid).None? || !db.users[UserByUid(db, uid).value].verified)) ==>
      GetConcept(db, uid, req, category, generated) == Err(ConceptNeedsVerifiedEmail)
    ensures (ImagePresent(req.image) && CheckPlanPermissions(db, uid, req.style).Pass?
      && UserByUid(db, uid).Some? && db.users[UserByUid(db, uid).value].verified && generated.None?) ==>
      GetConcept(db, uid, req, category, generated) == Err(InternalError)
  {
  }

  // ---------------------------------------------------------------------
  // Generation

  /** `resultsArray.flat()`: the images of every shot, in shot order. */
  function Flatten(results: seq<ShotResult>): seq<Image>
  {
    if |results| == 0 then []
    else (if results[0].ShotImages? then results[0].images else []) + Flatten(results[1..])
  }

  /** Flattening appends each further shot's images at the end, so the
      result lists shot 0's images, then shot 1's, and so on. */
  lemma {:induction false} FlattenAppend(results: seq<ShotResult>, last: ShotResult)
    ensures Flatten(results + [last]) == Flatten(results) + (if last.ShotImages? then last.images else [])
  {
    if |results| == 0 {
      assert results + [last] == [last];
    } else {
      var all := results + [last];
      var head := if results[0].ShotImages? then results[0].images else [];
      var tail := if last.ShotImages? then last.images else [];
      assert all[0] == results[0];
      assert all[1..] == results[1..] + [last];
      FlattenAppend(results[1..], last);
      assert Flatten(all) == head + (Flatten(results[1..]) + tail);
      assert Flatten(results) == head + Flatten(results[1..]);
    }
  }

  /** The number of images is the sum over the shots. */
  function ImageCount(results: seq<ShotResult>): nat
  {
    if |results| == 0 then 0
    else (if results[0].ShotImages? then |results[0].images| else 0) + ImageCount(results[1..])
  }

  lemma {:induction false} FlattenLength(results: seq<ShotResult>)
    ensures |Flatten(results)| == ImageCount(results)
  {
    if |results| > 0 {
      FlattenLength(results[1..]);
    }
  }

  /** The generator throws rather than return no image, so when every shot
      succeeded the flattened output is empty exactly when there were no
      shots. */
  lemma {:induction false} FlattenEmptyOnlyWithoutShots(results: seq<ShotResult>)
    requires forall k :: 0 <= k < |results| ==> results[k].ShotImages? && |results[k].images| > 0
    ensures |Flatten(results)| == 0 <==> |results| == 0
  {
    if |results| > 0 {
      assert |Flatten(results)| >= |results[0].images|;
    }
  }

  predicate AnyShotFailed(results: seq<ShotResult>) {
    exists k :: 0 <= k < |results| && results[k].ShotFailed?
  }

  predicate MissingFields(req: GenerateRequest) {
    req.image.None? || req.image.value.base64 == "" || req.concept.None? || req.category == ""
  }

  /** Every check the generation makes before it calls the generator; the
      cost is the number of shots in the concept. */
  predicate GuardsPass(db: Db, uid: string, req: GenerateRequest) {
    && uid != "" && !MissingFields(req) && CheckPlanPermissions(db, uid, req.style).Pass?
    && UserByUid(db, uid).Some? && db.users[UserByUid(db, uid).value].verified
    && db.users[UserByUid(db, uid).value].credits >= |req.concept.value.shots|
  }

  /** The debit: `UPDATE users SET credits = credits - cost WHERE firebase_uid = uid`. */
  function Debit(users: seq<UserRow>, uid: string, cost: int): (r: seq<UserRow>)
    ensures |r| == |users|
    ensures forall i :: 0 <= i < |users| && users[i].firebaseUid == Some(uid) ==>
      r[i] == users[i].(credits := users[i].credits - cost)
    ensures forall i :: 0 <= i < |users| && users[i].firebaseUid != Some(uid) ==> r[i] == users[i]
  {
    UpdateWhere(users, (u: UserRow) => u.firebaseUid == Some(uid), (u: UserRow) => u.(credits := u.credits - cost))
  }

  /** The generation transaction.  The guards run in the source's order:
      signed in (401), fields present (400), plan (401/403), user row (404),
      verified (403), balance against the cost, which is the number of shots
      (402).  Then the generator runs; a failed shot (500) or an empty output
      (500) rolls back.  Otherwise one history record is inserted and the
      user is debited the cost, whatever the number of images returned. */
  function GenerateImages(db: Db, uid: string, req: GenerateRequest, results: seq<ShotResult>, env: Env)
    : (r: Result<Generated>)
    requires req.concept.Some? ==> |results| == |req.concept.value.shots|
    // it commits exactly when the guards pass and the generator delivers
    ensures r.Ok? <==> GuardsPass(db, uid, req) && !AnyShotFailed(results) && |Flatten(results)| > 0
    ensures GuardsPass(db, uid, req) && AnyShotFailed(results) ==> r == Err(InternalError)
    ensures GuardsPass(db, uid, req) && !AnyShotFailed(results) && |Flatten(results)| == 0 ==>
      r == Err(NoImagesReturned)
    ensures r.Ok? ==> !MissingFields(req) && CheckPlanPermissions(db, uid, req.style).Pass?
    ensures r.Ok? ==> UserByUid(db, uid).Some?
    ensures r.Ok? ==>
      var i := UserByUid(db, uid).value;
      var cost := |req.concept.value.shots|;
      && db.users[i].verified
      && db.users[i].credits >= cost
      && r.value.newCredits == db.users[i].credits - cost
      && r.value.db.users == Debit(db.users, uid, cost)
    ensures r.Ok? ==>
      && r.value.images == Flatten(results)
      && |r.value.images| > 0
      && !AnyShotFailed(results)
      && r.value.db.history == db.history + [GenerationRecord(env.rowId, uid, req.concept.value.theme,
                                                              req.image.value.base64, r.value.images, env.now)]
      && r.value.db.subscriptions == db.subscriptions
      && r.value.db.payments == db.payments
      && r.value.db.plans == db.plans
  {
    if uid == "" then Err(Unauthorized)
    else if MissingFields(req) then Err(FieldsRequired)
    else
      var cost := |req.concept.value.shots|;
      match CheckPlanPermissions(db, uid, req.style)
      case Fail(e) => Err(e)
      case Pass =>
        match UserByUid(db, uid)
        case None => Err(UserNotFound)
        case Some(i) =>
          if !db.users[i].verified then Err(GenerateNeedsVerifiedEmail)
          else if db.users[i].credits < cost then Err(NotEnoughCredits)
          else if AnyShotFailed(results) then Err(InternalError)
          else
            var images := Flatten(results);
            if |images| == 0 then Err(NoImagesReturned)
            else
              var record := GenerationRecord(env.rowId, uid, req.concept.value.theme,
                                             req.image.value.base64, images, env.now);
              var users := Debit(db.users, uid, cost);
              Ok(Generated(db.(users := users, history := db.history + [record]), images, users[i].credits))
  }

  /** Every rejection except the two 500s is decided before the generator
      runs: its answer does not depend on what the generator would return. */
  lemma RejectionsPrecedeGenerator(db: Db, uid: string, req: GenerateRequest,
                                   results1: seq<ShotResult>, results2: seq<ShotResult>, env: Env)
    requires req.concept.Some? ==> |results1| == |req.concept.value.shots|
    requires req.concept.Some? ==> |results2| == |req.concept.value.shots|
    requires GenerateImages(db, uid, req, results1, env).Err?
    requires GenerateImages(db, uid, req, results1, env).error.status != 500
    ensures GenerateImages(db, uid, req, results2, env) == GenerateImages(db, uid, req, results1, env)
  {
  }

  /** The guards in order, each decided from the request and the store alone. */
  lemma GenerateGuardOrder(db: Db, uid: string, req: GenerateRequest, results: seq<ShotResult>, env: Env)
    requires req.concept.Some? ==> |results| == |req.concept.value.shots|
    ensures uid == "" ==> GenerateImages(db, uid, req, results, env) == Err(Unauthorized)
    ensures uid != "" && MissingFields(req) ==> GenerateImages(db, uid, req, results, env) == Err(FieldsRequired)
    ensures uid != "" && !MissingFields(req) && CheckPlanPermissions(db, uid, req.style).Fail? ==>
      GenerateImages(db, uid, req, results, env) == Err(CheckPlanPermissions(db, uid, req.style).error)
    ensures (uid != "" && !MissingFields(req) && CheckPlanPermissions(db, uid, req.style).Pass?
      && UserByUid(db, uid).None?) ==> GenerateImages(db, uid, req, results, env) == Err(UserNotFound)
    ensures (uid != "" && !MissingFields(req) && CheckPlanPermissions(db, uid, req.style).Pass?
      && UserByUid(db, uid).Some? && !db.users[UserByUid(db, uid).value].verified) ==>
      GenerateImages(db, uid, req, results, env) == Err(GenerateNeedsVerifiedEmail)
    ensures (uid != "" && !MissingFields(req) && CheckPlanPermissions(db, uid, req.style).Pass?
      && UserByUid(db, uid).Some? && db.users[UserByUid(db, uid).value].verified
      && db.users[UserByUid(db, uid).value].credits < |req.concept.value.shots|) ==>
      GenerateImages(db, uid, req, results, env) == Err(NotEnoughCredits)
  {
  }

  /** A starter user asking for another style is refused whatever the
      balance, the verified flag or the generator. */
  lemma StarterPlanDenied(db: Db, uid: string, req: GenerateRequest, results: seq<ShotResult>, env: Env)
    requires req.concept.Some? ==> |results| == |req.concept.value.shots|
    requires uid != "" && !MissingFields(req)
    requires ActivePlan(db, uid) == Some(Some(StarterPlan))
    requires req.style != Some(EcommerceStyle)
    ensures GenerateImages(db, uid, req, results, env) == Err(StarterStyleOnly)
  {
  }

  /** An empty generator output commits nothing; a non-empty one is billed
      the number of shots, not the number of images. */
  lemma BilledByShotsNotImages(db: Db, uid: string, req: GenerateRequest, results: seq<ShotResult>, env: Env)
    requires req.concept.Some? ==> |results| == |req.concept.value.shots|
    requires GenerateImages(db, uid, req, results, env).Ok?
    ensures var i := UserByUid(db, uid).value;
      GenerateImages(db, uid, req, results, env).value.db.users[i].credits
        == db.users[i].credits - |req.concept.value.shots|
  {
  }

  /** A generation keeps every balance non-negative and keeps uids unique. */
  lemma GeneratePreservesInvariants(db: Db, uid: string, req: GenerateRequest, results: seq<ShotResult>, env: Env)
    requires req.concept.Some? ==> |results| == |req.concept.value.shots|
    requires CreditsNonNegative(db) && UniqueUids(db)
    requires GenerateImages(db, uid, req, results, env).Ok?
    ensures CreditsNonNegative(GenerateImages(db, uid, req, results, env).value.db)
    ensures UniqueUids(GenerateImages(db, uid, req, results, env).value.db)
  {
    var g := GenerateImages(db, uid, req, results, env).value;
    var i := UserByUid(db, uid).value;
    forall j | 0 <= j < |g.db.users|
      ensures g.db.users[j].credits >= 0
    {
      if db.users[j].firebaseUid == Some(uid) {
        assert j == i;
      }
    }
  }
}
