# AI Photo Studio: credit ledger, payments and login, in Dafny

This project models the server core of AI Photo Studio and the client rules in
front of it. Signed-in users upload a product photo, ask for a creative
concept, and spend credits to have a set of studio shots generated. Credits
are bought as packs and plans through a payment gateway. The model covers:

- **The generation ledger** (`Studio`). It covers the plan entitlement check,
  the concept request, and the generation transaction. That transaction debits
  the number of shots in the concept and records one history entry.
- **Payments** (`Payment`). Order creation writes what was bought into the
  order's description. The gateway callback reads that description back to
  activate a plan or add credits.
- **Login** (`Auth`, `Passport`). These are the Firebase `getOrCreateUser`
  path and the Google OAuth strategy. Both create a user with a starter grant
  and a starter subscription.
- **The bearer-token middleware** (`Middleware`).
- **The two read-only history endpoints** (`Projections`, `Sorting`).
- **The client's tables and page rules** (`Catalog`, `Client`). These cover
  the credit estimate, the guards in front of each API call, the starter-plan
  style reset, the style selector and the main button.
- **The ledger as a whole** (`Ledger`). Every well-formed writing transaction
  (one whose pack order promises no negative count), applied in sequence,
  keeps no balance negative and every Firebase uid unique.

Supporting modules:

- `Store`: the PostgreSQL tables as immutable sequences of rows. A `SELECT`
  reads the first matching row; an `UPDATE ... WHERE` rewrites every matching
  row.
- `Wrappers`: `Option`, `Result` and `Outcome`. An `Err` from a transaction
  means `ROLLBACK`, so the store is left as it was.
- `JsText`: the JavaScript built-ins the code depends on. These are
  `parseInt` (whitespace, sign, `0x` auto-radix), `split(...)[0]`, `indexOf`,
  the `/(\w+)\sPlan/` match, `toLowerCase`, `String(n)` and `toFixed(2)` on
  paise.

Where something comes from outside, it is a parameter:

- the database clock and `NOW() + INTERVAL '1 month'`;
- fresh row ids and uuids (`Store.Env`);
- Firebase token verification;
- the Gemini classifier, concept generator and image generator;
- the gateway checksum verdict.

The model follows the code, including these behaviours:

- The failure branch of the callback does not check that the order is still
  pending. A late failure callback therefore marks a successful order
  `failed`, and the credits it granted stay granted.
- A success callback for an order that is no longer pending redirects to the
  success page and writes nothing.
- The checksum verdict is a parameter; the controller hardcodes it to true.
- The credit count of a pack order is taken from the client and never
  checked. It is any JSON value, rendered into the order's description, so a
  negative count is accepted, a count of `2.5` is credited as 2, and a count
  sent as the text `pro Plan` makes the callback activate the `pro` plan.
- The page posts its image as `{ file, base64 }` in a JSON body. A `File`
  serialises to `{}`, so the server never sees a file type, and it refuses
  every concept request with 400 (`Client.IdeateRequestRefused`).

## Model

| member | source | states |
|---|---|---|
| Wrappers.FirstIndex | backend/src/controllers/studio.controller.ts:17-21 | The row a query returns as `rows[0]`: the first row satisfying the condition; `None` exactly when no row satisfies it. |
| Wrappers.UpdateWhere | backend/src/controllers/studio.controller.ts:126-128 | An `UPDATE ... WHERE` rewrites every matching row, leaves every other row as it was, and keeps the row count. |
| Wrappers.Filter | backend/src/controllers/user.controller.ts:8-11 | A `WHERE` selection keeps exactly the matching rows: each matching row occurs in the result as often as in the table, and no other row occurs. |
| Store.UserByUid | backend/src/controllers/studio.controller.ts:82-86 | The user lookup by Firebase uid finds the first row with that uid; `None` exactly when no row has it. |
| Store.ActiveSubscription | backend/src/controllers/studio.controller.ts:17-23 | The entitlement query finds the user's first active subscription; `None` exactly when the user has none. |
| Store.SubscriptionOf | backend/src/controllers/auth.controller.ts:48-53 | The profile's subscription is the user's first subscription row of any status; `None` exactly when there is none. |
| Store.PaymentByOrder | backend/src/controllers/payment.controller.ts:90-91 | The callback locks the first payment with the gateway's order id; `None` exactly when no payment has it. |
| Store.PlanById | backend/src/controllers/payment.controller.ts:18-22 | A plan order looks its plan up by id; `None` exactly when no plan has that id. |
| Store.InvariantsUnderInsert | backend/src/controllers/auth.controller.ts:22-34 | Inserting a user row with a non-negative balance and an unused (or absent) uid keeps balances non-negative and uids unique. |
| JsText.DigitVal | backend/src/controllers/payment.controller.ts:109 | A character's digit value is below 36, and below 10 exactly for a decimal digit. |
| JsText.IndexOf | backend/src/middleware/auth.middleware.ts:14 | The search finds the leftmost occurrence at or after the start; `None` means there is no occurrence at all. |
| JsText.SplitHead | backend/src/controllers/payment.controller.ts:109 | `split(sep)[0]` is the text up to the first separator: a prefix in which no separator starts, followed by a separator unless it is the whole text. |
| JsText.DecimalChar | backend/src/controllers/payment.controller.ts:65 | Each digit value is written as a decimal digit that reads back as that value. |
| JsText.NatToString | backend/src/controllers/payment.controller.ts:65 | A number's decimal text is non-empty and made of decimal digits. |
| JsText.IntToString | frontend/src/StudioPage.tsx:97 | `String(n)` is never empty. |
| JsText.NatToStringValue | frontend/src/StudioPage.tsx:97 | A number's decimal text reads back as the number, and it has no leading zero except for 0. |
| JsText.LeadingDigits | backend/src/controllers/payment.controller.ts:109 | `parseInt` reads the longest prefix of valid digits: every character of it is a digit, and the character after it is not. |
| JsText.LeadingDigitsOfDigits | backend/src/controllers/payment.controller.ts:109 | A text made only of digits is read whole. |
| JsText.LeadingDigitsOfPrefix | frontend/src/StudioPage.tsx:65-66 | Digits followed by a non-digit are read up to the non-digit and no further. |
| JsText.TrimStart | backend/src/controllers/studio.controller.ts:54 | `parseInt` skips leading whitespace: the result is a suffix of the input, everything dropped is whitespace, and the result does not start with whitespace. |
| JsText.ParseIntUnsigned | backend/src/controllers/payment.controller.ts:109 | `parseInt` on text starting with a digit is its unsigned reading. |
| JsText.ParseIntNegative | backend/src/controllers/payment.controller.ts:109 | `parseInt` on a minus sign followed by a digit run gives the negated value. |
| JsText.ParseMagnitudeOfNat | backend/src/controllers/payment.controller.ts:109 | The unsigned reading of a number's decimal text is the number, in radix 10 and with auto-radix. |
| JsText.ParseMagnitudeOfDigits | frontend/src/StudioPage.tsx:66 | The unsigned radix-10 reading of a digit run is that run's value. |
| JsText.ParseIntOfDigits | frontend/src/StudioPage.tsx:66 | `parseInt(digits, 10)` is the value of the digits. |
| JsText.ParseIntOfNatString | backend/src/controllers/studio.controller.ts:54 | `parseInt(String(m))` is m for every natural m. |
| JsText.ParseIntOfNegatedString | backend/src/controllers/payment.controller.ts:109 | `parseInt("-" + String(m))` is -m. |
| JsText.ParseIntOfIntToString | backend/src/controllers/payment.controller.ts:109 | `parseInt` inverts `String` for every integer, in radix 10 and with auto-radix. |
| JsText.FirstDigitRun | frontend/src/StudioPage.tsx:65 | `/(\d+)/` captures the maximal digit run that starts at the text's first digit; no match exactly when the text has no digit. |
| JsText.WordRunEnd | backend/src/controllers/payment.controller.ts:103 | `\w+` extends over word characters and stops before the first non-word character. |
| JsText.PlanWordFrom | backend/src/controllers/payment.controller.ts:103 | `/(\w+)\sPlan/` captures the word run at the leftmost position where a word run is followed by whitespace and `Plan`; `None` exactly when no position matches. |
| JsText.ToLowerAscii | backend/src/controllers/payment.controller.ts:103 | `toLowerCase` on the ASCII capture maps each upper-case letter to its lower-case one and keeps everything else. |
| JsText.TwoDigitsValue | backend/src/controllers/payment.controller.ts:65 | The two decimal places read back as the paise they encode. |
| JsText.PointSplit | backend/src/controllers/payment.controller.ts:65 | Rupees, a point and two digits split back into the rupees and the two digits. |
| JsText.UnsignedPaiseOf | backend/src/controllers/user.controller.ts:17 | `whole.ff` reads back as `whole * 100 + ff` paise. |
| JsText.UnsignedRupeesRoundTrip | backend/src/controllers/user.controller.ts:17 | A non-negative paise amount formatted with two decimals reads back as the same amount. |
| JsText.ParsePaiseNegated | backend/src/controllers/user.controller.ts:17 | A minus sign in front of a rupee amount negates it. |
| JsText.FormatPaiseRoundTrip | backend/src/controllers/payment.controller.ts:65 | `(amount / 100).toFixed(2)` loses nothing: reading the text back gives the integer paise amount, negative amounts included. |
| Studio.ActivePlan | backend/src/controllers/studio.controller.ts:17-23 | The user has an active plan exactly when some subscription row of theirs is active, and the plan is that of the first such row. |
| Studio.CheckPlanPermissions | backend/src/controllers/studio.controller.ts:12-29 | 401 exactly without a user; 403 "no subscription" exactly without an active subscription; otherwise it passes unless the plan is starter and the style is not E-Commerce. |
| Studio.RequestedShotCount | backend/src/controllers/studio.controller.ts:54 | `parseInt(imageCount, 10) \|\| 6` is never 0. |
| Studio.RequestedShotCountOfText | backend/src/controllers/studio.controller.ts:54 | A non-zero count sent as text reaches the generator unchanged; text without digits becomes 6. |
| Studio.NoDigitsNoNumber | backend/src/controllers/studio.controller.ts:54 | Text with no decimal digit is `NaN` to `parseInt`. |
| Studio.GetConcept | backend/src/controllers/studio.controller.ts:32-62 | A missing image, base64 text or file type is a 400. A concept is returned exactly when the image is present, the plan check passes, the user is verified and the generator answers. It is the generator's concept, with the shot count requested from the text. |
| Studio.GetConceptGuardOrder | backend/src/controllers/studio.controller.ts:36-57 | After the image check, the concept request fails the plan check with its error, then with the 403 for an unverified or missing user, then with the generic 500 when the generator throws. |
| Studio.FlattenAppend | backend/src/controllers/studio.controller.ts:113-114 | Flattening distributes over concatenation of shot results. |
| Studio.FlattenLength | backend/src/controllers/studio.controller.ts:113-114 | The flattened output's length is the sum of the shots' image counts. |
| Studio.FlattenEmptyOnlyWithoutShots | backend/src/controllers/studio.controller.ts:113-118 | When every shot returned an image, the output is empty exactly when there were no shots. |
| Studio.Debit | backend/src/controllers/studio.controller.ts:126-129 | The debit lowers the balance of every row with the uid by the cost and leaves every other row as it was. |
| Studio.GenerateImages | backend/src/controllers/studio.controller.ts:65-141 | It commits exactly when every guard passes (fields, plan, user row, verified, a balance of at least the shot count), no shot failed and some image came back. Once the guards pass, a failed shot is the generic 500 and an empty output is the "no images" 500. On commit the new balance is the old one minus the shot count, exactly one history record with the flattened images is appended, and subscriptions, payments and plans are untouched. |
| Studio.RejectionsPrecedeGenerator | backend/src/controllers/studio.controller.ts:67-93 | Every rejection other than a 500 is the same whatever the generator returns. |
| Studio.GenerateGuardOrder | backend/src/controllers/studio.controller.ts:67-93 | The guards fire in the source's order: 401, 400, plan, 404, 403, 402. Each is decided by the request and the store alone. |
| Studio.StarterPlanDenied | backend/src/controllers/studio.controller.ts:26-28 | A starter user asking for a non-E-Commerce style gets the 403, whatever their balance, verification or generator output. |
| Studio.BilledByShotsNotImages | backend/src/controllers/studio.controller.ts:74 | A committed generation debits the number of shots, not the number of images returned. |
| Studio.GeneratePreservesInvariants | backend/src/controllers/studio.controller.ts:88-93 | A generation keeps every balance non-negative and every uid unique. |
| Payment.NumericPackHasNoPlan | backend/src/controllers/payment.controller.ts:26-27 | A pack description whose count text is made of digits, signs and points never contains `Plan`, so the callback does not read it as a plan. |
| Payment.PackDescriptionHead | backend/src/controllers/payment.controller.ts:109 | The first space-separated word of a pack description is the count's text, whenever that text has no space. |
| Payment.PackRoundTrip | backend/src/controllers/payment.controller.ts:26-27 | For every integer count, negative ones included, the callback decodes the pack description to exactly that count. |
| Payment.WordRunOverWord | backend/src/controllers/payment.controller.ts:103 | `\w+` at the start of a plan description covers exactly the plan name. |
| Payment.FractionalPackTruncates | backend/src/controllers/payment.controller.ts:26-27 | A fractional count `n.f` is credited as its integer part `n`. |
| Payment.ParseFraction | backend/src/controllers/payment.controller.ts:109 | `parseInt` of `n.f` stops at the point and reads `n`. |
| Payment.WordPlanDecodes | backend/src/controllers/payment.controller.ts:102-103 | Any description that starts with a word, a space and `Plan` buys the plan that word names, lower-cased. |
| Payment.PlanTextBuysPlan | backend/src/controllers/payment.controller.ts:26-27 | A pack order whose credits field is the text `<word> Plan` is read by the callback as a purchase of that plan. |
| Payment.PlanDescriptionIsPlan | backend/src/controllers/payment.controller.ts:24 | Every plan description is read by the callback as a plan, never as a credit count. |
| Payment.PlanRoundTrip | backend/src/controllers/payment.controller.ts:24 | For a one-word plan name, the callback decodes the plan description to the lower-cased name. |
| Payment.PlanOrder | backend/src/controllers/payment.controller.ts:22-24 | A plan order charges the plan's yearly or monthly price under a description that the callback reads as a plan, and as this plan when its name is one word. |
| Payment.PackOrder | backend/src/controllers/payment.controller.ts:25-27 | A pack order charges the amount in whole rupees as paise, under a description that the callback reads back as the count when the count is an integer. |
| Payment.PriceOrder | backend/src/controllers/payment.controller.ts:17-30 | 404 for an unknown plan id; 400 without a plan id unless the amount and credits are both truthy; it succeeds exactly otherwise. A plan is charged its yearly or monthly price and decodes as a plan, as that plan for one-word names. A pack is charged the amount in whole rupees, converted to paise, and an integer count decodes back to itself. |
| Payment.CreateOrder | backend/src/controllers/payment.controller.ts:9-72 | It succeeds exactly when pricing does. It appends exactly one pending payment with the `ORDER_` id and changes nothing else. The amount sent to the gateway reads back as the priced paise. |
| Payment.UpdateOrder | backend/src/controllers/payment.controller.ts:98-100 | The callback's update rewrites every payment with the order id and no other. |
| Payment.HandleCallback | backend/src/controllers/payment.controller.ts:75-130 | An invalid checksum marks exactly the rows with the order id `failed`. A non-success status marks them `failed` and stores the payload. Both redirect to failure, leave every other payment, the users and the subscriptions alone. A success redirect implies a valid checksum and a success status. No callback changes an order id, a description or the number of payments. |
| Payment.CallbackIdempotent | backend/src/controllers/payment.controller.ts:75-130 | Delivering the same callback twice has the effect of delivering it once, on every branch and at any time. |
| Payment.OrderIndexStable | backend/src/controllers/payment.controller.ts:87-91 | Rewriting payments without changing order ids keeps the row an order id finds. |
| Payment.PendingOrderSettled | backend/src/controllers/payment.controller.ts:93-100 | After a success callback settles a pending order, the same order id finds the same row, now `success`. |
| Payment.SuccessCallbackIdempotent | backend/src/controllers/payment.controller.ts:87-115 | A second success callback for an order changes nothing: a repeated gateway notification never credits twice. |
| Payment.SettledOrderUntouched | backend/src/controllers/payment.controller.ts:93-96 | A success callback on an order that is no longer pending writes nothing and redirects to success. |
| Payment.FirstSuccessSettles | backend/src/controllers/payment.controller.ts:98-111 | The first success marks the order `success` with the gateway's transaction id and leaves payments of other orders alone. A plan description rewrites the owner's subscriptions to the decoded plan until a month from now, and changes no other subscription and no user. A pack description adds the decoded credits to the owner's rows, and changes no other user and no subscription. A pack description without a number rolls everything back. |
| Payment.SuccessWritesOrderRows | backend/src/controllers/payment.controller.ts:98-100 | A committed first success marks every row with the order id `success` with the gateway's transaction id and payload, and no other payment row. |
| Payment.PlanSettles | backend/src/controllers/payment.controller.ts:102-107 | A plan purchase redirects to success, leaves the users alone and rewrites exactly the owner's subscriptions to the decoded plan until a month from now. |
| Payment.CreditsSettle | backend/src/controllers/payment.controller.ts:108-111 | A pack purchase with a number redirects to success, leaves the subscriptions alone and adds the decoded count to exactly the owner's user rows. |
| Payment.FailureAfterSuccessFlipsStatus | backend/src/controllers/payment.controller.ts:116-121 | A failure callback after a success marks the order `failed` and leaves the credits granted. |
| Sorting.Insert | backend/src/controllers/user.controller.ts:9 | Inserting into a newest-first list keeps it newest first and adds exactly that row. |
| Sorting.SortNewestFirst | backend/src/controllers/history.controller.ts:9 | `ORDER BY created_at DESC` returns a permutation of the rows with non-increasing timestamps. |
| Sorting.SameElements | backend/src/controllers/history.controller.ts:9 | Reordering rows neither loses nor invents one. |
| Auth.StatusText | backend/src/controllers/auth.controller.ts:48-53 | The status text is `"active"` exactly for an active subscription. |
| Auth.NewUserRow | backend/src/controllers/auth.controller.ts:24-27 | A first login stores the token's uid, email and verified flag with 5 credits, and names the user "New User" when the token has no name. |
| Auth.EnsureUser | backend/src/controllers/auth.controller.ts:17-45 | After the upsert the user's row exists, carries the token's verified flag, and payments, plans and history are untouched. |
| Auth.GetOrCreateUser | backend/src/controllers/auth.controller.ts:7-77 | A 400 exactly when the uid or email is missing. A first login inserts the user and an active starter subscription. A returning login changes only the verified flag, and only when it was stale. The profile describes the user's own row. The plan and status come from the user's first subscription row; without one it reports starter/inactive. |
| Auth.LoginIdempotent | backend/src/controllers/auth.controller.ts:17-45 | A second login with the same token writes nothing. |
| Auth.LoginPreservesInvariants | backend/src/controllers/auth.controller.ts:17-45 | Every login keeps balances non-negative and uids unique. |
| Passport.FirstEmail | backend/src/services/passport.service.ts:20 | The email used is the profile's first, or none. |
| Passport.NewGoogleUser | backend/src/services/passport.service.ts:46-51 | A Google-created user is verified, has 5 credits, the Google id and provider, the first email, and no Firebase uid. |
| Passport.GoogleVerify | backend/src/services/passport.service.ts:17-69 | No email is the only error, the generic 500. A known Google id logs in and writes nothing. Otherwise a known email is linked on every row with that email and nothing else changes. Otherwise exactly one verified user and one active starter subscription are inserted. |
| Passport.GoogleLoginSettles | backend/src/services/passport.service.ts:29-34 | After any successful Google login, the same profile logs in again without writing. |
| Passport.SubscriptionKeyedByRowId | backend/src/services/passport.service.ts:53-56 | A Google-created user has no Firebase uid, and its starter subscription is found by the new row's id. |
| Passport.GoogleVerifyPreservesInvariants | backend/src/services/passport.service.ts:28-59 | The Google strategy keeps balances non-negative and Firebase uids unique. |
| Middleware.BearerToken | backend/src/middleware/auth.middleware.ts:14 | `split('Bearer ')[1]` is the text after the prefix, up to the next prefix or the end, and contains no prefix. |
| Middleware.OccursInSlice | backend/src/middleware/auth.middleware.ts:14 | An occurrence inside a slice is an occurrence in the whole header. |
| Middleware.Authenticate | backend/src/middleware/auth.middleware.ts:7-23 | A 401 "no token" exactly when the header is missing or lacks the prefix, and then the verifier is never called. Otherwise the verifier is called once with the token; the request gets its identity, or a 401 "invalid token" exactly when it rejects. |
| Middleware.ClientHeaderRoundTrip | backend/src/middleware/auth.middleware.ts:10-22 | A header `Bearer <token>` hands exactly that token to the verifier, and authenticates exactly when the verifier accepts it. |
| Projections.PaymentAmountReadsBack | backend/src/controllers/user.controller.ts:17 | The listed amount reads back as the stored paise amount. |
| Projections.PaymentItems | backend/src/controllers/user.controller.ts:13-18 | One history item per row, in row order. |
| Projections.HistoryItems | backend/src/controllers/history.controller.ts:14-20 | One history item per generation record, in row order. |
| Projections.SettledRows | backend/src/controllers/user.controller.ts:8-11 | The payment-history rows are exactly the user's successful payments, each as often as it is stored. |
| Projections.PaymentHistory | backend/src/controllers/user.controller.ts:6-23 | The payment history is newest first, has one entry per selected row, and holds exactly the items of the user's successful payments. |
| Projections.PaymentHistorySound | backend/src/controllers/user.controller.ts:8-18 | Every payment-history entry is one of the user's successful payments. |
| Projections.PaymentHistoryComplete | backend/src/controllers/user.controller.ts:8-18 | Every successful payment of the user appears in the history. |
| Projections.OwnGenerations | backend/src/controllers/history.controller.ts:8-11 | The generation-history rows are exactly the user's generations, each as often as it is stored. |
| Projections.GenerationHistory | backend/src/controllers/history.controller.ts:6-26 | The generation history is newest first, has one entry per selected row, and holds exactly the items of the user's generations. |
| Projections.GenerationHistorySound | backend/src/controllers/history.controller.ts:8-20 | Every generation-history entry is one of the user's generations. |
| Projections.GenerationHistoryComplete | backend/src/controllers/history.controller.ts:8-20 | Every generation of the user appears in the history. |
| Projections.NewGenerationListed | backend/src/controllers/studio.controller.ts:120-123 | A committed generation appears in its user's history. |
| Catalog.EditTypeOf | frontend/src/types.ts:1-6 | A style string names the style whose value it is; `None` exactly when no style has that value. |
| Catalog.EditTypeTable | frontend/src/types.ts:1-25 | There are four styles, each listed once, with distinct values that read back to the style. The E-Commerce value is the one the server's starter check compares against. |
| Catalog.CountLabel | frontend/src/types.ts:33-46 | Every count label starts with a digit. |
| Catalog.CountLabelDigits | frontend/src/types.ts:33-46 | The labels start with 6, 8 and 12, followed by a non-digit. |
| Catalog.AllowanceField | frontend/src/types.ts:126 | The stored credits field is -1 exactly for an unlimited plan and never below -1. |
| Catalog.AllowanceOf | frontend/src/types.ts:126 | A credits field is an allowance exactly when it is at least -1, and the allowance writes back as the same field. |
| Catalog.AllowanceRoundTrip | frontend/src/types.ts:126 | Writing an allowance with the -1 sentinel and reading it back is the identity. |
| Catalog.PlanDetailsOf | frontend/src/types.ts:85-135 | Each plan carries its own name, and only Enterprise is unlimited. |
| Catalog.StarterMatchesBackend | frontend/src/types.ts:86-96 | The Starter plan's 5 credits are the grant both login paths give. Its display name is not the server's plan id, but lower-casing it gives that id. |
| Catalog.CreditPackLabels | frontend/src/types.ts:145-165 | Every pack has a positive count and price, and its per-credit label is its price divided by its count. |
| Catalog.CatalogPackOrders | frontend/src/types.ts:145-165 | Ordering a catalogue pack charges its price in paise. The callback credits exactly the pack's count. |
| Client.MinCountOf | frontend/src/StudioPage.tsx:63-67 | The estimate is the first number in the count label, or 6 when there is none. |
| Client.MinCountOfLabel | frontend/src/StudioPage.tsx:63-67 | A label starting with a number followed by a non-digit estimates that number. |
| Client.MinImageCountTable | frontend/src/StudioPage.tsx:63-67 | Basic is estimated at 6, Standard at 8 and Premium at 12. |
| Client.ConceptRequestKeepsCount | frontend/src/StudioPage.tsx:97 | The count the client sends as text is the count the server asks the concept generator for. |
| Client.Serialized | frontend/src/StudioPage.tsx:94-95 | The posted image keeps its base64 text and carries no file type. |
| Client.HandleIdeate | frontend/src/StudioPage.tsx:73-110 | A concept request is sent exactly when the user is signed in, verified, has an image and has enough credits. The guards fire in that order. The request carries the selected style and the image's base64 text, and asks for the count the client estimated. |
| Client.IdeateRequestRefused | frontend/src/StudioPage.tsx:94-100 | Every concept request the page sends is refused with the server's 400 for a missing file type, whatever the store or the generators would say. |
| Client.HandleGenerate | frontend/src/StudioPage.tsx:112-145 | A generation request is sent exactly when the user is signed in and verified, with an image, concept and category, and enough credits. The guards fire in that order. The request carries the concept and the image's base64 text, and one sent with image data passes the server's field check. |
| Client.ServerChargesShotsNotEstimate | frontend/src/StudioPage.tsx:69-70 | The client checks the balance against its estimate, but the server checks it against the concept's shots. A request the client lets through is refused with 402 when the concept has more shots than the balance. |
| Client.StarterReset | frontend/src/StudioPage.tsx:45-50 | The reset fires exactly for a user on the `starter` plan id with a style other than E-Commerce, and moves to E-Commerce; otherwise the style stays. |
| Client.StarterResetAgreesWithServer | frontend/src/StudioPage.tsx:45-50 | After the reset, a starter user's style passes the server's entitlement check, and running the effect again changes nothing. |
| Client.ApplyNewCredits | frontend/src/StudioPage.tsx:154-156 | A numeric `newCredits` replaces the shown balance and changes nothing else; anything else leaves the user as is. |
| Client.ClientBalanceTracksServer | frontend/src/StudioPage.tsx:149-156 | After a committed generation, the balance the client shows is the balance the store holds. |
| Client.StyleOptions | frontend/src/ControlsPanel.tsx:118-124 | One option per style in enum order, titled with its value. An option is disabled exactly on a starter plan for a style other than E-Commerce. |
| Client.StyleOptionsAgainstServer | frontend/src/ControlsPanel.tsx:118-124 | For the stored plan id `starter`, an option is enabled exactly when the server would accept its style. For `Starter`, the client disables a style the server accepts. |
| Client.MainButtonOf | frontend/src/ControlsPanel.tsx:113-116 | With a concept the button generates, otherwise it ideates. It is disabled exactly when busy, without an image, disabled by the page, or unverified. An idle generate button names the count it will cost. |
| Client.GenerateTextNamesCount | frontend/src/ControlsPanel.tsx:114 | The generate text contains the count of images. |
| Client.EnabledButtonPassesLoginGuards | frontend/src/ControlsPanel.tsx:191 | A click on the enabled button always gets past the sign-in, verification and image guards. |
| Ledger.CallbackUsersGrow | backend/src/controllers/payment.controller.ts:108-111 | When no order promises a negative count, a callback never lowers a balance or changes a uid. |
| Ledger.CallbackPreservesValid | backend/src/controllers/payment.controller.ts:75-130 | Every callback keeps the ledger invariant. |
| Ledger.PacksUnderAppend | backend/src/controllers/payment.controller.ts:35-38 | Appending an order that promises no negative count keeps every order's promise non-negative. |
| Ledger.CountOrderWellFormed | backend/src/controllers/payment.controller.ts:25-27 | A pack order with an integer count is well-formed exactly when the count is not negative. |
| Ledger.CreateOrderPreservesValid | backend/src/controllers/payment.controller.ts:9-72 | Creating an order for a plan or a pack whose description promises no negative count keeps the ledger invariant. |
| Ledger.ApplyPreservesValid | backend/src/controllers/payment.controller.ts:75-130 | Every well-formed transaction keeps the ledger invariant, committed or rolled back. |
| Ledger.ApplyAllPreservesValid | backend/src/controllers/studio.controller.ts:65-141 | Any sequence of well-formed logins, generations, orders and callbacks keeps every balance non-negative, every uid unique and every order's promise non-negative. |
| Ledger.FirstPackOrder | backend/src/controllers/payment.controller.ts:25-38 | A pack order on a database without payments inserts one pending row for the caller whose description decodes back to the ordered count. |
| Ledger.FirstPackPaid | backend/src/controllers/payment.controller.ts:108-111 | Paying that order adds the ordered count to the caller's balance and leaves every other user row unchanged. |
| Ledger.NegativePackLowersBalance | backend/src/controllers/payment.controller.ts:26-29 | A paid order for -10 credits takes a valid one-user database with a balance under 10 to a negative balance: the server trusts the client's count. |

## Left out

- Concurrency. `FOR UPDATE` serialises the transactions of one user or order, so each transaction is one atomic step.
- The Gemini calls (prompts, the classifier, the concept and image generators). Their outcomes are parameters.
- The gateway checksum. Its verdict is a parameter; the controller hardcodes it to true.
- The gateway request body and its signature (`paytmParams`). They are sent out and never read back.
- Firebase token verification. It is a function parameter of `Middleware.Authenticate`.
- Studio.GetConcept: the category classifier is taken to answer. When it throws, the request fails with the same 500 as a concept-generator failure; that path is not modelled separately.
- The clock, row ids and uuids. They are drawn from `Store.Env`.
- JavaScript numbers: a JSON number is a double, and the model treats `String(n)`, `amount * 100` and `toFixed(2)` as exact on integers. That matches the source below 2^53 only. From 2^53 `String(n)` prints the double's shortest round-trip digits (2^60 prints as "1152921504606847000"), and from 1e21 it prints exponent form; neither is modelled. Fractional rupee amounts are not modelled either. A fractional credit count is carried as its rendered text.
- Payment.PackRoundTrip: holds for every integer here. In the source a count of 2^53 or more is a rounded double, so its description decodes to that double's digits rather than the count the client meant.
- Payment.CreditsSettle: the `credits` column is unbounded here. In the source, `credits + $1` is bounded by the column's SQL type; the schema is not part of this model. A sum that overflows raises, the catch rolls the transaction back and the callback redirects to the failure page. The model instead commits and redirects to success.
- Ledger.FirstPackPaid: inherits both limits. Counts of 2^53 or more, and sums that overflow the `credits` column, are credited exactly here.
- A `NULL` `email_verified` claim. The token's flag is a boolean here.
- The order of rows that a `RETURNING` or an unordered `SELECT` gives. The model takes table order.
- Equal timestamps in the history queries. The database may order them either way. `Sorting.SortNewestFirst` promises only what the query promises: the same rows, newest first.
- Ledger.CreateOrderPreservesValid: requires the pack's description not to promise a negative count, because the server does not check it. `Ledger.NegativePackLowersBalance` shows what happens otherwise.
- Payment.CreateOrder: the amount is an integer number of rupees. An amount sent as text or as a fraction, which `amount * 100` coerces, is not modelled.
- A credits field holding an empty array, which is truthy but renders as empty text, is not modelled.
- Payment.PlanRoundTrip: proved only for one-word plan names. For a name with spaces, `(\w+)` captures only the last word before `Plan`.
- The error handler's JSON, routing, sessions, logging and the rest of the React UI (rendering, notifications' styling, progress simulation, downloads).
