# CraveCart core in Dafny

CraveCart is a home-kitchen meal marketplace. Kitchens register and submit their food-safety
(FSSAI) licence and identity documents. Admins verify kitchens, suspend them, and review
complaints and announcements. A verified kitchen publishes one meal per meal type and day, with
a total and a sold quantity. Customers prebook meals, cancel or set a payment method, toggle
favourite kitchens, rate kitchens and subscribe to weekly or monthly plans. The kitchen accepts
or rejects each prebooked order.

This project models the back end's handlers over the stored collections, plus the small pure
helpers they rely on:

- dates;
- e-mail normalisation and the admin allow-list;
- token extraction and role gating;
- upload naming;
- the redirect origin check;
- the error middleware;
- the front end's session store.

## Layout

- `store.dfy` — `Store.Db`, a class whose fields are the stored collections (kitchens, meals,
  orders, users, ratings, plans, subscriptions, complaints, announcements) and two id counters.
  - It has one method per handler.
  - Each method changes only the collections the handler writes.
  - Each is proved to leave them exactly as the handler's step function says and to answer as
    it does.
- `ledger.dfy` — the meal and order ledger.
  - `LedgerState` holds kitchens, meals, orders and the next id.
  - Step functions cover prebooking, cancelling, the payment method, the kitchen's decision, the
    meal upsert, the menu list and the orders dashboard.
  - The invariants are `WellFormed` (ids below the counter, one meal per slot, one kitchen per
    owner, orders that point at their kitchen's meals, valid kitchens) and `Consistent`. A
    meal's `soldQty` is consistent when it equals the quantity of its live orders (prebooked,
    accepted, fulfilled).
- `ledger_lemmas.dfy` — what those handlers promise: success conditions, exact effects,
  preservation of the invariants, and the counterexamples behind the findings below.
- `kitchen_profile.dfy` — kitchen registration, verification submission, location, daily
  limit, video-call and trial requests, ratings, and the analytics window.
- `admin_rules.dfy` — the admin gate, list limits, user status, kitchen and FSSAI decisions,
  location decision, video-call scheduling, trial result, suspension, complaints and
  announcements.
- `accounts.dfy` — role resolution, signup (e-mail and password patterns), reset-token checks
  and the safe redirect origin.
- `subscriptions.dfy` — the plan list with its default seeding, and subscribing.
- `favorites.dfy` — the favourite toggle.
- `auth.dfy` — token extraction, `requireAuth` (class `Request`) and `requireRole`.
- `admin_access.dfy` — the admin e-mail list.
- `uploads.dfy` — the MIME filter, stored file names and paths, and the file document.
- `dates.dfy` — `startOfDayUTC` and `parseDateOnlyUTC` over the ECMAScript day-number calendar.
  This includes `Date.UTC`'s reading of years 0–99 as 1900–1999 and its roll-over of
  out-of-range days.
- `error_middleware.dfy` — the error handler (class `ErrorObject`).
- `role_utils.dfy` — the front end's `localStorage` session (class `SessionStore`).
- Data modules:
  - `kitchen_model.dfy`, `meal_model.dfy`, `order_model.dfy` and `records.dfy` hold the
    documents and the schemas' enumerations. Each enumeration has a `Parse…` function proved to
    invert its `Name()`.
  - `js.dfy` holds request values as JavaScript sees them: truthiness, `Number(…)` and
    `String(…)`.
  - `strings.dfy` holds `trim`, `toLowerCase` (on ASCII letters only), `split`/`join` and decimal
    text.
  - `http.dfy` holds the `Option`/`Result` wrappers.

Ids are natural numbers handed out by a counter (an ObjectId stand-in). The clock is a parameter
`now`. The JWT verifier is a function parameter. Numbers in request bodies are integers.

## Model

| member | source | states |
|---|---|---|
| Store.Db.constructor | Backend/model/mealModel.js:35 | an empty database, which satisfies `Valid` (unique slots, one kitchen per owner) and `Consistent` |
| Store.Db.Prebook | Backend/controllers/orderRoutes.js:14-83 | the new collections and the answer are exactly `Ledger.Prebook`'s; a well-formed ledger stays well-formed; its other properties are the `LedgerLemmas.Prebook…` rows |
| Store.Db.Reserve | Backend/controllers/orderRoutes.js:43-79 | the daily count, the conditional `$inc` reservation and the order creation leave exactly `Ledger.Reserve`'s state and answer |
| Store.Db.Cancel | Backend/controllers/orderRoutes.js:100-115 | exactly `Ledger.Cancel`'s state and answer; keeps `WellFormed` |
| Store.Db.SetPaymentMethod | Backend/controllers/orderRoutes.js:118-137 | exactly `Ledger.SetPaymentMethod`'s state and answer; keeps `WellFormed` |
| Store.Db.DecideOrder | Backend/controllers/kitchenRoutes.js:424-458 | the decision as written: exactly `Ledger.Decide`'s state and answer; keeps `WellFormed` (not `Consistent`, see Findings) |
| Store.Db.DecideOrderFixed | Backend/controllers/kitchenRoutes.js:424-458 | the corrected decision: exactly `Ledger.DecideFixed`'s state and answer; keeps `WellFormed` |
| Store.Db.SaveMeal | Backend/controllers/kitchenRoutes.js:346-380 | exactly `Ledger.SaveMeal`'s state and answer; keeps `WellFormed` |
| Store.Db.Upsert | Backend/controllers/kitchenRoutes.js:363-376 | the `findOneAndUpdate` upsert on a parsed day: exactly `Ledger.Upsert`'s state and answer |
| Store.Db.Place | Backend/controllers/kitchenRoutes.js:363-376 | writing a slot: exactly `Ledger.Place`'s state and answer |
| Store.Db.ListMenu | Backend/controllers/kitchenRoutes.js:382-396 | answers `Ledger.ListMenu` and changes nothing |
| Store.Db.OrdersDashboard | Backend/controllers/kitchenRoutes.js:399-421 | answers `Ledger.OrdersDashboard` and changes nothing |
| Store.Db.RegisterKitchen | Backend/controllers/kitchenRoutes.js:128-151 | the kitchens, the counter and the caller's role become `KitchenProfile.Register`'s result; the role turns to kitchen on success |
| Store.Db.SubmitVerification | Backend/controllers/kitchenRoutes.js:154-225 | exactly `KitchenProfile.SubmitVerification`'s state and answer |
| Store.Db.SetLocation | Backend/controllers/kitchenRoutes.js:228-258 | exactly `KitchenProfile.SetLocation`'s state and answer |
| Store.Db.Locate | Backend/controllers/kitchenRoutes.js:238-255 | exactly `KitchenProfile.Locate`'s state and answer for a normalised pincode |
| Store.Db.SetDailyOrderLimit | Backend/controllers/kitchenRoutes.js:312-331 | exactly `KitchenProfile.SetDailyOrderLimit`'s state and answer |
| Store.Db.RequestVideoCall | Backend/controllers/kitchenRoutes.js:261-277 | exactly `KitchenProfile.RequestVideoCall`'s state and answer |
| Store.Db.RequestTrialOrder | Backend/controllers/kitchenRoutes.js:280-294 | exactly `KitchenProfile.RequestTrialOrder`'s state and answer |
| Store.Db.Rate | Backend/controllers/kitchenRoutes.js:101-125 | the ratings become `KitchenProfile.Rate`'s |
| Store.Db.ToggleFavorite | Backend/controllers/favoriteRoutes.js:23-45 | the users become `Favorites.Toggle`'s |
| Store.Db.ListPlans | Backend/controllers/subscriptionRoutes.js:14-42 | the plans become `Subscriptions.ListPlans`'s, with the seeding |
| Store.Db.Subscribe | Backend/controllers/subscriptionRoutes.js:45-69 | the subscriptions become `Subscriptions.Subscribe`'s |
| Store.Db.SubscribeFrom | Backend/controllers/subscriptionRoutes.js:55-65 | the same for an already parsed start day |
| Store.Db.ResolveRole | Backend/controllers/userRoutes.js:17-34 | the users and the role are `Accounts.ResolveRole`'s |
| Store.Db.Signup | Backend/controllers/userRoutes.js:57-96 | the users become `Accounts.Signup`'s |
| Store.Db.SignupWith | Backend/controllers/userRoutes.js:79-92 | the same for an already checked e-mail |
| Store.Db.SetUserStatus | Backend/controllers/adminRoutes.js:97-114 | exactly `AdminRules.SetUserStatus`'s records and answer |
| Store.Db.DecideKitchen | Backend/controllers/adminRoutes.js:164-200 | exactly `AdminRules.DecideKitchen`'s state and answer |
| Store.Db.SetFssaiStatus | Backend/controllers/adminRoutes.js:203-233 | exactly `AdminRules.SetFssaiStatus`'s state and answer |
| Store.Db.DecideLocation | Backend/controllers/adminRoutes.js:236-253 | exactly `AdminRules.DecideLocation`'s state and answer |
| Store.Db.ScheduleVideoCall | Backend/controllers/adminRoutes.js:256-274 | exactly `AdminRules.ScheduleVideoCall`'s state and answer |
| Store.Db.SetTrialResult | Backend/controllers/adminRoutes.js:277-294 | exactly `AdminRules.SetTrialResult`'s state and answer |
| Store.Db.SuspendKitchen | Backend/controllers/adminRoutes.js:297-305 | exactly `AdminRules.Suspend`'s state and answer |
| Store.Db.CreateComplaint | Backend/controllers/adminRoutes.js:385-405 | exactly `AdminRules.CreateComplaint`'s records and answer |
| Store.Db.PatchComplaint | Backend/controllers/adminRoutes.js:407-437 | exactly `AdminRules.PatchComplaint`'s records and answer |
| Store.Db.PatchAnnouncement | Backend/controllers/adminRoutes.js:476-497 | exactly `AdminRules.PatchAnnouncement`'s records and answer |
| Ledger.FindSlot | Backend/model/mealModel.js:35 | a found meal lies in the requested slot (kitchen, day, type); when none is found, no meal lies in that slot |
| Ledger.FindSlotExact | Backend/model/mealModel.js:35 | under `WellFormed`, the meal in a slot is the one found, so a slot has at most one meal |
| Ledger.OwnedKitchen | Backend/controllers/kitchenRoutes.js:434-436 | a found kitchen is owned by the caller; when none is found, the caller owns no kitchen |
| Ledger.OwnedKitchenExact | Backend/controllers/kitchenRoutes.js:135-136 | under `WellFormed`, the kitchen found for an owner is exactly the owner's kitchen |
| Ledger.ActiveOrderCount | Backend/controllers/orderRoutes.js:43-51 | counts the kitchen's orders of the day whose status is not cancelled; never more than the ids handed out |
| Ledger.FindReservable | Backend/controllers/orderRoutes.js:54-64 | a found meal lies in the slot |
| Ledger.Prebook | Backend/controllers/orderRoutes.js:14-83 | a refusal changes nothing; a booking answers the next id and advances the counter |
| Ledger.PrebookOn | Backend/controllers/orderRoutes.js:37-79 | the prebook after the date is parsed: a refusal changes nothing; a booking answers the next id |
| Ledger.Reserve | Backend/controllers/orderRoutes.js:43-79 | a refusal changes nothing; a booking answers the next id and advances the counter |
| Ledger.Book | Backend/controllers/orderRoutes.js:54-79 | the booking advances the counter and leaves the kitchens alone |
| Ledger.ReleaseQty | Backend/controllers/orderRoutes.js:111 | only the given meal's `soldQty` drops by the quantity |
| Ledger.Cancel | Backend/controllers/orderRoutes.js:100-115 | a refusal changes nothing |
| Ledger.SetPaymentMethod | Backend/controllers/orderRoutes.js:118-137 | a refusal changes nothing |
| Ledger.VerifiedKitchen | Backend/controllers/kitchenRoutes.js:434-436 | found means owned by the caller and verified; otherwise 404, or 403 with the locked message |
| Ledger.Decide | Backend/controllers/kitchenRoutes.js:424-458 | the decision as written; a refusal changes nothing |
| Ledger.DecideFixed | Backend/controllers/kitchenRoutes.js:440-454 | the corrected decision; a refusal changes nothing |
| Ledger.ListMenu | Backend/controllers/kitchenRoutes.js:382-396 | an unparseable date answers 400; a listing holds only meals of the parsed day in a verified kitchen the caller owns |
| Ledger.MenuOn | Backend/controllers/kitchenRoutes.js:387-394 | a date error is passed on; a listing holds only meals of that day in a verified kitchen the caller owns |
| LedgerLemmas.MenuListsDay | Backend/controllers/kitchenRoutes.js:387-394 | for the owner of a verified kitchen, the menu of a day succeeds and lists exactly that kitchen's meals on that day |
| LedgerLemmas.SavedMealListed | Backend/controllers/kitchenRoutes.js:364-377 | after a meal is saved, the owner's menu for its date succeeds and lists it |
| Ledger.OrdersDashboard | Backend/controllers/kitchenRoutes.js:399-421 | an unparseable date answers 400; a listing holds only prebooked, accepted or rejected orders of the parsed day in a verified kitchen the caller owns |
| Ledger.DashboardOn | Backend/controllers/kitchenRoutes.js:404-419 | a date error is passed on; a listing holds only prebooked, accepted or rejected orders of that day in a verified kitchen the caller owns |
| LedgerLemmas.DashboardListsDay | Backend/controllers/kitchenRoutes.js:404-419 | for the owner of a verified kitchen, the dashboard of a day succeeds and lists exactly that kitchen's prebooked, accepted and rejected orders of that day |
| LedgerLemmas.PrebookedOrderShown | Backend/controllers/orderRoutes.js:70-79 | a new prebooking appears on its kitchen owner's dashboard for the meal's date |
| Ledger.SaveMeal | Backend/controllers/kitchenRoutes.js:346-380 | a refusal changes nothing |
| Ledger.Upsert | Backend/controllers/kitchenRoutes.js:359-376 | a refusal changes nothing |
| Ledger.Overwrite | Backend/controllers/kitchenRoutes.js:365-375 | the overwritten meal keeps its slot and `soldQty` and takes every sent field |
| Ledger.Place | Backend/controllers/kitchenRoutes.js:364-377 | always succeeds, leaves orders and kitchens alone, and stores the answered meal with the sent title |
| LedgerLemmas.ConsistentSoldNonNegative | Backend/model/mealModel.js:29 | in a consistent ledger every `soldQty` is at least 0, as the schema's `min: 0` wants |
| LedgerLemmas.PrebookRejectsInvalidInput | Backend/controllers/orderRoutes.js:20-35 | a missing field, an unknown meal type or payment method, or a qty that is not a number of at least 1 changes nothing |
| LedgerLemmas.ReserveSucceedsIff | Backend/controllers/orderRoutes.js:39-68 | reserving succeeds iff the kitchen is active, the day's count is under its limit, and some available meal in the slot has enough remaining |
| LedgerLemmas.ReservableIff | Backend/controllers/orderRoutes.js:54-64 | the conditional reservation finds a meal iff an available meal in the slot has enough remaining |
| LedgerLemmas.PrebookSucceedsIff | Backend/controllers/orderRoutes.js:14-83 | prebooking succeeds iff the input is valid, the date parses, and the kitchen admits the booking (both directions) |
| LedgerLemmas.PrebookReserves | Backend/controllers/orderRoutes.js:54-79 | on success, exactly one new prebooked order with the parsed fields; only its meal's `soldQty` rises by the qty, staying within `totalQty`; kitchens untouched |
| LedgerLemmas.PrebookIsBook | Backend/controllers/orderRoutes.js:24-79 | a successful prebook is a booking of the parsed kitchen, day, meal type, qty and payment method at the meal found |
| LedgerLemmas.BookEffect | Backend/controllers/orderRoutes.js:54-79 | the booking adds the order under the next id and raises only that meal's `soldQty` |
| LedgerLemmas.PrebookDailyGate | Backend/controllers/orderRoutes.js:43-51 | at or above the daily limit, prebooking fails and changes nothing |
| LedgerLemmas.ZeroLimitBlocksAll | Backend/controllers/orderRoutes.js:43-51 | a kitchen with limit 0 takes no booking |
| LedgerLemmas.PrebookKeepsWellFormed | Backend/controllers/orderRoutes.js:14-83 | prebooking keeps `WellFormed` |
| LedgerLemmas.BookKeepsWellFormed | Backend/controllers/orderRoutes.js:54-79 | booking keeps `WellFormed` |
| LedgerLemmas.PrebookKeepsConsistent | Backend/controllers/orderRoutes.js:54-79 | prebooking keeps every `soldQty` equal to its live orders' quantity |
| LedgerLemmas.BookKeepsConsistent | Backend/controllers/orderRoutes.js:54-79 | booking keeps `Consistent` |
| LedgerLemmas.CancelEffect | Backend/controllers/orderRoutes.js:100-115 | cancelling succeeds iff the caller's order is prebooked; then the order becomes cancelled and only its meal's `soldQty` drops by its qty |
| LedgerLemmas.CancelTwiceFails | Backend/controllers/orderRoutes.js:106 | a second cancel of the same order answers 400 and changes nothing |
| LedgerLemmas.CancelFreesDailyCapacity | Backend/controllers/orderRoutes.js:43-51 | cancelling lowers that kitchen-day's count by one and no other |
| LedgerLemmas.CancelKeepsWellFormed | Backend/controllers/orderRoutes.js:100-115 | cancelling keeps `WellFormed` |
| LedgerLemmas.ReleaseKeepsConsistent | Backend/controllers/orderRoutes.js:109-111 | moving a live order to a status that holds nothing while releasing its qty keeps `Consistent` |
| LedgerLemmas.RewriteKeepsConsistent | Backend/controllers/orderRoutes.js:132-133 | rewriting an order without changing its meal, qty or whether it holds quantity keeps `Consistent` |
| LedgerLemmas.CancelKeepsConsistent | Backend/controllers/orderRoutes.js:100-115 | cancelling keeps `Consistent` |
| LedgerLemmas.PaymentMethodEffect | Backend/controllers/orderRoutes.js:118-137 | succeeds iff the method is upi or card and the caller's order is prebooked; then only that order's method changes |
| LedgerLemmas.PaymentMethodKeepsInvariants | Backend/controllers/orderRoutes.js:118-137 | keeps `WellFormed` and `Consistent` |
| LedgerLemmas.PaymentMethodKeepsWellFormed | Backend/controllers/orderRoutes.js:118-137 | keeps `WellFormed` |
| LedgerLemmas.DecideNeedsKitchen | Backend/controllers/kitchenRoutes.js:430-436 | a bad decision word answers 400; a caller without a kitchen answers 404; nothing changes |
| LedgerLemmas.DecideNeedsOwnVerifiedKitchen | Backend/controllers/kitchenRoutes.js:434-442 | an unverified kitchen answers 403, another kitchen's order 404, a cancelled or fulfilled order 400; nothing changes |
| LedgerLemmas.DecideEffect | Backend/controllers/kitchenRoutes.js:438-454 | on success the order was the kitchen's and decidable; exact "accept" only sets accepted; any other word sets rejected and releases the qty |
| LedgerLemmas.DecideKeepsDailyCount | Backend/controllers/kitchenRoutes.js:440-454 | a decision leaves every kitchen-day count as it was, since a rejected order still counts toward the limit |
| LedgerLemmas.DecideKeepsWellFormed | Backend/controllers/kitchenRoutes.js:424-458 | the decision as written keeps `WellFormed` |
| LedgerLemmas.DecideFixedEffect | Backend/controllers/kitchenRoutes.js:440-454 | the corrected decision decides only a prebooked order; "accept" in any case accepts; "reject" in any case rejects and releases the qty |
| LedgerLemmas.DecideFixedAgrees | Backend/controllers/kitchenRoutes.js:430-454 | on a prebooked order with a lower-case word, the corrected decision equals the one as written |
| LedgerLemmas.DecideFixedKeepsInvariants | Backend/controllers/kitchenRoutes.js:440-454 | the corrected decision keeps `WellFormed` and `Consistent` |
| LedgerLemmas.DecideFixedKeepsWellFormed | Backend/controllers/kitchenRoutes.js:440-454 | the corrected decision keeps `WellFormed` |
| LedgerLemmas.DecideFixedKeepsConsistent | Backend/controllers/kitchenRoutes.js:440-454 | the corrected decision keeps every `soldQty` equal to its live orders' quantity |
| LedgerLemmas.RepeatedRejectOversells | Backend/controllers/kitchenRoutes.js:440-454 | as written, rejecting one order twice succeeds both times and takes a balanced ledger to `soldQty` -2, outside the schema |
| LedgerLemmas.ExampleStateBalanced | Backend/controllers/kitchenRoutes.js:440-454 | the example ledger (one verified kitchen, one meal with `soldQty` 2, one prebooked order of qty 2) is well formed and balanced |
| LedgerLemmas.FirstReject | Backend/controllers/kitchenRoutes.js:450-454 | the first reject of the example order marks it rejected and drops `soldQty` to 0 |
| LedgerLemmas.SecondReject | Backend/controllers/kitchenRoutes.js:440-454 | as written, the second reject of the same order succeeds and drops `soldQty` to -2 |
| LedgerLemmas.TwiceRejectedUnbalanced | Backend/controllers/kitchenRoutes.js:451-454 | the state after the double reject is not `Consistent` |
| LedgerLemmas.CapitalAcceptRejects | Backend/controllers/kitchenRoutes.js:430-454 | as written, the word "Accept" passes the check and then rejects the order |
| LedgerLemmas.DecideFixedOnExample | Backend/controllers/kitchenRoutes.js:430-444 | the corrected decision accepts on "Accept", keeps the sold quantity, and then refuses to decide the order again |
| LedgerLemmas.FixedAccepts | Backend/controllers/kitchenRoutes.js:430-444 | the corrected decision accepts the example order on "Accept" |
| LedgerLemmas.FixedRefusesAgain | Backend/controllers/kitchenRoutes.js:440-442 | the corrected decision refuses to decide an accepted order again |
| LedgerLemmas.SaveMealRequiresFields | Backend/controllers/kitchenRoutes.js:353-355 | a missing date, meal type, title, price or totalQty answers 400 and changes nothing |
| LedgerLemmas.SaveMealLocked | Backend/controllers/kitchenRoutes.js:359-361 | an unverified kitchen cannot save a meal (403) |
| LedgerLemmas.SaveMealEffect | Backend/controllers/kitchenRoutes.js:346-380 | on success the meal in the slot has the trimmed title and description and the sent numbers; it is new iff the slot was empty; `soldQty` is kept (0 when new); nothing else changes |
| LedgerLemmas.UpsertEffect | Backend/controllers/kitchenRoutes.js:363-376 | the same for the upsert on a parsed day |
| LedgerLemmas.PlaceEffect | Backend/controllers/kitchenRoutes.js:364-377 | the written meal lies in its slot with the given fields; it existed before iff the slot was taken, and then keeps its soldQty; no other meal changes |
| LedgerLemmas.SaveMealKeepsWellFormed | Backend/controllers/kitchenRoutes.js:346-380 | saving a meal keeps one meal per slot and `WellFormed` |
| LedgerLemmas.UpsertKeepsWellFormed | Backend/controllers/kitchenRoutes.js:363-376 | the upsert keeps `WellFormed` |
| LedgerLemmas.PlaceKeepsWellFormed | Backend/controllers/kitchenRoutes.js:363-376 | writing a slot keeps `WellFormed` |
| LedgerLemmas.SaveMealKeepsConsistent | Backend/controllers/kitchenRoutes.js:346-380 | saving a meal keeps `soldQty` equal to the live orders' quantity |
| LedgerLemmas.UpsertKeepsConsistent | Backend/controllers/kitchenRoutes.js:363-376 | the upsert keeps `Consistent` |
| LedgerLemmas.PlaceKeepsConsistent | Backend/controllers/kitchenRoutes.js:363-376 | writing a slot keeps `Consistent` |
| LedgerLemmas.SaveMealUpdatesSlot | Backend/controllers/kitchenRoutes.js:363-376 | for an occupied slot, the stored meal is overwritten in place under its id |
| LedgerLemmas.UpsertUndercutsSold | Backend/controllers/kitchenRoutes.js:363-376 | the upsert accepts a `totalQty` below the meal's `soldQty` (1 against 2), so nothing remains for sale |
| LedgerLemmas.LockedUntilVerified | Backend/controllers/kitchenRoutes.js:382-421 | the menu and the dashboard answer iff the caller's kitchen is verified, otherwise 403 with their locked messages |
| LedgerLemmas.MenuOneMealPerType | Backend/controllers/kitchenRoutes.js:382-396 | a day's menu holds at most one meal per meal type |
| LedgerLemmas.DashboardMatchesDecide | Backend/controllers/kitchenRoutes.js:410-442 | an order of the day is on the dashboard iff the decision as written takes it; a shown order is never cancelled or fulfilled |
| KitchenProfile.KitchenRewriteKeeps | Backend/model/kitchenModel.js:9-107 | replacing a kitchen by a valid one of the same owner keeps `WellFormed` and `Consistent` |
| KitchenProfile.Register | Backend/controllers/kitchenRoutes.js:128-151 | a refusal changes nothing; a registration answers the next id and advances the counter |
| KitchenProfile.RegisterEffect | Backend/controllers/kitchenRoutes.js:133-145 | succeeds iff the trimmed name is non-empty and the owner has no kitchen; the new kitchen is unverified and pending, meals and orders untouched |
| KitchenProfile.RegisterTwiceFails | Backend/controllers/kitchenRoutes.js:135-136 | a second registration by the same owner answers 400 and changes nothing |
| KitchenProfile.RegisterKeepsInvariants | Backend/controllers/kitchenRoutes.js:128-151 | registering keeps `WellFormed` and `Consistent` |
| KitchenProfile.CheckVerificationForm | Backend/controllers/kitchenRoutes.js:175-200 | passes only a 14-digit licence, an expiry not before now, an id type, a name on the id, and both files of at least the minimum size; refusals are 400 |
| KitchenProfile.WithSubmission | Backend/controllers/kitchenRoutes.js:202-222 | keeps a valid kitchen valid and keeps its owner |
| KitchenProfile.SubmitVerification | Backend/controllers/kitchenRoutes.js:154-225 | a refusal changes nothing |
| KitchenProfile.CheckUploads | Backend/controllers/kitchenRoutes.js:158-162 | the uploads pass exactly when at most five photos are sent and every file has an allowed type and is at most 25 MB; otherwise 400 |
| KitchenProfile.UploadsCheckedFirst | Backend/controllers/kitchenRoutes.js:158-162 | a refused upload answers 400 before the kitchen is looked up, and changes nothing |
| KitchenProfile.VerificationEffect | Backend/controllers/kitchenRoutes.js:202-222 | on success the uploads were acceptable and the caller's kitchen is back to pending and unverified, with the licence, expiry and documents stored; limit and activity kept; photos kept when none are sent |
| KitchenProfile.VerificationNeedsLicense | Backend/controllers/kitchenRoutes.js:175-178 | a licence number that is not 14 digits is refused and changes nothing |
| KitchenProfile.VerificationKeepsInvariants | Backend/controllers/kitchenRoutes.js:154-225 | submitting keeps `WellFormed` and `Consistent` |
| KitchenProfile.SetLocation | Backend/controllers/kitchenRoutes.js:228-258 | a refusal changes nothing |
| KitchenProfile.AddressUpdate | Backend/controllers/kitchenRoutes.js:247 | an absent address is left alone, a string is stored, null is stored as "null" |
| KitchenProfile.Locate | Backend/controllers/kitchenRoutes.js:238-255 | a refusal changes nothing |
| KitchenProfile.LocateEffect | Backend/controllers/kitchenRoutes.js:238-255 | succeeds iff the pincode has 4 to 10 digits and the caller has a kitchen; it is stored and marked verified at once |
| KitchenProfile.LocationEffect | Backend/controllers/kitchenRoutes.js:232-255 | the same through the trimmed text of the sent pincode |
| KitchenProfile.NumericPincode | Backend/controllers/kitchenRoutes.js:233 | a pincode sent as a positive number is read through its decimal text |
| KitchenProfile.NullAddressStoredAsText | Backend/controllers/kitchenRoutes.js:247 | an address sent as null is stored as the text "null" |
| KitchenProfile.SetLocationStoresAddress | Backend/controllers/kitchenRoutes.js:247 | any address field that is sent, null included, is stored as its text |
| KitchenProfile.LocateKeepsInvariants | Backend/controllers/kitchenRoutes.js:238-255 | keeps `WellFormed` and `Consistent` |
| KitchenProfile.LocateStoresAddress | Backend/controllers/kitchenRoutes.js:247 | a sent address text is stored |
| KitchenProfile.LocationKeepsInvariants | Backend/controllers/kitchenRoutes.js:228-258 | keeps `WellFormed` and `Consistent` |
| KitchenProfile.RequestVideoCall | Backend/controllers/kitchenRoutes.js:261-277 | a refusal changes nothing |
| KitchenProfile.RequestTrialOrder | Backend/controllers/kitchenRoutes.js:280-294 | a refusal changes nothing |
| KitchenProfile.VideoCallRequestEffect | Backend/controllers/kitchenRoutes.js:265-275 | succeeds iff a slot text is sent and the caller has a kitchen; only the call status (requested) and the slot text change |
| KitchenProfile.TrialOrderRequestEffect | Backend/controllers/kitchenRoutes.js:284-292 | succeeds iff the caller has a kitchen; only the trial status (requested) and notes change |
| KitchenProfile.RequestsKeepInvariants | Backend/controllers/kitchenRoutes.js:261-294 | both requests keep `WellFormed` and `Consistent` |
| KitchenProfile.SetDailyOrderLimit | Backend/controllers/kitchenRoutes.js:312-331 | a refusal changes nothing |
| KitchenProfile.DailyOrderLimitEffect | Backend/controllers/kitchenRoutes.js:317-327 | succeeds iff the number read is at least 0 and the caller has a kitchen; only that limit changes; a missing value is refused |
| KitchenProfile.ZeroLimitClosesKitchen | Backend/controllers/kitchenRoutes.js:317-327 | after the limit is set to 0, no booking at that kitchen succeeds |
| KitchenProfile.DailyOrderLimitKeepsInvariants | Backend/controllers/kitchenRoutes.js:312-331 | keeps `WellFormed` and `Consistent` |
| KitchenProfile.Rate | Backend/controllers/kitchenRoutes.js:101-125 | a refusal changes nothing; a stored rating is 1 to 5 and replaces the caller's earlier one |
| KitchenProfile.RateAccepts | Backend/controllers/kitchenRoutes.js:108-115 | succeeds iff the number read is 1 to 5 and the kitchen exists |
| KitchenProfile.RateReplaces | Backend/controllers/kitchenRoutes.js:117-121 | the stored rating is the number read with the feedback text, and every other user's rating is kept |
| KitchenProfile.AnalyticsDays | Backend/controllers/kitchenRoutes.js:466 | any window the handler computes lies in 1..90; a falsy value gives 30 |
| KitchenProfile.AnalyticsDaysClamps | Backend/controllers/kitchenRoutes.js:466 | a non-zero number is clamped to 1..90 |
| KitchenProfile.AnalyticsDaysNaN | Backend/controllers/kitchenRoutes.js:466 | as written, `days=week` gives no number of days |
| KitchenProfile.AnalyticsDaysFixed | Backend/controllers/kitchenRoutes.js:466 | the corrected window is always 1..90, agrees where the original gives a number, and is 30 otherwise |
| KitchenModel.ParseReviewStatus | Backend/model/kitchenModel.js:15-20 | inverts `Name()` on pending/verified/rejected |
| KitchenModel.ParseTrialOrderStatus | Backend/model/kitchenModel.js:100-107 | inverts `Name()` on the trial statuses |
| KitchenModel.NewKitchen | Backend/model/kitchenModel.js:9-107 | a new kitchen is valid, unverified, pending, active, with the default daily limit, and no call or trial requested |
| MealModel.ParseMealType | Backend/model/mealModel.js:17-22 | inverts `Name()` on breakfast/lunch/snacks/dinner |
| MealModel.RemainingQty | Backend/model/mealModel.js:37-39 | never negative; `totalQty - soldQty` when that is not negative, otherwise 0 |
| MealModel.InsertedMeal | Backend/model/mealModel.js:28-29 | a new meal lies in its slot and has sold nothing; its remaining quantity is its total, or 0 when the total is not positive |
| OrderModel.ParsePaymentMethod | Backend/model/orderModel.js:39-43 | inverts `Name()` on upi/card |
| OrderModel.NewOrder | Backend/model/orderModel.js:30-43 | a new order is prebooked with the given fields, and within the schema when qty is at least 1 |
| Records.ParseRole | Backend/model/userModel.js:17-21 | inverts `Name()` on customer/kitchen/admin |
| Records.NewUser | Backend/model/userModel.js:17-36 | a new user is an activated customer without favourites |
| Records.ParseComplaintType | Backend/model/complaintModel.js:9-14 | inverts `Name()` |
| Records.ParseComplaintStatus | Backend/model/complaintModel.js:17-22 | inverts `Name()` |
| Records.ParseSeverity | Backend/model/complaintModel.js:23-28 | inverts `Name()` |
| Records.ParseAudience | Backend/model/announcementModel.js:7-12 | inverts `Name()` |
| Records.ParseAnnouncementStatus | Backend/model/announcementModel.js:13-18 | inverts `Name()` |
| Records.ParsePriority | Backend/model/announcementModel.js:21 | inverts `Name()` |
| Records.WithRole | Backend/controllers/userRoutes.js:28-31 | only the given user's role changes |
| Records.AddUserKeeps | Backend/model/userModel.js:33-36 | adding a user with distinct favourites keeps `RecordsValid` |
| Accounts.RoleFor | Backend/controllers/userRoutes.js:21-26 | admin iff the e-mail is allow-listed; kitchen iff not allow-listed and owning a kitchen; customer otherwise |
| Accounts.ResolveRole | Backend/controllers/userRoutes.js:17-34 | only the user's role changes, and nothing is saved when it already matches |
| Accounts.ResolveRoleIdempotent | Backend/controllers/userRoutes.js:28-31 | resolving twice equals resolving once |
| Accounts.LastIndexOfChar | Backend/controllers/userRoutes.js:66 | the last occurrence of the character, or -1 |
| Accounts.EmailFormatDecides | Backend/controllers/userRoutes.js:66 | the direct cut at the first `@` and last `.` decides the e-mail pattern, both directions |
| Accounts.EmailExampleAccepted | Backend/controllers/userRoutes.js:66 | `ana.b@mail.example.com` matches |
| Accounts.EmailExampleRefused | Backend/controllers/userRoutes.js:66 | `ana@localhost` does not match |
| Accounts.PasswordExamples | Backend/controllers/userRoutes.js:70 | `abcd1234` passes; letters only, digits only, a space, or fewer than 8 characters fail |
| Accounts.CheckSignup | Backend/controllers/userRoutes.js:62-79 | passes iff all fields are present, the e-mail and password are strings matching their patterns; the result is the normalised e-mail; a refusal is 500 exactly when a truthy e-mail that is not a string, or a matching e-mail with a truthy password that is not a string, reaches `.match` and throws, and 400 otherwise |
| Accounts.NumericEmailThrows | Backend/controllers/userRoutes.js:62-67 | a non-zero number as the e-mail answers 500 with `email.match is not a function` |
| Accounts.NumericPasswordThrows | Backend/controllers/userRoutes.js:62-71 | with a well-formed e-mail, a non-zero number as the password answers 500 with `password.match is not a function` |
| Accounts.Signup | Backend/controllers/userRoutes.js:57-96 | a refusal changes nothing |
| Accounts.SignupWith | Backend/controllers/userRoutes.js:79-92 | the signup after the input checks: a refusal changes nothing |
| Accounts.SignupAccepts | Backend/controllers/userRoutes.js:62-84 | succeeds iff the input checks pass and the normalised e-mail is not stored |
| Accounts.SignupCreates | Backend/controllers/userRoutes.js:88-92 | on success exactly one new activated customer with the normalised e-mail |
| Accounts.SignupWithCreates | Backend/controllers/userRoutes.js:79-92 | on success the checked e-mail is stored in exactly one new activated customer |
| Accounts.SignupKeepsInvariants | Backend/controllers/userRoutes.js:79-92 | signup keeps `RecordsValid` and stored e-mails unique |
| Accounts.SignupTwiceFails | Backend/controllers/userRoutes.js:81-84 | signing up again with the same normalised e-mail answers "User already exists" |
| Accounts.CheckReset | Backend/controllers/userRoutes.js:139-165 | passes iff the token is present, the new password is a string matching the pattern, the secret is set, and the token verifies as a `reset` token of a stored user; a missing field is 400, a truthy new password that is not a string throws at `.match` (500), a weak one is 400; then the missing secret is 500, a token that does not verify or is not a reset token is 400, an unknown user is 404 |
| Accounts.LoginTokenCannotReset | Backend/controllers/userRoutes.js:160-162 | a token without the `reset` type is refused |
| Accounts.SafeFrontendBase | Backend/controllers/userRoutes.js:286-295 | the answer is the fallback or the sent value when it is a local origin |
| Accounts.LocalOriginsPass | Backend/controllers/userRoutes.js:291-292 | `http://localhost:<digits>` and `http://127.0.0.1:<digits>` pass unchanged |
| Accounts.OtherOriginsFallBack | Backend/controllers/userRoutes.js:287-294 | anything else gives the configured front-end URL |
| Accounts.RemoteOriginRefused | Backend/controllers/userRoutes.js:287-294 | `https://localhost:5173` and a port-less localhost fall back |
| AdminAccess.NormalizeEmailIdempotent | Backend/utils/adminAccess.js:1 | normalising twice equals normalising once |
| AdminAccess.NormalizedEmailShape | Backend/utils/adminAccess.js:1 | a normalised e-mail has no surrounding white space and no capital letter |
| AdminAccess.NormalizeIgnoresCase | Backend/utils/adminAccess.js:1 | normalising ignores case |
| AdminAccess.NormalizedEntriesMembers | Backend/utils/adminAccess.js:6-9 | the list holds exactly the non-empty normalised entries |
| AdminAccess.BuildAdminEmails | Backend/utils/adminAccess.js:6-13 | the loop builds exactly `AdminEmailList` |
| AdminAccess.AdminEmailListMembers | Backend/utils/adminAccess.js:3-13 | the list holds exactly the non-empty normalised entries and the static admin e-mail |
| AdminAccess.AdminEmailListNormalized | Backend/utils/adminAccess.js:6-13 | every entry is non-empty and normalised |
| AdminAccess.StaticAdminOnce | Backend/utils/adminAccess.js:11-13 | an absent static e-mail is pushed exactly once |
| AdminAccess.IsAdminEmailIgnoresCase | Backend/utils/adminAccess.js:15 | the check ignores case |
| AdminAccess.IsAdminEmailOfNormalized | Backend/utils/adminAccess.js:15 | checking a normalised e-mail equals checking the raw one |
| AdminAccess.StaticAdminListed | Backend/utils/adminAccess.js:3-15 | the static admin e-mail is always an admin |
| AdminAccess.GetAdminEmails | Backend/utils/adminAccess.js:17 | a fresh copy with the list's contents |
| Auth.TokenFromRequest | Backend/middleware/auth.js:5-16 | no token iff there is no Bearer header, no cookie and no query token |
| Auth.BearerFirst | Backend/middleware/auth.js:7-9 | a Bearer header wins over cookie and query |
| Auth.NonBearerHeaderIgnored | Backend/middleware/auth.js:7 | a header without `Bearer ` is ignored |
| Auth.CookieBeforeQuery | Backend/middleware/auth.js:12-13 | the cookie wins over the query |
| Auth.RoleList.Allowed | Backend/middleware/auth.js:46 | one role becomes a list of that role; a list stays |
| Auth.RequireRole | Backend/middleware/auth.js:45-54 | passes iff there is a user whose role is allowed; 401 without a user, 403 otherwise |
| Auth.OneRoleIsList | Backend/middleware/auth.js:46 | one role behaves as the list of it |
| Auth.SingleRoleAdmitsOnlyIt | Backend/middleware/auth.js:45-54 | a single role admits exactly the users with it |
| Auth.Authenticate | Backend/middleware/auth.js:18-43 | success names a stored user; failures are 500 or 401 |
| Auth.AuthenticateEarlyExits | Backend/middleware/auth.js:20-33 | no secret gives 500; no or an empty token gives 401 whatever the store; success means a token that verifies to the user |
| Auth.EmptyBearerRefused | Backend/middleware/auth.js:7-9 | `Bearer ` alone is an empty token, refused before the cookie is read |
| Auth.Request.constructor | Backend/middleware/auth.js:18 | a request starts without a user |
| Auth.Request.RequireAuth | Backend/middleware/auth.js:18-43 | answers as `Authenticate`; attaches that user on success and leaves the request alone on failure |
| AdminRules.AdminGate | Backend/controllers/adminRoutes.js:19-26 | admits only stored users |
| AdminRules.AdminGateAdmits | Backend/controllers/adminRoutes.js:19-26 | admits iff authenticated with the admin role and an allow-listed e-mail; 403 otherwise; authentication errors pass through |
| AdminRules.RoleAloneRefused | Backend/controllers/adminRoutes.js:22-24 | the admin role without an allow-listed e-mail is refused |
| AdminRules.ListLimit | Backend/controllers/adminRoutes.js:83-91 | the limit never exceeds the cap |
| AdminRules.ListLimitClamps | Backend/controllers/adminRoutes.js:83-91 | a missing, zero or non-numeric value gives the default; another number is capped; a negative number passes through |
| AdminRules.SetUserStatus | Backend/controllers/adminRoutes.js:97-114 | a refusal changes nothing |
| AdminRules.SetUserStatusEffect | Backend/controllers/adminRoutes.js:100-111 | succeeds iff a boolean is sent and the user exists; only the activation flag changes |
| AdminRules.TextTrueRefused | Backend/controllers/adminRoutes.js:100-102 | the text "true" is not a boolean and is refused |
| AdminRules.SetUserStatusKeepsInvariants | Backend/controllers/adminRoutes.js:97-114 | keeps `RecordsValid` |
| AdminRules.Decided | Backend/controllers/adminRoutes.js:175-193 | the decided kitchen keeps its owner and daily limit |
| AdminRules.DecideKitchen | Backend/controllers/adminRoutes.js:164-200 | a refusal changes nothing |
| AdminRules.ApproveEffect | Backend/controllers/adminRoutes.js:175-184 | approval verifies the kitchen, clears the reason, stamps the time, verifies FSSAI, and sets the badge unless it is sent falsy |
| AdminRules.RejectEffect | Backend/controllers/adminRoutes.js:169-193 | rejection needs a reason and an existing kitchen; it unverifies, stores the reason, and clears time and badge |
| AdminRules.OtherDecisionRefused | Backend/controllers/adminRoutes.js:169-171 | any other decision answers 400 |
| AdminRules.DecideKitchenKeepsInvariants | Backend/controllers/adminRoutes.js:164-200 | keeps `WellFormed` and `Consistent` |
| AdminRules.WithFssaiStatus | Backend/controllers/adminRoutes.js:215-228 | the licence number and the expiry are kept |
| AdminRules.SetFssaiStatus | Backend/controllers/adminRoutes.js:203-233 | a refusal changes nothing |
| AdminRules.FssaiEffect | Backend/controllers/adminRoutes.js:206-230 | sets the status and notes; verified clears the rejection reason, rejected stores it, pending keeps it |
| AdminRules.FssaiStatusRefused | Backend/controllers/adminRoutes.js:207-209 | an unknown status answers 400 |
| AdminRules.FssaiKeepsInvariants | Backend/controllers/adminRoutes.js:203-233 | keeps `WellFormed` and `Consistent` |
| AdminRules.DecideLocation | Backend/controllers/adminRoutes.js:236-253 | a refusal changes nothing |
| AdminRules.DecideLocationEffect | Backend/controllers/adminRoutes.js:239-250 | succeeds iff the decision is a review status and the kitchen exists; only the pincode status changes |
| AdminRules.DecideLocationKeepsInvariants | Backend/controllers/adminRoutes.js:236-253 | keeps `WellFormed` and `Consistent` |
| AdminRules.ScheduleVideoCall | Backend/controllers/adminRoutes.js:256-274 | a refusal changes nothing |
| AdminRules.ScheduleVideoCallEffect | Backend/controllers/adminRoutes.js:259-271 | succeeds iff a readable time is sent and the kitchen exists; only the call status (scheduled) and time change |
| AdminRules.SetTrialResult | Backend/controllers/adminRoutes.js:277-294 | a refusal changes nothing |
| AdminRules.TrialResultEffect | Backend/controllers/adminRoutes.js:280-291 | succeeds iff the status is a trial status and the kitchen exists; only the trial status and notes change |
| AdminRules.VideoCallKeepsInvariants | Backend/controllers/adminRoutes.js:256-273 | scheduling a call keeps `WellFormed` and `Consistent` |
| AdminRules.TrialResultKeepsInvariants | Backend/controllers/adminRoutes.js:276-293 | setting the trial result keeps `WellFormed` and `Consistent` |
| AdminRules.Suspend | Backend/controllers/adminRoutes.js:297-305 | a refusal changes nothing |
| AdminRules.SuspendEffect | Backend/controllers/adminRoutes.js:300-302 | succeeds iff the kitchen exists; only `isActive` changes, to the truthiness sent |
| AdminRules.SuspendKeepsInvariants | Backend/controllers/adminRoutes.js:297-305 | keeps `WellFormed` and `Consistent` |
| AdminRules.SuspendedKitchenTakesNoOrders | Backend/controllers/orderRoutes.js:39-40 | after a suspension, prebooking at that kitchen fails and changes nothing |
| AdminRules.CreateComplaint | Backend/controllers/adminRoutes.js:385-405 | a refusal changes nothing |
| AdminRules.CreateComplaintEffect | Backend/controllers/adminRoutes.js:389-400 | succeeds iff a message is sent; one new complaint with the message, unknown enumerations replaced by their defaults |
| AdminRules.CreateComplaintKeepsInvariants | Backend/controllers/adminRoutes.js:385-405 | keeps `RecordsValid` |
| AdminRules.ComplaintUpdate.ApplyTo | Backend/controllers/adminRoutes.js:432 | a status patch never changes the complaint's message, type or kitchen |
| AdminRules.ComplaintUpdateOf | Backend/controllers/adminRoutes.js:410-430 | a built update is never empty; every refusal is 400 |
| AdminRules.PatchComplaint | Backend/controllers/adminRoutes.js:407-437 | a refusal changes nothing |
| AdminRules.PatchComplaintEffect | Backend/controllers/adminRoutes.js:410-433 | 400 for an invalid status, then for an invalid severity, 400 for no fields; on success only that complaint changes, each field taking the sent value or keeping its own, the message kept |
| AdminRules.ComplaintUpdateFields | Backend/controllers/adminRoutes.js:410-430 | each sent field is read as the handler reads it and invalid values are refused in the handler's order |
| AdminRules.EmptyNotesClear | Backend/controllers/adminRoutes.js:425 | sending empty notes clears them |
| AdminRules.AnnouncementUpdate.ApplyTo | Backend/controllers/adminRoutes.js:492 | a patch never changes the announcement's author |
| AdminRules.AnnouncementUpdateOf | Backend/controllers/adminRoutes.js:479-490 | a built update is never empty; the only refusal is "No update fields provided" |
| AdminRules.AnnouncementUpdateRefused | Backend/controllers/adminRoutes.js:479-490 | the update is refused exactly when no title, body, known priority, audience or status and no publishAt is sent |
| AdminRules.AnnouncementUpdateTexts | Backend/controllers/adminRoutes.js:481-486 | title and body are set exactly when truthy, to their trimmed text; publishAt is carried as read (cleared, a time, or unreadable) |
| AdminRules.AnnouncementUpdateEnums | Backend/controllers/adminRoutes.js:483-485 | priority, audience and status are set exactly when they name a known value, and then to that value |
| AdminRules.PatchAnnouncement | Backend/controllers/adminRoutes.js:476-497 | a refusal changes nothing; a success means the announcement exists, only it changes, and its author is kept |
| AdminRules.PatchAnnouncementEffect | Backend/controllers/adminRoutes.js:476-497 | nothing to update answers 400; then an unreadable publishAt answers 500 (the update's cast fails) before the lookup; then an unknown id answers 404; success exactly otherwise; refusals change nothing |
| AdminRules.PatchAnnouncementStores | Backend/controllers/adminRoutes.js:479-495 | a successful patch changes only that announcement: each field set as sent (title and body trimmed, only known enum values) or kept, publishAt cleared or set, the author kept |
| AdminRules.InvalidEnumSkipped | Backend/controllers/adminRoutes.js:483-490 | an unknown status is skipped and the stored one kept; with nothing else sent the patch answers "No update fields provided" |
| AdminRules.PublishAtEffect | Backend/controllers/adminRoutes.js:486-492 | a sent publish time is stored, or cleared when falsy, and nothing else changes; an unreadable one answers 500 and changes nothing |
| AdminRules.PatchAnnouncementKeepsInvariants | Backend/controllers/adminRoutes.js:476-497 | keeps `RecordsValid` |
| Subscriptions.PlanDays | Backend/controllers/subscriptionRoutes.js:59 | weekly is 7 days, monthly 30 |
| Subscriptions.Subscribe | Backend/controllers/subscriptionRoutes.js:45-69 | a refusal changes nothing; a subscription answers the next record id |
| Subscriptions.SubscribeFrom | Backend/controllers/subscriptionRoutes.js:52-65 | the same after the start is parsed |
| Subscriptions.Enroll | Backend/controllers/subscriptionRoutes.js:56-65 | fails, with 500 and no change, exactly when the end date is not a valid date |
| Subscriptions.SubscribeAccepts | Backend/controllers/subscriptionRoutes.js:50-65 | succeeds iff a plan is given, stored and active, the start parses, and start plus 7 or 30 days is a valid date |
| Subscriptions.SubscribeEnd | Backend/controllers/subscriptionRoutes.js:56-65 | for an active plan, succeeds iff the end date 7 or 30 days on is a valid date |
| Subscriptions.SubscribeFromActive | Backend/controllers/subscriptionRoutes.js:56-65 | for an active plan, subscribing is enrolling with the start and the start moved by the plan's days |
| Subscriptions.SubscribeCreates | Backend/controllers/subscriptionRoutes.js:59-65 | an active subscription from the start to 7 or 30 whole days later; nothing else changes |
| Subscriptions.SubscribeErrors | Backend/controllers/subscriptionRoutes.js:50-55 | no plan gives 400; an unknown or inactive plan 404; an unreadable start 400 |
| Subscriptions.SubscribeKeepsInvariants | Backend/controllers/subscriptionRoutes.js:45-69 | keeps `RecordsValid` |
| Subscriptions.EnrollKeepsInvariants | Backend/controllers/subscriptionRoutes.js:59-65 | enrolling keeps `RecordsValid` |
| Subscriptions.PlanEnd | Backend/controllers/subscriptionRoutes.js:56-57 | moving the start by whole days is plain addition while the result is a valid date |
| Subscriptions.WholeDays | Backend/controllers/subscriptionRoutes.js:59 | a midnight start plus whole days is a later midnight |
| Subscriptions.SeededPlan | Backend/controllers/subscriptionRoutes.js:30-36 | a seeded plan is active with the default's type and meals per day |
| Subscriptions.SeedOneKeeps | Backend/controllers/subscriptionRoutes.js:30-36 | one seed keeps the records valid and every old plan, and leaves the seed's key present |
| Subscriptions.ActivePlans | Backend/controllers/subscriptionRoutes.js:17 | exactly the active plans |
| Subscriptions.ListPlans | Backend/controllers/subscriptionRoutes.js:14-42 | always answers |
| Subscriptions.SeedAllKeeps | Backend/controllers/subscriptionRoutes.js:30-36 | seeding keeps the records valid and every old plan, adds only active plans under fresh ids, and leaves each seed's key present |
| Subscriptions.DefaultPlansWithinBounds | Backend/controllers/subscriptionRoutes.js:21-28 | the defaults have 1 to 3 meals and non-negative prices |
| Subscriptions.ListPlansEffect | Backend/controllers/subscriptionRoutes.js:14-42 | keeps old plans; answers the active plans; with none active every default key exists afterwards; an empty answer means inactive plans hold every default key |
| Subscriptions.ListPlansReadOnly | Backend/controllers/subscriptionRoutes.js:17-20 | with an active plan nothing is seeded and the answer is not empty |
| Favorites.Without | Backend/controllers/favoriteRoutes.js:36 | removes exactly the kitchen |
| Favorites.WithAdded | Backend/controllers/favoriteRoutes.js:38 | adds the kitchen and keeps the rest |
| Favorites.Toggle | Backend/controllers/favoriteRoutes.js:23-45 | a refusal changes nothing; success touches only users |
| Favorites.ToggleEffect | Backend/controllers/favoriteRoutes.js:33-43 | the answer says whether the kitchen is now a favourite, and it is iff it was not before |
| Favorites.ToggleTwice | Backend/controllers/favoriteRoutes.js:35-39 | a second toggle answers the original membership and restores the same set of favourites; when the kitchen was not a favourite the users are exactly restored |
| Favorites.WithoutKeepsDistinct | Backend/controllers/favoriteRoutes.js:36 | removing a kitchen keeps the favourites free of duplicates |
| Uploads.FileFilter | Backend/middleware/multer.js:39-44 | accepts exactly the five MIME types, otherwise 400 |
| Uploads.FileFilterAccepts | Backend/middleware/multer.js:16-22 | the accepted types are pdf, jpeg, jpg, png and mp4 |
| Uploads.AcceptUpload | Backend/middleware/multer.js:39-51 | a file passes exactly when its type is allowed and it is at most 25 MB; otherwise 400 |
| Uploads.AcceptUploads | Backend/middleware/multer.js:39-51 | a request's files pass exactly when each one does; otherwise 400 |
| Uploads.Utf16Units | Backend/middleware/multer.js:34 | a character is one code unit inside the Basic Multilingual Plane and a surrogate pair outside it, as the replaced JavaScript string holds it |
| Uploads.SafeUnits | Backend/middleware/multer.js:34 | the replacement keeps the number of code units |
| Uploads.SafeName | Backend/middleware/multer.js:34 | one character per UTF-16 code unit of the name, so never shorter than the name |
| Uploads.SafeNamePointwise | Backend/middleware/multer.js:34 | each code unit is kept when it is an allowed ASCII character and becomes `_` otherwise, surrogates included; a name of Basic Multilingual Plane characters keeps its length, character for character |
| Uploads.AstralCharDoubled | Backend/middleware/multer.js:34 | an emoji, two code units, becomes two `_`: `"😀.png"` is stored as `"__.png"` |
| Uploads.BmpCharSingle | Backend/middleware/multer.js:34 | an accented letter, one code unit, becomes one `_` |
| Uploads.SafeNameIdempotent | Backend/middleware/multer.js:34 | a sanitised name is all safe and sanitising again changes nothing |
| Uploads.StoredFileNameSplits | Backend/middleware/multer.js:33-35 | the stored name splits at its first `_` into the timestamp and the sanitised name |
| Uploads.UploadOwner | Backend/middleware/multer.js:27 | the owner directory (the user id or "anonymous") is never empty and never `kitchens` |
| Uploads.OwnerSegment | Backend/middleware/multer.js:67-73 | the owner segment is never empty |
| Uploads.OwnerSegmentWithoutKitchens | Backend/middleware/multer.js:69-72 | a path without a `kitchens` segment gives "unknown" |
| Uploads.OwnerSegmentOfStoredPath | Backend/middleware/multer.js:67-73 | reading the owner back from a stored path gives that owner when no segment holds the separator |
| Uploads.BuildFileDoc | Backend/middleware/multer.js:75-86 | no file gives no document; otherwise the name and size are kept |
| Uploads.StoredFileUrl | Backend/middleware/multer.js:24-86 | a stored file is published under its owner's directory and its stored name |
| Dates.StartOfDayUtc | Backend/utils/date.js:3-6 | the result is a midnight |
| Dates.DateUtc | Backend/utils/date.js:16 | a `Date.UTC` result is a midnight |
| Dates.YearOfDay | Backend/utils/date.js:5 | the year of a day is the one whose 1 January is the last at or before it |
| Dates.StartDay | Backend/utils/date.js:3-6 | a day in the years 0–99 moves into 1900–1999; every other day is kept |
| Dates.StartOfDayTruncates | Backend/utils/date.js:3-6 | outside years 0–99, the start of the day is the midnight at or before the time, within one day |
| Dates.StartOfDayIdempotent | Backend/utils/date.js:3-6 | taking the start of a start of a day changes nothing |
| Dates.FirstDayStart | Backend/utils/date.js:3-6 | any time on 1 January 1970 starts at 0 |
| Dates.CivilRoundTrip | Backend/utils/date.js:5 | day number to calendar date and back is the identity |
| Dates.CivilOfMakeDay | Backend/utils/date.js:16 | calendar date to day number and back is the identity |
| Dates.ParseDateOnlyUtc | Backend/utils/date.js:8-22 | every refusal is 400 |
| Dates.ParsedIsMidnight | Backend/utils/date.js:8-22 | every parsed day is a midnight |
| Dates.ParseRejectsMalformed | Backend/utils/date.js:13-14 | text that is not `YYYY-MM-DD` is refused with its message |
| Dates.ParseCalendarDate | Backend/utils/date.js:15-16 | a real calendar date parses to its own day |
| Dates.ParseRollsOver | Backend/utils/date.js:16 | `2024-02-30` parses as `2024-03-01` |
| Dates.ParseTwoDigitYear | Backend/utils/date.js:16 | `0024-07-15` parses as `1924-07-15` |
| Dates.SameDaySameKey | Backend/utils/date.js:8-22 | a timestamp within a date's day parses to the same day as the date's text |
| Dates.ParseTimestamp | Backend/utils/date.js:19-21 | a non-zero timestamp parses to its start of day |
| Dates.TimestampKey | Backend/utils/date.js:19-21 | a non-zero timestamp within day n, outside the years 0–99, parses to day n |
| Dates.FirstDayKey | Backend/utils/date.js:9-21 | a timestamp within 1 January 1970 parses to 0 |
| Dates.AddUtcDaysShifts | Backend/controllers/subscriptionRoutes.js:56-57 | adding days moves the time by whole days while it stays a valid date |
| ErrorMiddleware.Respond | Backend/middleware/error.js:1-15 | never a success, never an empty message; an upload error is 400; otherwise the status, or 500 when missing |
| ErrorMiddleware.RespondMessage | Backend/middleware/error.js:3 | the message, or "Internal Server Error" when missing |
| ErrorMiddleware.UploadFallbackUnreachable | Backend/middleware/error.js:8 | the "File upload error" fallback is never produced unless it was the message |
| ErrorMiddleware.ErrorObject.constructor | Backend/middleware/error.js:1 | the error carries the given fields |
| ErrorMiddleware.ErrorObject.Handle | Backend/middleware/error.js:1-15 | the response is `Respond`'s, and the error object is updated to it in place |
| RoleUtils.RoleOf | Frontend/client/src/roleUtils.js:3 | never empty: the stored role, or "customer" |
| RoleUtils.AfterClear | Frontend/client/src/roleUtils.js:5-8 | token and role removed; every other key kept |
| RoleUtils.AfterPersist | Frontend/client/src/roleUtils.js:10-19 | a role is always stored; a non-empty token is stored; other keys kept |
| RoleUtils.PersistRole | Frontend/client/src/roleUtils.js:14-18 | the stored role is the given one, or the earlier one |
| RoleUtils.PersistKeepsStoredRole | Frontend/client/src/roleUtils.js:16-18 | without a role, a stored role is kept |
| RoleUtils.PersistIdempotent | Frontend/client/src/roleUtils.js:10-19 | persisting twice equals persisting once |
| RoleUtils.ClearedRoleIsDefault | Frontend/client/src/roleUtils.js:1-8 | after clearing, the role is "customer" and the redirect is "/" |
| RoleUtils.RedirectForRole | Frontend/client/src/roleUtils.js:21-25 | admin and kitchen go to their dashboards and everyone else to "/", iff in each case |
| RoleUtils.SessionStore.constructor | Frontend/client/src/roleUtils.js:1-3 | starts from the given storage |
| RoleUtils.SessionStore.StoredRole | Frontend/client/src/roleUtils.js:3 | answers `RoleOf` of the storage |
| RoleUtils.SessionStore.Clear | Frontend/client/src/roleUtils.js:5-8 | the storage becomes `AfterClear` of the old one |
| RoleUtils.SessionStore.Persist | Frontend/client/src/roleUtils.js:10-19 | the storage becomes `AfterPersist` of the old one |

The `Store.Db` methods are proved equal to the step functions. `Valid` and `Consistent` are
proved about the step functions by the `…KeepsInvariants`, `…KeepsWellFormed` and
`…KeepsConsistent` lemmas.

`Store.Db.DecideOrder` models the order decision as written, including the two defects listed
under Findings. `Store.Db.DecideOrderFixed` is the corrected handler.

`LedgerLemmas.UpsertUndercutsSold` is a faithful consequence of the meal upsert, not a defect in
the model. The upsert lets a kitchen lower `totalQty` below what is already sold, and
`remainingQty` then reads 0.

## Left out

- Concurrency and atomicity: each handler is one step on the collections. The reservation's
  conditional `$inc` is taken as atomic, and interleavings of handlers are not modelled.
- Mongo `populate`, `sort` and projections, and the admin list filters and their search text.
  The list limits are modelled in `AdminRules.ListLimit`.
- The rating average (`$avg`), the analytics `$group` pipeline, and the admin summary counts.
  Only the analytics window is modelled.
- Announcement creation (`Backend/controllers/adminRoutes.js:456-474`) and the settings `GET`
  and `PUT` (`Backend/controllers/adminRoutes.js:499-522`). They are plain field writes without
  checks beyond the schema. Announcement patching, between them, is modelled.
- Forgot-password mail, Google OAuth (passport), login, and the static-admin login: mail, OAuth
  and password hashing are outside the model.
- bcrypt and jwt.
  - The JWT verifier is a function parameter, and reset-token claims are an input.
  - The password store is not a field.
- Disk I/O: `ensureDir` and multer's disk storage, which writes the files even when the handler
  then refuses the request. The unused `fileMeta` is not modelled.
- The clock is the parameter `now`; `Date.now()` in file names is the parameter `timestamp`.
- Numbers are integers. Fractional request values and `NaN` arithmetic beyond "not a number" are
  not modelled.
- Request texts for the FSSAI expiry, the video-call `scheduledAt` and the announcement
  `publishAt` arrive as already-parsed fields (`ScheduleField`, `PublishAt`, form expiry). Each
  of the three has a case for a value `new Date` cannot read, and the handlers' refusals of it
  are modelled; how a given text reads is not. Only the verification form's and the signup's
  text checks are modelled character by character.
- The read-only lists "my orders", "my subscriptions" and the favourites `GET`: they only query
  by user id.
- `app.js`, `server.js`, the database connection, the route wiring and the React components.
  Only `Frontend/client/src/roleUtils.js` of the front end is modelled. The route wiring
  includes the `requireRole(["kitchen", "admin"])` gates in front of the kitchen dashboard
  routes (`Backend/controllers/kitchenRoutes.js:300-464`). They are not composed into the
  kitchen step functions, which start at the kitchen lookup; `Auth.RequireRole` models the
  gate alone. So a customer without a kitchen gets the model's 404 where the source answers
  403. Likewise the admin step functions start after `AdminRules.AdminGate`.
- Js.StringToNumber: reads only an optionally signed run of decimal digits, after trimming.
  JavaScript's `Number` also reads hexadecimal (`"0x2"`), exponents (`"1e2"`), decimals with a
  zero fraction (`"2.0"`) and `"Infinity"`; the model reads all of these as NaN.
- LedgerLemmas.PrebookSucceedsIff, KitchenProfile.DailyOrderLimitEffect and
  KitchenProfile.RateAccepts: their conditions are exact only for number texts that
  `Js.StringToNumber` reads. A qty of `"0x2"`, a limit of `"1e2"` or a rating of `"5.0"` is
  accepted by the handlers and refused by the model.
- Strings.Lower: lowers only the ASCII capitals, where `toLowerCase` lowers every Unicode
  capital. `AdminAccess.NormalizeEmail` and `AdminAccess.IsAdminEmail` therefore tell apart
  addresses that differ only in non-ASCII capitals.
- KitchenProfile.CheckUploads: takes the files in one fixed arrival order: certificate, identity
  document, then photos. When several files would be refused, the message is that of the first
  in this order. A second certificate or identity document, which multer refuses under
  `maxCount: 1`, cannot be expressed, since `VerificationForm` holds at most one of each.
- Ledger.CastFailure, AdminRules.PublishAtCastFailure and Subscriptions.EndDateInvalid:
  Mongoose's own messages, abbreviated. The full texts also name the value's type, and for the
  end date also the value and the path.
- Store.Db methods: their contracts state the new collections through the step functions. Only
  the ledger handlers (prebook, cancel, payment method, both decisions, meal save) also state
  that `WellFormed` is kept. `Consistent` and the record handlers' `RecordsValid` are carried by
  the `…KeepsConsistent` and `…KeepsInvariants` lemmas on the step functions.
- Accounts.CheckSignup, Accounts.Signup: the name is taken as its text, "" when absent. A name
  that is a number or a boolean, which the handler passes to Mongoose to cast, is not modelled.
- Subscriptions.ListPlans: its own contract says only that it answers. The seeding's effect is
  in `Subscriptions.ListPlansEffect`.

## Findings

| source | as written | input that shows it | evidently intended | confidence | as-written member | corrected member |
|---|---|---|---|---|---|---|
| Backend/controllers/kitchenRoutes.js:440-454 | the guard admits orders already `accepted` or `rejected`, and rejecting always releases the order's quantity | reject order 2 (qty 2, the only order of meal 1, `soldQty` 2) twice: both succeed and `soldQty` ends at -2 | only a `prebooked` order can be decided, so quantity is released at most once | not executed | LedgerLemmas.RepeatedRejectOversells | LedgerLemmas.DecideFixedKeepsInvariants |
| Backend/controllers/kitchenRoutes.js:430-444 | the check lower-cases the decision but the branch compares the raw text with `"accept"` | decision `"Accept"` passes the check and rejects the order | `"Accept"` accepts | not executed | LedgerLemmas.CapitalAcceptRejects | LedgerLemmas.DecideFixedOnExample |
| Backend/controllers/kitchenRoutes.js:466 | `Number(days)` of non-numeric text is `NaN`, and the clamp keeps `NaN` | `?days=week` gives a `NaN` window | fall back to the default 30 days | not executed | KitchenProfile.AnalyticsDaysNaN | KitchenProfile.AnalyticsDaysFixed |
