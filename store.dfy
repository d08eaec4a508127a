/** The database the handlers share: the stored collections as fields of one object, and one
    method per handler that changes them in the order the handler does. Every method is proved
    to leave the collections exactly as the handler's step function says, and to answer as it
    does; the properties of the handlers are proved about those step functions. */
module Store {
  import opened Http
  import Strings
  import opened Dates
  import opened Js
  import opened MealModel
  import opened OrderModel
  import opened KitchenModel
  import opened Records
  import opened Ledger
  import LedgerLemmas
  import Uploads
  import KitchenProfile
  import Favorites
  import Subscriptions
  import Accounts
  import AdminRules

  class Db {
    var kitchens: map<Id, Kitchen>
    var meals: map<Id, Meal>
    var orders: map<Id, Order>
    var nextId: nat
    var users: map<Id, User>
    var ratings: map<(Id, Id), Rating>
    var plans: map<Id, Plan>
    var subscriptions: map<Id, Subscription>
    var complaints: map<Id, Complaint>
    var announcements: map<Id, Announcement>
    var nextRecordId: nat

    /** The ledger collections as a value. */
    function LedgerView(): LedgerState
      reads this
    {
      LedgerState(kitchens, meals, orders, nextId)
    }

    /** The other collections as a value. */
    function RecordView(): RecordState
      reads this
    {
      RecordState(users, ratings, plans, subscriptions, complaints, announcements, nextRecordId)
    }

    /** What every handler keeps. Ledger consistency (`Consistent`) is not among it: the order
        decision as written breaks it. The ledger methods state that they keep the `WellFormed`
        half; the record half cannot change under their `modifies` frames. */
    predicate Valid()
      reads this
    {
      WellFormed(LedgerView()) && RecordsValid(RecordView())
    }

    /** An empty database. */
    constructor()
      ensures Valid() && Consistent(LedgerView())
      ensures kitchens == map[] && meals == map[] && orders == map[] && users == map[]
    {
      kitchens, meals, orders, nextId := map[], map[], map[], 0;
      users, ratings, plans, subscriptions, complaints, announcements, nextRecordId :=
        map[], map[], map[], map[], map[], map[], 0;
    }

    // -------------------------------------------------------------- orderRoutes.js

    /** `POST /orders/prebook`: validate, count the day's orders, reserve, create the order. */
    method Prebook(req: PrebookRequest, now: Time) returns (r: Result<Id>)
      modifies this`meals, this`orders, this`nextId
      ensures var st := Ledger.Prebook(old(LedgerView()), req, now);
              LedgerView() == st.state && r == st.result
      ensures old(WellFormed(LedgerView())) ==> WellFormed(LedgerView())
    {
      ghost var s0 := LedgerView();
      if req.kitchenId.None? || Falsy(req.date) || req.mealType == "" || !Truthy(req.qty) {
        return Err(400, "kitchenId, date, mealType, qty are required");
      }
      var mealType := ParseMealType(req.mealType);
      if mealType.None? {
        return Err(400, "mealType must be breakfast, lunch, snacks, or dinner");
      }
      if req.paymentMethod != "" && ParsePaymentMethod(req.paymentMethod).None? {
        return Err(400, "paymentMethod must be upi or card");
      }
      var qty := ToNumber(req.qty);
      if qty.None? || qty.value < 1 {
        return Err(400, "qty must be >= 1");
      }
      var day := ParseDateOnlyUtc(req.date, now);
      if day.Err? {
        return Err(day.status, day.message);
      }
      var paymentMethod := if req.paymentMethod == "" then None else ParsePaymentMethod(req.paymentMethod);
      r := Reserve(req.userId, req.kitchenId.value, day.value, mealType.value, qty.value, paymentMethod);
      if WellFormed(s0) {
        LedgerLemmas.PrebookKeepsWellFormed(s0, req, now);
      }
    }

    /** Count the day's orders, then reserve with the conditional `$inc` and create the order. */
    method Reserve(userId: Id, kitchenId: Id, day: int, mealType: MealType, qty: int,
                   paymentMethod: Option<PaymentMethod>) returns (r: Result<Id>)
      modifies this`meals, this`orders, this`nextId
      ensures var st := Ledger.Reserve(old(LedgerView()), userId, kitchenId, day, mealType, qty, paymentMethod);
              LedgerView() == st.state && r == st.result
    {
      if kitchenId !in kitchens || !kitchens[kitchenId].isActive {
        return Err(404, "Kitchen not found");
      }
      var count := ActiveOrderCount(orders, kitchenId, day, nextId);
      if count >= kitchens[kitchenId].dailyOrderLimit {
        return Err(400, "Kitchen has reached its daily order limit");
      }
      var mealId := FindReservable(meals, kitchenId, day, mealType.Name(), qty, nextId);
      if mealId.None? {
        return Err(400, "Meal unavailable or insufficient quantity");
      }
      var meal := meals[mealId.value];
      meals := meals[mealId.value := meal.(soldQty := meal.soldQty + qty)];
      orders := orders[nextId := NewOrder(userId, kitchenId, mealId.value, day, mealType, qty, paymentMethod)];
      r := Ok(nextId);
      nextId := nextId + 1;
    }

    /** `PATCH /orders/:id/cancel`: mark the order cancelled, save, then release its quantity. */
    method Cancel(userId: Id, orderId: Id) returns (r: Result<Order>)
      modifies this`meals, this`orders
      ensures var st := Ledger.Cancel(old(LedgerView()), userId, orderId);
              LedgerView() == st.state && r == st.result
      ensures old(WellFormed(LedgerView())) ==> WellFormed(LedgerView())
    {
      ghost var s0 := LedgerView();
      if orderId !in orders || orders[orderId].userId != userId {
        return Err(404, "Order not found");
      }
      if orders[orderId].status != Prebooked {
        return Err(400, "Only prebooked orders can be cancelled");
      }
      var o := orders[orderId].(status := Cancelled);
      orders := orders[orderId := o];
      if o.mealId in meals {
        meals := meals[o.mealId := meals[o.mealId].(soldQty := meals[o.mealId].soldQty - o.qty)];
      }
      r := Ok(o);
      if WellFormed(s0) {
        LedgerLemmas.CancelKeepsWellFormed(s0, userId, orderId);
      }
    }

    /** `PATCH /orders/:id/payment-method`. */
    method SetPaymentMethod(userId: Id, orderId: Id, paymentMethod: string) returns (r: Result<Order>)
      modifies this`orders
      ensures var st := Ledger.SetPaymentMethod(old(LedgerView()), userId, orderId, paymentMethod);
              LedgerView() == st.state && r == st.result
      ensures old(WellFormed(LedgerView())) ==> WellFormed(LedgerView())
    {
      ghost var s0 := LedgerView();
      var method_ := ParsePaymentMethod(paymentMethod);
      if paymentMethod == "" || method_.None? {
        return Err(400, "paymentMethod must be upi or card");
      }
      if orderId !in orders || orders[orderId].userId != userId {
        return Err(404, "Order not found");
      }
      if orders[orderId].status != Prebooked {
        return Err(400, "Payment can only be set for prebooked orders");
      }
      var o := orders[orderId].(paymentMethod := method_);
      orders := orders[orderId := o];
      r := Ok(o);
      if WellFormed(s0) {
        LedgerLemmas.PaymentMethodKeepsWellFormed(s0, userId, orderId, paymentMethod);
      }
    }

    // -------------------------------------------------------------- kitchenRoutes.js

    /** `PATCH /kitchens/my/orders/:id/decision` as written: set the status, save, and on the
        reject path release the order's quantity. */
    method DecideOrder(owner: Id, orderId: Id, decision: string) returns (r: Result<Order>)
      modifies this`meals, this`orders
      ensures var st := Ledger.Decide(old(LedgerView()), owner, orderId, decision);
              LedgerView() == st.state && r == st.result
      ensures old(WellFormed(LedgerView())) ==> WellFormed(LedgerView())
    {
      ghost var s0 := LedgerView();
      if !DecisionAllowed(decision) {
        return Err(400, "decision must be 'accept' or 'reject'");
      }
      var kitchen := VerifiedKitchen(LedgerView(), owner, OrdersLocked);
      if kitchen.Err? {
        return Err(kitchen.status, kitchen.message);
      }
      if orderId !in orders || orders[orderId].kitchenId != kitchen.value {
        return Err(404, "Order not found");
      }
      if !Decidable(orders[orderId].status) {
        return Err(400, "Only pending orders can be decided");
      }
      if decision == "accept" {
        var o := orders[orderId].(status := Accepted);
        orders := orders[orderId := o];
        r := Ok(o);
      } else {
        var o := orders[orderId].(status := OrderStatus.Rejected);
        orders := orders[orderId := o];
        if o.mealId in meals {
          meals := meals[o.mealId := meals[o.mealId].(soldQty := meals[o.mealId].soldQty - o.qty)];
        }
        r := Ok(o);
      }
      if WellFormed(s0) {
        LedgerLemmas.DecideKeepsWellFormed(s0, owner, orderId, decision);
      }
    }

    /** The decision as evidently intended: only a prebooked order is decided and the branch
        reads the decision without case. */
    method DecideOrderFixed(owner: Id, orderId: Id, decision: string) returns (r: Result<Order>)
      modifies this`meals, this`orders
      ensures var st := Ledger.DecideFixed(old(LedgerView()), owner, orderId, decision);
              LedgerView() == st.state && r == st.result
      ensures old(WellFormed(LedgerView())) ==> WellFormed(LedgerView())
    {
      ghost var s0 := LedgerView();
      if !DecisionAllowed(decision) {
        return Err(400, "decision must be 'accept' or 'reject'");
      }
      var kitchen := VerifiedKitchen(LedgerView(), owner, OrdersLocked);
      if kitchen.Err? {
        return Err(kitchen.status, kitchen.message);
      }
      if orderId !in orders || orders[orderId].kitchenId != kitchen.value {
        return Err(404, "Order not found");
      }
      if orders[orderId].status != Prebooked {
        return Err(400, "Only pending orders can be decided");
      }
      if Strings.Lower(decision) == "accept" {
        var o := orders[orderId].(status := Accepted);
        orders := orders[orderId := o];
        r := Ok(o);
      } else {
        var o := orders[orderId].(status := OrderStatus.Rejected);
        orders := orders[orderId := o];
        if o.mealId in meals {
          meals := meals[o.mealId := meals[o.mealId].(soldQty := meals[o.mealId].soldQty - o.qty)];
        }
        r := Ok(o);
      }
      if WellFormed(s0) {
        LedgerLemmas.DecideFixedKeepsWellFormed(s0, owner, orderId, decision);
      }
    }

    /** `POST /kitchens/my/meals`: overwrite the slot's meal in place, or insert a new one. */
    method SaveMeal(owner: Id, req: MealRequest, now: Time) returns (r: Result<Id>)
      modifies this`meals, this`nextId
      ensures var st := Ledger.SaveMeal(old(LedgerView()), owner, req, now);
              LedgerView() == st.state && r == st.result
      ensures old(WellFormed(LedgerView())) ==> WellFormed(LedgerView())
    {
      ghost var s0 := LedgerView();
      if Falsy(req.date) || req.mealType == "" || req.title == "" || req.price == Undefined || req.totalQty == Undefined {
        return Err(400, "date, mealType, title, price, totalQty are required");
      }
      var day := ParseDateOnlyUtc(req.date, now);
      if day.Err? {
        return Err(day.status, day.message);
      }
      r := Upsert(owner, req, day.value);
      if WellFormed(s0) {
        LedgerLemmas.SaveMealKeepsWellFormed(s0, owner, req, now);
      }
    }

    /** The upsert on the read day. */
    method Upsert(owner: Id, req: MealRequest, day: int) returns (r: Result<Id>)
      modifies this`meals, this`nextId
      ensures var st := Ledger.Upsert(old(LedgerView()), owner, req, day);
              LedgerView() == st.state && r == st.result
    {
      var kitchen := VerifiedKitchen(LedgerView(), owner, MenuLocked);
      if kitchen.Err? {
        return Err(kitchen.status, kitchen.message);
      }
      var price := ToNumber(req.price);
      if price.None? {
        return CastFailure("price");
      }
      var totalQty := ToNumber(req.totalQty);
      if totalQty.None? {
        return CastFailure("totalQty");
      }
      var available := if req.isAvailable == Undefined then true else Truthy(req.isAvailable);
      r := Place(kitchen.value, day, req.mealType, Strings.Trim(req.title), Strings.Trim(req.description),
                 req.imageUrl, price.value, totalQty.value, available);
    }

    /** Overwrite the slot's meal in place, or insert a new one under the next id. */
    method Place(k: Id, day: int, mealType: string, title: string, description: string,
                 imageUrl: string, price: int, totalQty: int, available: bool) returns (r: Result<Id>)
      modifies this`meals, this`nextId
      ensures var st := Ledger.Place(old(LedgerView()), k, day, mealType, title, description, imageUrl, price, totalQty, available);
              LedgerView() == st.state && r == st.result
    {
      var slot := FindSlot(meals, k, day, mealType, nextId);
      if slot.Some? {
        meals := meals[slot.value := Overwrite(meals[slot.value], title, description, imageUrl, price, totalQty, available)];
        r := Ok(slot.value);
      } else {
        meals := meals[nextId := InsertedMeal(k, day, mealType, title, description, imageUrl, price, totalQty, available)];
        r := Ok(nextId);
        nextId := nextId + 1;
      }
    }

    /** `GET /kitchens/my/meals`: read the day, check the kitchen, collect its meals. */
    method ListMenu(owner: Id, date: DateInput, now: Time) returns (r: Result<set<Id>>)
      ensures r == Ledger.ListMenu(LedgerView(), owner, date, now)
    {
      var day := ParseDateOnlyUtc(date, now);
      if day.Err? {
        return Err(day.status, day.message);
      }
      var kitchen := VerifiedKitchen(LedgerView(), owner, MenuLocked);
      if kitchen.Err? {
        return Err(kitchen.status, kitchen.message);
      }
      r := Ok(set m | m in meals && meals[m].kitchenId == kitchen.value && meals[m].date == day.value);
    }

    /** `GET /kitchens/my/orders`: read the day, check the kitchen, collect its open orders. */
    method OrdersDashboard(owner: Id, date: DateInput, now: Time) returns (r: Result<set<Id>>)
      ensures r == Ledger.OrdersDashboard(LedgerView(), owner, date, now)
    {
      var day := ParseDateOnlyUtc(date, now);
      if day.Err? {
        return Err(day.status, day.message);
      }
      var kitchen := VerifiedKitchen(LedgerView(), owner, OrdersLocked);
      if kitchen.Err? {
        return Err(kitchen.status, kitchen.message);
      }
      r := Ok(set o | o in orders && orders[o].kitchenId == kitchen.value && orders[o].date == day.value
                      && Decidable(orders[o].status));
    }

    /** `POST /kitchens/register`: create the kitchen, then set the owner's role to `kitchen`. */
    method RegisterKitchen(owner: Id, name: string, description: string, addressText: string) returns (r: Result<Id>)
      modifies this`kitchens, this`nextId, this`users
      ensures var st := KitchenProfile.Register(old(LedgerView()), owner, name, description, addressText);
              LedgerView() == st.state && r == st.result
      ensures users == if r.Ok? then WithRole(old(users), owner, KitchenRole) else old(users)
    {
      if name == "" {
        return Err(400, "name is required");
      }
      var existing := OwnedKitchen(kitchens, owner, nextId);
      if existing.Some? {
        return Err(400, "Kitchen already registered for this account");
      }
      var trimmed := Strings.Trim(name);
      if trimmed == "" {
        return Err(500, KitchenProfile.NameRequiredByValidation);
      }
      ghost var s0 := LedgerView();
      kitchens := kitchens[nextId := NewKitchen(owner, trimmed, description, addressText)];
      r := Ok(nextId);
      nextId := nextId + 1;
      assert LedgerView() == KitchenProfile.Register(s0, owner, name, description, addressText).state;
      users := WithRole(users, owner, KitchenRole);
    }

    /** `POST /kitchens/my/verification`: after the checks, the kitchen's fields are assigned
        one by one and the kitchen saved. */
    method SubmitVerification(owner: Id, f: KitchenProfile.VerificationForm, sep: char, now: int) returns (r: Result<Kitchen>)
      modifies this`kitchens
      ensures var st := KitchenProfile.SubmitVerification(old(LedgerView()), owner, f, sep, now);
              LedgerView() == st.state && r == st.result
    {
      var uploads := KitchenProfile.CheckUploads(f);
      if uploads.Err? {
        return Err(uploads.status, uploads.message);
      }
      var k := OwnedKitchen(kitchens, owner, nextId);
      if k.None? {
        return Err(404, KitchenProfile.NoKitchenForAccount);
      }
      var checked := KitchenProfile.CheckVerificationForm(f, now);
      if checked.Err? {
        return Err(checked.status, checked.message);
      }
      var kit := kitchens[k.value];
      kit := kit.(fssai := kit.fssai.(licenseNumber := f.licenseNumber));
      kit := kit.(fssai := kit.fssai.(businessName := f.businessName));
      kit := kit.(fssai := kit.fssai.(expiryDate := Some(checked.value)));
      kit := kit.(fssai := kit.fssai.(validationStatus := Pending));
      kit := kit.(documents := kit.documents.(fssaiCertificate := Uploads.BuildFileDoc(f.fssaiFile, sep, now)));
      kit := kit.(documents := kit.documents.(governmentId := GovernmentId(f.idType, f.nameOnId, Uploads.BuildFileDoc(f.govIdFile, sep, now))));
      if |f.photos| > 0 {
        var photos := seq(|f.photos|, i requires 0 <= i < |f.photos| => Uploads.BuildFileDoc(Some(f.photos[i]), sep, now).value);
        kit := kit.(documents := kit.documents.(kitchenPhotos := photos));
      }
      kit := kit.(verificationStatus := Pending);
      kit := kit.(verificationRejectedReason := "");
      kit := kit.(verified := false);
      kitchens := kitchens[k.value := kit];
      r := Ok(kit);
    }

    /** `PATCH /kitchens/my/location`. */
    method SetLocation(owner: Id, pincode: JsValue, addressText: JsValue) returns (r: Result<Kitchen>)
      modifies this`kitchens
      ensures var st := KitchenProfile.SetLocation(old(LedgerView()), owner, pincode, addressText);
              LedgerView() == st.state && r == st.result
    {
      var p := KitchenProfile.NormalizedPincode(pincode);
      var address := KitchenProfile.AddressUpdate(addressText);
      r := Locate(owner, p, address);
    }

    /** The location update once the pincode text and the address update are known. */
    method Locate(owner: Id, p: string, address: Option<string>) returns (r: Result<Kitchen>)
      modifies this`kitchens
      ensures var st := KitchenProfile.Locate(old(LedgerView()), owner, p, address);
              LedgerView() == st.state && r == st.result
    {
      if p == "" {
        return Err(400, "pincode is required");
      }
      if !KitchenProfile.PincodeOk(p) {
        return Err(400, "pincode must be 4-10 digits");
      }
      var k := OwnedKitchen(kitchens, owner, nextId);
      if k.None? {
        return Err(404, KitchenProfile.NoKitchenForAccount);
      }
      var stored := kitchens[k.value];
      var text := if address.None? then stored.addressText else address.value;
      var kit := stored.(pincode := p, addressText := text, pincodeVerificationStatus := Verified);
      kitchens := kitchens[k.value := kit];
      r := Ok(kit);
    }

    /** `PATCH /kitchens/my/daily-order-limit`. */
    method SetDailyOrderLimit(owner: Id, raw: JsValue) returns (r: Result<Kitchen>)
      modifies this`kitchens
      ensures var st := KitchenProfile.SetDailyOrderLimit(old(LedgerView()), owner, raw);
              LedgerView() == st.state && r == st.result
    {
      var n := ToNumber(raw);
      if n.None? || n.value < 0 {
        return Err(400, "dailyOrderLimit must be >= 0");
      }
      var k := OwnedKitchen(kitchens, owner, nextId);
      if k.None? {
        return Err(404, KitchenProfile.NoKitchenForAccount);
      }
      var kit := kitchens[k.value].(dailyOrderLimit := n.value);
      kitchens := kitchens[k.value := kit];
      r := Ok(kit);
    }

    /** `POST /kitchens/my/video-call/request`. */
    method RequestVideoCall(owner: Id, preferredSlotText: JsValue) returns (r: Result<Kitchen>)
      modifies this`kitchens
      ensures var st := KitchenProfile.RequestVideoCall(old(LedgerView()), owner, preferredSlotText);
              LedgerView() == st.state && r == st.result
    {
      if !Truthy(preferredSlotText) {
        return Err(400, "preferredSlotText is required");
      }
      var k := OwnedKitchen(kitchens, owner, nextId);
      if k.None? {
        return Err(404, KitchenProfile.NoKitchenForAccount);
      }
      var kit := kitchens[k.value].(videoCallStatus := CallRequested, preferredSlotText := ToText(preferredSlotText));
      kitchens := kitchens[k.value := kit];
      r := Ok(kit);
    }

    /** `POST /kitchens/my/premium-verification/trial-order`. */
    method RequestTrialOrder(owner: Id, notes: JsValue) returns (r: Result<Kitchen>)
      modifies this`kitchens
      ensures var st := KitchenProfile.RequestTrialOrder(old(LedgerView()), owner, notes);
              LedgerView() == st.state && r == st.result
    {
      var k := OwnedKitchen(kitchens, owner, nextId);
      if k.None? {
        return Err(404, KitchenProfile.NoKitchenForAccount);
      }
      var kit := kitchens[k.value].(trialOrderStatus := TrialRequested, trialNotes := TextOrEmpty(notes));
      kitchens := kitchens[k.value := kit];
      r := Ok(kit);
    }

    /** `POST /kitchens/:id/rating`: the upsert of the (user, kitchen) rating. */
    method Rate(userId: Id, kitchenId: Id, rating: JsValue, feedback: JsValue) returns (r: Result<Rating>)
      modifies this`ratings
      ensures var o := KitchenProfile.Rate(old(ratings), old(kitchens), userId, kitchenId, rating, feedback);
              ratings == o.0 && r == o.1
    {
      if !Truthy(rating) {
        return Err(400, "rating is required");
      }
      var n := ToNumber(rating);
      if n.None? || n.value < 1 || n.value > 5 {
        return Err(400, "rating must be between 1 and 5");
      }
      if kitchenId !in kitchens {
        return Err(404, "Kitchen not found");
      }
      var doc := Rating(n.value, TextOrEmpty(feedback));
      ratings := ratings[(userId, kitchenId) := doc];
      r := Ok(doc);
    }

    // -------------------------------------------------------------- favoriteRoutes.js

    /** `POST /favorites/:kitchenId/toggle`: `$pull` when the kitchen is listed, `$addToSet`
        otherwise; the answer is the new membership. */
    method ToggleFavorite(userId: Id, kitchenId: Id) returns (r: Result<bool>)
      modifies this`users
      ensures var o := Favorites.Toggle(old(users), old(kitchens), userId, kitchenId);
              users == o.0 && r == o.1
    {
      if kitchenId !in kitchens {
        return Err(404, "Kitchen not found");
      }
      if userId !in users {
        return Err(500, Favorites.NoUserMessage);
      }
      var favs := users[userId].favoriteKitchens;
      var listed := kitchenId in favs;
      if listed {
        users := users[userId := users[userId].(favoriteKitchens := Favorites.Without(favs, kitchenId))];
      } else {
        users := users[userId := users[userId].(favoriteKitchens := Favorites.WithAdded(favs, kitchenId))];
      }
      r := Ok(!listed);
    }

    // -------------------------------------------------------------- subscriptionRoutes.js

    /** `GET /subscriptions/plans`: with no active plan, upsert the defaults one by one, then
        read the active plans. */
    method ListPlans() returns (r: Result<set<Id>>)
      modifies this`plans, this`nextRecordId
      ensures var o := Subscriptions.ListPlans(old(RecordView()));
              RecordView() == o.records && r == o.result
    {
      if Subscriptions.HasActivePlan(plans) {
        return Ok(Subscriptions.ActivePlans(plans));
      }
      var defaults := Subscriptions.DefaultPlans;
      for i := 0 to |defaults|
        invariant RecordView() == Subscriptions.SeedAll(old(RecordView()), defaults[..i])
      {
        assert defaults[..i + 1][..i] == defaults[..i];
        var p := defaults[i];
        if !Subscriptions.HasPlanKey(plans, p.planType, p.mealsPerDay) {
          plans := plans[nextRecordId := Subscriptions.SeededPlan(p)];
          nextRecordId := nextRecordId + 1;
        }
      }
      assert defaults[..|defaults|] == defaults;
      r := Ok(Subscriptions.ActivePlans(plans));
    }

    /** `POST /subscriptions/subscribe`: the end is the start moved by the plan's days. */
    method Subscribe(userId: Id, planId: Option<Id>, startDate: DateInput, now: Time) returns (r: Result<Id>)
      modifies this`subscriptions, this`nextRecordId
      ensures var o := Subscriptions.Subscribe(old(RecordView()), userId, planId, startDate, now);
              RecordView() == o.records && r == o.result
    {
      var start := ParseDateOnlyUtc(startDate, now);
      r := SubscribeFrom(userId, planId, start);
    }

    /** The subscribe handler with `startDate` parsed into `start`. */
    method SubscribeFrom(userId: Id, planId: Option<Id>, start: Result<Time>) returns (r: Result<Id>)
      modifies this`subscriptions, this`nextRecordId
      ensures var o := Subscriptions.SubscribeFrom(old(RecordView()), userId, planId, start);
              RecordView() == o.records && r == o.result
    {
      if planId.None? {
        return Err(400, "planId is required");
      }
      if planId.value !in plans || !plans[planId.value].isActive {
        return Err(404, "Plan not found");
      }
      if start.Err? {
        return Err(start.status, start.message);
      }
      var end := AddUtcDays(start.value, Subscriptions.PlanDays(plans[planId.value].planType));
      if end.None? {
        return Err(500, Subscriptions.EndDateInvalid);
      }
      subscriptions := subscriptions[nextRecordId := Subscription(userId, planId.value, start.value, end.value, Active)];
      r := Ok(nextRecordId);
      nextRecordId := nextRecordId + 1;
    }

    // -------------------------------------------------------------- userRoutes.js

    /** `resolveRoleForUser`: assign the resolved role and save only when it changed. */
    method ResolveRole(adminEmails: seq<string>, userId: Id) returns (role: Role)
      requires userId in users
      modifies this`users
      ensures (users, role) == Accounts.ResolveRole(old(users), old(kitchens), adminEmails, userId)
    {
      var u := users[userId];
      role := Accounts.RoleFor(u.email, Accounts.OwnsKitchen(kitchens, userId), adminEmails);
      if u.role != role {
        users := users[userId := u.(role := role)];
      }
    }

    /** `POST /signup`. */
    method Signup(name: string, email: JsValue, password: JsValue) returns (r: Result<Id>)
      modifies this`users, this`nextRecordId
      ensures var o := Accounts.Signup(old(RecordView()), name, email, password);
              RecordView() == o.records && r == o.result
    {
      var checked := Accounts.CheckSignup(name, email, password);
      r := SignupWith(name, checked);
    }

    /** The signup handler past its checks. */
    method SignupWith(name: string, checked: Result<string>) returns (r: Result<Id>)
      modifies this`users, this`nextRecordId
      ensures var o := Accounts.SignupWith(old(RecordView()), name, checked);
              RecordView() == o.records && r == o.result
    {
      if checked.Err? {
        return Err(checked.status, checked.message);
      }
      if Accounts.EmailTaken(users, checked.value) {
        return Err(400, "User already exists");
      }
      users := users[nextRecordId := NewUser(name, checked.value)];
      r := Ok(nextRecordId);
      nextRecordId := nextRecordId + 1;
    }

    // -------------------------------------------------------------- adminRoutes.js

    /** `PATCH /admin/users/:id/status`. */
    method SetUserStatus(userId: Id, isActivated: JsValue) returns (r: Result<User>)
      modifies this`users
      ensures var o := AdminRules.SetUserStatus(old(RecordView()), userId, isActivated);
              RecordView() == o.records && r == o.result
    {
      if !isActivated.Bool? {
        return Err(400, "isActivated (boolean) is required");
      }
      if userId !in users {
        return Err(404, "User not found");
      }
      var u := users[userId].(isActivated := isActivated.b);
      users := users[userId := u];
      r := Ok(u);
    }

    /** `PATCH /admin/kitchens/:id/decision`: the `$set` is built field by field, then applied. */
    method DecideKitchen(kitchenId: Id, decision: JsValue, reason: JsValue, verifiedBadge: JsValue, now: int)
      returns (r: Result<Kitchen>)
      modifies this`kitchens
      ensures var st := AdminRules.DecideKitchen(old(LedgerView()), kitchenId, decision, reason, verifiedBadge, now);
              LedgerView() == st.state && r == st.result
    {
      if decision != Str("verified") && decision != Str("rejected") {
        return Err(400, "decision must be 'verified' or 'rejected'");
      }
      if decision == Str("rejected") && !Truthy(reason) {
        return Err(400, "reason is required when rejecting");
      }
      if kitchenId !in kitchens {
        return Err(404, AdminRules.KitchenNotFound);
      }
      var kit := kitchens[kitchenId];
      if decision == Str("verified") {
        var badge := if verifiedBadge == Undefined || verifiedBadge == Null then true else Truthy(verifiedBadge);
        kit := kit.(verified := true, verificationStatus := Verified, verificationRejectedReason := "");
        kit := kit.(verifiedAt := Some(now), verifiedBadge := badge);
        kit := kit.(fssai := kit.fssai.(validationStatus := Verified));
      } else {
        kit := kit.(verified := false, verificationStatus := ReviewStatus.Rejected, verificationRejectedReason := ToText(reason));
        kit := kit.(verifiedAt := None, verifiedBadge := false);
      }
      kitchens := kitchens[kitchenId := kit];
      r := Ok(kit);
    }

    /** `PATCH /admin/kitchens/:id/fssai`. */
    method SetFssaiStatus(kitchenId: Id, status: JsValue, reason: JsValue, notes: JsValue) returns (r: Result<Kitchen>)
      modifies this`kitchens
      ensures var st := AdminRules.SetFssaiStatus(old(LedgerView()), kitchenId, status, reason, notes);
              LedgerView() == st.state && r == st.result
    {
      var v := if status.Str? then ParseReviewStatus(status.s) else None;
      if v.None? {
        return Err(400, "status must be pending/verified/rejected");
      }
      if kitchenId !in kitchens {
        return Err(404, AdminRules.KitchenNotFound);
      }
      var kit := kitchens[kitchenId];
      kit := kit.(fssai := AdminRules.WithFssaiStatus(kit.fssai, v.value, reason, notes));
      kitchens := kitchens[kitchenId := kit];
      r := Ok(kit);
    }

    /** `PATCH /admin/kitchens/:id/location-decision`. */
    method DecideLocation(kitchenId: Id, decision: JsValue) returns (r: Result<Kitchen>)
      modifies this`kitchens
      ensures var st := AdminRules.DecideLocation(old(LedgerView()), kitchenId, decision);
              LedgerView() == st.state && r == st.result
    {
      var v := if decision.Str? then ParseReviewStatus(decision.s) else None;
      if v.None? {
        return Err(400, "decision must be 'verified', 'rejected', or 'pending'");
      }
      if kitchenId !in kitchens {
        return Err(404, AdminRules.KitchenNotFound);
      }
      var kit := kitchens[kitchenId].(pincodeVerificationStatus := v.value);
      kitchens := kitchens[kitchenId := kit];
      r := Ok(kit);
    }

    /** `PATCH /admin/kitchens/:id/video-call/schedule`. */
    method ScheduleVideoCall(kitchenId: Id, scheduledAt: AdminRules.ScheduleField) returns (r: Result<Kitchen>)
      modifies this`kitchens
      ensures var st := AdminRules.ScheduleVideoCall(old(LedgerView()), kitchenId, scheduledAt);
              LedgerView() == st.state && r == st.result
    {
      if scheduledAt.NoSchedule? {
        return Err(400, "scheduledAt is required");
      }
      if scheduledAt.UnreadableSchedule? {
        return Err(400, "scheduledAt must be a valid datetime");
      }
      if kitchenId !in kitchens {
        return Err(404, AdminRules.KitchenNotFound);
      }
      var kit := kitchens[kitchenId].(videoCallStatus := CallScheduled, scheduledAt := Some(scheduledAt.ms));
      kitchens := kitchens[kitchenId := kit];
      r := Ok(kit);
    }

    /** `PATCH /admin/kitchens/:id/premium-trial`. */
    method SetTrialResult(kitchenId: Id, status: JsValue, notes: JsValue) returns (r: Result<Kitchen>)
      modifies this`kitchens
      ensures var st := AdminRules.SetTrialResult(old(LedgerView()), kitchenId, status, notes);
              LedgerView() == st.state && r == st.result
    {
      var v := if status.Str? then ParseTrialOrderStatus(status.s) else None;
      if v.None? {
        return Err(400, "status must be one of not_requested/requested/passed/failed");
      }
      if kitchenId !in kitchens {
        return Err(404, AdminRules.KitchenNotFound);
      }
      var kit := kitchens[kitchenId].(trialOrderStatus := v.value, trialNotes := TextOrEmpty(notes));
      kitchens := kitchens[kitchenId := kit];
      r := Ok(kit);
    }

    /** `PATCH /admin/kitchens/:id/suspend`. */
    method SuspendKitchen(kitchenId: Id, isActive: JsValue) returns (r: Result<Kitchen>)
      modifies this`kitchens
      ensures var st := AdminRules.Suspend(old(LedgerView()), kitchenId, isActive);
              LedgerView() == st.state && r == st.result
    {
      if kitchenId !in kitchens {
        return Err(404, AdminRules.KitchenNotFound);
      }
      var kit := kitchens[kitchenId].(isActive := Truthy(isActive));
      kitchens := kitchens[kitchenId := kit];
      r := Ok(kit);
    }

    /** `POST /admin/complaints`. */
    method CreateComplaint(message: JsValue, complaintType: JsValue, status: JsValue, severity: JsValue,
                           labels: Option<seq<string>>, reporterUserId: Option<Id>, kitchenId: Option<Id>,
                           orderId: Option<Id>, category: JsValue) returns (r: Result<Id>)
      modifies this`complaints, this`nextRecordId
      ensures var o := AdminRules.CreateComplaint(old(RecordView()), message, complaintType, status, severity, labels,
                                                  reporterUserId, kitchenId, orderId, category);
              RecordView() == o.records && r == o.result
    {
      if !Truthy(message) {
        return Err(400, "message is required");
      }
      var c := AdminRules.NewComplaint(message, complaintType, status, severity, labels, reporterUserId, kitchenId, orderId, category);
      complaints := complaints[nextRecordId := c];
      r := Ok(nextRecordId);
      nextRecordId := nextRecordId + 1;
    }

    /** `PATCH /admin/complaints/:id/status`: the `$set` is built field by field, each enum
        field checked as it is added, then applied. */
    method PatchComplaint(complaintId: Id, status: JsValue, adminNotes: JsValue, severity: JsValue,
                          labels: Option<seq<string>>) returns (r: Result<Complaint>)
      modifies this`complaints
      ensures var o := AdminRules.PatchComplaint(old(RecordView()), complaintId, status, adminNotes, severity, labels);
              RecordView() == o.records && r == o.result
    {
      var u := AdminRules.ComplaintUpdateOf(status, adminNotes, severity, labels);
      if u.Err? {
        return Err(u.status, u.message);
      }
      if complaintId !in complaints {
        return Err(404, "Complaint not found");
      }
      var c := u.value.ApplyTo(complaints[complaintId]);
      complaints := complaints[complaintId := c];
      r := Ok(c);
    }

    /** `PATCH /admin/announcements/:id`: the `$set` is built field by field, invalid enum
        values skipped, then cast and applied. */
    method PatchAnnouncement(announcementId: Id, title: JsValue, body: JsValue, status: JsValue, audience: JsValue,
                             publishAt: AdminRules.PublishAt, priority: JsValue) returns (r: Result<Announcement>)
      modifies this`announcements
      ensures var o := AdminRules.PatchAnnouncement(old(RecordView()), announcementId, title, body, status, audience,
                                                    publishAt, priority);
              RecordView() == o.records && r == o.result
    {
      var u := AdminRules.AnnouncementUpdateOf(title, body, status, audience, publishAt, priority);
      if u.Err? {
        return Err(u.status, u.message);
      }
      if u.value.publishAt.PublishUnreadable? {
        return Err(500, AdminRules.PublishAtCastFailure);
      }
      if announcementId !in announcements {
        return Err(404, "Announcement not found");
      }
      var a := u.value.ApplyTo(announcements[announcementId]);
      announcements := announcements[announcementId := a];
      r := Ok(a);
    }
  }
}
