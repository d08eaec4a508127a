/** The meal-inventory ledger: the stored kitchens, meals and orders, and the five handlers
    that move stock between them (Backend/controllers/orderRoutes.js prebook, cancel and
    payment-method; Backend/controllers/kitchenRoutes.js order decision and meal upsert).
    Each handler is one atomic step from a state to a new state and a response; an error
    response leaves the state as it was. Ids are allocated from one counter `nextId`, the
    stand-in for fresh ObjectIds. */
module Ledger {
  import opened Http
  import opened Strings
  import opened Dates
  import opened Js
  import opened MealModel
  import opened OrderModel
  import opened KitchenModel

  datatype LedgerState = LedgerState(
    kitchens: map<Id, Kitchen>,
    meals: map<Id, Meal>,
    orders: map<Id, Order>,
    nextId: nat)

  /** A handler's effect: the state after it and its response. */
  datatype Step<T> = Step(state: LedgerState, result: Result<T>)

  // ---------------------------------------------------------------- invariants

  predicate IdsBelow(s: LedgerState) {
    (forall k :: k in s.kitchens ==> k < s.nextId)
    && (forall m :: m in s.meals ==> m < s.nextId)
    && (forall o :: o in s.orders ==> o < s.nextId)
  }

  /** The unique index (kitchenId, date, mealType) of mealModel.js. */
  predicate SlotsUnique(meals: map<Id, Meal>) {
    forall a, b :: a in meals && b in meals && SameSlot(meals[a], meals[b]) ==> a == b
  }

  /** Registration admits one kitchen per owner. */
  predicate OwnersUnique(kitchens: map<Id, Kitchen>) {
    forall a, b :: a in kitchens && b in kitchens && kitchens[a].ownerUserId == kitchens[b].ownerUserId ==> a == b
  }

  /** Every order points at a stored meal of its own kitchen and books at least one unit. */
  predicate OrdersWellFormed(s: LedgerState) {
    forall o :: o in s.orders ==>
      s.orders[o].mealId in s.meals && s.meals[s.orders[o].mealId].kitchenId == s.orders[o].kitchenId
      && s.orders[o].qty >= 1
  }

  predicate KitchensValid(kitchens: map<Id, Kitchen>) {
    forall k :: k in kitchens ==> Valid(kitchens[k])
  }

  /** The structural invariant every handler, as written, preserves. */
  predicate WellFormed(s: LedgerState) {
    IdsBelow(s) && SlotsUnique(s.meals) && OwnersUnique(s.kitchens) && OrdersWellFormed(s)
    && KitchensValid(s.kitchens)
  }

  /** The statuses whose quantity is still held by the meal: reserved at prebook and
      released only by a cancel or a reject. */
  predicate Holds(st: OrderStatus) {
    st == Prebooked || st == Accepted || st == Fulfilled
  }

  function Contribution(o: Order, meal: Id): int {
    if o.mealId == meal && Holds(o.status) then o.qty else 0
  }

  /** The quantity of meal `meal` held by the orders with ids below n. */
  function Reserved(orders: map<Id, Order>, meal: Id, n: nat): int {
    if n == 0 then 0
    else Reserved(orders, meal, n - 1) + (if n - 1 in orders then Contribution(orders[n - 1], meal) else 0)
  }

  /** The ledger balances: each meal's `soldQty` is the quantity its live orders hold. */
  predicate Consistent(s: LedgerState) {
    forall m :: m in s.meals ==> s.meals[m].soldQty == Reserved(s.orders, m, s.nextId)
  }

  // ---------------------------------------------------------------- lookups

  predicate InSlot(m: Meal, kitchenId: Id, date: int, mealType: string) {
    m.kitchenId == kitchenId && m.date == date && m.mealType == mealType
  }

  /** `findOne({ kitchenId, date, mealType })`: the meal of a slot (the lowest id below n). */
  function FindSlot(meals: map<Id, Meal>, kitchenId: Id, date: int, mealType: string, n: nat): (r: Option<Id>)
    ensures r.Some? ==> r.value < n && r.value in meals && InSlot(meals[r.value], kitchenId, date, mealType)
    ensures r.None? ==> forall id :: id in meals && id < n ==> !InSlot(meals[id], kitchenId, date, mealType)
  {
    if n == 0 then None
    else
      var r := FindSlot(meals, kitchenId, date, mealType, n - 1);
      if r.Some? then r
      else if n - 1 in meals && InSlot(meals[n - 1], kitchenId, date, mealType) then Some(n - 1)
      else None
  }

  /** Under the unique index, the slot lookup finds exactly the meal of the slot. */
  lemma FindSlotExact(s: LedgerState, kitchenId: Id, date: int, mealType: string, id: Id)
    requires WellFormed(s)
    ensures FindSlot(s.meals, kitchenId, date, mealType, s.nextId) == Some(id)
            <==> id in s.meals && InSlot(s.meals[id], kitchenId, date, mealType)
  {
    var r := FindSlot(s.meals, kitchenId, date, mealType, s.nextId);
    if id in s.meals && InSlot(s.meals[id], kitchenId, date, mealType) {
      assert r.Some?;
      assert SameSlot(s.meals[r.value], s.meals[id]);
    }
  }

  /** `findOne({ ownerUserId })`: the owner's kitchen (the lowest id below n). */
  function OwnedKitchen(kitchens: map<Id, Kitchen>, owner: Id, n: nat): (r: Option<Id>)
    ensures r.Some? ==> r.value < n && r.value in kitchens && kitchens[r.value].ownerUserId == owner
    ensures r.None? ==> forall id :: id in kitchens && id < n ==> kitchens[id].ownerUserId != owner
  {
    if n == 0 then None
    else
      var r := OwnedKitchen(kitchens, owner, n - 1);
      if r.Some? then r
      else if n - 1 in kitchens && kitchens[n - 1].ownerUserId == owner then Some(n - 1)
      else None
  }

  /** Under one-kitchen-per-owner, the owner lookup finds exactly the owner's kitchen. */
  lemma OwnedKitchenExact(s: LedgerState, owner: Id, id: Id)
    requires WellFormed(s)
    ensures OwnedKitchen(s.kitchens, owner, s.nextId) == Some(id)
            <==> id in s.kitchens && s.kitchens[id].ownerUserId == owner
  {
  }

  predicate CountsTowardLimit(o: Order, kitchenId: Id, day: int) {
    o.kitchenId == kitchenId && o.date == day && o.status != Cancelled
  }

  /** `countDocuments({ kitchenId, date: day, status: { $ne: "cancelled" } })` over ids below n. */
  function ActiveOrderCount(orders: map<Id, Order>, kitchenId: Id, day: int, n: nat): (c: nat)
    ensures c <= n
  {
    if n == 0 then 0
    else ActiveOrderCount(orders, kitchenId, day, n - 1)
         + (if n - 1 in orders && CountsTowardLimit(orders[n - 1], kitchenId, day) then 1 else 0)
  }

  // ---------------------------------------------------------------- prebook

  /** The body of `POST /orders/prebook`; `userId` is the authenticated caller and
      `kitchenId` None a missing (falsy) field. */
  datatype PrebookRequest = PrebookRequest(
    userId: Id,
    kitchenId: Option<Id>,
    date: DateInput,
    mealType: string,
    qty: JsValue,
    paymentMethod: string)

  /** The conditional `$inc` of the reserve: the slot's meal when it is available and has
      at least qty units left. */
  function FindReservable(meals: map<Id, Meal>, kitchenId: Id, day: int, mealType: string, qty: int, n: nat): (r: Option<Id>)
    ensures r.Some? ==> r.value in meals && InSlot(meals[r.value], kitchenId, day, mealType)
                        && meals[r.value].isAvailable && meals[r.value].totalQty - meals[r.value].soldQty >= qty
  {
    match FindSlot(meals, kitchenId, day, mealType, n)
    case Some(id) =>
      if meals[id].isAvailable && meals[id].totalQty - meals[id].soldQty >= qty then Some(id) else None
    case None => None
  }

  function Prebook(s: LedgerState, req: PrebookRequest, now: Time): (st: Step<Id>)
    ensures st.result.Err? ==> st.state == s
    ensures st.result.Ok? ==> st.result.value == s.nextId && st.state.nextId == s.nextId + 1
  {
    PrebookOn(s, req, ParseDateOnlyUtc(req.date, now))
  }

  /** Prebook with `day` the outcome of reading the request's date; the date is only looked
      at once the other fields have passed their checks. */
  function PrebookOn(s: LedgerState, req: PrebookRequest, day: Result<Time>): (st: Step<Id>)
    ensures st.result.Err? ==> st.state == s
    ensures st.result.Ok? ==> st.result.value == s.nextId && st.state.nextId == s.nextId + 1
  {
    if req.kitchenId.None? || Falsy(req.date) || req.mealType == "" || !Truthy(req.qty) then
      Step(s, Err(400, "kitchenId, date, mealType, qty are required"))
    else if ParseMealType(req.mealType).None? then
      Step(s, Err(400, "mealType must be breakfast, lunch, snacks, or dinner"))
    else if req.paymentMethod != "" && ParsePaymentMethod(req.paymentMethod).None? then
      Step(s, Err(400, "paymentMethod must be upi or card"))
    else if ToNumber(req.qty).None? || ToNumber(req.qty).value < 1 then
      Step(s, Err(400, "qty must be >= 1"))
    else
      match day
      case Err(code, msg) => Step(s, Err(code, msg))
      case Ok(d) =>
        Reserve(s, req.userId, req.kitchenId.value, d, ParseMealType(req.mealType).value, ToNumber(req.qty).value,
                if req.paymentMethod == "" then None else ParsePaymentMethod(req.paymentMethod))
  }

  /** Prebook once the request has been read: the kitchen check, the daily gate, and the
      conditional reserve followed by the order's creation. */
  function Reserve(s: LedgerState, userId: Id, kitchenId: Id, day: int, mealType: MealType, qty: int,
                   paymentMethod: Option<PaymentMethod>): (st: Step<Id>)
    ensures st.result.Err? ==> st.state == s
    ensures st.result.Ok? ==> st.result.value == s.nextId && st.state.nextId == s.nextId + 1
  {
    if kitchenId !in s.kitchens || !s.kitchens[kitchenId].isActive then
      Step(s, Err(404, "Kitchen not found"))
    else if ActiveOrderCount(s.orders, kitchenId, day, s.nextId) >= s.kitchens[kitchenId].dailyOrderLimit then
      Step(s, Err(400, "Kitchen has reached its daily order limit"))
    else
      match FindReservable(s.meals, kitchenId, day, mealType.Name(), qty, s.nextId)
      case None => Step(s, Err(400, "Meal unavailable or insufficient quantity"))
      case Some(mealId) =>
        Step(Book(s, userId, kitchenId, mealId, day, mealType, qty, paymentMethod), Ok(s.nextId))
  }

  /** The reserve's `$inc: { soldQty: qty }` followed by the order's creation under a fresh id. */
  function Book(s: LedgerState, userId: Id, kitchenId: Id, mealId: Id, day: int, mealType: MealType,
                qty: int, paymentMethod: Option<PaymentMethod>): (t: LedgerState)
    requires mealId in s.meals
    ensures t.nextId == s.nextId + 1 && t.kitchens == s.kitchens
  {
    var meal := s.meals[mealId];
    LedgerState(s.kitchens, s.meals[mealId := meal.(soldQty := meal.soldQty + qty)],
                s.orders[s.nextId := NewOrder(userId, kitchenId, mealId, day, mealType, qty, paymentMethod)],
                s.nextId + 1)
  }

  // ---------------------------------------------------------------- cancel and payment

  /** `$inc: { soldQty: -qty }` on the meal with that id (no-op when there is none). */
  function ReleaseQty(meals: map<Id, Meal>, mealId: Id, qty: int): (r: map<Id, Meal>)
    ensures r.Keys == meals.Keys
    ensures forall m :: m in meals && m != mealId ==> r[m] == meals[m]
    ensures mealId in meals ==> r[mealId] == meals[mealId].(soldQty := meals[mealId].soldQty - qty)
  {
    if mealId in meals then meals[mealId := meals[mealId].(soldQty := meals[mealId].soldQty - qty)] else meals
  }

  /** `PATCH /orders/:id/cancel` by the authenticated `userId`; the response carries the order. */
  function Cancel(s: LedgerState, userId: Id, orderId: Id): (st: Step<Order>)
    ensures st.result.Err? ==> st.state == s
  {
    if orderId !in s.orders || s.orders[orderId].userId != userId then
      Step(s, Err(404, "Order not found"))
    else if s.orders[orderId].status != Prebooked then
      Step(s, Err(400, "Only prebooked orders can be cancelled"))
    else
      var o := s.orders[orderId].(status := Cancelled);
      Step(s.(orders := s.orders[orderId := o], meals := ReleaseQty(s.meals, o.mealId, o.qty)), Ok(o))
  }

  /** `PATCH /orders/:id/payment-method` by the authenticated `userId`. */
  function SetPaymentMethod(s: LedgerState, userId: Id, orderId: Id, paymentMethod: string): (st: Step<Order>)
    ensures st.result.Err? ==> st.state == s
  {
    if paymentMethod == "" || ParsePaymentMethod(paymentMethod).None? then
      Step(s, Err(400, "paymentMethod must be upi or card"))
    else if orderId !in s.orders || s.orders[orderId].userId != userId then
      Step(s, Err(404, "Order not found"))
    else if s.orders[orderId].status != Prebooked then
      Step(s, Err(400, "Payment can only be set for prebooked orders"))
    else
      var o := s.orders[orderId].(paymentMethod := ParsePaymentMethod(paymentMethod));
      Step(s.(orders := s.orders[orderId := o]), Ok(o))
  }

  // ---------------------------------------------------------------- kitchen side

  const OrdersLocked: string := "Kitchen verification pending. Orders dashboard is locked"
  const MenuLocked: string := "Kitchen verification pending. Menu management is locked"

  /** The caller's kitchen, refused with 404 when there is none and 403 while unverified. */
  function VerifiedKitchen(s: LedgerState, owner: Id, locked: string): (r: Result<Id>)
    ensures r.Ok? ==> r.value in s.kitchens && s.kitchens[r.value].ownerUserId == owner && s.kitchens[r.value].verified
    ensures r.Err? ==> r.status == 404 || (r.status == 403 && r.message == locked)
  {
    match OwnedKitchen(s.kitchens, owner, s.nextId)
    case None => Err(404, "Kitchen not found for this account")
    case Some(k) => if s.kitchens[k].verified then Ok(k) else Err(403, locked)
  }

  /** The decision check: a non-empty text that lower-cases to accept or reject. */
  predicate DecisionAllowed(decision: string) {
    decision != "" && (Lower(decision) == "accept" || Lower(decision) == "reject")
  }

  /** The statuses the decision guard admits. */
  predicate Decidable(st: OrderStatus) {
    st == Prebooked || st == Accepted || st == OrderStatus.Rejected
  }

  /** `PATCH /kitchens/my/orders/:id/decision` as written: the guard admits orders already
      accepted or rejected, and only the exact text "accept" accepts. */
  function Decide(s: LedgerState, owner: Id, orderId: Id, decision: string): (st: Step<Order>)
    ensures st.result.Err? ==> st.state == s
  {
    if !DecisionAllowed(decision) then
      Step(s, Err(400, "decision must be 'accept' or 'reject'"))
    else
      match VerifiedKitchen(s, owner, OrdersLocked)
      case Err(code, msg) => Step(s, Err(code, msg))
      case Ok(k) =>
        if orderId !in s.orders || s.orders[orderId].kitchenId != k then
          Step(s, Err(404, "Order not found"))
        else if !Decidable(s.orders[orderId].status) then
          Step(s, Err(400, "Only pending orders can be decided"))
        else if decision == "accept" then
          var o := s.orders[orderId].(status := Accepted);
          Step(s.(orders := s.orders[orderId := o]), Ok(o))
        else
          var o := s.orders[orderId].(status := OrderStatus.Rejected);
          Step(s.(orders := s.orders[orderId := o], meals := ReleaseQty(s.meals, o.mealId, o.qty)), Ok(o))
  }

  /** The decision as evidently intended: only a pending (`prebooked`) order is decided, and
      the branch uses the same case-insensitive reading as the check. */
  function DecideFixed(s: LedgerState, owner: Id, orderId: Id, decision: string): (st: Step<Order>)
    ensures st.result.Err? ==> st.state == s
  {
    if !DecisionAllowed(decision) then
      Step(s, Err(400, "decision must be 'accept' or 'reject'"))
    else
      match VerifiedKitchen(s, owner, OrdersLocked)
      case Err(code, msg) => Step(s, Err(code, msg))
      case Ok(k) =>
        if orderId !in s.orders || s.orders[orderId].kitchenId != k then
          Step(s, Err(404, "Order not found"))
        else if s.orders[orderId].status != Prebooked then
          Step(s, Err(400, "Only pending orders can be decided"))
        else if Lower(decision) == "accept" then
          var o := s.orders[orderId].(status := Accepted);
          Step(s.(orders := s.orders[orderId := o]), Ok(o))
        else
          var o := s.orders[orderId].(status := OrderStatus.Rejected);
          Step(s.(orders := s.orders[orderId := o], meals := ReleaseQty(s.meals, o.mealId, o.qty)), Ok(o))
  }

  /** Kitchen `k` is stored, belongs to `owner` and is verified. */
  predicate OwnsVerified(s: LedgerState, k: Id, owner: Id) {
    k in s.kitchens && s.kitchens[k].ownerUserId == owner && s.kitchens[k].verified
  }

  /** `GET /kitchens/my/meals`: the day is read first, then the caller's kitchen must exist
      and be verified; the answer is that kitchen's meals on the day. */
  function ListMenu(s: LedgerState, owner: Id, date: DateInput, now: Time): (r: Result<set<Id>>)
    ensures ParseDateOnlyUtc(date, now).Err? ==> r.Err? && r.status == 400
    ensures r.Ok? ==> ParseDateOnlyUtc(date, now).Ok?
    ensures r.Ok? ==> forall m :: m in r.value ==>
              m in s.meals && s.meals[m].date == ParseDateOnlyUtc(date, now).value
              && OwnsVerified(s, s.meals[m].kitchenId, owner)
  {
    MenuOn(s, owner, ParseDateOnlyUtc(date, now))
  }

  /** The menu list once the day has been read into `day`. */
  function MenuOn(s: LedgerState, owner: Id, day: Result<Time>): (r: Result<set<Id>>)
    ensures day.Err? ==> r == Err(day.status, day.message)
    ensures r.Ok? ==> day.Ok? && forall m :: m in r.value ==>
              m in s.meals && s.meals[m].date == day.value && OwnsVerified(s, s.meals[m].kitchenId, owner)
  {
    match day
    case Err(code, msg) => Err(code, msg)
    case Ok(d) =>
      match VerifiedKitchen(s, owner, MenuLocked)
      case Err(code, msg) => Err(code, msg)
      case Ok(k) => Ok(set m | m in s.meals && s.meals[m].kitchenId == k && s.meals[m].date == d)
  }

  /** `GET /kitchens/my/orders`: the day is read first, then the caller's kitchen must exist
      and be verified; the answer is that kitchen's orders on the day whose status is
      `prebooked`, `accepted` or `rejected`. */
  function OrdersDashboard(s: LedgerState, owner: Id, date: DateInput, now: Time): (r: Result<set<Id>>)
    ensures ParseDateOnlyUtc(date, now).Err? ==> r.Err? && r.status == 400
    ensures r.Ok? ==> ParseDateOnlyUtc(date, now).Ok?
    ensures r.Ok? ==> forall o :: o in r.value ==>
              o in s.orders && s.orders[o].date == ParseDateOnlyUtc(date, now).value
              && OwnsVerified(s, s.orders[o].kitchenId, owner) && Decidable(s.orders[o].status)
  {
    DashboardOn(s, owner, ParseDateOnlyUtc(date, now))
  }

  /** The orders dashboard once the day has been read into `day`. */
  function DashboardOn(s: LedgerState, owner: Id, day: Result<Time>): (r: Result<set<Id>>)
    ensures day.Err? ==> r == Err(day.status, day.message)
    ensures r.Ok? ==> day.Ok? && forall o :: o in r.value ==>
              o in s.orders && s.orders[o].date == day.value && OwnsVerified(s, s.orders[o].kitchenId, owner)
              && Decidable(s.orders[o].status)
  {
    match day
    case Err(code, msg) => Err(code, msg)
    case Ok(d) =>
      match VerifiedKitchen(s, owner, OrdersLocked)
      case Err(code, msg) => Err(code, msg)
      case Ok(k) =>
        Ok(set o | o in s.orders && s.orders[o].kitchenId == k && s.orders[o].date == d
                   && Decidable(s.orders[o].status))
  }

  /** The body of `POST /kitchens/my/meals`. Text fields are "" when absent; `price` and
      `totalQty` are raw values (`Undefined` when absent). */
  datatype MealRequest = MealRequest(
    date: DateInput,
    mealType: string,
    title: string,
    description: string,
    imageUrl: string,
    price: JsValue,
    totalQty: JsValue,
    isAvailable: JsValue)

  /** The Mongoose cast failure a NaN number meets when the update is cast (no status code,
      so the error middleware answers 500). The message is the library's, abbreviated: its
      full text also names the value's type. */
  function CastFailure(path: string): Result<Id> {
    Err(500, "Cast to Number failed for value \"NaN\" at path \"" + path + "\"")
  }

  /** The meal with its `$set` fields overwritten; key fields and `soldQty` untouched. */
  function Overwrite(m: Meal, title: string, description: string, imageUrl: string,
                     price: int, totalQty: int, isAvailable: bool): (r: Meal)
    ensures SameSlot(r, m) && r.soldQty == m.soldQty
    ensures r.title == title && r.description == description && r.imageUrl == imageUrl
    ensures r.price == price && r.totalQty == totalQty && r.isAvailable == isAvailable
  {
    m.(title := title, description := description, imageUrl := imageUrl,
       price := price, totalQty := totalQty, isAvailable := isAvailable)
  }

  /** `POST /kitchens/my/meals`: an upsert keyed by (kitchen, day, mealType). */
  function SaveMeal(s: LedgerState, owner: Id, req: MealRequest, now: Time): (st: Step<Id>)
    ensures st.result.Err? ==> st.state == s
  {
    if Falsy(req.date) || req.mealType == "" || req.title == "" || req.price == Undefined || req.totalQty == Undefined then
      Step(s, Err(400, "date, mealType, title, price, totalQty are required"))
    else
      match ParseDateOnlyUtc(req.date, now)
      case Err(code, msg) => Step(s, Err(code, msg))
      case Ok(day) => Upsert(s, owner, req, day)
  }

  /** The meal upsert once the date has been read: the kitchen check, the number casts, and
      the overwrite of the slot's meal or the insertion of a new one. */
  function Upsert(s: LedgerState, owner: Id, req: MealRequest, day: int): (st: Step<Id>)
    ensures st.result.Err? ==> st.state == s
  {
    match VerifiedKitchen(s, owner, MenuLocked)
    case Err(code, msg) => Step(s, Err(code, msg))
    case Ok(k) =>
      if ToNumber(req.price).None? then Step(s, CastFailure("price"))
      else if ToNumber(req.totalQty).None? then Step(s, CastFailure("totalQty"))
      else
        var available := if req.isAvailable == Undefined then true else Truthy(req.isAvailable);
        Place(s, k, day, req.mealType, Trim(req.title), Trim(req.description), req.imageUrl,
              ToNumber(req.price).value, ToNumber(req.totalQty).value, available)
  }

  /** The upsert proper: overwrite the slot's meal in place (keeping its soldQty), or insert a
      fresh one under the next id. */
  function Place(s: LedgerState, k: Id, day: int, mealType: string, title: string, description: string,
                 imageUrl: string, price: int, totalQty: int, available: bool): (st: Step<Id>)
    ensures st.result.Ok? && st.state.orders == s.orders && st.state.kitchens == s.kitchens
    ensures st.result.value in st.state.meals && st.state.meals[st.result.value].title == title
  {
    match FindSlot(s.meals, k, day, mealType, s.nextId)
    case Some(id) =>
      Step(s.(meals := s.meals[id := Overwrite(s.meals[id], title, description, imageUrl, price, totalQty, available)]),
           Ok(id))
    case None =>
      var m := InsertedMeal(k, day, mealType, title, description, imageUrl, price, totalQty, available);
      Step(s.(meals := s.meals[s.nextId := m], nextId := s.nextId + 1), Ok(s.nextId))
  }
}
