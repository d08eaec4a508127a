/** Properties of the ledger handlers: what each step does to stock and orders, which
    invariants it keeps, and the counterexamples showing that the decision handler and the
    meal upsert as written break the stock bounds the schema declares. */
module LedgerLemmas {
  import opened Http
  import opened Strings
  import opened Dates
  import opened Js
  import opened MealModel
  import opened OrderModel
  import opened KitchenModel
  import opened Ledger

  // ---------------------------------------------------------------- algebra of Reserved

  /** Orders at ids from n upwards do not enter Reserved(_, _, n). */
  lemma {:induction false} ReservedAbove(orders: map<Id, Order>, meal: Id, n: nat, k: Id, o: Order)
    requires k >= n
    ensures Reserved(orders[k := o], meal, n) == Reserved(orders, meal, n)
  {
    if n > 0 {
      ReservedAbove(orders, meal, n - 1, k, o);
    }
  }

  /** Replacing one counted order changes Reserved by the difference of the two contributions. */
  lemma {:induction false} ReservedUpdate(orders: map<Id, Order>, meal: Id, n: nat, k: Id, o: Order)
    requires k < n && k in orders
    ensures Reserved(orders[k := o], meal, n)
            == Reserved(orders, meal, n) - Contribution(orders[k], meal) + Contribution(o, meal)
  {
    if k == n - 1 {
      ReservedAbove(orders, meal, n - 1, k, o);
    } else {
      ReservedUpdate(orders, meal, n - 1, k, o);
    }
  }

  /** Raising the bound past every stored id changes nothing. */
  lemma {:induction false} ReservedGrow(orders: map<Id, Order>, meal: Id, n: nat, m: nat)
    requires forall i :: i in orders ==> i < n
    requires n <= m
    ensures Reserved(orders, meal, m) == Reserved(orders, meal, n)
  {
    if m > n {
      ReservedGrow(orders, meal, n, m - 1);
    }
  }

  /** No order holds a meal it does not reference. */
  lemma {:induction false} ReservedUnused(orders: map<Id, Order>, meal: Id, n: nat)
    requires forall i :: i in orders ==> orders[i].mealId != meal
    ensures Reserved(orders, meal, n) == 0
  {
    if n > 0 {
      ReservedUnused(orders, meal, n - 1);
    }
  }

  lemma {:induction false} ReservedNonNegative(orders: map<Id, Order>, meal: Id, n: nat)
    requires forall i :: i in orders ==> orders[i].qty >= 1
    ensures Reserved(orders, meal, n) >= 0
  {
    if n > 0 {
      ReservedNonNegative(orders, meal, n - 1);
    }
  }

  /** The theorem the ledger is for: in a consistent well-formed state no meal's sold count is
      negative (and so `remainingQty` never hides oversold stock as spare capacity). */
  lemma ConsistentSoldNonNegative(s: LedgerState, m: Id)
    requires WellFormed(s) && Consistent(s) && m in s.meals
    ensures s.meals[m].soldQty >= 0
  {
    ReservedNonNegative(s.orders, m, s.nextId);
  }

  // ---------------------------------------------------------------- algebra of the daily count

  function CountOf(o: Order, kitchenId: Id, day: int): nat {
    if CountsTowardLimit(o, kitchenId, day) then 1 else 0
  }

  lemma {:induction false} CountAbove(orders: map<Id, Order>, kitchenId: Id, day: int, n: nat, k: Id, o: Order)
    requires k >= n
    ensures ActiveOrderCount(orders[k := o], kitchenId, day, n) == ActiveOrderCount(orders, kitchenId, day, n)
  {
    if n > 0 {
      CountAbove(orders, kitchenId, day, n - 1, k, o);
    }
  }

  lemma {:induction false} CountUpdate(orders: map<Id, Order>, kitchenId: Id, day: int, n: nat, k: Id, o: Order)
    requires k < n && k in orders
    ensures ActiveOrderCount(orders[k := o], kitchenId, day, n)
            == ActiveOrderCount(orders, kitchenId, day, n) - CountOf(orders[k], kitchenId, day) + CountOf(o, kitchenId, day)
  {
    if k == n - 1 {
      CountAbove(orders, kitchenId, day, n - 1, k, o);
    } else {
      CountUpdate(orders, kitchenId, day, n - 1, k, o);
    }
  }

  // ---------------------------------------------------------------- preserving WellFormed

  /** Rewriting a meal without moving it to another slot keeps the slots unique. */
  lemma SlotsKept(meals: map<Id, Meal>, id: Id, m: Meal)
    requires SlotsUnique(meals) && id in meals && SameSlot(m, meals[id])
    ensures SlotsUnique(meals[id := m])
  {
    var after := meals[id := m];
    forall a, b | a in after && b in after && SameSlot(after[a], after[b])
      ensures a == b
    {
      assert SameSlot(meals[a], meals[b]);
    }
  }

  /** Adding a meal at a fresh id for a slot no stored meal occupies keeps the slots unique. */
  lemma SlotsExtended(meals: map<Id, Meal>, id: Id, m: Meal)
    requires SlotsUnique(meals) && id !in meals
    requires forall j :: j in meals ==> !SameSlot(meals[j], m)
    ensures SlotsUnique(meals[id := m])
  {
  }

  /** A rewrite of an order that keeps its meal, kitchen and quantity keeps the orders well formed. */
  lemma OrderRewriteKeepsWellFormed(s: LedgerState, orderId: Id, o: Order, meals: map<Id, Meal>)
    requires WellFormed(s) && orderId in s.orders
    requires o.mealId == s.orders[orderId].mealId && o.kitchenId == s.orders[orderId].kitchenId
    requires o.qty == s.orders[orderId].qty
    requires meals.Keys == s.meals.Keys && forall m :: m in meals ==> SameSlot(meals[m], s.meals[m])
    ensures WellFormed(LedgerState(s.kitchens, meals, s.orders[orderId := o], s.nextId))
  {
    var t := LedgerState(s.kitchens, meals, s.orders[orderId := o], s.nextId);
    forall a, b | a in meals && b in meals && SameSlot(meals[a], meals[b])
      ensures a == b
    {
      assert SameSlot(s.meals[a], s.meals[b]);
    }
    forall i | i in t.orders
      ensures t.orders[i].mealId in t.meals && t.meals[t.orders[i].mealId].kitchenId == t.orders[i].kitchenId
              && t.orders[i].qty >= 1
    {
      assert SameSlot(meals[t.orders[i].mealId], s.meals[t.orders[i].mealId]);
    }
  }

  // ---------------------------------------------------------------- prebook

  /** The request passes every input check of the prebook handler. */
  predicate PrebookInputValid(req: PrebookRequest) {
    req.kitchenId.Some? && !Falsy(req.date) && req.mealType != "" && Truthy(req.qty)
    && ParseMealType(req.mealType).Some?
    && (req.paymentMethod == "" || ParsePaymentMethod(req.paymentMethod).Some?)
    && ToNumber(req.qty).Some? && ToNumber(req.qty).value >= 1
  }

  /** When a prebook can go through, stated without the handler's lookups: valid input, a
      parseable day, an active kitchen below its daily limit, and a meal in the slot that is
      available with at least qty units free. */
  predicate PrebookAdmissible(s: LedgerState, req: PrebookRequest, now: Time) {
    PrebookInputValid(req) && ParseDateOnlyUtc(req.date, now).Ok?
    && var k := req.kitchenId.value;
       var day := ParseDateOnlyUtc(req.date, now).value;
       var qty := ToNumber(req.qty).value;
       k in s.kitchens && s.kitchens[k].isActive
       && ActiveOrderCount(s.orders, k, day, s.nextId) < s.kitchens[k].dailyOrderLimit
       && exists id :: id in s.meals && InSlot(s.meals[id], k, day, req.mealType)
                       && s.meals[id].isAvailable && s.meals[id].totalQty - s.meals[id].soldQty >= qty
  }

  /** Any failed input check answers 400 and changes nothing. */
  lemma PrebookRejectsInvalidInput(s: LedgerState, req: PrebookRequest, now: Time)
    requires !PrebookInputValid(req)
    ensures Prebook(s, req, now).state == s
    ensures Prebook(s, req, now).result.Err? && Prebook(s, req, now).result.status == 400
  {
  }

  /** The reserve succeeds exactly for an active kitchen below its daily limit whose slot
      holds an available meal with at least qty units free. */
  lemma ReserveSucceedsIff(s: LedgerState, userId: Id, k: Id, day: int, mealType: MealType, qty: int,
                           pm: Option<PaymentMethod>)
    requires WellFormed(s)
    ensures Reserve(s, userId, k, day, mealType, qty, pm).result.Ok?
            <==> k in s.kitchens && s.kitchens[k].isActive
                 && ActiveOrderCount(s.orders, k, day, s.nextId) < s.kitchens[k].dailyOrderLimit
                 && exists id :: id in s.meals && InSlot(s.meals[id], k, day, mealType.Name())
                                 && s.meals[id].isAvailable && s.meals[id].totalQty - s.meals[id].soldQty >= qty
  {
    ReservableIff(s, k, day, mealType.Name(), qty);
  }

  /** Under the unique index, the reservable meal is found exactly when the slot's meal is
      available with qty units left. */
  lemma ReservableIff(s: LedgerState, k: Id, day: int, mealType: string, qty: int)
    requires WellFormed(s)
    ensures FindReservable(s.meals, k, day, mealType, qty, s.nextId).Some?
            <==> exists id :: id in s.meals && InSlot(s.meals[id], k, day, mealType)
                              && s.meals[id].isAvailable && s.meals[id].totalQty - s.meals[id].soldQty >= qty
  {
    if exists id :: id in s.meals && InSlot(s.meals[id], k, day, mealType)
                    && s.meals[id].isAvailable && s.meals[id].totalQty - s.meals[id].soldQty >= qty {
      var id :| id in s.meals && InSlot(s.meals[id], k, day, mealType)
                && s.meals[id].isAvailable && s.meals[id].totalQty - s.meals[id].soldQty >= qty;
      FindSlotExact(s, k, day, mealType, id);
    }
  }

  /** Prebook succeeds exactly when it is admissible. */
  lemma PrebookSucceedsIff(s: LedgerState, req: PrebookRequest, now: Time)
    requires WellFormed(s)
    ensures Prebook(s, req, now).result.Ok? <==> PrebookAdmissible(s, req, now)
  {
    assert Prebook(s, req, now) == PrebookOn(s, req, ParseDateOnlyUtc(req.date, now));
    if !PrebookInputValid(req) {
      PrebookRejectsInvalidInput(s, req, now);
    } else if ParseDateOnlyUtc(req.date, now).Ok? {
      var k, day, qty := req.kitchenId.value, ParseDateOnlyUtc(req.date, now).value, ToNumber(req.qty).value;
      var mealType := ParseMealType(req.mealType).value;
      var pm := if req.paymentMethod == "" then None else ParsePaymentMethod(req.paymentMethod);
      assert mealType.Name() == req.mealType;
      assert PrebookOn(s, req, Ok(day)) == Reserve(s, req.userId, k, day, mealType, qty, pm);
      ReserveSucceedsIff(s, req.userId, k, day, mealType, qty, pm);
    }
  }

  /** The shape of a successful prebook: exactly the reserved meal's soldQty
      rises, by exactly qty, and stays within totalQty; a new `prebooked` order for that meal,
      the normalised day and the given qty is added under a fresh id; nothing else changes. */
  lemma PrebookReserves(s: LedgerState, req: PrebookRequest, now: Time)
    requires WellFormed(s)
    requires Prebook(s, req, now).result.Ok?
    ensures var t := Prebook(s, req, now).state;
            var id := Prebook(s, req, now).result.value;
            id !in s.orders && t.orders.Keys == s.orders.Keys + {id}
            && (forall i :: i in s.orders ==> t.orders[i] == s.orders[i])
            && var o := t.orders[id];
               o.status == Prebooked && o.userId == req.userId && o.kitchenId == req.kitchenId.value
               && o.qty == ToNumber(req.qty).value && o.qty >= 1
               && o.date == ParseDateOnlyUtc(req.date, now).value
               && o.mealType.Name() == req.mealType
               && o.paymentMethod == (if req.paymentMethod == "" then None else ParsePaymentMethod(req.paymentMethod))
               && o.mealId in s.meals && InSlot(s.meals[o.mealId], o.kitchenId, o.date, req.mealType)
               && t.meals.Keys == s.meals.Keys
               && t.meals[o.mealId] == s.meals[o.mealId].(soldQty := s.meals[o.mealId].soldQty + o.qty)
               && t.meals[o.mealId].soldQty <= t.meals[o.mealId].totalQty
               && (forall m :: m in s.meals && m != o.mealId ==> t.meals[m] == s.meals[m])
               && t.kitchens == s.kitchens
  {
    var k, day, mealType, qty, mealId, pm := PrebookIsBook(s, req, now);
    BookEffect(s, req.userId, k, mealId, day, mealType, qty, pm);
  }

  /** A successful prebook is a booking of the meal FindReservable picks. */
  lemma PrebookIsBook(s: LedgerState, req: PrebookRequest, now: Time)
      returns (k: Id, day: int, mealType: MealType, qty: int, mealId: Id, pm: Option<PaymentMethod>)
    requires Prebook(s, req, now).result.Ok?
    ensures PrebookInputValid(req) && ParseDateOnlyUtc(req.date, now) == Ok(day)
    ensures k == req.kitchenId.value && k in s.kitchens && s.kitchens[k].isActive
    ensures ParseMealType(req.mealType) == Some(mealType) && mealType.Name() == req.mealType
    ensures ToNumber(req.qty) == Some(qty) && qty >= 1
    ensures pm == (if req.paymentMethod == "" then None else ParsePaymentMethod(req.paymentMethod))
    ensures FindReservable(s.meals, k, day, req.mealType, qty, s.nextId) == Some(mealId)
    ensures Prebook(s, req, now) == Step(Book(s, req.userId, k, mealId, day, mealType, qty, pm), Ok(s.nextId))
  {
    k := req.kitchenId.value;
    day := ParseDateOnlyUtc(req.date, now).value;
    mealType := ParseMealType(req.mealType).value;
    qty := ToNumber(req.qty).value;
    pm := if req.paymentMethod == "" then None else ParsePaymentMethod(req.paymentMethod);
    mealId := FindReservable(s.meals, k, day, mealType.Name(), qty, s.nextId).value;
  }

  /** The effect of a booking on the stored collections. */
  lemma BookEffect(s: LedgerState, userId: Id, kitchenId: Id, mealId: Id, day: int, mealType: MealType,
                   qty: int, paymentMethod: Option<PaymentMethod>)
    requires WellFormed(s) && mealId in s.meals
    ensures var t := Book(s, userId, kitchenId, mealId, day, mealType, qty, paymentMethod);
            s.nextId !in s.orders && t.orders == s.orders[s.nextId := t.orders[s.nextId]]
            && t.orders[s.nextId] == Order(userId, kitchenId, mealId, day, mealType, qty, Prebooked, paymentMethod)
            && t.meals == s.meals[mealId := s.meals[mealId].(soldQty := s.meals[mealId].soldQty + qty)]
  {
  }

  /** The daily gate: once the kitchen's non-cancelled orders for the day reach its limit, a
      prebook fails and changes nothing, whatever meal it asks for. */
  lemma PrebookDailyGate(s: LedgerState, req: PrebookRequest, now: Time)
    requires PrebookInputValid(req) && ParseDateOnlyUtc(req.date, now).Ok?
    requires req.kitchenId.value in s.kitchens
    requires ActiveOrderCount(s.orders, req.kitchenId.value, ParseDateOnlyUtc(req.date, now).value, s.nextId)
             >= s.kitchens[req.kitchenId.value].dailyOrderLimit
    ensures Prebook(s, req, now).state == s && Prebook(s, req, now).result.Err?
  {
  }

  /** A daily limit of 0 blocks every booking at that kitchen. */
  lemma ZeroLimitBlocksAll(s: LedgerState, req: PrebookRequest, now: Time)
    requires req.kitchenId.Some? && req.kitchenId.value in s.kitchens
    requires s.kitchens[req.kitchenId.value].dailyOrderLimit == 0
    ensures Prebook(s, req, now).result.Err? && Prebook(s, req, now).state == s
  {
  }

  lemma PrebookKeepsWellFormed(s: LedgerState, req: PrebookRequest, now: Time)
    requires WellFormed(s)
    ensures WellFormed(Prebook(s, req, now).state)
  {
    if Prebook(s, req, now).result.Ok? {
      var k, day, mealType, qty, mealId, pm := PrebookIsBook(s, req, now);
      BookKeepsWellFormed(s, req.userId, k, mealId, day, mealType, qty, pm);
    }
  }

  lemma BookKeepsWellFormed(s: LedgerState, userId: Id, kitchenId: Id, mealId: Id, day: int, mealType: MealType,
                            qty: int, paymentMethod: Option<PaymentMethod>)
    requires WellFormed(s) && mealId in s.meals && s.meals[mealId].kitchenId == kitchenId && qty >= 1
    ensures WellFormed(Book(s, userId, kitchenId, mealId, day, mealType, qty, paymentMethod))
  {
    var t := Book(s, userId, kitchenId, mealId, day, mealType, qty, paymentMethod);
    BookEffect(s, userId, kitchenId, mealId, day, mealType, qty, paymentMethod);
    SlotsKept(s.meals, mealId, t.meals[mealId]);
    forall i | i in t.orders
      ensures t.orders[i].mealId in t.meals && t.meals[t.orders[i].mealId].kitchenId == t.orders[i].kitchenId
              && t.orders[i].qty >= 1
    {
    }
  }

  lemma PrebookKeepsConsistent(s: LedgerState, req: PrebookRequest, now: Time)
    requires WellFormed(s) && Consistent(s)
    ensures Consistent(Prebook(s, req, now).state)
  {
    if Prebook(s, req, now).result.Ok? {
      var k, day, mealType, qty, mealId, pm := PrebookIsBook(s, req, now);
      BookKeepsConsistent(s, req.userId, k, mealId, day, mealType, qty, pm);
    }
  }

  lemma BookKeepsConsistent(s: LedgerState, userId: Id, kitchenId: Id, mealId: Id, day: int, mealType: MealType,
                            qty: int, paymentMethod: Option<PaymentMethod>)
    requires WellFormed(s) && Consistent(s) && mealId in s.meals
    ensures Consistent(Book(s, userId, kitchenId, mealId, day, mealType, qty, paymentMethod))
  {
    var t := Book(s, userId, kitchenId, mealId, day, mealType, qty, paymentMethod);
    BookEffect(s, userId, kitchenId, mealId, day, mealType, qty, paymentMethod);
    var o := t.orders[s.nextId];
    forall m | m in t.meals
      ensures t.meals[m].soldQty == Reserved(t.orders, m, t.nextId)
    {
      ReservedAbove(s.orders, m, s.nextId, s.nextId, o);
      assert Reserved(t.orders, m, t.nextId) == Reserved(s.orders, m, s.nextId) + Contribution(o, m);
    }
  }

  // ---------------------------------------------------------------- cancel

  /** Cancel succeeds exactly on the caller's own `prebooked` order; it marks that order
      `cancelled` (nothing else about it changes) and releases its qty from its meal. */
  lemma CancelEffect(s: LedgerState, userId: Id, orderId: Id)
    requires WellFormed(s)
    ensures var st := Cancel(s, userId, orderId);
            st.result.Ok? <==> orderId in s.orders && s.orders[orderId].userId == userId
                                && s.orders[orderId].status == Prebooked
    ensures var st := Cancel(s, userId, orderId);
            st.result.Ok? ==>
              var o := s.orders[orderId];
              st.state.orders == s.orders[orderId := o.(status := Cancelled)]
              && st.state.meals.Keys == s.meals.Keys
              && st.state.meals[o.mealId].soldQty == s.meals[o.mealId].soldQty - o.qty
              && (forall m :: m in s.meals && m != o.mealId ==> st.state.meals[m] == s.meals[m])
              && st.state.kitchens == s.kitchens && st.state.nextId == s.nextId
  {
  }

  /** A second cancel of the same order fails with 400 and releases nothing. */
  lemma CancelTwiceFails(s: LedgerState, userId: Id, orderId: Id)
    requires Cancel(s, userId, orderId).result.Ok?
    ensures var t := Cancel(s, userId, orderId).state;
            Cancel(t, userId, orderId) == Step(t, Err(400, "Only prebooked orders can be cancelled"))
  {
  }

  /** A cancelled order no longer counts toward the daily gate: its (kitchen, day) count drops
      by exactly one, and no other count moves. */
  lemma CancelFreesDailyCapacity(s: LedgerState, userId: Id, orderId: Id, kitchenId: Id, day: int)
    requires WellFormed(s) && Cancel(s, userId, orderId).result.Ok?
    ensures var o := s.orders[orderId];
            ActiveOrderCount(Cancel(s, userId, orderId).state.orders, kitchenId, day, s.nextId)
            == ActiveOrderCount(s.orders, kitchenId, day, s.nextId)
               - (if o.kitchenId == kitchenId && o.date == day then 1 else 0)
  {
    var o := s.orders[orderId];
    CountUpdate(s.orders, kitchenId, day, s.nextId, orderId, o.(status := Cancelled));
  }

  lemma CancelKeepsWellFormed(s: LedgerState, userId: Id, orderId: Id)
    requires WellFormed(s)
    ensures WellFormed(Cancel(s, userId, orderId).state)
  {
    if Cancel(s, userId, orderId).result.Ok? {
      var o := s.orders[orderId];
      OrderRewriteKeepsWellFormed(s, orderId, o.(status := Cancelled), ReleaseQty(s.meals, o.mealId, o.qty));
    }
  }

  /** Releasing a held order's qty while marking it with a non-holding status keeps the books
      balanced. */
  lemma ReleaseKeepsConsistent(s: LedgerState, orderId: Id, st: OrderStatus)
    requires WellFormed(s) && Consistent(s) && orderId in s.orders
    requires Holds(s.orders[orderId].status) && !Holds(st)
    ensures var o := s.orders[orderId];
            Consistent(s.(orders := s.orders[orderId := o.(status := st)], meals := ReleaseQty(s.meals, o.mealId, o.qty)))
  {
    var o := s.orders[orderId];
    var t := s.(orders := s.orders[orderId := o.(status := st)], meals := ReleaseQty(s.meals, o.mealId, o.qty));
    forall m | m in t.meals
      ensures t.meals[m].soldQty == Reserved(t.orders, m, t.nextId)
    {
      ReservedUpdate(s.orders, m, s.nextId, orderId, o.(status := st));
    }
  }

  /** Rewriting an order without changing its meal, qty or whether it holds stock keeps the
      books balanced. */
  lemma RewriteKeepsConsistent(s: LedgerState, orderId: Id, o: Order)
    requires WellFormed(s) && Consistent(s) && orderId in s.orders
    requires o.mealId == s.orders[orderId].mealId && o.qty == s.orders[orderId].qty
    requires Holds(o.status) == Holds(s.orders[orderId].status)
    ensures Consistent(s.(orders := s.orders[orderId := o]))
  {
    var t := s.(orders := s.orders[orderId := o]);
    forall m | m in t.meals
      ensures t.meals[m].soldQty == Reserved(t.orders, m, t.nextId)
    {
      ReservedUpdate(s.orders, m, s.nextId, orderId, o);
    }
  }

  lemma CancelKeepsConsistent(s: LedgerState, userId: Id, orderId: Id)
    requires WellFormed(s) && Consistent(s)
    ensures Consistent(Cancel(s, userId, orderId).state)
  {
    if Cancel(s, userId, orderId).result.Ok? {
      ReleaseKeepsConsistent(s, orderId, Cancelled);
    }
  }

  // ---------------------------------------------------------------- payment method

  /** Setting the payment method succeeds exactly for upi/card on the caller's own
      `prebooked` order, and then changes that order's payment method and nothing else. */
  lemma PaymentMethodEffect(s: LedgerState, userId: Id, orderId: Id, paymentMethod: string)
    ensures var st := SetPaymentMethod(s, userId, orderId, paymentMethod);
            st.result.Ok? <==> (paymentMethod == "upi" || paymentMethod == "card")
                                && orderId in s.orders && s.orders[orderId].userId == userId
                                && s.orders[orderId].status == Prebooked
    ensures var st := SetPaymentMethod(s, userId, orderId, paymentMethod);
            st.result.Ok? ==>
              st.state.meals == s.meals && st.state.kitchens == s.kitchens && st.state.nextId == s.nextId
              && st.state.orders.Keys == s.orders.Keys
              && (forall i :: i in s.orders && i != orderId ==> st.state.orders[i] == s.orders[i])
              && st.state.orders[orderId].paymentMethod.Some?
              && st.state.orders[orderId].paymentMethod.value.Name() == paymentMethod
              && st.state.orders[orderId] == s.orders[orderId].(paymentMethod := st.state.orders[orderId].paymentMethod)
  {
  }

  lemma PaymentMethodKeepsInvariants(s: LedgerState, userId: Id, orderId: Id, paymentMethod: string)
    requires WellFormed(s) && Consistent(s)
    ensures WellFormed(SetPaymentMethod(s, userId, orderId, paymentMethod).state)
    ensures Consistent(SetPaymentMethod(s, userId, orderId, paymentMethod).state)
  {
    PaymentMethodKeepsWellFormed(s, userId, orderId, paymentMethod);
    var st := SetPaymentMethod(s, userId, orderId, paymentMethod);
    if st.result.Ok? {
      RewriteKeepsConsistent(s, orderId, st.state.orders[orderId]);
    }
  }

  lemma PaymentMethodKeepsWellFormed(s: LedgerState, userId: Id, orderId: Id, paymentMethod: string)
    requires WellFormed(s)
    ensures WellFormed(SetPaymentMethod(s, userId, orderId, paymentMethod).state)
  {
    var st := SetPaymentMethod(s, userId, orderId, paymentMethod);
    if st.result.Ok? {
      OrderRewriteKeepsWellFormed(s, orderId, st.state.orders[orderId], s.meals);
    }
  }

  // ---------------------------------------------------------------- decision

  /** The decision handler (as written and corrected alike) refuses an unknown decision with
      400, a caller without a kitchen with 404, and changes nothing in either case. */
  lemma DecideNeedsKitchen(s: LedgerState, owner: Id, orderId: Id, decision: string)
    requires !DecisionAllowed(decision) || forall k :: k in s.kitchens ==> s.kitchens[k].ownerUserId != owner
    ensures Decide(s, owner, orderId, decision).state == s && DecideFixed(s, owner, orderId, decision).state == s
    ensures !DecisionAllowed(decision) ==>
              Decide(s, owner, orderId, decision).result == Err(400, "decision must be 'accept' or 'reject'")
    ensures DecisionAllowed(decision) ==>
              Decide(s, owner, orderId, decision).result == Err(404, "Kitchen not found for this account")
              && DecideFixed(s, owner, orderId, decision).result == Err(404, "Kitchen not found for this account")
  {
  }

  /** For the caller's kitchen k: while k is unverified the dashboard is locked (403); an order
      of another kitchen is not found (404); a `cancelled` or `fulfilled` order cannot be
      decided (400). Nothing changes in any of these cases. */
  lemma DecideNeedsOwnVerifiedKitchen(s: LedgerState, owner: Id, k: Id, orderId: Id, decision: string)
    requires WellFormed(s) && DecisionAllowed(decision)
    requires k in s.kitchens && s.kitchens[k].ownerUserId == owner
    ensures var st := Decide(s, owner, orderId, decision);
            !s.kitchens[k].verified ==> st == Step(s, Err(403, OrdersLocked))
    ensures var st := Decide(s, owner, orderId, decision);
            s.kitchens[k].verified && (orderId !in s.orders || s.orders[orderId].kitchenId != k) ==>
              st == Step(s, Err(404, "Order not found"))
    ensures var st := Decide(s, owner, orderId, decision);
            s.kitchens[k].verified && orderId in s.orders && s.orders[orderId].kitchenId == k
            && (s.orders[orderId].status == Cancelled || s.orders[orderId].status == Fulfilled) ==>
              st == Step(s, Err(400, "Only pending orders can be decided"))
  {
    OwnedKitchenExact(s, owner, k);
  }

  /** What a successful decision does, as written: the order belonged to the caller's verified
      kitchen and was `prebooked`, `accepted` or `rejected`; exactly "accept" marks it
      `accepted` and leaves the meals alone; every other admitted text marks it `rejected` and
      releases its qty again, whatever its status was before. */
  lemma DecideEffect(s: LedgerState, owner: Id, orderId: Id, decision: string)
    requires Decide(s, owner, orderId, decision).result.Ok?
    ensures var o := s.orders[orderId];
            orderId in s.orders && Decidable(o.status) && o.kitchenId in s.kitchens
            && s.kitchens[o.kitchenId].ownerUserId == owner && s.kitchens[o.kitchenId].verified
    ensures var st := Decide(s, owner, orderId, decision);
            var o := s.orders[orderId];
            decision == "accept" ==>
              st.state == s.(orders := s.orders[orderId := o.(status := Accepted)])
    ensures var st := Decide(s, owner, orderId, decision);
            var o := s.orders[orderId];
            decision != "accept" ==>
              st.state.orders == s.orders[orderId := o.(status := OrderStatus.Rejected)]
              && st.state.meals == ReleaseQty(s.meals, o.mealId, o.qty)
              && st.state.kitchens == s.kitchens && st.state.nextId == s.nextId
  {
  }

  /** As written, a decision never frees daily capacity: `accepted` and `rejected` orders both
      count toward the gate, so every (kitchen, day) count is unchanged. */
  lemma DecideKeepsDailyCount(s: LedgerState, owner: Id, orderId: Id, decision: string, kitchenId: Id, day: int)
    requires WellFormed(s) && Decide(s, owner, orderId, decision).result.Ok?
    ensures ActiveOrderCount(Decide(s, owner, orderId, decision).state.orders, kitchenId, day, s.nextId)
            == ActiveOrderCount(s.orders, kitchenId, day, s.nextId)
  {
    var st := Decide(s, owner, orderId, decision);
    CountUpdate(s.orders, kitchenId, day, s.nextId, orderId, st.state.orders[orderId]);
  }

  lemma DecideKeepsWellFormed(s: LedgerState, owner: Id, orderId: Id, decision: string)
    requires WellFormed(s)
    ensures WellFormed(Decide(s, owner, orderId, decision).state)
  {
    var st := Decide(s, owner, orderId, decision);
    if st.result.Ok? {
      OrderRewriteKeepsWellFormed(s, orderId, st.state.orders[orderId], st.state.meals);
    }
  }

  /** The corrected decision: it succeeds only on a `prebooked` order, reads the decision
      case-insensitively in the branch as in the check, and keeps the books balanced. */
  lemma DecideFixedEffect(s: LedgerState, owner: Id, orderId: Id, decision: string)
    requires DecideFixed(s, owner, orderId, decision).result.Ok?
    ensures orderId in s.orders && s.orders[orderId].status == Prebooked
    ensures var st := DecideFixed(s, owner, orderId, decision);
            var o := s.orders[orderId];
            Lower(decision) == "accept" ==>
              st.state == s.(orders := s.orders[orderId := o.(status := Accepted)])
    ensures var st := DecideFixed(s, owner, orderId, decision);
            var o := s.orders[orderId];
            Lower(decision) == "reject" ==>
              st.state.orders == s.orders[orderId := o.(status := OrderStatus.Rejected)]
              && st.state.meals == ReleaseQty(s.meals, o.mealId, o.qty)
  {
  }

  /** On a pending order and a decision already in lower case, the corrected handler does
      exactly what the handler as written does. */
  lemma DecideFixedAgrees(s: LedgerState, owner: Id, orderId: Id, decision: string)
    requires orderId in s.orders && s.orders[orderId].status == Prebooked
    requires decision == "accept" || decision == "reject"
    ensures DecideFixed(s, owner, orderId, decision) == Decide(s, owner, orderId, decision)
  {
    assert Lower("accept") == "accept";
    assert Lower("reject") == "reject";
  }

  lemma DecideFixedKeepsInvariants(s: LedgerState, owner: Id, orderId: Id, decision: string)
    requires WellFormed(s) && Consistent(s)
    ensures WellFormed(DecideFixed(s, owner, orderId, decision).state)
    ensures Consistent(DecideFixed(s, owner, orderId, decision).state)
  {
    DecideFixedKeepsWellFormed(s, owner, orderId, decision);
    DecideFixedKeepsConsistent(s, owner, orderId, decision);
  }

  lemma DecideFixedKeepsWellFormed(s: LedgerState, owner: Id, orderId: Id, decision: string)
    requires WellFormed(s)
    ensures WellFormed(DecideFixed(s, owner, orderId, decision).state)
  {
    var st := DecideFixed(s, owner, orderId, decision);
    if st.result.Ok? {
      OrderRewriteKeepsWellFormed(s, orderId, st.state.orders[orderId], st.state.meals);
    }
  }

  lemma DecideFixedKeepsConsistent(s: LedgerState, owner: Id, orderId: Id, decision: string)
    requires WellFormed(s) && Consistent(s)
    ensures Consistent(DecideFixed(s, owner, orderId, decision).state)
  {
    var st := DecideFixed(s, owner, orderId, decision);
    if st.result.Ok? {
      DecideFixedEffect(s, owner, orderId, decision);
      if Lower(decision) == "accept" {
        RewriteKeepsConsistent(s, orderId, st.state.orders[orderId]);
      } else {
        ReleaseKeepsConsistent(s, orderId, OrderStatus.Rejected);
      }
    }
  }

  // ---------------------------------------------------------------- counterexamples

  /** A verified kitchen of owner 7, one lunch slot with 5 units of which 2 are held by one
      prebooked order. */
  function ExampleState(): LedgerState {
    var kitchen := NewKitchen(7, "Tiffin", "", "").(verified := true, verificationStatus := Verified, verifiedAt := Some(0));
    LedgerState(
      map[0 := kitchen],
      map[1 := Meal(0, 0, "lunch", "Thali", "", "", 120, 5, 2, true)],
      map[2 := Order(9, 0, 1, 0, Lunch, 2, Prebooked, None)],
      3)
  }

  lemma ExampleStateBalanced()
    ensures WellFormed(ExampleState()) && Consistent(ExampleState())
  {
    var s := ExampleState();
    assert Reserved(s.orders, 1, 3) == 2;
  }

  /** The example's kitchen is the verified kitchen of owner 7 in every state that keeps the
      example's kitchens and ids. */
  lemma ExampleKitchenFound(s: LedgerState, locked: string)
    requires s.kitchens == ExampleState().kitchens && s.nextId == 3
    ensures VerifiedKitchen(s, 7, locked) == Ok(0)
  {
    assert OwnedKitchen(s.kitchens, 7, 1) == Some(0);
  }

  /** Kitchen owner 7 rejecting order 2 in a state that keeps the example's kitchens. */
  lemma ExampleReject(s: LedgerState)
    requires s.kitchens == ExampleState().kitchens && s.nextId == 3
    requires 2 in s.orders && s.orders[2].kitchenId == 0 && Decidable(s.orders[2].status)
    ensures var o := s.orders[2].(status := OrderStatus.Rejected);
            Decide(s, 7, 2, "reject") == Step(s.(orders := s.orders[2 := o], meals := ReleaseQty(s.meals, o.mealId, o.qty)), Ok(o))
  {
    assert Lower("reject") == "reject";
    ExampleKitchenFound(s, OrdersLocked);
  }

  /** Rejecting the same order twice releases its qty twice, so
      starting from a balanced ledger the meal's soldQty ends at -2. */
  lemma RepeatedRejectOversells()
    ensures Decide(Decide(ExampleState(), 7, 2, "reject").state, 7, 2, "reject").state == TwiceRejected()
    ensures var s0 := ExampleState();
            var s1 := Decide(s0, 7, 2, "reject");
            var s2 := Decide(s1.state, 7, 2, "reject");
            Consistent(s0) && s1.result.Ok? && s2.result.Ok?
            && s2.state.meals[1].soldQty == -2 && !MealModel.WithinSchemaBounds(s2.state.meals[1])
            && !Consistent(s2.state)
  {
    ExampleStateBalanced();
    FirstReject();
    SecondReject();
    TwiceRejectedUnbalanced();
  }

  /** The example after its order has been rejected once: the order is rejected and its
      two units are back. */
  function OnceRejected(): LedgerState {
    var s := ExampleState();
    s.(orders := s.orders[2 := s.orders[2].(status := OrderStatus.Rejected)],
       meals := s.meals[1 := s.meals[1].(soldQty := 0)])
  }

  /** The example after its order has been rejected twice: the units are released again. */
  function TwiceRejected(): LedgerState {
    var s := OnceRejected();
    s.(meals := s.meals[1 := s.meals[1].(soldQty := -2)])
  }

  lemma FirstReject()
    ensures Decide(ExampleState(), 7, 2, "reject") == Step(OnceRejected(), Ok(OnceRejected().orders[2]))
  {
    ExampleReject(ExampleState());
  }

  lemma SecondReject()
    ensures Decide(OnceRejected(), 7, 2, "reject") == Step(TwiceRejected(), Ok(TwiceRejected().orders[2]))
  {
    var s1 := OnceRejected();
    ExampleReject(s1);
    assert s1.orders[2 := s1.orders[2].(status := OrderStatus.Rejected)] == s1.orders;
  }

  lemma TwiceRejectedUnbalanced()
    ensures !Consistent(TwiceRejected())
  {
    var rejected := TwiceRejected().orders;
    assert Reserved(rejected, 1, 1) == 0 && Reserved(rejected, 1, 2) == 0;
    assert Reserved(rejected, 1, 3) == 0;
  }

  /** "Accept" passes the case-insensitive check but is not exactly "accept",
      so it rejects the order and releases its stock. */
  lemma CapitalAcceptRejects()
    ensures Decide(ExampleState(), 7, 2, "Accept") == Step(OnceRejected(), Ok(OnceRejected().orders[2]))
    ensures var st := Decide(ExampleState(), 7, 2, "Accept");
            st.result.Ok? && st.state.orders[2].status == OrderStatus.Rejected && st.state.meals[1].soldQty == 0
  {
    assert Lower("Accept") == "accept";
    ExampleKitchenFound(ExampleState(), OrdersLocked);
  }

  /** The example with its order accepted. */
  function ExampleAccepted(): LedgerState {
    var s := ExampleState();
    s.(orders := s.orders[2 := s.orders[2].(status := Accepted)])
  }

  /** The corrected handler accepts "Accept" and refuses to decide the order a second time. */
  lemma DecideFixedOnExample()
    ensures DecideFixed(ExampleState(), 7, 2, "Accept") == Step(ExampleAccepted(), Ok(ExampleAccepted().orders[2]))
    ensures var st := DecideFixed(ExampleState(), 7, 2, "Accept");
            st.result.Ok? && st.state.orders[2].status == Accepted && st.state.meals[1].soldQty == 2
            && DecideFixed(st.state, 7, 2, "reject") == Step(st.state, Err(400, "Only pending orders can be decided"))
  {
    FixedAccepts();
    FixedRefusesAgain();
  }

  lemma FixedAccepts()
    ensures DecideFixed(ExampleState(), 7, 2, "Accept") == Step(ExampleAccepted(), Ok(ExampleAccepted().orders[2]))
  {
    assert Lower("Accept") == "accept";
    ExampleKitchenFound(ExampleState(), OrdersLocked);
  }

  lemma FixedRefusesAgain()
    ensures DecideFixed(ExampleAccepted(), 7, 2, "reject") == Step(ExampleAccepted(), Err(400, "Only pending orders can be decided"))
  {
    assert Lower("reject") == "reject";
    ExampleKitchenFound(ExampleAccepted(), OrdersLocked);
  }

  // ---------------------------------------------------------------- meal upsert

  /** Missing fields are refused before anything is read. */
  lemma SaveMealRequiresFields(s: LedgerState, owner: Id, req: MealRequest, now: Time)
    requires Falsy(req.date) || req.mealType == "" || req.title == "" || req.price == Undefined || req.totalQty == Undefined
    ensures SaveMeal(s, owner, req, now) == Step(s, Err(400, "date, mealType, title, price, totalQty are required"))
  {
  }

  /** Menu management is locked while the caller's kitchen is unverified. */
  lemma SaveMealLocked(s: LedgerState, owner: Id, k: Id, req: MealRequest, now: Time)
    requires WellFormed(s) && k in s.kitchens && s.kitchens[k].ownerUserId == owner && !s.kitchens[k].verified
    requires !Falsy(req.date) && req.mealType != "" && req.title != "" && req.price != Undefined && req.totalQty != Undefined
    requires ParseDateOnlyUtc(req.date, now).Ok?
    ensures SaveMeal(s, owner, req, now) == Step(s, Err(403, MenuLocked))
  {
    OwnedKitchenExact(s, owner, k);
  }

  /** A successful save is an upsert keyed by the slot (the caller's verified kitchen, the
      normalised day, the sent meal type): the slot's stored meal when there is one, otherwise a
      new meal under a fresh id. The `$set` fields take the sent values, soldQty is kept (0 for
      a new meal), and no other meal, order or kitchen changes. */
  lemma SaveMealEffect(s: LedgerState, owner: Id, req: MealRequest, now: Time)
    requires WellFormed(s) && SaveMeal(s, owner, req, now).result.Ok?
    ensures var st := SaveMeal(s, owner, req, now);
            var id := st.result.value;
            var t := st.state;
            var day := ParseDateOnlyUtc(req.date, now).value;
            ParseDateOnlyUtc(req.date, now).Ok?
            && id in t.meals && t.meals[id].kitchenId in s.kitchens
            && s.kitchens[t.meals[id].kitchenId].ownerUserId == owner && s.kitchens[t.meals[id].kitchenId].verified
            && InSlot(t.meals[id], t.meals[id].kitchenId, day, req.mealType)
            && (id in s.meals <==> exists j :: j in s.meals && InSlot(s.meals[j], t.meals[id].kitchenId, day, req.mealType))
            && t.meals[id].title == Trim(req.title) && t.meals[id].description == Trim(req.description)
            && t.meals[id].imageUrl == req.imageUrl
            && Some(t.meals[id].price) == ToNumber(req.price) && Some(t.meals[id].totalQty) == ToNumber(req.totalQty)
            && t.meals[id].isAvailable == (req.isAvailable == Undefined || Truthy(req.isAvailable))
            && t.meals[id].soldQty == (if id in s.meals then s.meals[id].soldQty else 0)
            && t.meals.Keys == s.meals.Keys + {id}
            && (forall m :: m in s.meals && m != id ==> t.meals[m] == s.meals[m])
            && t.orders == s.orders && t.kitchens == s.kitchens
  {
    UpsertEffect(s, owner, req, ParseDateOnlyUtc(req.date, now).value);
  }

  /** The upsert on a read day: the saved meal is the owner's verified kitchen's meal of the
      slot with the request's fields, an existing one keeping its soldQty. */
  lemma UpsertEffect(s: LedgerState, owner: Id, req: MealRequest, day: int)
    requires WellFormed(s) && Upsert(s, owner, req, day).result.Ok?
    ensures var st := Upsert(s, owner, req, day);
            var id := st.result.value;
            var t := st.state;
            id in t.meals && t.meals[id].kitchenId in s.kitchens
            && s.kitchens[t.meals[id].kitchenId].ownerUserId == owner && s.kitchens[t.meals[id].kitchenId].verified
            && InSlot(t.meals[id], t.meals[id].kitchenId, day, req.mealType)
            && (id in s.meals <==> exists j :: j in s.meals && InSlot(s.meals[j], t.meals[id].kitchenId, day, req.mealType))
            && t.meals[id].title == Trim(req.title) && t.meals[id].description == Trim(req.description)
            && t.meals[id].imageUrl == req.imageUrl
            && Some(t.meals[id].price) == ToNumber(req.price) && Some(t.meals[id].totalQty) == ToNumber(req.totalQty)
            && t.meals[id].isAvailable == (req.isAvailable == Undefined || Truthy(req.isAvailable))
            && t.meals[id].soldQty == (if id in s.meals then s.meals[id].soldQty else 0)
            && t.meals.Keys == s.meals.Keys + {id}
            && (forall m :: m in s.meals && m != id ==> t.meals[m] == s.meals[m])
            && t.orders == s.orders && t.kitchens == s.kitchens
  {
    var st := Upsert(s, owner, req, day);
    var k := VerifiedKitchen(s, owner, MenuLocked).value;
    var available := if req.isAvailable == Undefined then true else Truthy(req.isAvailable);
    assert st == Place(s, k, day, req.mealType, Trim(req.title), Trim(req.description), req.imageUrl,
                       ToNumber(req.price).value, ToNumber(req.totalQty).value, available);
    PlaceEffect(s, k, day, req.mealType, Trim(req.title), Trim(req.description), req.imageUrl,
                ToNumber(req.price).value, ToNumber(req.totalQty).value, available);
  }

  /** The slot write: the answered meal lies in the slot and carries the given fields; it was
      stored before exactly when the slot already held a meal, and then keeps its soldQty;
      no other meal changes. */
  lemma PlaceEffect(s: LedgerState, k: Id, day: int, mealType: string, title: string, description: string,
                    imageUrl: string, price: int, totalQty: int, available: bool)
    requires WellFormed(s)
    ensures var st := Place(s, k, day, mealType, title, description, imageUrl, price, totalQty, available);
            var id := st.result.value;
            var t := st.state;
            InSlot(t.meals[id], k, day, mealType)
            && (id in s.meals <==> exists j :: j in s.meals && InSlot(s.meals[j], k, day, mealType))
            && t.meals[id].description == description && t.meals[id].imageUrl == imageUrl
            && t.meals[id].price == price && t.meals[id].totalQty == totalQty
            && t.meals[id].isAvailable == available
            && t.meals[id].soldQty == (if id in s.meals then s.meals[id].soldQty else 0)
            && t.meals.Keys == s.meals.Keys + {id}
            && (forall m :: m in s.meals && m != id ==> t.meals[m] == s.meals[m])
  {
    var found := FindSlot(s.meals, k, day, mealType, s.nextId);
    if found.Some? {
      FindSlotExact(s, k, day, mealType, found.value);
    } else {
      assert s.nextId !in s.meals;
    }
  }

  lemma SaveMealKeepsWellFormed(s: LedgerState, owner: Id, req: MealRequest, now: Time)
    requires WellFormed(s)
    ensures WellFormed(SaveMeal(s, owner, req, now).state)
  {
    if SaveMeal(s, owner, req, now).result.Ok? {
      UpsertKeepsWellFormed(s, owner, req, ParseDateOnlyUtc(req.date, now).value);
    }
  }

  lemma UpsertKeepsWellFormed(s: LedgerState, owner: Id, req: MealRequest, day: int)
    requires WellFormed(s)
    ensures WellFormed(Upsert(s, owner, req, day).state)
  {
    var st := Upsert(s, owner, req, day);
    if st.result.Ok? {
      var k := VerifiedKitchen(s, owner, MenuLocked).value;
      var available := if req.isAvailable == Undefined then true else Truthy(req.isAvailable);
      assert st == Place(s, k, day, req.mealType, Trim(req.title), Trim(req.description), req.imageUrl,
                         ToNumber(req.price).value, ToNumber(req.totalQty).value, available);
      PlaceKeepsWellFormed(s, k, day, req.mealType, Trim(req.title), Trim(req.description), req.imageUrl,
                           ToNumber(req.price).value, ToNumber(req.totalQty).value, available);
    }
  }

  /** Both branches of the upsert keep the structural invariant: an overwrite stays in its
      slot, and an insertion takes a fresh id for a slot no meal holds. */
  lemma PlaceKeepsWellFormed(s: LedgerState, k: Id, day: int, mealType: string, title: string, description: string,
                             imageUrl: string, price: int, totalQty: int, available: bool)
    requires WellFormed(s)
    ensures WellFormed(Place(s, k, day, mealType, title, description, imageUrl, price, totalQty, available).state)
  {
    var t := Place(s, k, day, mealType, title, description, imageUrl, price, totalQty, available).state;
    var found := FindSlot(s.meals, k, day, mealType, s.nextId);
    var id := if found.Some? then found.value else s.nextId;
    assert t.meals == s.meals[id := t.meals[id]];
    if found.Some? {
      SlotsKept(s.meals, id, t.meals[id]);
    } else {
      SlotsExtended(s.meals, id, t.meals[id]);
    }
    forall i | i in t.orders
      ensures t.orders[i].mealId in t.meals && t.meals[t.orders[i].mealId].kitchenId == t.orders[i].kitchenId
              && t.orders[i].qty >= 1
    {
    }
  }

  lemma SaveMealKeepsConsistent(s: LedgerState, owner: Id, req: MealRequest, now: Time)
    requires WellFormed(s) && Consistent(s)
    ensures Consistent(SaveMeal(s, owner, req, now).state)
  {
    if SaveMeal(s, owner, req, now).result.Ok? {
      UpsertKeepsConsistent(s, owner, req, ParseDateOnlyUtc(req.date, now).value);
    }
  }

  lemma UpsertKeepsConsistent(s: LedgerState, owner: Id, req: MealRequest, day: int)
    requires WellFormed(s) && Consistent(s)
    ensures Consistent(Upsert(s, owner, req, day).state)
  {
    var st := Upsert(s, owner, req, day);
    if st.result.Ok? {
      var k := VerifiedKitchen(s, owner, MenuLocked).value;
      var available := if req.isAvailable == Undefined then true else Truthy(req.isAvailable);
      assert st == Place(s, k, day, req.mealType, Trim(req.title), Trim(req.description), req.imageUrl,
                         ToNumber(req.price).value, ToNumber(req.totalQty).value, available);
      PlaceKeepsConsistent(s, k, day, req.mealType, Trim(req.title), Trim(req.description), req.imageUrl,
                           ToNumber(req.price).value, ToNumber(req.totalQty).value, available);
    }
  }

  /** An overwrite keeps the meal's soldQty and an insertion starts at 0 for an id no order
      names, so the upsert keeps the ledger balanced. */
  lemma PlaceKeepsConsistent(s: LedgerState, k: Id, day: int, mealType: string, title: string, description: string,
                             imageUrl: string, price: int, totalQty: int, available: bool)
    requires WellFormed(s) && Consistent(s)
    ensures Consistent(Place(s, k, day, mealType, title, description, imageUrl, price, totalQty, available).state)
  {
    var t := Place(s, k, day, mealType, title, description, imageUrl, price, totalQty, available).state;
    var found := FindSlot(s.meals, k, day, mealType, s.nextId);
    var id := if found.Some? then found.value else s.nextId;
    assert t.meals == s.meals[id := t.meals[id]];
    assert t.orders == s.orders;
    forall m | m in t.meals
      ensures t.meals[m].soldQty == Reserved(t.orders, m, t.nextId)
    {
      ReservedGrow(s.orders, m, s.nextId, t.nextId);
      if m !in s.meals {
        ReservedUnused(s.orders, m, s.nextId);
      }
    }
  }

  /** The update branch of the upsert, for a slot that already holds meal `id`. */
  lemma SaveMealUpdatesSlot(s: LedgerState, owner: Id, req: MealRequest, now: Time, day: int, k: Id, id: Id,
                            price: int, totalQty: int)
    requires !Falsy(req.date) && req.mealType != "" && req.title != "" && req.price != Undefined && req.totalQty != Undefined
    requires ParseDateOnlyUtc(req.date, now) == Ok(day) && VerifiedKitchen(s, owner, MenuLocked) == Ok(k)
    requires ToNumber(req.price) == Some(price) && ToNumber(req.totalQty) == Some(totalQty)
    requires FindSlot(s.meals, k, day, req.mealType, s.nextId) == Some(id)
    ensures SaveMeal(s, owner, req, now)
            == Step(s.(meals := s.meals[id := Overwrite(s.meals[id], Trim(req.title), Trim(req.description), req.imageUrl,
                                                          price, totalQty, req.isAvailable == Undefined || Truthy(req.isAvailable))]),
                    Ok(id))
  {
  }

  /** The kitchen of ExampleState saves its lunch slot again with totalQty 1. */
  function UndercutRequest(): MealRequest {
    MealRequest(Timestamp(1000), "lunch", "Thali", "", "", Num(120), Num(1), Undefined)
  }

  lemma ExampleLookups()
    ensures VerifiedKitchen(ExampleState(), 7, MenuLocked) == Ok(0)
    ensures FindSlot(ExampleState().meals, 0, 0, "lunch", 3) == Some(1)
  {
    var s0 := ExampleState();
    ExampleKitchenFound(s0, MenuLocked);
    assert FindSlot(s0.meals, 0, 0, "lunch", 1) == None;
  }

  lemma TrimTitle()
    ensures Trim("Thali") == "Thali" && Trim("") == ""
  {
    TrimStartNoop("Thali");
    TrimEndNoop("Thali");
  }

  lemma UndercutRequestFacts()
    ensures var req := UndercutRequest();
            !Falsy(req.date) && req.mealType == "lunch" && req.title == "Thali" && req.description == ""
            && req.imageUrl == "" && req.isAvailable == Undefined
            && ToNumber(req.price) == Some(120) && ToNumber(req.totalQty) == Some(1)
  {
  }

  /** The upsert rewrites totalQty without looking at soldQty, so a
      balanced ledger can end with totalQty below soldQty; `remainingQty` then reports 0 and
      hides the oversold units. */
  lemma UpsertUndercutsSold(now: Time)
    ensures SaveMeal(ExampleState(), 7, UndercutRequest(), now).result == Ok(1)
    ensures Consistent(SaveMeal(ExampleState(), 7, UndercutRequest(), now).state)
    ensures 1 in SaveMeal(ExampleState(), 7, UndercutRequest(), now).state.meals
    ensures SaveMeal(ExampleState(), 7, UndercutRequest(), now).state.meals[1].totalQty == 1
    ensures SaveMeal(ExampleState(), 7, UndercutRequest(), now).state.meals[1].soldQty == 2
    ensures RemainingQty(SaveMeal(ExampleState(), 7, UndercutRequest(), now).state.meals[1]) == 0
  {
    UndercutRequestFacts();
    FirstDayKey(1000, now);
    ExampleLookups();
    TrimTitle();
    SaveMealUpdatesSlot(ExampleState(), 7, UndercutRequest(), now, 0, 0, 1, 120, 1);
    ExampleStateBalanced();
    SaveMealKeepsConsistent(ExampleState(), 7, UndercutRequest(), now);
  }

  // ---------------------------------------------------------------- menu list and orders dashboard

  /** The menu and the orders dashboard are shown to the owner of a kitchen exactly while it
      is verified; until then both are refused with 403. */
  lemma LockedUntilVerified(s: LedgerState, owner: Id, day: Time, k: Id)
    requires WellFormed(s) && k in s.kitchens && s.kitchens[k].ownerUserId == owner
    ensures MenuOn(s, owner, Ok(day)).Ok? <==> s.kitchens[k].verified
    ensures !s.kitchens[k].verified ==> MenuOn(s, owner, Ok(day)) == Err(403, MenuLocked)
    ensures DashboardOn(s, owner, Ok(day)).Ok? <==> s.kitchens[k].verified
    ensures !s.kitchens[k].verified ==> DashboardOn(s, owner, Ok(day)) == Err(403, OrdersLocked)
  {
    OwnedKitchenExact(s, owner, k);
  }

  /** For the owner of a verified kitchen `k`, the menu of a day lists exactly the meals of
      `k` on that day. */
  lemma MenuListsDay(s: LedgerState, owner: Id, day: Time, k: Id)
    requires WellFormed(s) && OwnsVerified(s, k, owner)
    ensures MenuOn(s, owner, Ok(day)).Ok?
    ensures forall m :: m in MenuOn(s, owner, Ok(day)).value <==>
              m in s.meals && s.meals[m].kitchenId == k && s.meals[m].date == day
  {
    OwnedKitchenExact(s, owner, k);
  }

  /** For the owner of a verified kitchen `k`, the dashboard of a day lists exactly the orders
      of `k` on that day that are prebooked, accepted or rejected. */
  lemma DashboardListsDay(s: LedgerState, owner: Id, day: Time, k: Id)
    requires WellFormed(s) && OwnsVerified(s, k, owner)
    ensures DashboardOn(s, owner, Ok(day)).Ok?
    ensures forall o :: o in DashboardOn(s, owner, Ok(day)).value <==>
              o in s.orders && s.orders[o].kitchenId == k && s.orders[o].date == day
              && Decidable(s.orders[o].status)
  {
    OwnedKitchenExact(s, owner, k);
  }

  /** A meal saved through the upsert is then on its kitchen's menu for the day it was
      saved under. */
  lemma SavedMealListed(s: LedgerState, owner: Id, req: MealRequest, now: Time)
    requires WellFormed(s) && SaveMeal(s, owner, req, now).result.Ok?
    ensures var st := SaveMeal(s, owner, req, now);
            var menu := ListMenu(st.state, owner, req.date, now);
            menu.Ok? && st.result.value in menu.value
  {
    var st := SaveMeal(s, owner, req, now);
    var id := st.result.value;
    SaveMealEffect(s, owner, req, now);
    SaveMealKeepsWellFormed(s, owner, req, now);
    var day := ParseDateOnlyUtc(req.date, now).value;
    MenuListsDay(st.state, owner, day, st.state.meals[id].kitchenId);
  }

  /** A booked order is then on its kitchen's dashboard for the booked day, once the kitchen
      is verified. */
  lemma PrebookedOrderShown(s: LedgerState, req: PrebookRequest, now: Time, owner: Id)
    requires WellFormed(s) && Ledger.Prebook(s, req, now).result.Ok?
    requires req.kitchenId.Some? && OwnsVerified(s, req.kitchenId.value, owner)
    ensures var st := Ledger.Prebook(s, req, now);
            var board := OrdersDashboard(st.state, owner, req.date, now);
            board.Ok? && st.result.value in board.value
  {
    var st := Ledger.Prebook(s, req, now);
    var id, day, k := st.result.value, ParseDateOnlyUtc(req.date, now).value, req.kitchenId.value;
    PrebookReserves(s, req, now);
    assert id in st.state.orders && st.state.orders[id].kitchenId == k && st.state.orders[id].date == day;
    assert st.state.orders[id].status == Prebooked && st.state.kitchens == s.kitchens;
    PrebookKeepsWellFormed(s, req, now);
    DashboardListsDay(st.state, owner, day, k);
  }

  /** Under the unique slot index the menu lists at most one meal of each meal type. */
  lemma MenuOneMealPerType(s: LedgerState, owner: Id, day: Time)
    requires WellFormed(s) && MenuOn(s, owner, Ok(day)).Ok?
    ensures var ms := MenuOn(s, owner, Ok(day)).value;
            forall a, b :: a in ms && b in ms && s.meals[a].mealType == s.meals[b].mealType ==> a == b
  {
    var ms := MenuOn(s, owner, Ok(day)).value;
    forall a, b | a in ms && b in ms && s.meals[a].mealType == s.meals[b].mealType
      ensures a == b
    {
      assert SameSlot(s.meals[a], s.meals[b]);
    }
  }

  /** An order of the day is on the dashboard exactly when the decision handler takes it, for
      either allowed decision; a cancelled or fulfilled order is never shown. */
  lemma DashboardMatchesDecide(s: LedgerState, owner: Id, day: Time, o: Id, decision: string)
    requires o in s.orders && s.orders[o].date == day && DecisionAllowed(decision)
    requires DashboardOn(s, owner, Ok(day)).Ok?
    ensures o in DashboardOn(s, owner, Ok(day)).value <==> Decide(s, owner, o, decision).result.Ok?
    ensures o in DashboardOn(s, owner, Ok(day)).value ==>
              s.orders[o].status != Cancelled && s.orders[o].status != Fulfilled
  {
  }
}
