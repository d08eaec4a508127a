/** The Order record (Backend/model/orderModel.js): a customer's pre-booking of a quantity
    of one meal, with its lifecycle status and optional payment method. */
module OrderModel {
  import opened Http
  import opened MealModel

  datatype OrderStatus = Prebooked | Accepted | Rejected | Cancelled | Fulfilled {
    function Name(): string {
      match this
      case Prebooked => "prebooked"
      case Accepted => "accepted"
      case Rejected => "rejected"
      case Cancelled => "cancelled"
      case Fulfilled => "fulfilled"
    }
  }

  datatype PaymentMethod = Upi | Card {
    function Name(): string {
      match this
      case Upi => "upi"
      case Card => "card"
    }
  }

  /** Membership in `["upi", "card"]`. */
  function ParsePaymentMethod(s: string): (r: Option<PaymentMethod>)
    ensures forall p: PaymentMethod :: r == Some(p) <==> p.Name() == s
  {
    if s == "upi" then Some(Upi) else if s == "card" then Some(Card) else None
  }

  /** A stored order. `paymentMethod` None is the schema default null. */
  datatype Order = Order(
    userId: Id,
    kitchenId: Id,
    mealId: Id,
    date: int,
    mealType: MealType,
    qty: int,
    status: OrderStatus,
    paymentMethod: Option<PaymentMethod>)

  /** The schema's `qty: { min: 1 }`. */
  predicate WithinSchemaBounds(o: Order) {
    o.qty >= 1
  }

  /** A freshly created order: status `prebooked` (the schema default, also set explicitly),
      and a payment method only when one was supplied. */
  function NewOrder(userId: Id, kitchenId: Id, mealId: Id, date: int, mealType: MealType,
                    qty: int, paymentMethod: Option<PaymentMethod>): (o: Order)
    ensures o.status == Prebooked && o.qty == qty && o.mealId == mealId && o.date == date
    ensures o.paymentMethod == paymentMethod
    ensures qty >= 1 ==> WithinSchemaBounds(o)
  {
    Order(userId, kitchenId, mealId, date, mealType, qty, Prebooked, paymentMethod)
  }
}
