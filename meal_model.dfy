/** The Meal record (Backend/model/mealModel.js): one menu slot of a kitchen for one UTC
    day and one meal type, with its stock counters. */
module MealModel {
  import opened Http

  /** Identifier of a stored document (a Mongo ObjectId). */
  type Id = nat

  datatype MealType = Breakfast | Lunch | Snacks | Dinner {
    function Name(): string {
      match this
      case Breakfast => "breakfast"
      case Lunch => "lunch"
      case Snacks => "snacks"
      case Dinner => "dinner"
    }
  }

  /** Membership in `["breakfast", "lunch", "snacks", "dinner"]` (strict string equality). */
  function ParseMealType(s: string): (r: Option<MealType>)
    ensures forall t: MealType :: r == Some(t) <==> t.Name() == s
  {
    if s == "breakfast" then Some(Breakfast)
    else if s == "lunch" then Some(Lunch)
    else if s == "snacks" then Some(Snacks)
    else if s == "dinner" then Some(Dinner)
    else None
  }

  /** A stored meal. `date` is a day key (a UTC-midnight time value). The meal type is kept
      as the text the kitchen sent: the upsert that writes meals runs no schema validators,
      so the enum of the schema is not enforced on stored meals. */
  datatype Meal = Meal(
    kitchenId: Id,
    date: int,
    mealType: string,
    title: string,
    description: string,
    imageUrl: string,
    price: int,
    totalQty: int,
    soldQty: int,
    isAvailable: bool)

  /** The `remainingQty` virtual: never negative, and exactly the free stock when there is
      any. */
  function RemainingQty(m: Meal): (r: int)
    ensures r >= 0
    ensures r >= m.totalQty - m.soldQty
    ensures r == 0 || r == m.totalQty - m.soldQty
    ensures m.soldQty <= m.totalQty ==> r == m.totalQty - m.soldQty
  {
    if m.totalQty - m.soldQty > 0 then m.totalQty - m.soldQty else 0
  }

  /** The schema bounds: price, totalQty and soldQty are declared `min: 0`. */
  predicate WithinSchemaBounds(m: Meal) {
    m.price >= 0 && m.totalQty >= 0 && m.soldQty >= 0
  }

  /** The unique index (kitchenId, date, mealType). */
  predicate SameSlot(a: Meal, b: Meal) {
    a.kitchenId == b.kitchenId && a.date == b.date && a.mealType == b.mealType
  }

  /** A meal created by an upsert: the slot's key fields and the `$set` fields, with the
      schema defaults `soldQty: 0` applied to what the update did not set. */
  function InsertedMeal(kitchenId: Id, date: int, mealType: string, title: string,
                        description: string, imageUrl: string, price: int, totalQty: int,
                        isAvailable: bool): (m: Meal)
    ensures m.soldQty == 0 && RemainingQty(m) == (if totalQty > 0 then totalQty else 0)
    ensures m.kitchenId == kitchenId && m.date == date && m.mealType == mealType
  {
    Meal(kitchenId, date, mealType, title, description, imageUrl, price, totalQty, 0, isAvailable)
  }
}
