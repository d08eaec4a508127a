/** Subscription plans and subscribing (Backend/controllers/subscriptionRoutes.js): the plan
    list that seeds six default plans when no plan is active, and a subscription that runs
    from a day key for seven days (weekly) or thirty days (monthly). */
module Subscriptions {
  import opened Http
  import opened Dates
  import opened MealModel
  import opened Records

  /** The length of a plan in days. */
  function PlanDays(t: PlanType): (d: int)
    ensures d == 7 || d == 30
    ensures t.Weekly? <==> d == 7
  {
    if t == Weekly then 7 else 30
  }

  /** The start of Mongoose's validation message for an invalid end date, abbreviated: the
      library's full text goes on to name the value, its type and the path. */
  const EndDateInvalid: string := "UserSubscription validation failed: endDate: Cast to date failed"

  /** `POST /subscriptions/subscribe` by `userId`. The plan id is required and must name an
      active plan; the start is the day key of `startDate` (today when it is missing); the
      end moves the start's date by the plan's days. */
  function Subscribe(r: RecordState, userId: Id, planId: Option<Id>, startDate: DateInput, now: Time): (o: Outcome<Id>)
    ensures o.result.Err? ==> o.records == r
    ensures o.result.Ok? ==> o.result.value == r.nextRecordId
  {
    SubscribeFrom(r, userId, planId, ParseDateOnlyUtc(startDate, now))
  }

  /** The handler once `startDate` has been parsed into `start`. Parsing has no effect and its
      result is only looked at after the plan checks, so parsing first changes nothing. */
  function SubscribeFrom(r: RecordState, userId: Id, planId: Option<Id>, start: Result<Time>): (o: Outcome<Id>)
    ensures o.result.Err? ==> o.records == r
    ensures o.result.Ok? ==> o.result.value == r.nextRecordId
  {
    if planId.None? then Outcome(r, Err(400, "planId is required"))
    else if planId.value !in r.plans || !r.plans[planId.value].isActive then Outcome(r, Err(404, "Plan not found"))
    else if start.Err? then Outcome(r, Err(start.status, start.message))
    else Enroll(r, userId, planId.value, start.value, AddUtcDays(start.value, PlanDays(r.plans[planId.value].planType)))
  }

  /** `UserSubscriptionModel.create` of an active subscription from `start` to `end`; an end
      that is an Invalid Date fails the date cast (500). */
  function Enroll(r: RecordState, userId: Id, planId: Id, start: Time, end: Option<Time>): (o: Outcome<Id>)
    ensures o.result.Err? <==> end.None?
    ensures o.result.Err? ==> o.records == r && o.result.status == 500
    ensures o.result.Ok? ==> o.result.value == r.nextRecordId
  {
    if end.None? then Outcome(r, Err(500, EndDateInvalid))
    else
      var id := r.nextRecordId;
      var sub := Subscription(userId, planId, start, end.value, Active);
      Outcome(r.(subscriptions := r.subscriptions[id := sub], nextRecordId := id + 1), Ok(id))
  }

  /** A valid end date creates the subscription under the next record id. */
  lemma EnrollSome(r: RecordState, userId: Id, planId: Id, start: Time, end: Time)
    ensures Enroll(r, userId, planId, start, Some(end))
            == Outcome(r.(subscriptions := r.subscriptions[r.nextRecordId := Subscription(userId, planId, start, end, Active)],
                          nextRecordId := r.nextRecordId + 1), Ok(r.nextRecordId))
  {
  }

  /** A subscription is created exactly when the plan id names an active plan, the start date
      parses and the end stays a valid date. */
  lemma SubscribeAccepts(r: RecordState, userId: Id, planId: Option<Id>, start: Result<Time>)
    ensures SubscribeFrom(r, userId, planId, start).result.Ok? <==>
              planId.Some? && planId.value in r.plans && r.plans[planId.value].isActive && start.Ok?
              && start.value + PlanDays(r.plans[planId.value].planType) * 86_400_000 <= MaxTime
  {
    if planId.Some? && planId.value in r.plans && r.plans[planId.value].isActive && start.Ok? {
      SubscribeEnd(r, userId, planId.value, start.value);
    }
  }

  /** For an active plan, the subscription is created exactly when the end, 7 or 30 whole
      days after the start, is a valid date. */
  lemma SubscribeEnd(r: RecordState, userId: Id, planId: Id, start: Time)
    requires planId in r.plans && r.plans[planId].isActive
    ensures SubscribeFrom(r, userId, Some(planId), Ok(start)).result.Ok?
            <==> start + PlanDays(r.plans[planId].planType) * 86_400_000 <= MaxTime
  {
    var days := PlanDays(r.plans[planId].planType);
    PlanEnd(start, days);
    assert SubscribeFrom(r, userId, Some(planId), Ok(start)) == Enroll(r, userId, planId, start, AddUtcDays(start, days));
  }

  /** When it is created, the subscription is active, runs from the start to that end and is
      stored under the next record id; nothing else changes. */
  lemma SubscribeCreates(r: RecordState, userId: Id, planId: Id, start: Time)
    requires planId in r.plans && r.plans[planId].isActive
    requires start + PlanDays(r.plans[planId].planType) * 86_400_000 <= MaxTime
    ensures var id := r.nextRecordId;
            var end := start + PlanDays(r.plans[planId].planType) * 86_400_000;
            SubscribeFrom(r, userId, Some(planId), Ok(start))
            == Outcome(r.(subscriptions := r.subscriptions[id := Subscription(userId, planId, start, end, Active)],
                          nextRecordId := id + 1), Ok(id))
  {
    var days := PlanDays(r.plans[planId].planType);
    var end := start + days * 86_400_000;
    SubscribeFromActive(r, userId, planId, start);
    PlanEnd(start, days);
    EnrollSome(r, userId, planId, start, end);
  }

  /** For an active plan the handler enrolls with the end its plan gives. */
  lemma SubscribeFromActive(r: RecordState, userId: Id, planId: Id, start: Time)
    requires planId in r.plans && r.plans[planId].isActive
    ensures SubscribeFrom(r, userId, Some(planId), Ok(start))
            == Enroll(r, userId, planId, start, AddUtcDays(start, PlanDays(r.plans[planId].planType)))
  {
  }

  /** The error cases in the order the handler tests them. */
  lemma SubscribeErrors(r: RecordState, userId: Id, planId: Option<Id>, startDate: DateInput, now: Time)
    ensures planId.None? ==> Subscribe(r, userId, planId, startDate, now).result == Err(400, "planId is required")
    ensures planId.Some? && (planId.value !in r.plans || !r.plans[planId.value].isActive) ==>
              Subscribe(r, userId, planId, startDate, now).result == Err(404, "Plan not found")
    ensures planId.Some? && planId.value in r.plans && r.plans[planId.value].isActive
            && ParseDateOnlyUtc(startDate, now).Err? ==>
              Subscribe(r, userId, planId, startDate, now).result.Err?
              && Subscribe(r, userId, planId, startDate, now).result.status == 400
  {
  }

  /** Subscribing keeps the records' invariants. */
  lemma SubscribeKeepsInvariants(r: RecordState, userId: Id, planId: Option<Id>, start: Result<Time>)
    requires RecordsValid(r)
    ensures RecordsValid(SubscribeFrom(r, userId, planId, start).records)
  {
    if planId.Some? && planId.value in r.plans && r.plans[planId.value].isActive && start.Ok? {
      EnrollKeepsInvariants(r, userId, planId.value, start.value, AddUtcDays(start.value, PlanDays(r.plans[planId.value].planType)));
    }
  }

  lemma EnrollKeepsInvariants(r: RecordState, userId: Id, planId: Id, start: Time, end: Option<Time>)
    requires RecordsValid(r)
    ensures RecordsValid(Enroll(r, userId, planId, start, end).records)
  {
  }

  /** The end of a plan of `days` days: that many whole days later, unless that passes the
      last valid date. */
  lemma PlanEnd(start: Time, days: int)
    requires 0 <= days
    ensures AddUtcDays(start, days) == (if start + days * 86_400_000 <= MaxTime then Some(start + days * 86_400_000) else None)
  {
    AddUtcDaysShifts(start, days);
  }

  /** Whole days added to a UTC midnight give a UTC midnight no earlier: a subscription that
      starts on the midnight the start date parses to ends on a midnight too. */
  lemma WholeDays(start: int, days: int)
    requires start % 86_400_000 == 0 && 0 <= days
    ensures start <= start + days * 86_400_000
    ensures (start + days * 86_400_000) % 86_400_000 == 0
  {
    var q := start / 86_400_000;
    assert start == q * 86_400_000;
    assert start + days * 86_400_000 == (q + days) * 86_400_000;
  }

  // ---------------------------------------------------------------- the plan list

  /** A default plan, inserted with `isActive: true`. */
  datatype PlanSeed = PlanSeed(planType: PlanType, mealsPerDay: int, price: int)

  const DefaultPlans: seq<PlanSeed> := [
    PlanSeed(Weekly, 1, 999), PlanSeed(Weekly, 2, 1799), PlanSeed(Weekly, 3, 2499),
    PlanSeed(Monthly, 1, 3499), PlanSeed(Monthly, 2, 6499), PlanSeed(Monthly, 3, 8999)]

  function SeededPlan(p: PlanSeed): (plan: Plan)
    ensures plan.isActive && plan.planType == p.planType && plan.mealsPerDay == p.mealsPerDay
  {
    Plan(p.planType, p.mealsPerDay, p.price, true)
  }

  /** Some stored plan has the key (planType, mealsPerDay), active or not. */
  predicate HasPlanKey(plans: map<Id, Plan>, t: PlanType, m: int) {
    exists id :: id in plans && plans[id].planType == t && plans[id].mealsPerDay == m
  }

  /** `updateOne({planType, mealsPerDay}, {$setOnInsert: {...p, isActive: true}}, {upsert: true})`:
      a plan with the key is left as it is; otherwise the seed is inserted under a fresh id. */
  function SeedOne(r: RecordState, p: PlanSeed): RecordState {
    if HasPlanKey(r.plans, p.planType, p.mealsPerDay) then r
    else r.(plans := r.plans[r.nextRecordId := SeededPlan(p)], nextRecordId := r.nextRecordId + 1)
  }

  /** The upserts of the seeds, in order. */
  function SeedAll(r: RecordState, ps: seq<PlanSeed>): RecordState
    decreases |ps|
  {
    if ps == [] then r else SeedOne(SeedAll(r, ps[..|ps| - 1]), ps[|ps| - 1])
  }

  predicate HasActivePlan(plans: map<Id, Plan>) {
    exists id :: id in plans && plans[id].isActive
  }

  function ActivePlans(plans: map<Id, Plan>): (ids: set<Id>)
    ensures forall id :: id in ids <==> id in plans && plans[id].isActive
  {
    set id | id in plans && plans[id].isActive
  }

  /** `GET /subscriptions/plans`: the active plans; when there are none the defaults are
      upserted first and the active plans read again. The sort order is not modelled. */
  function ListPlans(r: RecordState): (o: Outcome<set<Id>>)
    ensures o.result.Ok?
  {
    if HasActivePlan(r.plans) then Outcome(r, Ok(ActivePlans(r.plans)))
    else
      var seeded := SeedAll(r, DefaultPlans);
      Outcome(seeded, Ok(ActivePlans(seeded.plans)))
  }

  /** What an upsert keeps: every stored plan stays as it is, only plans under fresh ids are
      added, its key is then present, the other collections are untouched, and the plans'
      unique index and bounds still hold. */
  lemma SeedOneKeeps(r: RecordState, p: PlanSeed)
    requires RecordsValid(r)
    requires 1 <= p.mealsPerDay <= 3 && p.price >= 0
    ensures var r' := SeedOne(r, p);
            RecordsValid(r') && r'.nextRecordId >= r.nextRecordId
            && (forall id :: id in r.plans ==> id in r'.plans && r'.plans[id] == r.plans[id])
            && (forall id :: id in r'.plans && id !in r.plans ==> r.nextRecordId <= id && r'.plans[id].isActive)
            && HasPlanKey(r'.plans, p.planType, p.mealsPerDay)
            && r'.users == r.users && r'.ratings == r.ratings && r'.subscriptions == r.subscriptions
            && r'.complaints == r.complaints && r'.announcements == r.announcements
  {
    if !HasPlanKey(r.plans, p.planType, p.mealsPerDay) {
      var r' := SeedOne(r, p);
      assert r'.plans[r.nextRecordId].planType == p.planType;
    }
  }

  /** The same for a run of upserts; every seeded key is present afterwards. */
  lemma {:induction false} SeedAllKeeps(r: RecordState, ps: seq<PlanSeed>)
    requires RecordsValid(r)
    requires forall i :: 0 <= i < |ps| ==> 1 <= ps[i].mealsPerDay <= 3 && ps[i].price >= 0
    ensures var r' := SeedAll(r, ps);
            RecordsValid(r') && r'.nextRecordId >= r.nextRecordId
            && (forall id :: id in r.plans ==> id in r'.plans && r'.plans[id] == r.plans[id])
            && (forall id :: id in r'.plans && id !in r.plans ==> r.nextRecordId <= id && r'.plans[id].isActive)
            && (forall i :: 0 <= i < |ps| ==> HasPlanKey(r'.plans, ps[i].planType, ps[i].mealsPerDay))
            && r'.users == r.users && r'.ratings == r.ratings && r'.subscriptions == r.subscriptions
            && r'.complaints == r.complaints && r'.announcements == r.announcements
    decreases |ps|
  {
    if ps != [] {
      var init := ps[..|ps| - 1];
      var last := ps[|ps| - 1];
      SeedAllKeeps(r, init);
      var mid := SeedAll(r, init);
      SeedOneKeeps(mid, last);
      var r' := SeedOne(mid, last);
      forall i | 0 <= i < |ps|
        ensures HasPlanKey(r'.plans, ps[i].planType, ps[i].mealsPerDay)
      {
        if i < |ps| - 1 {
          assert ps[i] == init[i];
          var id :| id in mid.plans && mid.plans[id].planType == ps[i].planType
                    && mid.plans[id].mealsPerDay == ps[i].mealsPerDay;
          assert r'.plans[id] == mid.plans[id];
        }
      }
    }
  }

  lemma DefaultPlansWithinBounds()
    ensures forall i :: 0 <= i < |DefaultPlans| ==> 1 <= DefaultPlans[i].mealsPerDay <= 3 && DefaultPlans[i].price >= 0
  {
  }

  /** Listing the plans keeps the invariants and never alters a stored plan; afterwards all
      six default keys are present, and the list is empty only when every default key is held
      by an inactive plan. */
  lemma ListPlansEffect(r: RecordState)
    requires RecordsValid(r)
    ensures var o := ListPlans(r);
            RecordsValid(o.records)
            && (forall id :: id in r.plans ==> id in o.records.plans && o.records.plans[id] == r.plans[id])
            && (forall id :: id in o.result.value <==> id in o.records.plans && o.records.plans[id].isActive)
            && (!HasActivePlan(r.plans) ==>
                  forall i :: 0 <= i < |DefaultPlans| ==>
                    HasPlanKey(o.records.plans, DefaultPlans[i].planType, DefaultPlans[i].mealsPerDay))
            && (o.result.value == {} ==>
                  forall i :: 0 <= i < |DefaultPlans| ==>
                    exists id :: id in r.plans && !r.plans[id].isActive
                                 && r.plans[id].planType == DefaultPlans[i].planType
                                 && r.plans[id].mealsPerDay == DefaultPlans[i].mealsPerDay)
  {
    if !HasActivePlan(r.plans) {
      DefaultPlansWithinBounds();
      SeedAllKeeps(r, DefaultPlans);
      var o := ListPlans(r);
      if o.result.value == {} {
        forall i | 0 <= i < |DefaultPlans|
          ensures exists id :: id in r.plans && !r.plans[id].isActive
                               && r.plans[id].planType == DefaultPlans[i].planType
                               && r.plans[id].mealsPerDay == DefaultPlans[i].mealsPerDay
        {
          var id :| id in o.records.plans && o.records.plans[id].planType == DefaultPlans[i].planType
                    && o.records.plans[id].mealsPerDay == DefaultPlans[i].mealsPerDay;
          assert id !in o.result.value;
          assert id in r.plans;
        }
      }
    }
  }

  /** With an active plan stored, listing changes nothing. */
  lemma ListPlansReadOnly(r: RecordState)
    requires HasActivePlan(r.plans)
    ensures ListPlans(r).records == r
    ensures ListPlans(r).result.value != {}
  {
    var id :| id in r.plans && r.plans[id].isActive;
    assert id in ListPlans(r).result.value;
  }
}
