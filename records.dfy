/** The records outside the meal ledger that the handlers read and write: users
    (Backend/model/userModel.js), ratings (ratingModel.js), subscription plans and user
    subscriptions (subscriptionPlanModel.js, userSubscriptionModel.js), complaints
    (complaintModel.js) and announcements (announcementModel.js). Enumerations keep the
    schema's value lists; each `Parse` function is membership in that list. */
module Records {
  import opened Http
  import opened MealModel

  datatype Role = Customer | KitchenRole | Admin {
    function Name(): string {
      match this
      case Customer => "customer"
      case KitchenRole => "kitchen"
      case Admin => "admin"
    }
  }

  function ParseRole(s: string): (r: Option<Role>)
    ensures forall v: Role :: r == Some(v) <==> v.Name() == s
  {
    if s == "customer" then Some(Customer)
    else if s == "kitchen" then Some(KitchenRole)
    else if s == "admin" then Some(Admin)
    else None
  }

  /** A stored user. The password hash, phone and address are not modelled. */
  datatype User = User(
    name: string,
    email: string,
    role: Role,
    isActivated: bool,
    favoriteKitchens: seq<Id>)

  /** A user as signup creates it: role `customer` and activated (the schema defaults), no
      favourites. */
  function NewUser(name: string, email: string): (u: User)
    ensures u.role == Customer && u.isActivated && u.favoriteKitchens == []
    ensures u.name == name && u.email == email
  {
    User(name, email, Customer, true, [])
  }

  /** A rating, stored under the unique key (userId, kitchenId). */
  datatype Rating = Rating(rating: int, feedback: string)

  datatype PlanType = Weekly | Monthly {
    function Name(): string {
      match this
      case Weekly => "weekly"
      case Monthly => "monthly"
    }
  }

  datatype Plan = Plan(planType: PlanType, mealsPerDay: int, price: int, isActive: bool)

  /** The schema bounds of a plan: 1 to 3 meals a day and a price of at least 0. */
  predicate PlanWithinBounds(p: Plan) {
    1 <= p.mealsPerDay <= 3 && p.price >= 0
  }

  datatype SubscriptionStatus = Active | SubscriptionCancelled | Expired

  datatype Subscription = Subscription(
    userId: Id,
    planId: Id,
    startDate: int,
    endDate: int,
    status: SubscriptionStatus)

  datatype ComplaintType = General | PolicyViolation | ReviewFlag {
    function Name(): string {
      match this
      case General => "complaint"
      case PolicyViolation => "policy_violation"
      case ReviewFlag => "review_flag"
    }
  }

  function ParseComplaintType(s: string): (r: Option<ComplaintType>)
    ensures forall v: ComplaintType :: r == Some(v) <==> v.Name() == s
  {
    if s == "complaint" then Some(General)
    else if s == "policy_violation" then Some(PolicyViolation)
    else if s == "review_flag" then Some(ReviewFlag)
    else None
  }

  datatype ComplaintStatus = Open | Investigating | Resolved | Dismissed {
    function Name(): string {
      match this
      case Open => "open"
      case Investigating => "investigating"
      case Resolved => "resolved"
      case Dismissed => "rejected"
    }
  }

  function ParseComplaintStatus(s: string): (r: Option<ComplaintStatus>)
    ensures forall v: ComplaintStatus :: r == Some(v) <==> v.Name() == s
  {
    if s == "open" then Some(Open)
    else if s == "investigating" then Some(Investigating)
    else if s == "resolved" then Some(Resolved)
    else if s == "rejected" then Some(Dismissed)
    else None
  }

  datatype Severity = Low | Medium | High | Critical {
    function Name(): string {
      match this
      case Low => "low"
      case Medium => "medium"
      case High => "high"
      case Critical => "critical"
    }
  }

  function ParseSeverity(s: string): (r: Option<Severity>)
    ensures forall v: Severity :: r == Some(v) <==> v.Name() == s
  {
    if s == "low" then Some(Low)
    else if s == "medium" then Some(Medium)
    else if s == "high" then Some(High)
    else if s == "critical" then Some(Critical)
    else None
  }

  datatype Complaint = Complaint(
    reporterUserId: Option<Id>,
    kitchenId: Option<Id>,
    orderId: Option<Id>,
    complaintType: ComplaintType,
    category: string,
    message: string,
    status: ComplaintStatus,
    severity: Severity,
    adminNotes: string,
    labels: seq<string>)

  datatype Audience = Everyone | Customers | Kitchens | Admins {
    function Name(): string {
      match this
      case Everyone => "all"
      case Customers => "customers"
      case Kitchens => "kitchens"
      case Admins => "admins"
    }
  }

  function ParseAudience(s: string): (r: Option<Audience>)
    ensures forall v: Audience :: r == Some(v) <==> v.Name() == s
  {
    if s == "all" then Some(Everyone)
    else if s == "customers" then Some(Customers)
    else if s == "kitchens" then Some(Kitchens)
    else if s == "admins" then Some(Admins)
    else None
  }

  datatype AnnouncementStatus = Draft | Scheduled | Published | Archived {
    function Name(): string {
      match this
      case Draft => "draft"
      case Scheduled => "scheduled"
      case Published => "published"
      case Archived => "archived"
    }
  }

  function ParseAnnouncementStatus(s: string): (r: Option<AnnouncementStatus>)
    ensures forall v: AnnouncementStatus :: r == Some(v) <==> v.Name() == s
  {
    if s == "draft" then Some(Draft)
    else if s == "scheduled" then Some(Scheduled)
    else if s == "published" then Some(Published)
    else if s == "archived" then Some(Archived)
    else None
  }

  datatype Priority = PriorityLow | PriorityNormal | PriorityHigh {
    function Name(): string {
      match this
      case PriorityLow => "low"
      case PriorityNormal => "normal"
      case PriorityHigh => "high"
    }
  }

  function ParsePriority(s: string): (r: Option<Priority>)
    ensures forall v: Priority :: r == Some(v) <==> v.Name() == s
  {
    if s == "low" then Some(PriorityLow)
    else if s == "normal" then Some(PriorityNormal)
    else if s == "high" then Some(PriorityHigh)
    else None
  }

  datatype Announcement = Announcement(
    title: string,
    body: string,
    audience: Audience,
    status: AnnouncementStatus,
    publishAt: Option<int>,
    createdByUserId: Option<Id>,
    priority: Priority)

  /** A user with the given id gets role `role` (`findByIdAndUpdate` with `$set: { role }`);
      no user with that id, no change. */
  function WithRole(users: map<Id, User>, id: Id, role: Role): (r: map<Id, User>)
    ensures r.Keys == users.Keys
    ensures forall u :: u in users && u != id ==> r[u] == users[u]
    ensures id in users ==> r[id] == users[id].(role := role)
  {
    if id in users then users[id := users[id].(role := role)] else users
  }

  // ---------------------------------------------------------------- the stored records

  /** The collections outside the ledger, with their own id allocator. */
  datatype RecordState = RecordState(
    users: map<Id, User>,
    ratings: map<(Id, Id), Rating>,
    plans: map<Id, Plan>,
    subscriptions: map<Id, Subscription>,
    complaints: map<Id, Complaint>,
    announcements: map<Id, Announcement>,
    nextRecordId: nat)

  /** A handler's effect on the records: the records after it and its response. */
  datatype Outcome<T> = Outcome(records: RecordState, result: Result<T>)

  predicate Distinct(xs: seq<Id>) {
    forall i, j :: 0 <= i < j < |xs| ==> xs[i] != xs[j]
  }

  /** The unique index (planType, mealsPerDay) of subscriptionPlanModel.js. */
  predicate PlansUnique(plans: map<Id, Plan>) {
    forall a, b ::
      (a in plans && b in plans && plans[a].planType == plans[b].planType
       && plans[a].mealsPerDay == plans[b].mealsPerDay) ==> a == b
  }

  predicate RecordIdsBelow(r: RecordState) {
    (forall u :: u in r.users ==> u < r.nextRecordId)
    && (forall p :: p in r.plans ==> p < r.nextRecordId)
    && (forall x :: x in r.subscriptions ==> x < r.nextRecordId)
    && (forall c :: c in r.complaints ==> c < r.nextRecordId)
    && (forall a :: a in r.announcements ==> a < r.nextRecordId)
  }

  /** What the handlers keep true of the records: fresh ids stay fresh, favourites hold no
      duplicates, stored ratings lie in [1, 5], and plans respect their unique index and
      bounds. */
  predicate RecordsValid(r: RecordState) {
    RecordIdsBelow(r)
    && (forall u :: u in r.users ==> Distinct(r.users[u].favoriteKitchens))
    && (forall key :: key in r.ratings ==> 1 <= r.ratings[key].rating <= 5)
    && PlansUnique(r.plans)
    && (forall p :: p in r.plans ==> PlanWithinBounds(r.plans[p]))
  }

  /** Storing a new user under the next fresh id keeps the invariants. */
  lemma AddUserKeeps(r: RecordState, u: User)
    requires RecordsValid(r) && Distinct(u.favoriteKitchens)
    ensures RecordsValid(r.(users := r.users[r.nextRecordId := u], nextRecordId := r.nextRecordId + 1))
  {
  }
}
