/** The admin handlers (Backend/controllers/adminRoutes.js): the gate in front of every admin
    route, the list `limit` clamp, user activation, the kitchen verification, FSSAI, location
    and suspension decisions, and the complaint and announcement updates. Each handler builds
    its update from the request body field by field and applies it to the stored record; here
    that is one step from the old state to the new one and a response. */
module AdminRules {
  import opened Http
  import opened Strings
  import opened Js
  import opened Dates
  import opened MealModel
  import opened KitchenModel
  import opened Records
  import opened Auth
  import opened AdminAccess
  import opened Ledger
  import KitchenProfile

  // ---------------------------------------------------------------- the gate

  const AdminEmailRequired: string := "Forbidden: admin email required"

  /** `requireAuth`, then `requireRole(["admin"])`, then the allow-list check of the e-mail. */
  function AdminGate(c: Credentials, users: map<Id, User>, secretSet: bool, verify: string -> Option<Id>,
                     adminEmails: seq<string>): (r: Result<Id>)
    ensures r.Ok? ==> r.value in users
  {
    match Authenticate(c, users, secretSet, verify)
    case Err(code, msg) => Err(code, msg)
    case Ok(id) =>
      match RequireRole(RoleSeq(["admin"]), Some(users[id]))
      case Err(code, msg) => Err(code, msg)
      case Ok(_) =>
        if !IsAdminEmail(adminEmails, users[id].email) then Err(403, AdminEmailRequired)
        else Ok(id)
  }

  /** An admin route is reached exactly by an authenticated user with role `admin` whose
      e-mail is allow-listed; an authenticated user lacking either is refused with 403. */
  lemma AdminGateAdmits(c: Credentials, users: map<Id, User>, secretSet: bool, verify: string -> Option<Id>,
                        adminEmails: seq<string>)
    ensures var a := Authenticate(c, users, secretSet, verify);
            var g := AdminGate(c, users, secretSet, verify, adminEmails);
            (g.Ok? <==> a.Ok? && users[a.value].role == Admin && IsAdminEmail(adminEmails, users[a.value].email))
            && (g.Ok? ==> g.value == a.value)
            && (a.Ok? && g.Err? ==> g.status == 403)
            && (a.Err? ==> g == Err(a.status, a.message))
  {
    var a := Authenticate(c, users, secretSet, verify);
    if a.Ok? {
      SingleRoleAdmitsOnlyIt(Admin, users[a.value]);
      OneRoleIsList("admin", Some(users[a.value]));
    }
  }

  /** Holding role `admin` is not enough: an admin whose e-mail has left the allow-list is
      refused. */
  lemma RoleAloneRefused(c: Credentials, users: map<Id, User>, verify: string -> Option<Id>, adminEmails: seq<string>, id: Id)
    requires Authenticate(c, users, true, verify) == Ok(id)
    requires users[id].role == Admin && !IsAdminEmail(adminEmails, users[id].email)
    ensures AdminGate(c, users, true, verify, adminEmails) == Err(403, AdminEmailRequired)
  {
    assert RequireRole(RoleSeq(["admin"]), Some(users[id])) == Ok(());
  }

  // ---------------------------------------------------------------- list limit

  /** `Math.min(Number(limit) || dflt, cap)`, where an absent `limit` takes the default of
      the destructuring (`limit = dflt`) first. */
  function ListLimit(limit: JsValue, dflt: int, cap: int): (r: int)
    ensures r <= cap
  {
    var n := ToNumber(if limit == Undefined then Num(dflt) else limit);
    var v := if n.None? || n.value == 0 then dflt else n.value;
    if v < cap then v else cap
  }

  /** The routes' clamps: an absent, zero or non-numeric limit gives the default, any other
      number is capped; a negative one is passed on as it is. */
  lemma ListLimitClamps(limit: JsValue, dflt: int, cap: int)
    requires 0 < dflt <= cap
    ensures var n := ToNumber(limit);
            (limit == Undefined || n.None? || n.value == 0 ==> ListLimit(limit, dflt, cap) == dflt)
            && (n.Some? && n.value != 0 && limit != Undefined ==> ListLimit(limit, dflt, cap) == if n.value < cap then n.value else cap)
            && (n.Some? && n.value < 0 && limit != Undefined ==> ListLimit(limit, dflt, cap) == n.value)
  {
  }

  // ---------------------------------------------------------------- user activation

  /** `PATCH /admin/users/:id/status`: `isActivated` must be a boolean; only that flag of the
      user changes. */
  function SetUserStatus(r: RecordState, userId: Id, isActivated: JsValue): (o: Outcome<User>)
    ensures o.result.Err? ==> o.records == r
  {
    if !isActivated.Bool? then Outcome(r, Err(400, "isActivated (boolean) is required"))
    else if userId !in r.users then Outcome(r, Err(404, "User not found"))
    else
      var u := r.users[userId].(isActivated := isActivated.b);
      Outcome(r.(users := r.users[userId := u]), Ok(u))
  }

  lemma SetUserStatusEffect(r: RecordState, userId: Id, isActivated: JsValue)
    ensures var o := SetUserStatus(r, userId, isActivated);
            (o.result.Ok? <==> isActivated.Bool? && userId in r.users)
            && (o.result.Ok? ==>
                  o.result.value == r.users[userId].(isActivated := isActivated.b)
                  && o.records == r.(users := r.users[userId := o.result.value]))
  {
  }

  lemma SetUserStatusKeepsInvariants(r: RecordState, userId: Id, isActivated: JsValue)
    requires RecordsValid(r)
    ensures RecordsValid(SetUserStatus(r, userId, isActivated).records)
  {
    var o := SetUserStatus(r, userId, isActivated);
    if o.result.Ok? {
      assert o.records.users[userId].favoriteKitchens == r.users[userId].favoriteKitchens;
    }
  }

  /** The string "true" is not a boolean. */
  lemma TextTrueRefused(r: RecordState, userId: Id)
    ensures SetUserStatus(r, userId, Str("true")) == Outcome(r, Err(400, "isActivated (boolean) is required"))
  {
  }

  // ---------------------------------------------------------------- kitchen decisions

  const KitchenNotFound: string := "Kitchen not found"

  /** The update `PATCH /admin/kitchens/:id/decision` applies; `verifiedBadge ?? true` keeps the
      default only for an absent or null value. */
  function Decided(k: Kitchen, approve: bool, reason: JsValue, verifiedBadge: JsValue, now: int): (r: Kitchen)
    ensures r.ownerUserId == k.ownerUserId && r.dailyOrderLimit == k.dailyOrderLimit
  {
    if approve then
      k.(verified := true, verificationStatus := Verified, verificationRejectedReason := "",
         verifiedAt := Some(now),
         verifiedBadge := if verifiedBadge == Undefined || verifiedBadge == Null then true else Truthy(verifiedBadge),
         fssai := k.fssai.(validationStatus := Verified))
    else
      k.(verified := false, verificationStatus := Rejected, verificationRejectedReason := ToText(reason),
         verifiedAt := None, verifiedBadge := false)
  }

  /** `PATCH /admin/kitchens/:id/decision`: the decision must be the string `verified` or
      `rejected`, and a rejection needs a reason, both checked before the lookup. */
  function DecideKitchen(s: LedgerState, kitchenId: Id, decision: JsValue, reason: JsValue,
                         verifiedBadge: JsValue, now: int): (st: Step<Kitchen>)
    ensures st.result.Err? ==> st.state == s
  {
    if decision != Str("verified") && decision != Str("rejected") then
      Step(s, Err(400, "decision must be 'verified' or 'rejected'"))
    else if decision == Str("rejected") && !Truthy(reason) then
      Step(s, Err(400, "reason is required when rejecting"))
    else if kitchenId !in s.kitchens then Step(s, Err(404, KitchenNotFound))
    else
      var kit := Decided(s.kitchens[kitchenId], decision == Str("verified"), reason, verifiedBadge, now);
      Step(s.(kitchens := s.kitchens[kitchenId := kit]), Ok(kit))
  }

  /** Approval marks the kitchen and its FSSAI licence verified with an empty rejection reason
      and the badge on unless it is explicitly turned off. */
  lemma ApproveEffect(s: LedgerState, kitchenId: Id, reason: JsValue, verifiedBadge: JsValue, now: int)
    requires kitchenId in s.kitchens
    ensures var st := DecideKitchen(s, kitchenId, Str("verified"), reason, verifiedBadge, now);
            var k := st.result.value;
            st.result.Ok? && st.state.kitchens == s.kitchens[kitchenId := k]
            && k.verified && k.verificationStatus == Verified && k.verificationRejectedReason == ""
            && k.verifiedAt == Some(now) && k.fssai.validationStatus == Verified
            && (k.verifiedBadge <==> (verifiedBadge == Undefined || verifiedBadge == Null || Truthy(verifiedBadge)))
  {
  }

  /** A rejection without a reason fails; with one, the kitchen is unverified, carries the
      reason's text, and loses its badge and verification time. */
  lemma RejectEffect(s: LedgerState, kitchenId: Id, reason: JsValue, verifiedBadge: JsValue, now: int)
    ensures var st := DecideKitchen(s, kitchenId, Str("rejected"), reason, verifiedBadge, now);
            (st.result.Ok? <==> Truthy(reason) && kitchenId in s.kitchens)
            && (!Truthy(reason) ==> st == Step(s, Err(400, "reason is required when rejecting")))
            && (st.result.Ok? ==>
                  var k := st.result.value;
                  st.state.kitchens == s.kitchens[kitchenId := k]
                  && !k.verified && k.verificationStatus == Rejected && k.verificationRejectedReason == ToText(reason)
                  && k.verifiedAt.None? && !k.verifiedBadge
                  && k.fssai == s.kitchens[kitchenId].fssai)
  {
  }

  /** Any other decision value, including `approve` or a differently cased `Verified`, is
      refused before the kitchen is looked up. */
  lemma OtherDecisionRefused(s: LedgerState, kitchenId: Id, decision: JsValue, reason: JsValue, verifiedBadge: JsValue, now: int)
    requires decision != Str("verified") && decision != Str("rejected")
    ensures DecideKitchen(s, kitchenId, decision, reason, verifiedBadge, now)
            == Step(s, Err(400, "decision must be 'verified' or 'rejected'"))
  {
  }

  lemma DecideKitchenKeepsInvariants(s: LedgerState, kitchenId: Id, decision: JsValue, reason: JsValue,
                                     verifiedBadge: JsValue, now: int)
    requires WellFormed(s) && Consistent(s)
    ensures WellFormed(DecideKitchen(s, kitchenId, decision, reason, verifiedBadge, now).state)
    ensures Consistent(DecideKitchen(s, kitchenId, decision, reason, verifiedBadge, now).state)
  {
    var st := DecideKitchen(s, kitchenId, decision, reason, verifiedBadge, now);
    if st.result.Ok? {
      KitchenProfile.KitchenRewriteKeeps(s, kitchenId, st.result.value);
    }
  }

  /** The FSSAI update: status and notes always, the rejection reason cleared on `verified`,
      set on `rejected`, and left as it was on `pending`. */
  function WithFssaiStatus(f: Fssai, status: ReviewStatus, reason: JsValue, notes: JsValue): (r: Fssai)
    ensures r.licenseNumber == f.licenseNumber && r.expiryDate == f.expiryDate
  {
    var g := f.(validationStatus := status, validationNotes := TextOrEmpty(notes));
    match status
    case Verified => g.(rejectionReason := "")
    case Rejected => g.(rejectionReason := TextOrEmpty(reason))
    case Pending => g
  }

  /** `PATCH /admin/kitchens/:id/fssai`. */
  function SetFssaiStatus(s: LedgerState, kitchenId: Id, status: JsValue, reason: JsValue, notes: JsValue): (st: Step<Kitchen>)
    ensures st.result.Err? ==> st.state == s
  {
    if !status.Str? || ParseReviewStatus(status.s).None? then
      Step(s, Err(400, "status must be pending/verified/rejected"))
    else if kitchenId !in s.kitchens then Step(s, Err(404, KitchenNotFound))
    else
      var k := s.kitchens[kitchenId];
      var kit := k.(fssai := WithFssaiStatus(k.fssai, ParseReviewStatus(status.s).value, reason, notes));
      Step(s.(kitchens := s.kitchens[kitchenId := kit]), Ok(kit))
  }

  /** Only the FSSAI record of the kitchen changes; its status becomes the requested one and
      its reason follows the status. The kitchen's own verification is untouched. */
  lemma FssaiEffect(s: LedgerState, kitchenId: Id, v: ReviewStatus, reason: JsValue, notes: JsValue)
    requires kitchenId in s.kitchens
    ensures var st := SetFssaiStatus(s, kitchenId, Str(v.Name()), reason, notes);
            var before := s.kitchens[kitchenId];
            var k := st.result.value;
            st.result.Ok? && st.state.kitchens == s.kitchens[kitchenId := k]
            && k == before.(fssai := k.fssai)
            && k.fssai.validationStatus == v && k.fssai.validationNotes == TextOrEmpty(notes)
            && (v == Verified ==> k.fssai.rejectionReason == "")
            && (v == Rejected ==> k.fssai.rejectionReason == TextOrEmpty(reason))
            && (v == Pending ==> k.fssai.rejectionReason == before.fssai.rejectionReason)
  {
    assert ParseReviewStatus(v.Name()) == Some(v);
  }

  lemma FssaiStatusRefused(s: LedgerState, kitchenId: Id, status: JsValue, reason: JsValue, notes: JsValue)
    requires !status.Str? || ParseReviewStatus(status.s).None?
    ensures SetFssaiStatus(s, kitchenId, status, reason, notes) == Step(s, Err(400, "status must be pending/verified/rejected"))
  {
  }

  lemma FssaiKeepsInvariants(s: LedgerState, kitchenId: Id, status: JsValue, reason: JsValue, notes: JsValue)
    requires WellFormed(s) && Consistent(s)
    ensures WellFormed(SetFssaiStatus(s, kitchenId, status, reason, notes).state)
    ensures Consistent(SetFssaiStatus(s, kitchenId, status, reason, notes).state)
  {
    var st := SetFssaiStatus(s, kitchenId, status, reason, notes);
    if st.result.Ok? {
      KitchenProfile.KitchenRewriteKeeps(s, kitchenId, st.result.value);
    }
  }

  /** `PATCH /admin/kitchens/:id/location-decision`: the pincode's review status, one of the
      three enum strings. */
  function DecideLocation(s: LedgerState, kitchenId: Id, decision: JsValue): (st: Step<Kitchen>)
    ensures st.result.Err? ==> st.state == s
  {
    if !decision.Str? || ParseReviewStatus(decision.s).None? then
      Step(s, Err(400, "decision must be 'verified', 'rejected', or 'pending'"))
    else if kitchenId !in s.kitchens then Step(s, Err(404, KitchenNotFound))
    else
      var kit := s.kitchens[kitchenId].(pincodeVerificationStatus := ParseReviewStatus(decision.s).value);
      Step(s.(kitchens := s.kitchens[kitchenId := kit]), Ok(kit))
  }

  lemma DecideLocationEffect(s: LedgerState, kitchenId: Id, decision: JsValue)
    ensures var st := DecideLocation(s, kitchenId, decision);
            (st.result.Ok? <==> decision.Str? && ParseReviewStatus(decision.s).Some? && kitchenId in s.kitchens)
            && (st.result.Ok? ==>
                  st.result.value.pincodeVerificationStatus.Name() == decision.s
                  && st.result.value == s.kitchens[kitchenId].(pincodeVerificationStatus := st.result.value.pincodeVerificationStatus)
                  && st.state.kitchens == s.kitchens[kitchenId := st.result.value])
  {
  }

  lemma DecideLocationKeepsInvariants(s: LedgerState, kitchenId: Id, decision: JsValue)
    requires WellFormed(s) && Consistent(s)
    ensures WellFormed(DecideLocation(s, kitchenId, decision).state)
    ensures Consistent(DecideLocation(s, kitchenId, decision).state)
  {
    var st := DecideLocation(s, kitchenId, decision);
    if st.result.Ok? {
      KitchenProfile.KitchenRewriteKeeps(s, kitchenId, st.result.value);
    }
  }

  /** `scheduledAt` as the handler reads it: falsy, a value `new Date` cannot read, or the
      time it reads. Parsing a date string is not modelled: the caller supplies its time. */
  datatype ScheduleField = NoSchedule | UnreadableSchedule | ScheduleAt(ms: int)

  /** `PATCH /admin/kitchens/:id/video-call/schedule`: a readable time is required; the call
      becomes `scheduled` at that time. */
  function ScheduleVideoCall(s: LedgerState, kitchenId: Id, scheduledAt: ScheduleField): (st: Step<Kitchen>)
    ensures st.result.Err? ==> st.state == s
  {
    match scheduledAt
    case NoSchedule => Step(s, Err(400, "scheduledAt is required"))
    case UnreadableSchedule => Step(s, Err(400, "scheduledAt must be a valid datetime"))
    case ScheduleAt(ms) =>
      if kitchenId !in s.kitchens then Step(s, Err(404, KitchenNotFound))
      else
        var kit := s.kitchens[kitchenId].(videoCallStatus := CallScheduled, scheduledAt := Some(ms));
        Step(s.(kitchens := s.kitchens[kitchenId := kit]), Ok(kit))
  }

  lemma ScheduleVideoCallEffect(s: LedgerState, kitchenId: Id, scheduledAt: ScheduleField)
    ensures var st := ScheduleVideoCall(s, kitchenId, scheduledAt);
            (st.result.Ok? <==> scheduledAt.ScheduleAt? && kitchenId in s.kitchens)
            && (scheduledAt == UnreadableSchedule ==> st.result == Err(400, "scheduledAt must be a valid datetime"))
            && (st.result.Ok? ==>
                  st.result.value == s.kitchens[kitchenId].(videoCallStatus := CallScheduled,
                                                            scheduledAt := Some(scheduledAt.ms))
                  && st.state == s.(kitchens := s.kitchens[kitchenId := st.result.value]))
  {
  }

  /** `PATCH /admin/kitchens/:id/premium-trial`: the status must be one of the four trial
      strings; notes default to "". */
  function SetTrialResult(s: LedgerState, kitchenId: Id, status: JsValue, notes: JsValue): (st: Step<Kitchen>)
    ensures st.result.Err? ==> st.state == s
  {
    if !status.Str? || ParseTrialOrderStatus(status.s).None? then
      Step(s, Err(400, "status must be one of not_requested/requested/passed/failed"))
    else if kitchenId !in s.kitchens then Step(s, Err(404, KitchenNotFound))
    else
      var kit := s.kitchens[kitchenId].(trialOrderStatus := ParseTrialOrderStatus(status.s).value,
                                        trialNotes := TextOrEmpty(notes));
      Step(s.(kitchens := s.kitchens[kitchenId := kit]), Ok(kit))
  }

  /** The trial's status becomes exactly the string sent, which must name a trial status, and
      its notes the text sent or ""; nothing else about the kitchen changes. */
  lemma TrialResultEffect(s: LedgerState, kitchenId: Id, status: JsValue, notes: JsValue)
    ensures var st := SetTrialResult(s, kitchenId, status, notes);
            (st.result.Ok? <==> status.Str? && ParseTrialOrderStatus(status.s).Some? && kitchenId in s.kitchens)
            && (st.result.Ok? ==>
                  st.result.value.trialOrderStatus.Name() == status.s
                  && st.result.value == s.kitchens[kitchenId].(trialOrderStatus := st.result.value.trialOrderStatus,
                                                               trialNotes := TextOrEmpty(notes))
                  && st.state == s.(kitchens := s.kitchens[kitchenId := st.result.value]))
  {
  }

  lemma VideoCallKeepsInvariants(s: LedgerState, kitchenId: Id, scheduledAt: ScheduleField)
    requires WellFormed(s) && Consistent(s)
    ensures WellFormed(ScheduleVideoCall(s, kitchenId, scheduledAt).state)
    ensures Consistent(ScheduleVideoCall(s, kitchenId, scheduledAt).state)
  {
    var a := ScheduleVideoCall(s, kitchenId, scheduledAt);
    if a.result.Ok? {
      KitchenProfile.KitchenRewriteKeeps(s, kitchenId, a.result.value);
    }
  }

  lemma TrialResultKeepsInvariants(s: LedgerState, kitchenId: Id, status: JsValue, notes: JsValue)
    requires WellFormed(s) && Consistent(s)
    ensures WellFormed(SetTrialResult(s, kitchenId, status, notes).state)
    ensures Consistent(SetTrialResult(s, kitchenId, status, notes).state)
  {
    var b := SetTrialResult(s, kitchenId, status, notes);
    if b.result.Ok? {
      KitchenProfile.KitchenRewriteKeeps(s, kitchenId, b.result.value);
    }
  }

  /** `PATCH /admin/kitchens/:id/suspend`: `isActive` becomes `Boolean(isActive)`, so an
      absent value suspends. */
  function Suspend(s: LedgerState, kitchenId: Id, isActive: JsValue): (st: Step<Kitchen>)
    ensures st.result.Err? ==> st.state == s
  {
    if kitchenId !in s.kitchens then Step(s, Err(404, KitchenNotFound))
    else
      var kit := s.kitchens[kitchenId].(isActive := Truthy(isActive));
      Step(s.(kitchens := s.kitchens[kitchenId := kit]), Ok(kit))
  }

  lemma SuspendEffect(s: LedgerState, kitchenId: Id, isActive: JsValue)
    ensures var st := Suspend(s, kitchenId, isActive);
            (st.result.Ok? <==> kitchenId in s.kitchens)
            && (st.result.Ok? ==>
                  st.result.value == s.kitchens[kitchenId].(isActive := Truthy(isActive))
                  && st.state.kitchens == s.kitchens[kitchenId := st.result.value])
  {
  }

  lemma SuspendKeepsInvariants(s: LedgerState, kitchenId: Id, isActive: JsValue)
    requires WellFormed(s) && Consistent(s)
    ensures WellFormed(Suspend(s, kitchenId, isActive).state)
    ensures Consistent(Suspend(s, kitchenId, isActive).state)
  {
    var st := Suspend(s, kitchenId, isActive);
    if st.result.Ok? {
      KitchenProfile.KitchenRewriteKeeps(s, kitchenId, st.result.value);
    }
  }

  /** A suspended kitchen takes no bookings: prebook answers 404 and changes nothing. */
  lemma SuspendedKitchenTakesNoOrders(s: LedgerState, kitchenId: Id, isActive: JsValue, req: PrebookRequest, now: Time)
    requires kitchenId in s.kitchens && !Truthy(isActive)
    requires req.kitchenId == Some(kitchenId)
    ensures var t := Suspend(s, kitchenId, isActive).state;
            Prebook(t, req, now).state == t
            && (Prebook(t, req, now).result.Err?)
  {
  }

  // ---------------------------------------------------------------- complaints

  /** `POST /admin/complaints`. `labels` is None when the body's value is not an array; the
      ids are None when absent. An invalid type falls back on `complaint`, and an invalid status
      or severity on the schema defaults `open` and `medium`. */
  function CreateComplaint(r: RecordState, message: JsValue, complaintType: JsValue, status: JsValue, severity: JsValue,
                           labels: Option<seq<string>>, reporterUserId: Option<Id>, kitchenId: Option<Id>,
                           orderId: Option<Id>, category: JsValue): (o: Outcome<Id>)
    ensures o.result.Err? ==> o.records == r
  {
    if !Truthy(message) then Outcome(r, Err(400, "message is required"))
    else
      var c := NewComplaint(message, complaintType, status, severity, labels, reporterUserId, kitchenId, orderId, category);
      var id := r.nextRecordId;
      Outcome(r.(complaints := r.complaints[id := c], nextRecordId := id + 1), Ok(id))
  }

  /** The complaint document `POST /admin/complaints` creates. */
  function NewComplaint(message: JsValue, complaintType: JsValue, status: JsValue, severity: JsValue,
                        labels: Option<seq<string>>, reporterUserId: Option<Id>, kitchenId: Option<Id>,
                        orderId: Option<Id>, category: JsValue): Complaint
  {
    Complaint(
      reporterUserId, kitchenId, orderId,
      if complaintType.Str? && ParseComplaintType(complaintType.s).Some? then ParseComplaintType(complaintType.s).value else General,
      TextOrEmpty(category),
      ToText(message),
      if status.Str? && ParseComplaintStatus(status.s).Some? then ParseComplaintStatus(status.s).value else Open,
      if severity.Str? && ParseSeverity(severity.s).Some? then ParseSeverity(severity.s).value else Medium,
      "",
      labels.GetOr([]))
  }

  lemma CreateComplaintEffect(r: RecordState, message: JsValue, complaintType: JsValue, status: JsValue, severity: JsValue,
                              labels: Option<seq<string>>, reporterUserId: Option<Id>, kitchenId: Option<Id>,
                              orderId: Option<Id>, category: JsValue)
    requires RecordIdsBelow(r)
    ensures var o := CreateComplaint(r, message, complaintType, status, severity, labels, reporterUserId, kitchenId, orderId, category);
            (o.result.Ok? <==> Truthy(message))
            && (o.result.Ok? ==>
                  var id := o.result.value;
                  var c := o.records.complaints[id];
                  id !in r.complaints && o.records.complaints == r.complaints[id := c]
                  && o.records.users == r.users && o.records.plans == r.plans
                  && c.message == ToText(message) && c.adminNotes == ""
                  && (complaintType.Str? && ParseComplaintType(complaintType.s).Some? ==> c.complaintType.Name() == complaintType.s)
                  && (!complaintType.Str? || ParseComplaintType(complaintType.s).None? ==> c.complaintType == General)
                  && (!status.Str? || ParseComplaintStatus(status.s).None? ==> c.status == Open)
                  && (!severity.Str? || ParseSeverity(severity.s).None? ==> c.severity == Medium)
                  && (labels.None? ==> c.labels == []))
  {
  }

  lemma CreateComplaintKeepsInvariants(r: RecordState, message: JsValue, complaintType: JsValue, status: JsValue, severity: JsValue,
                                       labels: Option<seq<string>>, reporterUserId: Option<Id>, kitchenId: Option<Id>,
                                       orderId: Option<Id>, category: JsValue)
    requires RecordsValid(r)
    ensures RecordsValid(CreateComplaint(r, message, complaintType, status, severity, labels, reporterUserId, kitchenId, orderId, category).records)
  {
  }

  /** The `$set` of `PATCH /admin/complaints/:id/status`; None leaves the field as it is. */
  datatype ComplaintUpdate = ComplaintUpdate(
    status: Option<ComplaintStatus>,
    severity: Option<Severity>,
    adminNotes: Option<string>,
    labels: Option<seq<string>>)
  {
    predicate IsEmpty() {
      status.None? && severity.None? && adminNotes.None? && labels.None?
    }

    function ApplyTo(c: Complaint): (r: Complaint)
      ensures r.message == c.message && r.complaintType == c.complaintType && r.kitchenId == c.kitchenId
    {
      c.(status := status.GetOr(c.status), severity := severity.GetOr(c.severity),
         adminNotes := adminNotes.GetOr(c.adminNotes), labels := labels.GetOr(c.labels))
    }
  }

  /** The update built from the body: a truthy status or severity must be one of its enum's
      strings (status checked first), notes are taken when they are a string, labels when they
      are an array, and an update with no field is refused. */
  function ComplaintUpdateOf(status: JsValue, adminNotes: JsValue, severity: JsValue, labels: Option<seq<string>>): (r: Result<ComplaintUpdate>)
    ensures r.Ok? ==> !r.value.IsEmpty()
    ensures r.Err? ==> r.status == 400
  {
    if Truthy(status) && (!status.Str? || ParseComplaintStatus(status.s).None?) then
      Err(400, "status must be open/investigating/resolved/rejected")
    else if Truthy(severity) && (!severity.Str? || ParseSeverity(severity.s).None?) then
      Err(400, "invalid severity")
    else
      var u := ComplaintUpdate(
        if Truthy(status) then ParseComplaintStatus(status.s) else None,
        if Truthy(severity) then ParseSeverity(severity.s) else None,
        if adminNotes.Str? then Some(adminNotes.s) else None,
        labels);
      if u.IsEmpty() then Err(400, "No update fields provided") else Ok(u)
  }

  /** `PATCH /admin/complaints/:id/status`: the body is checked before the lookup. */
  function PatchComplaint(r: RecordState, complaintId: Id, status: JsValue, adminNotes: JsValue, severity: JsValue,
                          labels: Option<seq<string>>): (o: Outcome<Complaint>)
    ensures o.result.Err? ==> o.records == r
  {
    match ComplaintUpdateOf(status, adminNotes, severity, labels)
    case Err(code, msg) => Outcome(r, Err(code, msg))
    case Ok(u) =>
      if complaintId !in r.complaints then Outcome(r, Err(404, "Complaint not found"))
      else
        var c := u.ApplyTo(r.complaints[complaintId]);
        Outcome(r.(complaints := r.complaints[complaintId := c]), Ok(c))
  }

  /** Each field of the stored complaint takes the value the body gives for it, or keeps its
      own; an invalid status is refused whatever else the body holds. */
  lemma PatchComplaintEffect(r: RecordState, complaintId: Id, status: JsValue, adminNotes: JsValue, severity: JsValue,
                             labels: Option<seq<string>>)
    ensures var o := PatchComplaint(r, complaintId, status, adminNotes, severity, labels);
            (Truthy(status) && (!status.Str? || ParseComplaintStatus(status.s).None?) ==>
               o.result == Err(400, "status must be open/investigating/resolved/rejected"))
            && ((!Truthy(status) || (status.Str? && ParseComplaintStatus(status.s).Some?))
                && Truthy(severity) && (!severity.Str? || ParseSeverity(severity.s).None?) ==>
               o.result == Err(400, "invalid severity"))
            && (!Truthy(status) && !Truthy(severity) && !adminNotes.Str? && labels.None? ==>
               o.result == Err(400, "No update fields provided"))
            && (o.result.Ok? ==>
                  var before := r.complaints[complaintId];
                  var c := o.result.value;
                  complaintId in r.complaints && o.records.complaints == r.complaints[complaintId := c]
                  && (Truthy(status) ==> c.status.Name() == status.s)
                  && (!Truthy(status) ==> c.status == before.status)
                  && (Truthy(severity) ==> c.severity.Name() == severity.s)
                  && (!Truthy(severity) ==> c.severity == before.severity)
                  && c.adminNotes == (if adminNotes.Str? then adminNotes.s else before.adminNotes)
                  && c.labels == labels.GetOr(before.labels)
                  && c.message == before.message)
  {
    ComplaintUpdateFields(status, adminNotes, severity, labels);
  }

  /** The update holds exactly the fields the body gives. */
  lemma ComplaintUpdateFields(status: JsValue, adminNotes: JsValue, severity: JsValue, labels: Option<seq<string>>)
    ensures var u := ComplaintUpdateOf(status, adminNotes, severity, labels);
            (Truthy(status) && (!status.Str? || ParseComplaintStatus(status.s).None?) ==>
               u == Err(400, "status must be open/investigating/resolved/rejected"))
            && ((!Truthy(status) || (status.Str? && ParseComplaintStatus(status.s).Some?))
                && Truthy(severity) && (!severity.Str? || ParseSeverity(severity.s).None?) ==>
               u == Err(400, "invalid severity"))
            && (!Truthy(status) && !Truthy(severity) && !adminNotes.Str? && labels.None? ==>
               u == Err(400, "No update fields provided"))
            && (u.Ok? ==>
                  (Truthy(status) ==> u.value.status.Some? && u.value.status.value.Name() == status.s)
                  && (!Truthy(status) ==> u.value.status.None?)
                  && (Truthy(severity) ==> u.value.severity.Some? && u.value.severity.value.Name() == severity.s)
                  && (!Truthy(severity) ==> u.value.severity.None?)
                  && u.value.adminNotes == (if adminNotes.Str? then Some(adminNotes.s) else None)
                  && u.value.labels == labels)
  {
  }

  /** An empty string clears the admin notes: a string counts as an update even when empty. */
  lemma EmptyNotesClear(r: RecordState, complaintId: Id)
    requires complaintId in r.complaints
    ensures var o := PatchComplaint(r, complaintId, Undefined, Str(""), Undefined, None);
            o.result.Ok? && o.result.value.adminNotes == ""
  {
  }

  // ---------------------------------------------------------------- announcements

  /** `publishAt` after `new Date(publishAt)`: absent, falsy (stored as null), a time, or a
      value `new Date` cannot read (an Invalid Date). Parsing a date string is not modelled: the
      caller supplies its reading. */
  datatype PublishAt = PublishUnset | PublishCleared | PublishAtTime(ms: int) | PublishUnreadable

  /** Mongoose's cast failure for an Invalid Date in the update, abbreviated (the full text also
      names the value's type). It carries no status code, so the error middleware answers 500. */
  const PublishAtCastFailure: string := "Cast to date failed for value \"Invalid Date\" at path \"publishAt\""

  /** The `$set` of `PATCH /admin/announcements/:id`. */
  datatype AnnouncementUpdate = AnnouncementUpdate(
    title: Option<string>,
    body: Option<string>,
    priority: Option<Priority>,
    audience: Option<Audience>,
    status: Option<AnnouncementStatus>,
    publishAt: PublishAt)
  {
    predicate IsEmpty() {
      title.None? && body.None? && priority.None? && audience.None? && status.None? && publishAt.PublishUnset?
    }

    /** Applying the `$set`; an unreadable `publishAt` never gets here, because the cast of
        the update refuses it first. */
    function ApplyTo(a: Announcement): (r: Announcement)
      requires !publishAt.PublishUnreadable?
      ensures r.createdByUserId == a.createdByUserId
    {
      a.(title := title.GetOr(a.title), body := body.GetOr(a.body), priority := priority.GetOr(a.priority),
         audience := audience.GetOr(a.audience), status := status.GetOr(a.status),
         publishAt := match publishAt
                      case PublishUnset => a.publishAt
                      case PublishCleared => None
                      case PublishAtTime(ms) => Some(ms))
    }
  }

  /** The sent value is one of the announcement priorities' strings. */
  predicate NamesPriority(v: JsValue) {
    v.Str? && ParsePriority(v.s).Some?
  }

  /** The sent value is one of the audiences' strings. */
  predicate NamesAudience(v: JsValue) {
    v.Str? && ParseAudience(v.s).Some?
  }

  /** The sent value is one of the announcement statuses' strings. */
  predicate NamesAnnouncementStatus(v: JsValue) {
    v.Str? && ParseAnnouncementStatus(v.s).Some?
  }

  /** `value && list.includes(value) ? value : skip`. */
  function EnumField<T>(v: JsValue, parse: string -> Option<T>): Option<T> {
    if v.Str? && v.s != "" then parse(v.s) else None
  }

  /** The update built from the body: a truthy title or body is taken (trimmed by the schema),
      an enum field only when it is one of its strings (anything else is silently skipped), and
      `publishAt` whenever it is present. */
  function AnnouncementUpdateOf(title: JsValue, body: JsValue, status: JsValue, audience: JsValue, publishAt: PublishAt,
                                priority: JsValue): (r: Result<AnnouncementUpdate>)
    ensures r.Ok? ==> !r.value.IsEmpty()
    ensures r.Err? ==> r == Err(400, "No update fields provided")
  {
    var u := AnnouncementUpdate(
      if Truthy(title) then Some(Trim(ToText(title))) else None,
      if Truthy(body) then Some(Trim(ToText(body))) else None,
      EnumField(priority, ParsePriority),
      EnumField(audience, ParseAudience),
      EnumField(status, ParseAnnouncementStatus),
      publishAt);
    if u.IsEmpty() then Err(400, "No update fields provided") else Ok(u)
  }

  /** A body is refused exactly when it names no field: no truthy title or body, no priority,
      audience or status that names one of its values, and no `publishAt`. */
  lemma AnnouncementUpdateRefused(title: JsValue, body: JsValue, status: JsValue, audience: JsValue, publishAt: PublishAt,
                                  priority: JsValue)
    ensures AnnouncementUpdateOf(title, body, status, audience, publishAt, priority).Err?
            <==> (!Truthy(title) && !Truthy(body) && !NamesPriority(priority) && !NamesAudience(audience)
                  && !NamesAnnouncementStatus(status) && publishAt == PublishUnset)
  {
    AnnouncementEnumsRead(priority, audience, status);
  }

  /** The update takes a truthy title or body, trimmed, and a present `publishAt` as it was
      read; it leaves out whatever was not sent. */
  lemma AnnouncementUpdateTexts(title: JsValue, body: JsValue, status: JsValue, audience: JsValue, publishAt: PublishAt,
                                priority: JsValue)
    ensures var u := AnnouncementUpdateOf(title, body, status, audience, publishAt, priority);
            u.Ok? ==>
              (u.value.title.Some? <==> Truthy(title))
              && (u.value.title.Some? ==> u.value.title.value == Trim(ToText(title)))
              && (u.value.body.Some? <==> Truthy(body))
              && (u.value.body.Some? ==> u.value.body.value == Trim(ToText(body)))
    ensures var u := AnnouncementUpdateOf(title, body, status, audience, publishAt, priority);
            u.Ok? ==>
              u.value.publishAt == publishAt
  {
  }

  /** The update takes a priority, audience or status exactly when the sent value names one,
      and then holds the value it names. */
  lemma AnnouncementUpdateEnums(title: JsValue, body: JsValue, status: JsValue, audience: JsValue, publishAt: PublishAt,
                                priority: JsValue)
    ensures var u := AnnouncementUpdateOf(title, body, status, audience, publishAt, priority);
            u.Ok? ==>
              (u.value.priority.Some? <==> NamesPriority(priority))
              && (u.value.priority.Some? ==> Str(u.value.priority.value.Name()) == priority)
              && (u.value.audience.Some? <==> NamesAudience(audience))
              && (u.value.audience.Some? ==> Str(u.value.audience.value.Name()) == audience)
              && (u.value.status.Some? <==> NamesAnnouncementStatus(status))
              && (u.value.status.Some? ==> Str(u.value.status.value.Name()) == status)
  {
    AnnouncementEnumsRead(priority, audience, status);
  }

  /** The skip rule reads an enum field exactly when the value names one of its strings. */
  lemma AnnouncementEnumsRead(priority: JsValue, audience: JsValue, status: JsValue)
    ensures EnumField(priority, ParsePriority) == (if NamesPriority(priority) then ParsePriority(priority.s) else None)
    ensures EnumField(audience, ParseAudience) == (if NamesAudience(audience) then ParseAudience(audience.s) else None)
    ensures EnumField(status, ParseAnnouncementStatus)
            == (if NamesAnnouncementStatus(status) then ParseAnnouncementStatus(status.s) else None)
  {
  }

  function PatchAnnouncement(r: RecordState, announcementId: Id, title: JsValue, body: JsValue, status: JsValue,
                             audience: JsValue, publishAt: PublishAt, priority: JsValue): (o: Outcome<Announcement>)
    ensures o.result.Err? ==> o.records == r
    ensures o.result.Ok? ==>
              announcementId in r.announcements
              && o.records == r.(announcements := r.announcements[announcementId := o.result.value])
              && o.result.value.createdByUserId == r.announcements[announcementId].createdByUserId
  {
    match AnnouncementUpdateOf(title, body, status, audience, publishAt, priority)
    case Err(code, msg) => Outcome(r, Err(code, msg))
    case Ok(u) =>
      if u.publishAt.PublishUnreadable? then Outcome(r, Err(500, PublishAtCastFailure))
      else if announcementId !in r.announcements then Outcome(r, Err(404, "Announcement not found"))
      else
        var a := u.ApplyTo(r.announcements[announcementId]);
        Outcome(r.(announcements := r.announcements[announcementId := a]), Ok(a))
  }

  /** A patch is refused with 400 when it names no field, then with 500 when `publishAt` is an
      Invalid Date (the cast of the update fails before the lookup), then with 404 when the
      announcement does not exist; otherwise it succeeds. */
  lemma PatchAnnouncementEffect(r: RecordState, announcementId: Id, title: JsValue, body: JsValue, status: JsValue,
                                audience: JsValue, publishAt: PublishAt, priority: JsValue)
    ensures var o := PatchAnnouncement(r, announcementId, title, body, status, audience, publishAt, priority);
            var nothing := !Truthy(title) && !Truthy(body) && !NamesPriority(priority) && !NamesAudience(audience)
                           && !NamesAnnouncementStatus(status) && publishAt == PublishUnset;
            (nothing ==> o == Outcome(r, Err(400, "No update fields provided")))
            && (publishAt == PublishUnreadable ==> o == Outcome(r, Err(500, PublishAtCastFailure)))
            && (!nothing && publishAt != PublishUnreadable && announcementId !in r.announcements ==>
                  o == Outcome(r, Err(404, "Announcement not found")))
            && (o.result.Ok? <==> !nothing && publishAt != PublishUnreadable && announcementId in r.announcements)
  {
    AnnouncementUpdateRefused(title, body, status, audience, publishAt, priority);
    AnnouncementUpdateTexts(title, body, status, audience, publishAt, priority);
  }

  /** A successful patch changes exactly that announcement: a truthy title or body is stored
      trimmed, a priority, audience or status is stored when it names one, a present
      `publishAt` is stored or cleared, and every other field keeps its value. */
  lemma PatchAnnouncementStores(r: RecordState, announcementId: Id, title: JsValue, body: JsValue, status: JsValue,
                                audience: JsValue, publishAt: PublishAt, priority: JsValue)
    ensures var o := PatchAnnouncement(r, announcementId, title, body, status, audience, publishAt, priority);
            announcementId in r.announcements && o.result.Ok? ==>
              var a := r.announcements[announcementId];
              var n := o.result.value;
              o.records == r.(announcements := r.announcements[announcementId := n])
              && n.title == (if Truthy(title) then Trim(ToText(title)) else a.title)
              && n.body == (if Truthy(body) then Trim(ToText(body)) else a.body)
              && (NamesPriority(priority) ==> Str(n.priority.Name()) == priority)
              && (!NamesPriority(priority) ==> n.priority == a.priority)
              && (NamesAudience(audience) ==> Str(n.audience.Name()) == audience)
              && (!NamesAudience(audience) ==> n.audience == a.audience)
              && (NamesAnnouncementStatus(status) ==> Str(n.status.Name()) == status)
              && (!NamesAnnouncementStatus(status) ==> n.status == a.status)
              && n.publishAt == (if publishAt.PublishCleared? then None
                                 else if publishAt.PublishAtTime? then Some(publishAt.ms)
                                 else a.publishAt)
              && n.createdByUserId == a.createdByUserId
  {
    var u := AnnouncementUpdateOf(title, body, status, audience, publishAt, priority);
    AnnouncementUpdateTexts(title, body, status, audience, publishAt, priority);
    AnnouncementUpdateEnums(title, body, status, audience, publishAt, priority);
    if u.Ok? && !u.value.publishAt.PublishUnreadable? && announcementId in r.announcements {
      var a := r.announcements[announcementId];
      assert PatchAnnouncement(r, announcementId, title, body, status, audience, publishAt, priority).result.value
             == u.value.ApplyTo(a);
    }
  }

  /** An invalid enum value is skipped rather than refused: the field keeps its stored value,
      and a body holding nothing else is refused as empty. */
  lemma InvalidEnumSkipped(r: RecordState, announcementId: Id, title: JsValue, body: JsValue, status: JsValue,
                           audience: JsValue, publishAt: PublishAt, priority: JsValue)
    requires status.Str? && ParseAnnouncementStatus(status.s).None?
    ensures var o := PatchAnnouncement(r, announcementId, title, body, status, audience, publishAt, priority);
            (o.result.Ok? ==> o.result.value.status == r.announcements[announcementId].status)
            && (!Truthy(title) && !Truthy(body) && publishAt == PublishUnset
                && EnumField(audience, ParseAudience).None? && EnumField(priority, ParsePriority).None? ==>
                  o.result == Err(400, "No update fields provided"))
  {
  }

  /** A falsy `publishAt` clears the publication time, a readable one sets it, and an
      unreadable one fails the cast with 500 and changes nothing. */
  lemma PublishAtEffect(r: RecordState, announcementId: Id, publishAt: PublishAt)
    requires announcementId in r.announcements && publishAt != PublishUnset
    ensures var o := PatchAnnouncement(r, announcementId, Undefined, Undefined, Undefined, Undefined, publishAt, Undefined);
            publishAt == PublishUnreadable ==> o == Outcome(r, Err(500, PublishAtCastFailure))
    ensures var o := PatchAnnouncement(r, announcementId, Undefined, Undefined, Undefined, Undefined, publishAt, Undefined);
            publishAt != PublishUnreadable ==>
              o.result.Ok?
              && o.result.value.publishAt == (if publishAt.PublishCleared? then None else Some(publishAt.ms))
              && o.result.value == r.announcements[announcementId].(publishAt := o.result.value.publishAt)
              && o.records.announcements == r.announcements[announcementId := o.result.value]
  {
  }

  lemma PatchAnnouncementKeepsInvariants(r: RecordState, announcementId: Id, title: JsValue, body: JsValue, status: JsValue,
                                         audience: JsValue, publishAt: PublishAt, priority: JsValue)
    requires RecordsValid(r)
    ensures RecordsValid(PatchAnnouncement(r, announcementId, title, body, status, audience, publishAt, priority).records)
  {
  }
}
