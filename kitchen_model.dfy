/** The Kitchen record (Backend/model/kitchenModel.js): the owner's kitchen profile, its
    verification state, service area, daily order limit and uploaded documents. */
module KitchenModel {
  import opened Http
  import opened MealModel

  /** The `["pending", "verified", "rejected"]` enum shared by `verificationStatus`,
      `pincodeVerificationStatus` and `fssai.validationStatus`. */
  datatype ReviewStatus = Pending | Verified | Rejected {
    function Name(): string {
      match this
      case Pending => "pending"
      case Verified => "verified"
      case Rejected => "rejected"
    }
  }

  function ParseReviewStatus(s: string): (r: Option<ReviewStatus>)
    ensures forall v: ReviewStatus :: r == Some(v) <==> v.Name() == s
  {
    if s == "pending" then Some(Pending)
    else if s == "verified" then Some(Verified)
    else if s == "rejected" then Some(Rejected)
    else None
  }

  datatype VideoCallStatus = CallNotRequested | CallRequested | CallScheduled | CallCompleted

  datatype TrialOrderStatus = TrialNotRequested | TrialRequested | TrialPassed | TrialFailed {
    function Name(): string {
      match this
      case TrialNotRequested => "not_requested"
      case TrialRequested => "requested"
      case TrialPassed => "passed"
      case TrialFailed => "failed"
    }
  }

  function ParseTrialOrderStatus(s: string): (r: Option<TrialOrderStatus>)
    ensures forall v: TrialOrderStatus :: r == Some(v) <==> v.Name() == s
  {
    if s == "not_requested" then Some(TrialNotRequested)
    else if s == "requested" then Some(TrialRequested)
    else if s == "passed" then Some(TrialPassed)
    else if s == "failed" then Some(TrialFailed)
    else None
  }

  /** A stored upload (the sub-document `buildFileDoc` produces). */
  datatype FileDoc = FileDoc(
    originalName: string,
    fileName: string,
    mimeType: string,
    size: int,
    path: string,
    urlPath: string,
    uploadedAt: int)

  datatype Fssai = Fssai(
    licenseNumber: string,
    businessName: string,
    expiryDate: Option<int>,
    validationStatus: ReviewStatus,
    rejectionReason: string,
    validationNotes: string)

  datatype GovernmentId = GovernmentId(idType: string, nameOnId: string, file: Option<FileDoc>)

  datatype Documents = Documents(
    fssaiCertificate: Option<FileDoc>,
    governmentId: GovernmentId,
    kitchenPhotos: seq<FileDoc>,
    kitchenVideo: Option<FileDoc>)

  datatype Kitchen = Kitchen(
    ownerUserId: Id,
    name: string,
    description: string,
    verified: bool,
    verificationStatus: ReviewStatus,
    verificationRejectedReason: string,
    verifiedBadge: bool,
    verifiedAt: Option<int>,
    addressText: string,
    pincode: string,
    pincodeVerificationStatus: ReviewStatus,
    dailyOrderLimit: int,
    isActive: bool,
    fssai: Fssai,
    documents: Documents,
    videoCallStatus: VideoCallStatus,
    preferredSlotText: string,
    scheduledAt: Option<int>,
    trialOrderStatus: TrialOrderStatus,
    trialNotes: string)

  const DefaultDailyOrderLimit: int := 50

  /** What every handler keeps true of a stored kitchen: the daily limit respects the schema's
      `min: 0`, the `verified` flag agrees with `verificationStatus`, and a verified kitchen
      carries the time it was verified. */
  predicate Valid(k: Kitchen) {
    k.dailyOrderLimit >= 0
    && (k.verified <==> k.verificationStatus == Verified)
    && (k.verificationStatus == Verified ==> k.verifiedAt.Some?)
  }

  /** A kitchen created with the given fields and every other field at its schema default. */
  function NewKitchen(owner: Id, name: string, description: string, addressText: string): (k: Kitchen)
    ensures Valid(k)
    ensures k.ownerUserId == owner && k.name == name
    ensures !k.verified && k.verificationStatus == Pending && k.isActive
    ensures k.dailyOrderLimit == DefaultDailyOrderLimit
    ensures k.pincodeVerificationStatus == Pending && k.fssai.validationStatus == Pending
    ensures k.videoCallStatus == CallNotRequested && k.trialOrderStatus == TrialNotRequested
  {
    Kitchen(
      owner, name, description,
      false, Pending, "", false, None,
      addressText, "", Pending,
      DefaultDailyOrderLimit, true,
      Fssai("", "", None, Pending, "", ""),
      Documents(None, GovernmentId("", "", None), [], None),
      CallNotRequested, "", None,
      TrialNotRequested, "")
  }
}
