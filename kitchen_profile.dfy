/** The kitchen-side handlers of Backend/controllers/kitchenRoutes.js besides the order
    decision and the meal upsert: registration, the verification submission with its FSSAI
    checks, the service pincode, the daily order limit, customer ratings and the analytics
    window. Like the ledger handlers, each is one step from a state to a new state and a
    response, and an error leaves the state as it was. */
module KitchenProfile {
  import opened Http
  import opened Strings
  import opened Js
  import opened Dates
  import opened MealModel
  import opened KitchenModel
  import opened Records
  import opened Uploads
  import opened Ledger
  import LedgerLemmas

  // ---------------------------------------------------------------- shared

  /** Rewriting a stored kitchen keeps the ledger's invariants when the owner stays and the
      new record is valid. */
  lemma KitchenRewriteKeeps(s: LedgerState, k: Id, kit: Kitchen)
    requires WellFormed(s) && k in s.kitchens
    requires kit.ownerUserId == s.kitchens[k].ownerUserId && Valid(kit)
    ensures WellFormed(s.(kitchens := s.kitchens[k := kit]))
    ensures Consistent(s) ==> Consistent(s.(kitchens := s.kitchens[k := kit]))
  {
    var t := s.(kitchens := s.kitchens[k := kit]);
    assert OwnersUnique(t.kitchens) by {
      forall a, b | a in t.kitchens && b in t.kitchens && t.kitchens[a].ownerUserId == t.kitchens[b].ownerUserId
        ensures a == b
      {
        assert s.kitchens[a].ownerUserId == t.kitchens[a].ownerUserId;
        assert s.kitchens[b].ownerUserId == t.kitchens[b].ownerUserId;
      }
    }
  }

  const NoKitchenForAccount: string := "Kitchen not found for this account"

  // ---------------------------------------------------------------- register

  const NameRequiredByValidation: string := "Kitchen validation failed: name: Path `name` is required."

  /** `POST /kitchens/register` by `owner`. Text fields are "" when absent. The schema trims
      the name, and a name of white space only fails the schema's `required` check (an error
      without status, answered 500). The owner's role becomes `kitchen` beside this step (see
      `Records.WithRole`). */
  function Register(s: LedgerState, owner: Id, name: string, description: string, addressText: string): (st: Step<Id>)
    ensures st.result.Err? ==> st.state == s
    ensures st.result.Ok? ==> st.result.value == s.nextId && st.state.nextId == s.nextId + 1
  {
    if name == "" then Step(s, Err(400, "name is required"))
    else if OwnedKitchen(s.kitchens, owner, s.nextId).Some? then
      Step(s, Err(400, "Kitchen already registered for this account"))
    else if Trim(name) == "" then Step(s, Err(500, NameRequiredByValidation))
    else
      var k := NewKitchen(owner, Trim(name), description, addressText);
      Step(s.(kitchens := s.kitchens[s.nextId := k], nextId := s.nextId + 1), Ok(s.nextId))
  }

  /** Registration succeeds exactly for an owner without a kitchen and a name with some
      non-blank text; the new kitchen starts pending, unverified and active under a fresh id,
      and nothing else changes. */
  lemma RegisterEffect(s: LedgerState, owner: Id, name: string, description: string, addressText: string)
    requires WellFormed(s)
    ensures var st := Register(s, owner, name, description, addressText);
            st.result.Ok? <==> Trim(name) != "" && forall k :: k in s.kitchens ==> s.kitchens[k].ownerUserId != owner
    ensures var st := Register(s, owner, name, description, addressText);
            st.result.Ok? ==>
              s.nextId !in s.kitchens
              && st.state.kitchens == s.kitchens[s.nextId := NewKitchen(owner, Trim(name), description, addressText)]
              && st.state.meals == s.meals && st.state.orders == s.orders
              && !st.state.kitchens[s.nextId].verified && st.state.kitchens[s.nextId].verificationStatus == Pending
  {
    if name == "" {
      assert Trim(name) == "";
    }
  }

  /** A second registration by the same owner is refused. */
  lemma RegisterTwiceFails(s: LedgerState, owner: Id, name: string, name2: string, description: string, addressText: string)
    requires Register(s, owner, name, description, addressText).result.Ok?
    requires name2 != ""
    ensures var t := Register(s, owner, name, description, addressText).state;
            Register(t, owner, name2, description, addressText)
            == Step(t, Err(400, "Kitchen already registered for this account"))
  {
    var t := Register(s, owner, name, description, addressText).state;
    assert s.nextId in t.kitchens && t.kitchens[s.nextId].ownerUserId == owner && s.nextId < t.nextId;
    assert OwnedKitchen(t.kitchens, owner, t.nextId).Some?;
  }

  /** Adding a valid kitchen of an owner who has none, under the next id, keeps the
      ledger's invariants. */
  lemma KitchenAddedKeeps(s: LedgerState, kit: Kitchen)
    requires WellFormed(s) && Consistent(s) && Valid(kit)
    requires forall k :: k in s.kitchens ==> s.kitchens[k].ownerUserId != kit.ownerUserId
    ensures var t := s.(kitchens := s.kitchens[s.nextId := kit], nextId := s.nextId + 1);
            WellFormed(t) && Consistent(t)
  {
    var t := s.(kitchens := s.kitchens[s.nextId := kit], nextId := s.nextId + 1);
    assert IdsBelow(t);
    assert OwnersUnique(t.kitchens);
    assert KitchensValid(t.kitchens);
    assert OrdersWellFormed(t);
    assert Consistent(t) by {
      forall m | m in t.meals
        ensures t.meals[m].soldQty == Reserved(t.orders, m, t.nextId)
      {
        LedgerLemmas.ReservedGrow(s.orders, m, s.nextId, t.nextId);
      }
    }
  }

  lemma RegisterKeepsInvariants(s: LedgerState, owner: Id, name: string, description: string, addressText: string)
    requires WellFormed(s) && Consistent(s)
    ensures WellFormed(Register(s, owner, name, description, addressText).state)
    ensures Consistent(Register(s, owner, name, description, addressText).state)
  {
    var st := Register(s, owner, name, description, addressText);
    if st.result.Ok? {
      RegisterEffect(s, owner, name, description, addressText);
      KitchenAddedKeeps(s, NewKitchen(owner, Trim(name), description, addressText));
    }
  }

  // ---------------------------------------------------------------- verification

  /** The expiry field as the handler reads it: empty, a text `new Date` cannot read, or the
      time it reads. Reading date texts is not modelled; the caller supplies the reading. */
  datatype ExpiryField = NoExpiry | UnreadableExpiry | ExpiresAt(t: int)

  /** The fields and files of `POST /kitchens/my/verification` (multipart text fields are ""
      when absent). */
  datatype VerificationForm = VerificationForm(
    licenseNumber: string,
    businessName: string,
    expiry: ExpiryField,
    idType: string,
    nameOnId: string,
    fssaiFile: Option<UploadedFile>,
    govIdFile: Option<UploadedFile>,
    photos: seq<UploadedFile>)

  const MinDocBytes: int := 10 * 1024

  /** An FSSAI licence number: exactly 14 ASCII digits. */
  predicate LicenseNumberOk(s: string) {
    |s| == 14 && AllDigits(s)
  }

  /** The validation of the submission, in the handler's order; Ok carries the expiry time. */
  function CheckVerificationForm(f: VerificationForm, now: int): (r: Result<int>)
    ensures r.Ok? ==> LicenseNumberOk(f.licenseNumber) && f.expiry == ExpiresAt(r.value) && r.value >= now
    ensures r.Ok? ==> f.idType != "" && f.nameOnId != "" && f.fssaiFile.Some? && f.govIdFile.Some?
                      && f.fssaiFile.value.size >= MinDocBytes && f.govIdFile.value.size >= MinDocBytes
    ensures r.Err? ==> r.status == 400
  {
    if f.licenseNumber == "" then Err(400, "FSSAI License Number is required")
    else if !LicenseNumberOk(f.licenseNumber) then Err(400, "FSSAI License Number must be 14 digits")
    else
      match f.expiry
      case NoExpiry => Err(400, "FSSAI Expiry Date is required")
      case UnreadableExpiry => Err(400, "Invalid FSSAI Expiry Date")
      case ExpiresAt(t) =>
        if t < now then Err(400, "FSSAI License is expired")
        else if f.idType == "" then Err(400, "Government ID type is required")
        else if f.nameOnId == "" then Err(400, "Name on ID is required")
        else if f.fssaiFile.None? || f.govIdFile.None? then
          Err(400, "FSSAI certificate and Government ID are mandatory")
        else if f.fssaiFile.value.size < MinDocBytes || f.govIdFile.value.size < MinDocBytes then
          Err(400, "Uploaded documents are too small/unclear")
        else Ok(t)
  }

  /** The kitchen after an accepted submission: the FSSAI details go back to pending review,
      both documents are replaced, the photos only when some were sent, and the kitchen
      returns to pending and unverified. */
  function WithSubmission(k: Kitchen, f: VerificationForm, expiry: int, sep: char, now: int): (r: Kitchen)
    requires f.fssaiFile.Some? && f.govIdFile.Some?
    ensures Valid(k) ==> Valid(r)
    ensures r.ownerUserId == k.ownerUserId
  {
    var photos := if |f.photos| > 0 then seq(|f.photos|, i requires 0 <= i < |f.photos| => BuildFileDoc(Some(f.photos[i]), sep, now).value)
                  else k.documents.kitchenPhotos;
    k.(fssai := k.fssai.(licenseNumber := f.licenseNumber, businessName := f.businessName,
                         expiryDate := Some(expiry), validationStatus := Pending),
       documents := k.documents.(fssaiCertificate := BuildFileDoc(f.fssaiFile, sep, now),
                                 governmentId := GovernmentId(f.idType, f.nameOnId, BuildFileDoc(f.govIdFile, sep, now)),
                                 kitchenPhotos := photos),
       verificationStatus := Pending, verificationRejectedReason := "", verified := false)
  }

  /** The `maxCount` of the `kitchenPhotos` field. */
  const MaxPhotos: int := 5

  /** The files of a submission in the order the model takes as their arrival order: the
      certificate, the identity document, then the photos. */
  function UploadsOf(f: VerificationForm): seq<UploadedFile> {
    (if f.fssaiFile.Some? then [f.fssaiFile.value] else [])
    + (if f.govIdFile.Some? then [f.govIdFile.value] else [])
    + f.photos
  }

  /** The upload middleware in front of the handler: every file must pass the filter and the
      size limit, and a sixth photo is an unexpected file (a `MulterError`, answered with 400). */
  function CheckUploads(f: VerificationForm): (r: Result<bool>)
    ensures r.Ok? <==> |f.photos| <= MaxPhotos && forall u :: u in UploadsOf(f) ==> Acceptable(u)
    ensures r.Err? ==> r.status == 400
  {
    if |f.photos| <= MaxPhotos then AcceptUploads(UploadsOf(f))
    else
      var admitted := UploadsOf(f)[..|UploadsOf(f)| - (|f.photos| - MaxPhotos)];
      match AcceptUploads(admitted)
      case Err(code, msg) => Err(code, msg)
      case Ok(_) => Err(400, "Unexpected field")
  }

  /** `POST /kitchens/my/verification` by `owner`. The upload middleware runs first; then the
      kitchen is looked up, then the form is checked. */
  function SubmitVerification(s: LedgerState, owner: Id, f: VerificationForm, sep: char, now: int): (st: Step<Kitchen>)
    ensures st.result.Err? ==> st.state == s
  {
    match CheckUploads(f)
    case Err(code, msg) => Step(s, Err(code, msg))
    case Ok(_) =>
      match OwnedKitchen(s.kitchens, owner, s.nextId)
      case None => Step(s, Err(404, NoKitchenForAccount))
      case Some(k) =>
        match CheckVerificationForm(f, now)
        case Err(code, msg) => Step(s, Err(code, msg))
        case Ok(expiry) =>
          var kit := WithSubmission(s.kitchens[k], f, expiry, sep, now);
          Step(s.(kitchens := s.kitchens[k := kit]), Ok(kit))
  }

  /** A file of a type outside the allow-list, a file over 25 MB or more than five photos is
      refused with 400 before the kitchen is even looked up, and nothing is stored. */
  lemma UploadsCheckedFirst(s: LedgerState, owner: Id, f: VerificationForm, sep: char, now: int)
    requires |f.photos| > MaxPhotos || exists u :: u in UploadsOf(f) && !Acceptable(u)
    ensures var st := SubmitVerification(s, owner, f, sep, now);
            st.state == s && st.result.Err? && st.result.status == 400
  {
  }

  /** A submission is stored only with a 14-digit licence that has not expired and both
      documents; it puts the kitchen back to pending and unverified, keeps its other fields
      and the photos when none were sent, and touches no meal or order. */
  lemma VerificationEffect(s: LedgerState, owner: Id, f: VerificationForm, sep: char, now: int)
    requires WellFormed(s) && SubmitVerification(s, owner, f, sep, now).result.Ok?
    ensures var st := SubmitVerification(s, owner, f, sep, now);
            var kit := st.result.value;
            |f.photos| <= MaxPhotos && (forall u :: u in UploadsOf(f) ==> Acceptable(u))
            && LicenseNumberOk(kit.fssai.licenseNumber) && kit.fssai.expiryDate.Some? && kit.fssai.expiryDate.value >= now
            && !kit.verified && kit.verificationStatus == Pending && kit.fssai.validationStatus == Pending
            && kit.documents.fssaiCertificate.Some? && kit.documents.governmentId.file.Some?
            && st.state.meals == s.meals && st.state.orders == s.orders
    ensures var st := SubmitVerification(s, owner, f, sep, now);
            exists k :: k in s.kitchens && s.kitchens[k].ownerUserId == owner
                        && st.state.kitchens == s.kitchens[k := st.result.value]
                        && st.result.value.dailyOrderLimit == s.kitchens[k].dailyOrderLimit
                        && st.result.value.isActive == s.kitchens[k].isActive
                        && (f.photos == [] ==> st.result.value.documents.kitchenPhotos == s.kitchens[k].documents.kitchenPhotos)
  {
    var k := OwnedKitchen(s.kitchens, owner, s.nextId).value;
    assert k in s.kitchens && s.kitchens[k].ownerUserId == owner;
  }

  /** A licence number that is not 14 digits is refused whatever else is sent. */
  lemma VerificationNeedsLicense(s: LedgerState, owner: Id, f: VerificationForm, sep: char, now: int)
    requires !LicenseNumberOk(f.licenseNumber)
    ensures var st := SubmitVerification(s, owner, f, sep, now);
            st.state == s && st.result.Err?
  {
  }

  lemma VerificationKeepsInvariants(s: LedgerState, owner: Id, f: VerificationForm, sep: char, now: int)
    requires WellFormed(s) && Consistent(s)
    ensures WellFormed(SubmitVerification(s, owner, f, sep, now).state)
    ensures Consistent(SubmitVerification(s, owner, f, sep, now).state)
  {
    var st := SubmitVerification(s, owner, f, sep, now);
    if st.result.Ok? {
      var k := OwnedKitchen(s.kitchens, owner, s.nextId).value;
      KitchenRewriteKeeps(s, k, st.result.value);
    }
  }

  // ---------------------------------------------------------------- location

  /** `String(pincode || "").trim()`. */
  function NormalizedPincode(pincode: JsValue): string {
    Trim(TextOrEmpty(pincode))
  }

  /** The `^\d{4,10}$` pincode rule. */
  predicate PincodeOk(p: string) {
    4 <= |p| <= 10 && AllDigits(p)
  }

  /** `PATCH /kitchens/my/location` by `owner`: the pincode is checked before the kitchen is
      looked up; `addressText` is replaced by `String(addressText)` whenever it is present. */
  function SetLocation(s: LedgerState, owner: Id, pincode: JsValue, addressText: JsValue): (st: Step<Kitchen>)
    ensures st.result.Err? ==> st.state == s
  {
    Locate(s, owner, NormalizedPincode(pincode), AddressUpdate(addressText))
  }

  /** The new address text: `String(addressText)`, or none when the field is absent. */
  function AddressUpdate(addressText: JsValue): (a: Option<string>)
    ensures a.None? <==> addressText == Undefined
    ensures addressText.Str? ==> a == Some(addressText.s)
    ensures addressText == Null ==> a == Some("null")
  {
    if addressText == Undefined then None else Some(ToText(addressText))
  }

  /** The location handler once the pincode text `p` and the address update are known. */
  function Locate(s: LedgerState, owner: Id, p: string, address: Option<string>): (st: Step<Kitchen>)
    ensures st.result.Err? ==> st.state == s
  {
    if p == "" then Step(s, Err(400, "pincode is required"))
    else if !PincodeOk(p) then Step(s, Err(400, "pincode must be 4-10 digits"))
    else
      match OwnedKitchen(s.kitchens, owner, s.nextId)
      case None => Step(s, Err(404, NoKitchenForAccount))
      case Some(k) =>
        var old_ := s.kitchens[k];
        var kit := old_.(pincode := p,
                         addressText := if address.None? then old_.addressText else address.value,
                         pincodeVerificationStatus := Verified);
        Step(s.(kitchens := s.kitchens[k := kit]), Ok(kit))
  }

  /** `Locate` accepts exactly a pincode of 4 to 10 digits from an owner with a kitchen, and
      stores that pincode, marked verified, with the given address. */
  lemma LocateEffect(s: LedgerState, owner: Id, p: string, address: Option<string>)
    requires WellFormed(s)
    ensures var st := Locate(s, owner, p, address);
            st.result.Ok? <==> PincodeOk(p) && exists k :: k in s.kitchens && s.kitchens[k].ownerUserId == owner
    ensures var st := Locate(s, owner, p, address);
            st.result.Ok? ==> st.result.value.pincode == p
                              && st.result.value.pincodeVerificationStatus == Verified
                              && (address.Some? ==> st.result.value.addressText == address.value)
  {
    var r := OwnedKitchen(s.kitchens, owner, s.nextId);
    if exists k :: k in s.kitchens && s.kitchens[k].ownerUserId == owner {
      var k :| k in s.kitchens && s.kitchens[k].ownerUserId == owner;
      assert r.Some?;
    }
  }

  /** The pincode is accepted exactly when its trimmed text is 4 to 10 digits and the owner
      has a kitchen; the stored pincode is that text and is marked verified at once. */
  lemma LocationEffect(s: LedgerState, owner: Id, pincode: JsValue, addressText: JsValue)
    requires WellFormed(s)
    ensures var st := SetLocation(s, owner, pincode, addressText);
            st.result.Ok? <==> PincodeOk(NormalizedPincode(pincode))
                               && exists k :: k in s.kitchens && s.kitchens[k].ownerUserId == owner
    ensures var st := SetLocation(s, owner, pincode, addressText);
            st.result.Ok? ==> st.result.value.pincode == NormalizedPincode(pincode)
                              && PincodeOk(st.result.value.pincode)
                              && st.result.value.pincodeVerificationStatus == Verified
                              && (addressText.Str? ==> st.result.value.addressText == addressText.s)
  {
    var p, a := NormalizedPincode(pincode), AddressUpdate(addressText);
    assert SetLocation(s, owner, pincode, addressText) == Locate(s, owner, p, a);
    LocateEffect(s, owner, p, a);
  }

  /** A pincode sent as a number is read through its decimal text. */
  lemma NumericPincode(n: nat)
    requires n >= 1
    ensures NormalizedPincode(Num(n)) == NatToString(n)
  {
    var t := NatToString(n);
    assert TextOrEmpty(Num(n)) == t;
    assert IsDigit(t[0]) && IsDigit(t[|t| - 1]);
    assert !IsJsWhitespace(t[0]) && !IsJsWhitespace(t[|t| - 1]);
    TrimStartNoop(t);
    TrimEndNoop(t);
  }

  /** An explicit null address is not skipped: it is stored as the text "null". */
  lemma NullAddressStoredAsText(s: LedgerState, owner: Id, pincode: JsValue)
    requires SetLocation(s, owner, pincode, Null).result.Ok?
    ensures SetLocation(s, owner, pincode, Null).result.value.addressText == "null"
  {
    SetLocationStoresAddress(s, owner, pincode, Null);
  }

  /** Any address field that is present is stored as its text. */
  lemma SetLocationStoresAddress(s: LedgerState, owner: Id, pincode: JsValue, addressText: JsValue)
    requires addressText != Undefined && SetLocation(s, owner, pincode, addressText).result.Ok?
    ensures SetLocation(s, owner, pincode, addressText).result.value.addressText == ToText(addressText)
  {
    LocateStoresAddress(s, owner, NormalizedPincode(pincode), ToText(addressText));
  }

  /** A given address is stored as it is. */
  lemma LocateStoresAddress(s: LedgerState, owner: Id, p: string, text: string)
    requires Locate(s, owner, p, Some(text)).result.Ok?
    ensures Locate(s, owner, p, Some(text)).result.value.addressText == text
  {
  }

  lemma LocateKeepsInvariants(s: LedgerState, owner: Id, p: string, address: Option<string>)
    requires WellFormed(s) && Consistent(s)
    ensures WellFormed(Locate(s, owner, p, address).state)
    ensures Consistent(Locate(s, owner, p, address).state)
  {
    var st := Locate(s, owner, p, address);
    if st.result.Ok? {
      var k := OwnedKitchen(s.kitchens, owner, s.nextId).value;
      KitchenRewriteKeeps(s, k, st.result.value);
    }
  }

  lemma LocationKeepsInvariants(s: LedgerState, owner: Id, pincode: JsValue, addressText: JsValue)
    requires WellFormed(s) && Consistent(s)
    ensures WellFormed(SetLocation(s, owner, pincode, addressText).state)
    ensures Consistent(SetLocation(s, owner, pincode, addressText).state)
  {
    var p, a := NormalizedPincode(pincode), AddressUpdate(addressText);
    assert SetLocation(s, owner, pincode, addressText) == Locate(s, owner, p, a);
    LocateKeepsInvariants(s, owner, p, a);
  }

  // ---------------------------------------------------------------- video call and trial order

  /** `POST /kitchens/my/video-call/request` by `owner`: a preferred slot is required; the
      kitchen's call becomes `requested` with the slot's text. */
  function RequestVideoCall(s: LedgerState, owner: Id, preferredSlotText: JsValue): (st: Step<Kitchen>)
    ensures st.result.Err? ==> st.state == s
  {
    if !Truthy(preferredSlotText) then Step(s, Err(400, "preferredSlotText is required"))
    else
      match OwnedKitchen(s.kitchens, owner, s.nextId)
      case None => Step(s, Err(404, NoKitchenForAccount))
      case Some(k) =>
        var kit := s.kitchens[k].(videoCallStatus := CallRequested, preferredSlotText := ToText(preferredSlotText));
        Step(s.(kitchens := s.kitchens[k := kit]), Ok(kit))
  }

  /** `POST /kitchens/my/premium-verification/trial-order` by `owner`: the trial order becomes
      `requested` with the notes, or "" without them. Nothing is required of the body. */
  function RequestTrialOrder(s: LedgerState, owner: Id, notes: JsValue): (st: Step<Kitchen>)
    ensures st.result.Err? ==> st.state == s
  {
    match OwnedKitchen(s.kitchens, owner, s.nextId)
    case None => Step(s, Err(404, NoKitchenForAccount))
    case Some(k) =>
      var kit := s.kitchens[k].(trialOrderStatus := TrialRequested, trialNotes := TextOrEmpty(notes));
      Step(s.(kitchens := s.kitchens[k := kit]), Ok(kit))
  }

  /** The call request succeeds exactly for a truthy slot from an owner with a kitchen; it
      sets the call's status and slot text and nothing else. */
  lemma VideoCallRequestEffect(s: LedgerState, owner: Id, preferredSlotText: JsValue)
    requires WellFormed(s)
    ensures var st := RequestVideoCall(s, owner, preferredSlotText);
            st.result.Ok? <==> Truthy(preferredSlotText) && exists k :: k in s.kitchens && s.kitchens[k].ownerUserId == owner
    ensures var st := RequestVideoCall(s, owner, preferredSlotText);
            st.result.Ok? ==> exists k :: (k in s.kitchens && s.kitchens[k].ownerUserId == owner
                               && st.result.value == s.kitchens[k].(videoCallStatus := CallRequested,
                                                                    preferredSlotText := ToText(preferredSlotText))
                               && st.state == s.(kitchens := s.kitchens[k := st.result.value]))
  {
    if exists k :: k in s.kitchens && s.kitchens[k].ownerUserId == owner {
      var k :| k in s.kitchens && s.kitchens[k].ownerUserId == owner;
      assert OwnedKitchen(s.kitchens, owner, s.nextId).Some?;
    }
  }

  /** The trial request succeeds exactly for an owner with a kitchen, whatever the body; it
      sets the trial's status and notes and nothing else. */
  lemma TrialOrderRequestEffect(s: LedgerState, owner: Id, notes: JsValue)
    requires WellFormed(s)
    ensures var st := RequestTrialOrder(s, owner, notes);
            st.result.Ok? <==> exists k :: k in s.kitchens && s.kitchens[k].ownerUserId == owner
    ensures var st := RequestTrialOrder(s, owner, notes);
            st.result.Ok? ==> exists k :: (k in s.kitchens && s.kitchens[k].ownerUserId == owner
                               && st.result.value == s.kitchens[k].(trialOrderStatus := TrialRequested,
                                                                    trialNotes := TextOrEmpty(notes))
                               && st.state == s.(kitchens := s.kitchens[k := st.result.value]))
  {
    if exists k :: k in s.kitchens && s.kitchens[k].ownerUserId == owner {
      var k :| k in s.kitchens && s.kitchens[k].ownerUserId == owner;
      assert OwnedKitchen(s.kitchens, owner, s.nextId).Some?;
    }
  }

  lemma RequestsKeepInvariants(s: LedgerState, owner: Id, preferredSlotText: JsValue, notes: JsValue)
    requires WellFormed(s) && Consistent(s)
    ensures WellFormed(RequestVideoCall(s, owner, preferredSlotText).state)
    ensures Consistent(RequestVideoCall(s, owner, preferredSlotText).state)
    ensures WellFormed(RequestTrialOrder(s, owner, notes).state)
    ensures Consistent(RequestTrialOrder(s, owner, notes).state)
  {
    var k := OwnedKitchen(s.kitchens, owner, s.nextId);
    if k.Some? {
      var a := RequestVideoCall(s, owner, preferredSlotText);
      if a.result.Ok? {
        KitchenRewriteKeeps(s, k.value, a.result.value);
      }
      KitchenRewriteKeeps(s, k.value, RequestTrialOrder(s, owner, notes).result.value);
    }
  }

  // ---------------------------------------------------------------- daily order limit

  /** `PATCH /kitchens/my/daily-order-limit` by `owner`: `Number(dailyOrderLimit)` must be a
      number of at least 0 (an absent value is NaN). */
  function SetDailyOrderLimit(s: LedgerState, owner: Id, raw: JsValue): (st: Step<Kitchen>)
    ensures st.result.Err? ==> st.state == s
  {
    var n := ToNumber(raw);
    if n.None? || n.value < 0 then Step(s, Err(400, "dailyOrderLimit must be >= 0"))
    else
      match OwnedKitchen(s.kitchens, owner, s.nextId)
      case None => Step(s, Err(404, NoKitchenForAccount))
      case Some(k) =>
        var kit := s.kitchens[k].(dailyOrderLimit := n.value);
        Step(s.(kitchens := s.kitchens[k := kit]), Ok(kit))
  }

  /** The limit is stored exactly as given when it is a number of at least 0 and the owner has
      a kitchen, and refused otherwise; only that one field changes. */
  lemma DailyOrderLimitEffect(s: LedgerState, owner: Id, raw: JsValue)
    requires WellFormed(s)
    ensures var st := SetDailyOrderLimit(s, owner, raw);
            st.result.Ok? <==> ToNumber(raw).Some? && ToNumber(raw).value >= 0
                               && exists k :: k in s.kitchens && s.kitchens[k].ownerUserId == owner
    ensures var st := SetDailyOrderLimit(s, owner, raw);
            st.result.Ok? ==> exists k :: k in s.kitchens && s.kitchens[k].ownerUserId == owner
                                          && st.state.kitchens == s.kitchens[k := s.kitchens[k].(dailyOrderLimit := ToNumber(raw).value)]
                                          && st.state.meals == s.meals && st.state.orders == s.orders
    ensures Undefined == raw ==> SetDailyOrderLimit(s, owner, raw).result == Err(400, "dailyOrderLimit must be >= 0")
  {
    var r := OwnedKitchen(s.kitchens, owner, s.nextId);
    if exists k :: k in s.kitchens && s.kitchens[k].ownerUserId == owner {
      var k :| k in s.kitchens && s.kitchens[k].ownerUserId == owner;
      assert r.Some?;
    }
  }

  /** After the limit is set to 0, every booking at that kitchen is refused. */
  lemma ZeroLimitClosesKitchen(s: LedgerState, owner: Id, req: PrebookRequest, now: Time)
    requires WellFormed(s) && SetDailyOrderLimit(s, owner, Num(0)).result.Ok?
    requires req.kitchenId == Some(OwnedKitchen(s.kitchens, owner, s.nextId).value)
    ensures var t := SetDailyOrderLimit(s, owner, Num(0)).state;
            Prebook(t, req, now).result.Err? && Prebook(t, req, now).state == t
  {
    var t := SetDailyOrderLimit(s, owner, Num(0)).state;
    LedgerLemmas.ZeroLimitBlocksAll(t, req, now);
  }

  lemma DailyOrderLimitKeepsInvariants(s: LedgerState, owner: Id, raw: JsValue)
    requires WellFormed(s) && Consistent(s)
    ensures WellFormed(SetDailyOrderLimit(s, owner, raw).state)
    ensures Consistent(SetDailyOrderLimit(s, owner, raw).state)
  {
    var st := SetDailyOrderLimit(s, owner, raw);
    if st.result.Ok? {
      var k := OwnedKitchen(s.kitchens, owner, s.nextId).value;
      KitchenRewriteKeeps(s, k, st.result.value);
    }
  }

  // ---------------------------------------------------------------- rating

  /** `POST /kitchens/:id/rating` by `userId`: the rating must be present and a number from 1
      to 5; the rating of (user, kitchen) is then created or replaced. Ratings are whole
      numbers here. */
  function Rate(ratings: map<(Id, Id), Rating>, kitchens: map<Id, Kitchen>, userId: Id, kitchenId: Id,
                rating: JsValue, feedback: JsValue): (r: (map<(Id, Id), Rating>, Result<Rating>))
    ensures r.1.Err? ==> r.0 == ratings
    ensures r.1.Ok? ==> 1 <= r.1.value.rating <= 5 && r.0 == ratings[(userId, kitchenId) := r.1.value]
  {
    if !Truthy(rating) then (ratings, Err(400, "rating is required"))
    else
      var n := ToNumber(rating);
      if n.None? || n.value < 1 || n.value > 5 then (ratings, Err(400, "rating must be between 1 and 5"))
      else if kitchenId !in kitchens then (ratings, Err(404, "Kitchen not found"))
      else
        var doc := Rating(n.value, TextOrEmpty(feedback));
        (ratings[(userId, kitchenId) := doc], Ok(doc))
  }

  /** A rating is stored exactly when it reads as a number from 1 to 5 for a stored kitchen. */
  lemma RateAccepts(ratings: map<(Id, Id), Rating>, kitchens: map<Id, Kitchen>, userId: Id, kitchenId: Id,
                    rating: JsValue, feedback: JsValue)
    ensures Rate(ratings, kitchens, userId, kitchenId, rating, feedback).1.Ok?
            <==> ToNumber(rating).Some? && 1 <= ToNumber(rating).value <= 5 && kitchenId in kitchens
  {
    var n := ToNumber(rating);
    if n.Some? && 1 <= n.value <= 5 {
      NonZeroNumberIsTruthy(rating);
    }
  }

  /** Rating again replaces the earlier rating of the same user and kitchen, with the number
      read and the feedback text, and leaves every other rating as it was. */
  lemma RateReplaces(ratings: map<(Id, Id), Rating>, kitchens: map<Id, Kitchen>, userId: Id, kitchenId: Id,
                     rating: JsValue, feedback: JsValue)
    requires Rate(ratings, kitchens, userId, kitchenId, rating, feedback).1.Ok?
    ensures var r := Rate(ratings, kitchens, userId, kitchenId, rating, feedback);
            r.1.value == Rating(ToNumber(rating).value, TextOrEmpty(feedback))
            && r.0[(userId, kitchenId)] == r.1.value
            && forall key :: key in ratings && key != (userId, kitchenId) ==> key in r.0 && r.0[key] == ratings[key]
  {
  }

  // ---------------------------------------------------------------- analytics window

  /** `Math.min(90, Math.max(1, Number(days || 30)))` as written; None is NaN, which both
      `Math.max` and `Math.min` pass through. */
  function AnalyticsDays(days: JsValue): (r: Option<int>)
    ensures r.Some? ==> 1 <= r.value <= 90
    ensures !Truthy(days) ==> r == Some(30)
  {
    var n := ToNumber(if Truthy(days) then days else Num(30));
    if n.None? then None
    else if n.value < 1 then Some(1)
    else if n.value > 90 then Some(90)
    else Some(n.value)
  }

  /** A number is clamped into [1, 90] and kept when it already lies there. */
  lemma AnalyticsDaysClamps(n: int)
    requires n != 0
    ensures AnalyticsDays(Num(n)) == Some(if n < 1 then 1 else if n > 90 then 90 else n)
  {
  }

  /** As written, a non-numeric `days` escapes the clamp: the window is NaN. */
  lemma AnalyticsDaysNaN()
    ensures AnalyticsDays(Str("week")) == None
  {
    assert Trim("week") == "week" by {
      TrimStartNoop("week");
      TrimEndNoop("week");
    }
    assert !AllDigits("week") by {
      assert !IsDigit("week"[0]);
    }
  }

  /** The window as evidently intended: always a whole day count in [1, 90], with the
      default 30 for anything that is not a number. */
  function AnalyticsDaysFixed(days: JsValue): (r: int)
    ensures 1 <= r <= 90
    ensures AnalyticsDays(days).Some? ==> r == AnalyticsDays(days).value
    ensures AnalyticsDays(days).None? ==> r == 30
  {
    match AnalyticsDays(days)
    case Some(d) => d
    case None => 30
  }
}
