/** The pure helpers of the upload middleware (Backend/middleware/multer.js): the MIME
    allow-list, the stored file name, the owner directory, the owner segment read back from a
    stored path, and the file sub-document a handler saves. Paths are lists of segments
    joined with the platform separator `sep`; the disk writes themselves are not modelled. */
module Uploads {
  import opened Http
  import opened Strings
  import opened MealModel
  import opened KitchenModel

  /** A file as the middleware hands it to a handler once it is stored. */
  datatype UploadedFile = UploadedFile(
    originalName: string,
    fileName: string,
    mimeType: string,
    size: int,
    path: string)

  const AllowedMimeTypes: set<string> :=
    {"application/pdf", "image/jpeg", "image/jpg", "image/png", "video/mp4"}

  /** `fileFilter`: a MIME type outside the allow-list is refused with 400. */
  function FileFilter(mimeType: string): (r: Result<bool>)
    ensures r.Ok? <==> mimeType in AllowedMimeTypes
    ensures r.Ok? ==> r.value
    ensures r.Err? ==> r == Err(400, "Unsupported file type. Use PDF/JPG/PNG/MP4")
  {
    if mimeType in AllowedMimeTypes then Ok(true)
    else Err(400, "Unsupported file type. Use PDF/JPG/PNG/MP4")
  }

  /** The `limits.fileSize` of the upload middleware: 25 MB per file. */
  const MaxFileBytes: int := 25 * 1024 * 1024

  /** A file the upload middleware lets through: an allowed MIME type and at most 25 MB. */
  predicate Acceptable(f: UploadedFile) {
    f.mimeType in AllowedMimeTypes && f.size <= MaxFileBytes
  }

  /** The upload middleware on one incoming file: the filter first, then the size limit,
      which multer reports as a `MulterError` ("File too large") that the error middleware
      answers with 400. */
  function AcceptUpload(f: UploadedFile): (r: Result<bool>)
    ensures r.Ok? <==> Acceptable(f)
    ensures r.Err? ==> r.status == 400
  {
    match FileFilter(f.mimeType)
    case Err(code, msg) => Err(code, msg)
    case Ok(_) => if f.size > MaxFileBytes then Err(400, "File too large") else Ok(true)
  }

  /** The upload middleware over the files of a request in arrival order: the first refused
      file ends the request. */
  function AcceptUploads(files: seq<UploadedFile>): (r: Result<bool>)
    ensures r.Ok? <==> forall i :: 0 <= i < |files| ==> Acceptable(files[i])
    ensures r.Err? ==> r.status == 400
  {
    if files == [] then Ok(true)
    else
      match AcceptUpload(files[0])
      case Err(code, msg) => Err(code, msg)
      case Ok(_) =>
        var rest := AcceptUploads(files[1..]);
        assert forall i :: 1 <= i < |files| ==> files[i] == files[1..][i - 1];
        rest
  }

  /** Exactly pdf, jpeg, jpg, png and mp4 files pass the filter. */
  lemma FileFilterAccepts(mimeType: string)
    ensures FileFilter(mimeType).Ok? <==>
              mimeType == "application/pdf" || mimeType == "image/jpeg" || mimeType == "image/jpg"
              || mimeType == "image/png" || mimeType == "video/mp4"
  {
  }

  /** The characters `[a-zA-Z0-9._-]` that sanitisation keeps. */
  predicate SafeChar(c: char) {
    IsAsciiLetter(c) || IsDigit(c) || c == '.' || c == '_' || c == '-'
  }

  /** The UTF-16 code units of a character, as a JavaScript string holds it: one unit inside
      the Basic Multilingual Plane, a surrogate pair outside it. */
  function Utf16Units(c: char): (r: seq<int>)
    ensures c as int < 0x1_0000 ==> r == [c as int]
    ensures c as int >= 0x1_0000 ==> |r| == 2 && 0xD800 <= r[0] < 0xDC00 && 0xDC00 <= r[1] < 0xE000
  {
    if c as int < 0x1_0000 then [c as int]
    else
      var v := c as int - 0x1_0000;
      [0xD800 + v / 0x400, 0xDC00 + v % 0x400]
  }

  /** The UTF-16 code units of a string. */
  function Utf16(s: string): (r: seq<int>)
    ensures |r| >= |s|
  {
    if s == [] then []
    else Utf16(s[..|s| - 1]) + Utf16Units(s[|s| - 1])
  }

  /** A string made of characters of the Basic Multilingual Plane has one code unit per
      character, equal to it. */
  lemma {:induction false} Utf16OfBmp(s: string)
    requires forall i :: 0 <= i < |s| ==> s[i] as int < 0x1_0000
    ensures |Utf16(s)| == |s|
    ensures forall i :: 0 <= i < |s| ==> Utf16(s)[i] == s[i] as int
  {
    if s != [] {
      var init := s[..|s| - 1];
      Utf16OfBmp(init);
      assert Utf16(s) == Utf16(init) + [s[|s| - 1] as int];
    }
  }

  /** What the pattern `[^a-zA-Z0-9._-]` leaves of one code unit: an allowed (ASCII) unit is
      kept, every other one, a surrogate included, becomes `_`. */
  function SafeUnit(u: int): (c: char)
    ensures SafeChar(c)
  {
    if 0 <= u < 0x80 && SafeChar(u as char) then u as char else '_'
  }

  /** The global replacement over a sequence of code units. */
  function SafeUnits(units: seq<int>): (r: string)
    ensures |r| == |units|
  {
    if units == [] then []
    else SafeUnits(units[..|units| - 1]) + [SafeUnit(units[|units| - 1])]
  }

  /** `originalname.replace(/[^a-zA-Z0-9._-]/g, "_")`: without the `u` flag the pattern is
      matched against UTF-16 code units, so a character outside the Basic Multilingual Plane,
      two units, becomes two `_`. */
  function SafeName(name: string): (r: string)
    ensures |r| == |Utf16(name)| && |r| >= |name|
  {
    SafeUnits(Utf16(name))
  }

  lemma {:induction false} SafeUnitsPointwise(units: seq<int>)
    ensures forall i :: 0 <= i < |units| ==> SafeUnits(units)[i] == SafeUnit(units[i])
  {
    if units != [] {
      var init := units[..|units| - 1];
      SafeUnitsPointwise(init);
      assert forall i :: 0 <= i < |init| ==> SafeUnits(units)[i] == SafeUnits(init)[i];
    }
  }

  /** Sanitisation keeps every allowed code unit in place and puts `_` for each other one; a
      name of Basic Multilingual Plane characters keeps its length, character for character. */
  lemma SafeNamePointwise(name: string)
    ensures forall i :: 0 <= i < |Utf16(name)| ==>
              SafeName(name)[i] == SafeUnit(Utf16(name)[i])
    ensures (forall i :: 0 <= i < |name| ==> name[i] as int < 0x1_0000) ==>
              |SafeName(name)| == |name|
              && forall i :: 0 <= i < |name| ==>
                   SafeName(name)[i] == (if SafeChar(name[i]) then name[i] else '_')
  {
    SafeUnitsPointwise(Utf16(name));
    if forall i :: 0 <= i < |name| ==> name[i] as int < 0x1_0000 {
      Utf16OfBmp(name);
      forall i | 0 <= i < |name|
        ensures SafeName(name)[i] == (if SafeChar(name[i]) then name[i] else '_')
      {
        assert Utf16(name)[i] == name[i] as int;
        if SafeChar(name[i]) {
          assert name[i] as int < 0x80 by { SafeCharIsAscii(name[i]); }
        }
      }
    }
  }

  lemma SafeCharIsAscii(c: char)
    requires SafeChar(c)
    ensures c as int < 0x80
  {
  }

  /** A sanitised name holds only allowed characters, and sanitising it again changes nothing. */
  lemma SafeNameIdempotent(name: string)
    ensures forall i :: 0 <= i < |SafeName(name)| ==> SafeChar(SafeName(name)[i])
    ensures SafeName(SafeName(name)) == SafeName(name)
  {
    var s := SafeName(name);
    SafeUnitsPointwise(Utf16(name));
    forall i | 0 <= i < |s|
      ensures s[i] as int < 0x1_0000
    {
      SafeCharIsAscii(s[i]);
    }
    SafeNamePointwise(s);
  }

  lemma {:induction false} Utf16Append(a: string, b: string)
    ensures Utf16(a + b) == Utf16(a) + Utf16(b)
  {
    if b != [] {
      var init := b[..|b| - 1];
      Utf16Append(a, init);
      assert (a + b)[..|a + b| - 1] == a + init;
      assert (a + b)[|a + b| - 1] == b[|b| - 1];
    } else {
      assert a + b == a;
    }
  }

  /** An emoji, two code units, becomes two `_`. */
  lemma AstralCharDoubled()
    ensures SafeName("\U{1F600}.png") == "__.png"
  {
    var emoji := "\U{1F600}";
    assert Utf16(emoji) == Utf16([]) + Utf16Units(emoji[0]);
    Utf16Append(emoji, ".png");
    Utf16OfBmp(".png");
    assert emoji + ".png" == "\U{1F600}.png";
    SafeUnitsPointwise(Utf16("\U{1F600}.png"));
  }

  /** An accented letter, one code unit, becomes one `_`. */
  lemma BmpCharSingle()
    ensures SafeName("caf\U{E9}.png") == "caf_.png"
  {
    SafeNamePointwise("caf\U{E9}.png");
  }

  /** The stored name `<timestamp>_<sanitised original>`. */
  function StoredFileName(timestamp: nat, originalName: string): string {
    NatToString(timestamp) + "_" + SafeName(originalName)
  }

  /** The stored name splits back at its first `_` into the timestamp and the sanitised
      original name. */
  lemma StoredFileNameSplits(timestamp: nat, originalName: string)
    ensures var f := StoredFileName(timestamp, originalName);
            var i := |NatToString(timestamp)|;
            '_' in f && IndexOf(f, '_') == i
            && AllDigits(f[..i]) && DigitsValue(f[..i]) == timestamp
            && f[i + 1..] == SafeName(originalName)
  {
    var t := NatToString(timestamp);
    var f := StoredFileName(timestamp, originalName);
    var i := |t|;
    assert f[..i] == t;
    assert f[i] == '_';
    assert '_' !in f[..i] by {
      assert forall k :: 0 <= k < i ==> IsDigit(f[..i][k]);
    }
    IndexOfAt(f, '_', i);
    assert f[i + 1..] == SafeName(originalName);
  }

  /** The directory segment of the uploader: the user id, or "anonymous" without a user. */
  function UploadOwner(userId: Option<Id>): (r: string)
    ensures r != "" && r != "kitchens"
  {
    match userId
    case Some(id) => NatToString(id)
    case None => "anonymous"
  }

  /** The path the disk storage gives a stored file: `<root>/kitchens/<owner>/<fileName>`. */
  function StoredPath(root: seq<string>, owner: string, fileName: string, sep: char): string {
    Join(root + ["kitchens", owner, fileName], sep)
  }

  /** `reqUserIdSafe`: the path segment after the last `kitchens` segment, or "unknown" when
      there is no such segment or it is empty. */
  function OwnerSegment(path: string, sep: char): (r: string)
    ensures r != ""
  {
    var parts := Split(path, sep);
    var idx := LastIndexOf(parts, "kitchens");
    if idx >= 0 && idx + 1 < |parts| && parts[idx + 1] != "" then parts[idx + 1] else "unknown"
  }

  /** A path with no `kitchens` segment yields "unknown". */
  lemma OwnerSegmentWithoutKitchens(path: string, sep: char)
    requires "kitchens" !in Split(path, sep)
    ensures OwnerSegment(path, sep) == "unknown"
  {
  }

  /** The segment is read back from the stored path: it is the owner the storage put there. */
  lemma OwnerSegmentOfStoredPath(root: seq<string>, owner: string, fileName: string, sep: char)
    requires forall i :: 0 <= i < |root| ==> sep !in root[i]
    requires sep !in "kitchens" && sep !in owner && sep !in fileName
    requires owner != "" && owner != "kitchens" && fileName != "kitchens"
    ensures OwnerSegment(StoredPath(root, owner, fileName, sep), sep) == owner
  {
    var parts := root + ["kitchens", owner, fileName];
    SplitJoin(parts, sep);
    var idx := LastIndexOf(parts, "kitchens");
    assert parts[|root|] == "kitchens";
    assert idx == |root|;
  }

  /** `buildFileDoc`: no file gives no document; otherwise the file's fields with the public
      URL `/uploads/kitchens/<owner segment>/<fileName>` and the upload time `now`. */
  function BuildFileDoc(file: Option<UploadedFile>, sep: char, now: int): (r: Option<FileDoc>)
    ensures r.None? <==> file.None?
    ensures file.Some? ==> r.value.fileName == file.value.fileName && r.value.size == file.value.size
                           && r.value.mimeType == file.value.mimeType && r.value.uploadedAt == now
                           && r.value.urlPath == "/uploads/kitchens/" + OwnerSegment(file.value.path, sep)
                                                 + "/" + file.value.fileName
  {
    match file
    case None => None
    case Some(f) =>
      Some(FileDoc(f.originalName, f.fileName, f.mimeType, f.size, f.path,
                   "/uploads/kitchens/" + OwnerSegment(f.path, sep) + "/" + f.fileName, now))
  }

  /** A file stored for a user at time `timestamp` is published under that user's directory
      and its stored name. */
  lemma StoredFileUrl(root: seq<string>, userId: Option<Id>, timestamp: nat, originalName: string,
                      mimeType: string, size: int, sep: char, now: int)
    requires forall i :: 0 <= i < |root| ==> sep !in root[i]
    requires !SafeChar(sep)
    ensures var owner := UploadOwner(userId);
            var name := StoredFileName(timestamp, originalName);
            var file := UploadedFile(originalName, name, mimeType, size, StoredPath(root, owner, name, sep));
            BuildFileDoc(Some(file), sep, now).value.urlPath == "/uploads/kitchens/" + owner + "/" + name
  {
    var owner := UploadOwner(userId);
    var name := StoredFileName(timestamp, originalName);
    OwnerAvoidsSeparator(userId, sep);
    StoredNameAvoidsSeparator(timestamp, originalName, sep);
    StoredNameIsNotKitchens(timestamp, originalName);
    KitchensAvoidsSeparator(sep);
    OwnerSegmentOfStoredPath(root, owner, name, sep);
  }

  /** The owner directory is made of safe characters only. */
  lemma OwnerAvoidsSeparator(userId: Option<Id>, sep: char)
    requires !SafeChar(sep)
    ensures sep !in UploadOwner(userId)
  {
    var owner := UploadOwner(userId);
    if userId.Some? {
      assert forall k :: 0 <= k < |owner| ==> IsDigit(owner[k]);
    } else {
      assert owner == "anonymous";
    }
  }

  /** The stored name is made of safe characters only. */
  lemma StoredNameAvoidsSeparator(timestamp: nat, originalName: string, sep: char)
    requires !SafeChar(sep)
    ensures sep !in StoredFileName(timestamp, originalName)
  {
    var name := StoredFileName(timestamp, originalName);
    var t := NatToString(timestamp);
    SafeNameIdempotent(originalName);
    var s := SafeName(originalName);
    assert forall k :: 0 <= k < |t| ==> name[k] == t[k];
    assert forall k :: 0 <= k < |t| ==> IsDigit(t[k]);
    assert forall k :: |t| + 1 <= k < |name| ==> name[k] == s[k - |t| - 1];
  }

  /** The stored name has `_` right after its digits, so it is never the `kitchens` segment. */
  lemma StoredNameIsNotKitchens(timestamp: nat, originalName: string)
    ensures StoredFileName(timestamp, originalName) != "kitchens"
  {
    var name := StoredFileName(timestamp, originalName);
    var t := NatToString(timestamp);
    assert name[|t|] == '_';
    if |name| == 8 {
      assert "kitchens"[|t|] != '_';
    }
  }

  lemma KitchensAvoidsSeparator(sep: char)
    requires !SafeChar(sep)
    ensures sep !in "kitchens"
  {
    assert forall k :: 0 <= k < 8 ==> IsAsciiLetter("kitchens"[k]);
  }
}
