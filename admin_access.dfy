/** The admin e-mail allow-list (Backend/utils/adminAccess.js). The list is the comma-separated
    setting `ADMIN_EMAILS`, each entry normalised and empty entries dropped, with the static
    admin e-mail pushed on when it is not already listed. The settings are parameters: the
    value "" stands for an unset variable, and `builtIn` is the e-mail the code falls back on. */
module AdminAccess {
  import opened Strings

  /** `String(value).trim().toLowerCase()`. */
  function NormalizeEmail(s: string): string {
    Lower(Trim(s))
  }

  /** Normalising a normalised e-mail changes nothing. */
  lemma NormalizeEmailIdempotent(s: string)
    ensures NormalizeEmail(NormalizeEmail(s)) == NormalizeEmail(s)
  {
    var t := Trim(s);
    LowerTrimStart(t);
    LowerTrimEnd(TrimStart(t));
    TrimIdempotent(s);
    LowerIdempotent(t);
  }

  /** A normalised e-mail has no surrounding white space and no upper-case ASCII letter. */
  lemma NormalizedEmailShape(s: string)
    ensures var e := NormalizeEmail(s);
            (e == [] || (!IsJsWhitespace(e[0]) && !IsJsWhitespace(e[|e| - 1])))
            && forall i :: 0 <= i < |e| ==> !('A' <= e[i] <= 'Z')
  {
    var t := Trim(s);
    TrimShape(s);
    if t != [] {
      LowerCharFacts(t[0]);
      LowerCharFacts(t[|t| - 1]);
    }
    forall i | 0 <= i < |t|
      ensures !('A' <= Lower(t)[i] <= 'Z')
    {
      LowerCharFacts(t[i]);
    }
  }

  /** Case and surrounding white space do not matter to normalisation. */
  lemma NormalizeIgnoresCase(s: string)
    ensures NormalizeEmail(Lower(s)) == NormalizeEmail(s)
  {
    LowerTrimStart(s);
    LowerTrimEnd(TrimStart(s));
    LowerIdempotent(Trim(s));
  }

  /** `.map(f).filter(Boolean)` on a list of strings. */
  function MapNonEmpty(parts: seq<string>, f: string -> string): seq<string>
    decreases |parts|
  {
    if parts == [] then []
    else
      var e := f(parts[|parts| - 1]);
      MapNonEmpty(parts[..|parts| - 1], f) + (if e == "" then [] else [e])
  }

  /** `.map(normalizeEmail).filter(Boolean)`. */
  function NormalizedEntries(parts: seq<string>): seq<string> {
    MapNonEmpty(parts, NormalizeEmail)
  }

  lemma MapNonEmptySnoc(parts: seq<string>, f: string -> string, i: nat)
    requires i < |parts|
    ensures var e := f(parts[i]);
            MapNonEmpty(parts[..i + 1], f) == MapNonEmpty(parts[..i], f) + (if e == "" then [] else [e])
  {
    var p := parts[..i + 1];
    assert p[..|p| - 1] == parts[..i];
    assert p[|p| - 1] == parts[i];
  }

  /** Some part maps to e. */
  predicate MapsTo(parts: seq<string>, f: string -> string, e: string) {
    exists i :: 0 <= i < |parts| && e == f(parts[i])
  }

  lemma {:induction false} MapNonEmptyMember(parts: seq<string>, f: string -> string, e: string)
    ensures e in MapNonEmpty(parts, f) <==> e != "" && MapsTo(parts, f, e)
    decreases |parts|
  {
    if parts != [] {
      var init := parts[..|parts| - 1];
      var last := f(parts[|parts| - 1]);
      MapNonEmptyMember(init, f, e);
      if MapsTo(parts, f, e) && e != last {
        var i :| 0 <= i < |parts| && e == f(parts[i]);
        assert i < |parts| - 1 && init[i] == parts[i];
      }
      if MapsTo(init, f, e) {
        var i :| 0 <= i < |init| && e == f(init[i]);
        assert parts[i] == init[i];
      }
    }
  }

  /** The entries are exactly the non-empty normalised parts. */
  lemma NormalizedEntriesMembers(parts: seq<string>)
    ensures forall e :: e in NormalizedEntries(parts) <==> e != "" && MapsTo(parts, NormalizeEmail, e)
  {
    forall e
      ensures e in NormalizedEntries(parts) <==> e != "" && MapsTo(parts, NormalizeEmail, e)
    {
      MapNonEmptyMember(parts, NormalizeEmail, e);
    }
  }

  /** `normalizeEmail(process.env.ADMIN_STATIC_EMAIL || builtIn)`. */
  function StaticAdminEmail(staticSetting: string, builtIn: string): string {
    NormalizeEmail(if staticSetting != "" then staticSetting else builtIn)
  }

  /** `ADMIN_EMAILS` once the module has loaded. */
  function AdminEmailList(env: string, staticSetting: string, builtIn: string): seq<string> {
    var entries := NormalizedEntries(Split(env, ','));
    var s := StaticAdminEmail(staticSetting, builtIn);
    if s != "" && s !in entries then entries + [s] else entries
  }

  /** The module's initialisation: map and filter the split setting, then push the static
      e-mail when it is non-empty and absent. */
  method BuildAdminEmails(env: string, staticSetting: string, builtIn: string) returns (emails: seq<string>)
    ensures emails == AdminEmailList(env, staticSetting, builtIn)
  {
    var parts := Split(env, ',');
    emails := [];
    for i := 0 to |parts|
      invariant emails == NormalizedEntries(parts[..i])
    {
      MapNonEmptySnoc(parts, NormalizeEmail, i);
      var e := NormalizeEmail(parts[i]);
      if e != "" {
        emails := emails + [e];
      }
    }
    assert parts[..|parts|] == parts;
    var s := StaticAdminEmail(staticSetting, builtIn);
    if s != "" && s !in emails {
      emails := emails + [s];
    }
  }

  /** The list holds exactly the non-empty normalised comma-separated entries and the static
      e-mail. */
  lemma AdminEmailListMembers(env: string, staticSetting: string, builtIn: string)
    ensures var list := AdminEmailList(env, staticSetting, builtIn);
            var s := StaticAdminEmail(staticSetting, builtIn);
            forall e :: e in list <==> e != "" && (MapsTo(Split(env, ','), NormalizeEmail, e) || e == s)
  {
    NormalizedEntriesMembers(Split(env, ','));
  }

  /** Every listed e-mail is non-empty and already normalised. */
  lemma AdminEmailListNormalized(env: string, staticSetting: string, builtIn: string)
    ensures forall e :: e in AdminEmailList(env, staticSetting, builtIn) ==> e != "" && NormalizeEmail(e) == e
  {
    var parts := Split(env, ',');
    var list := AdminEmailList(env, staticSetting, builtIn);
    AdminEmailListMembers(env, staticSetting, builtIn);
    forall e | e in list
      ensures e != "" && NormalizeEmail(e) == e
    {
      if e == StaticAdminEmail(staticSetting, builtIn) {
        NormalizeEmailIdempotent(if staticSetting != "" then staticSetting else builtIn);
      } else {
        var i :| 0 <= i < |parts| && e == NormalizeEmail(parts[i]);
        NormalizeEmailIdempotent(parts[i]);
      }
    }
  }

  /** The static e-mail is pushed only when the setting does not list it, so it then occurs
      exactly once. */
  lemma StaticAdminOnce(env: string, staticSetting: string, builtIn: string)
    ensures var s := StaticAdminEmail(staticSetting, builtIn);
            s != "" && s !in NormalizedEntries(Split(env, ',')) ==>
              multiset(AdminEmailList(env, staticSetting, builtIn))[s] == 1
  {
    var entries := NormalizedEntries(Split(env, ','));
    var s := StaticAdminEmail(staticSetting, builtIn);
    if s != "" && s !in entries {
      assert multiset(entries)[s] == 0;
      assert multiset(entries + [s]) == multiset(entries) + multiset{s};
    }
  }

  /** `isAdminEmail`: membership of the normalised e-mail. */
  predicate IsAdminEmail(list: seq<string>, email: string) {
    NormalizeEmail(email) in list
  }

  /** The check ignores case. */
  lemma IsAdminEmailIgnoresCase(list: seq<string>, email: string)
    ensures IsAdminEmail(list, Lower(email)) == IsAdminEmail(list, email)
  {
    NormalizeIgnoresCase(email);
  }

  /** The check ignores surrounding white space: an e-mail and its normal form pass alike. */
  lemma IsAdminEmailOfNormalized(list: seq<string>, email: string)
    ensures IsAdminEmail(list, NormalizeEmail(email)) == IsAdminEmail(list, email)
  {
    NormalizeEmailIdempotent(email);
  }

  /** The static admin e-mail passes the check however it is written, unless it normalises to
      the empty string. */
  lemma StaticAdminListed(env: string, staticSetting: string, builtIn: string)
    ensures var raw := if staticSetting != "" then staticSetting else builtIn;
            NormalizeEmail(raw) != "" ==> IsAdminEmail(AdminEmailList(env, staticSetting, builtIn), raw)
  {
    var entries := NormalizedEntries(Split(env, ','));
    var s := StaticAdminEmail(staticSetting, builtIn);
    assert s in AdminEmailList(env, staticSetting, builtIn) || s == "";
  }

  /** `getAdminEmails`: a new array with the list's contents, so changing it leaves the list
      as it was. */
  method GetAdminEmails(list: seq<string>) returns (copy: array<string>)
    ensures fresh(copy) && copy[..] == list
  {
    copy := new string[|list|];
    for i := 0 to |list|
      invariant copy[..i] == list[..i]
    {
      copy[i] := list[i];
    }
  }
}
