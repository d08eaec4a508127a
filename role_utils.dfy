/** The front end's session helpers (Frontend/client/src/roleUtils.js) over the browser's
    `localStorage`, a map from keys to string values. A function argument that is "" stands
    for any falsy value. */
module RoleUtils {
  const DefaultRole: string := "customer"
  const TokenKey: string := "token"
  const RoleKey: string := "userRole"

  /** `getItem(key)` is truthy: held and non-empty. */
  predicate Holds(items: map<string, string>, key: string) {
    key in items && items[key] != ""
  }

  /** `getStoredRole`: the stored role, or `customer` when none is held. */
  function RoleOf(items: map<string, string>): (r: string)
    ensures r != ""
    ensures Holds(items, RoleKey) ==> r == items[RoleKey]
    ensures !Holds(items, RoleKey) ==> r == DefaultRole
  {
    if Holds(items, RoleKey) then items[RoleKey] else DefaultRole
  }

  /** The storage after `clearAuthSession`. */
  function AfterClear(items: map<string, string>): (r: map<string, string>)
    ensures TokenKey !in r && RoleKey !in r
    ensures forall k :: k != TokenKey && k != RoleKey ==> (k in r <==> k in items)
    ensures forall k :: k in r ==> r[k] == items[k]
  {
    items - {TokenKey, RoleKey}
  }

  /** The storage after `persistAuthSession(token, role)`. */
  function AfterPersist(items: map<string, string>, token: string, role: string): (r: map<string, string>)
    ensures Holds(r, RoleKey)
    ensures forall k :: k != TokenKey && k != RoleKey ==> (k in r <==> k in items) && (k in items ==> r[k] == items[k])
    ensures token != "" ==> TokenKey in r && r[TokenKey] == token
    ensures token == "" ==> (TokenKey in r <==> TokenKey in items) && (TokenKey in items ==> r[TokenKey] == items[TokenKey])
  {
    var withToken := if token != "" then items[TokenKey := token] else items;
    if role != "" then withToken[RoleKey := role]
    else if !Holds(withToken, RoleKey) then withToken[RoleKey := DefaultRole]
    else withToken
  }

  /** After a persist the visible role is the given one, or the one seen before when no role
      was given: persisting without a role never changes what `getStoredRole` returns. */
  lemma PersistRole(items: map<string, string>, token: string, role: string)
    ensures RoleOf(AfterPersist(items, token, role)) == if role != "" then role else RoleOf(items)
  {
  }

  /** A role that is already stored survives a persist without a role. */
  lemma PersistKeepsStoredRole(items: map<string, string>, token: string)
    requires Holds(items, RoleKey)
    ensures AfterPersist(items, token, "")[RoleKey] == items[RoleKey]
  {
  }

  /** Persisting the same session twice changes nothing the second time. */
  lemma PersistIdempotent(items: map<string, string>, token: string, role: string)
    ensures AfterPersist(AfterPersist(items, token, role), token, role) == AfterPersist(items, token, role)
  {
  }

  /** After a clear the visible role is the default. */
  lemma ClearedRoleIsDefault(items: map<string, string>)
    ensures RoleOf(AfterClear(items)) == DefaultRole
    ensures RedirectForRole(RoleOf(AfterClear(items))) == "/"
  {
  }

  /** `getRedirectForRole`. */
  function RedirectForRole(role: string): (r: string)
    ensures role == "admin" <==> r == "/admin-dashboard"
    ensures role == "kitchen" <==> r == "/kitchen-dashboard"
    ensures role != "admin" && role != "kitchen" <==> r == "/"
  {
    if role == "admin" then "/admin-dashboard"
    else if role == "kitchen" then "/kitchen-dashboard"
    else "/"
  }

  /** The browser's `localStorage`. */
  class SessionStore {
    var items: map<string, string>

    constructor(initial: map<string, string>)
      ensures items == initial
    {
      items := initial;
    }

    /** `getStoredRole()`. */
    method StoredRole() returns (role: string)
      ensures role == RoleOf(items)
    {
      if RoleKey in items && items[RoleKey] != "" {
        role := items[RoleKey];
      } else {
        role := DefaultRole;
      }
    }

    /** `clearAuthSession()`: remove the token, then the role. */
    method Clear()
      modifies this
      ensures items == AfterClear(old(items))
    {
      items := items - {TokenKey};
      items := items - {RoleKey};
    }

    /** `persistAuthSession(token, role)`. */
    method Persist(token: string, role: string)
      modifies this
      ensures items == AfterPersist(old(items), token, role)
    {
      if token != "" {
        items := items[TokenKey := token];
      }
      if role != "" {
        items := items[RoleKey := role];
      } else if !(RoleKey in items && items[RoleKey] != "") {
        items := items[RoleKey := DefaultRole];
      }
    }
  }
}
