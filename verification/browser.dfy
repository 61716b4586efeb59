/** `localStorage` and `window.location`, shared by the session context and the HTTP client. */
module Browser {
  import opened Wrappers

  type Storage = map<string, string>

  const TokenKey: string := "token"
  const StudentIdKey: string := "studentId"
  const LoginPath: string := "/login"

  /** `localStorage.getItem(key)`, `None` for `null`. */
  function GetItem(s: Storage, key: string): (r: Option<string>)
    ensures r.Some? <==> key in s
    ensures r.Some? ==> r.value == s[key]
  {
    if key in s then Some(s[key]) else None
  }

  /** Both `removeItem('token')` and `removeItem('studentId')`. */
  function Purged(s: Storage): (r: Storage)
    ensures TokenKey !in r && StudentIdKey !in r
    ensures forall k :: k in r <==> k in s && k != TokenKey && k != StudentIdKey
    ensures forall k :: k in r ==> r[k] == s[k]
  {
    s - {TokenKey, StudentIdKey}
  }

  /** Purging twice is purging once. */
  lemma PurgeIdempotent(s: Storage)
    ensures Purged(Purged(s)) == Purged(s)
  {
  }

  /** Storage, the current path, and the last assignment to `window.location.href`. */
  class Window {
    var storage: Storage
    var pathname: string
    var assignedHref: Option<string>

    constructor (storage: Storage, pathname: string)
      ensures this.storage == storage && this.pathname == pathname && assignedHref == None
    {
      this.storage := storage;
      this.pathname := pathname;
      assignedHref := None;
    }
  }
}
