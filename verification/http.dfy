/** The HTTP client's two interceptors: the token header and the 401 handler. */
module Http {
  import opened Wrappers
  import Browser

  const TokenHeader: string := "X-API-TOKEN"
  const Unauthorized: int := 401

  /** The request configuration object the request interceptor mutates. */
  class RequestConfig {
    var headers: map<string, string>

    constructor (headers: map<string, string>)
      ensures this.headers == headers
    {
      this.headers := headers;
    }
  }

  /** The token to send, if storage holds a non-empty one. */
  function StoredToken(storage: Browser.Storage): (r: Option<string>)
    ensures r.Some? <==> Browser.TokenKey in storage && storage[Browser.TokenKey] != []
    ensures r.Some? ==> r.value == storage[Browser.TokenKey]
  {
    var t := Browser.GetItem(storage, Browser.TokenKey);
    if t.Some? && t.value != [] then t else None
  }

  /** Request interceptor: attach the stored token, if any, and hand the same config on. */
  method OnRequest(config: RequestConfig, window: Browser.Window) returns (sent: RequestConfig)
    modifies config
    ensures sent == config
    ensures StoredToken(window.storage).Some? ==>
              config.headers == old(config.headers)[TokenHeader := StoredToken(window.storage).value]
    ensures StoredToken(window.storage).None? ==> config.headers == old(config.headers)
  {
    var token := Browser.GetItem(window.storage, Browser.TokenKey);
    if token.Some? && token.value != [] {
      config.headers := config.headers[TokenHeader := token.value];
    }
    sent := config;
  }

  /** A failed request: the response status, when a response arrived at all. */
  datatype HttpError = HttpError(status: Option<int>, detail: Option<string>)

  /** Response interceptor, success path: the response passes through. */
  method OnResponse<R>(response: R) returns (passed: R)
    ensures passed == response
  {
    passed := response;
  }

  /** Response interceptor, error path: on 401 purge the session keys and leave for the login page. */
  method OnResponseError(error: HttpError, window: Browser.Window) returns (rejected: HttpError)
    modifies window
    ensures rejected == error
    ensures error.status == Some(Unauthorized) ==> window.storage == Browser.Purged(old(window.storage))
    ensures error.status != Some(Unauthorized) ==> window.storage == old(window.storage)
    ensures window.assignedHref ==
              if error.status == Some(Unauthorized) && old(window.pathname) != Browser.LoginPath
              then Some(Browser.LoginPath) else old(window.assignedHref)
    ensures window.pathname == old(window.pathname)
  {
    if error.status == Some(Unauthorized) {
      window.storage := Browser.Purged(window.storage);
      if window.pathname != Browser.LoginPath {
        window.assignedHref := Some(Browser.LoginPath);
      }
    }
    rejected := error;
  }
}
