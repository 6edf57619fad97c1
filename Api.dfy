/** src/lib/api.ts: the shared axios instance, its default headers, the
    bearer token kept in `localStorage`, and the CSRF bootstrap against
    Laravel Sanctum. HTTP itself is abstract: a request is recorded in `sent`
    and its outcome is supplied by the caller. */
module Api {
  import opened Wrappers
  import opened Failures
  import opened Payloads
  import CsrfCookie

  const AuthorizationHeader: string := "Authorization"
  const TokenKey: string := "auth_token"
  const CsrfCookiePath: string := "/sanctum/csrf-cookie"
  const CsrfNotFound: Failure := Thrown("CSRF token not found")
  /** The header in which the pages hand the token to Laravel. */
  const XsrfHeader: string := "X-XSRF-TOKEN"
  const OrdersPath: string := "/orders"

  /** The headers given to axios.create, sent with every request. */
  const InstanceHeaders: map<string, string> :=
    map["Accept" := "application/json",
        "Content-Type" := "application/json",
        "X-Requested-With" := "XMLHttpRequest"]

  datatype Method = Get | Post

  datatype Request = Request(verb: Method, path: string, headers: map<string, string>, body: Body)

  function Bearer(token: string): string {
    "Bearer " + token
  }

  /** The default headers after setAuthToken(token): Authorization is the
      bearer token, every other header is as it was. */
  function WithBearer(h: map<string, string>, token: string): (r: map<string, string>)
    ensures r.Keys == h.Keys + {AuthorizationHeader}
    ensures r[AuthorizationHeader] == Bearer(token)
    ensures forall k :: k in h && k != AuthorizationHeader ==> r[k] == h[k]
  {
    h[AuthorizationHeader := Bearer(token)]
  }

  /** The default headers after clearAuthToken(): no Authorization header,
      every other header as it was. */
  function WithoutBearer(h: map<string, string>): (r: map<string, string>)
    ensures r.Keys == h.Keys - {AuthorizationHeader}
    ensures forall k :: k in r ==> r[k] == h[k]
  {
    h - {AuthorizationHeader}
  }

  /** Clearing undoes setting: set then clear leaves the headers as clearing
      alone would, and exactly as before when no token was set before. */
  lemma ClearUndoesSet(h: map<string, string>, token: string)
    ensures WithoutBearer(WithBearer(h, token)) == WithoutBearer(h)
    ensures AuthorizationHeader !in h ==> WithoutBearer(WithBearer(h, token)) == h
  {
    var after := WithoutBearer(WithBearer(h, token));
    assert after.Keys == WithoutBearer(h).Keys;
    if AuthorizationHeader !in h {
      assert after.Keys == h.Keys;
    }
  }

  /** The last token set wins. */
  lemma LastTokenWins(h: map<string, string>, first: string, second: string)
    ensures WithBearer(WithBearer(h, first), second) == WithBearer(h, second)
  {
  }

  /** The headers a request carries: the common defaults, then the headers
      given to axios.create, then the request's own, later ones winning. */
  function Outgoing(common: map<string, string>, extra: map<string, string>): (r: map<string, string>)
    ensures r.Keys == common.Keys + InstanceHeaders.Keys + extra.Keys
    ensures forall k :: k in extra ==> r[k] == extra[k]
    ensures forall k :: k in InstanceHeaders && k !in extra ==> r[k] == InstanceHeaders[k]
    ensures forall k :: k in common && k !in InstanceHeaders && k !in extra ==> r[k] == common[k]
  {
    common + InstanceHeaders + extra
  }

  /** After setAuthToken(token) every request carries `Authorization: Bearer
      token`; after clearAuthToken() none carries an Authorization header
      (unless the request adds one itself). */
  lemma BearerOnEveryRequest(common: map<string, string>, token: string, extra: map<string, string>)
    requires AuthorizationHeader !in extra
    ensures AuthorizationHeader in Outgoing(WithBearer(common, token), extra)
    ensures Outgoing(WithBearer(common, token), extra)[AuthorizationHeader] == Bearer(token)
    ensures AuthorizationHeader !in Outgoing(WithoutBearer(common), extra)
  {
    assert AuthorizationHeader !in InstanceHeaders by {
      assert InstanceHeaders.Keys == {"Accept", "Content-Type", "X-Requested-With"};
      assert AuthorizationHeader[0] == 'A' && AuthorizationHeader[1] != "Accept"[1];
      assert AuthorizationHeader != "Content-Type" && AuthorizationHeader != "X-Requested-With";
    }
  }

  /** `if (!newToken) throw new Error('CSRF token not found'); return newToken;` */
  function TokenOrNotFound(read: Result<Option<string>, Failure>): (r: Result<string, Failure>)
    ensures r.Ok? <==> read.Ok? && read.value.Some?
    ensures r.Ok? ==> r.value == read.value.value
    ensures read.Err? ==> r == Err(read.error)
    ensures read == Ok(None) ==> r == Err(CsrfNotFound)
  {
    match read
    case Err(e) => Err(e)
    case Ok(None) => Err(CsrfNotFound)
    case Ok(Some(t)) => Ok(t)
  }

  /** GET /sanctum/csrf-cookie, as getCsrfToken issues it. */
  function Bootstrap(common: map<string, string>): Request {
    Request(Get, CsrfCookiePath, Outgoing(common, map[]), NoBody)
  }

  /** The requests getCsrfToken() issues: the bootstrap exactly when the
      cookie holds no token yet, nothing otherwise. */
  function CsrfRequests(cookie: Option<string>, common: map<string, string>): (rs: seq<Request>)
    ensures |rs| <= 1
    ensures rs != [] <==> CsrfCookie.ExtractCsrfToken(cookie) == Ok(None)
    ensures rs != [] ==> rs[0].verb == Get && rs[0].path == CsrfCookiePath
  {
    if CsrfCookie.ExtractCsrfToken(cookie) == Ok(None) then [Bootstrap(common)] else []
  }

  /** `document.cookie` once the bootstrap response has set the cookie string
      `jar`; without a document there is still none. */
  function CookieAfter(cookie: Option<string>, jar: string): Option<string> {
    if cookie.None? then None else Some(jar)
  }

  /** What getCsrfToken() yields for a cookie string and the outcome of the
      bootstrap request, should one be needed: a token already in the cookie;
      else the bootstrap's error; else the token the new cookie holds; else
      "CSRF token not found". A token is never empty, and the only errors are
      the URIError of decoding, the bootstrap's own, and "CSRF token not found". */
  function CsrfOutcome(cookie: Option<string>, issued: Result<string, Failure>): (r: Result<string, Failure>)
    ensures var first := CsrfCookie.ExtractCsrfToken(cookie);
      first != Ok(None) ==> r == TokenOrNotFound(first)
    ensures CsrfCookie.ExtractCsrfToken(cookie) == Ok(None) && issued.Err? ==> r == Err(issued.error)
    ensures r.Ok? ==> r.value != ""
    ensures r.Err? ==> r.error == UriMalformed || r.error == CsrfNotFound || (issued.Err? && r.error == issued.error)
  {
    match CsrfCookie.ExtractCsrfToken(cookie)
    case Ok(None) =>
      if issued.Err? then Err(issued.error)
      else TokenOrNotFound(CsrfCookie.ExtractCsrfToken(CookieAfter(cookie, issued.value)))
    case first => TokenOrNotFound(first)
  }

  class ApiClient {
    /** `typeof window !== 'undefined'` */
    const hasWindow: bool
    /** `document.cookie`; None when there is no document (server rendering) */
    var cookie: Option<string>
    /** `api.defaults.headers.common` */
    var common: map<string, string>
    /** `localStorage` (only touched when there is a window) */
    var storage: map<string, string>
    /** the requests issued through the instance, oldest first */
    var sent: seq<Request>

    /** Loading the module: the instance is created with axios's own common
        defaults, then a stored bearer token is restored when there is a window
        and the stored value is truthy (an empty string is ignored). */
    constructor (hasWindow: bool, cookie: Option<string>, storage: map<string, string>, defaults: map<string, string>)
      ensures this.hasWindow == hasWindow && this.cookie == cookie && this.storage == storage && sent == []
      ensures common == if hasWindow && TokenKey in storage && storage[TokenKey] != ""
                        then WithBearer(defaults, storage[TokenKey]) else defaults
    {
      this.hasWindow := hasWindow;
      this.cookie := cookie;
      this.storage := storage;
      this.common := defaults;
      this.sent := [];
      new;
      if hasWindow {
        var token := if TokenKey in storage then Some(storage[TokenKey]) else None;
        if Truthy(token) {
          SetAuthToken(token.value);
          assert this.storage == storage;
        }
      }
    }

    /** setAuthToken(token) */
    method SetAuthToken(token: string)
      modifies this
      ensures common == WithBearer(old(common), token)
      ensures storage == if hasWindow then old(storage)[TokenKey := token] else old(storage)
      ensures cookie == old(cookie) && sent == old(sent)
    {
      common := WithBearer(common, token);
      if hasWindow {
        storage := storage[TokenKey := token];
      }
    }

    /** clearAuthToken() */
    method ClearAuthToken()
      modifies this
      ensures common == WithoutBearer(old(common))
      ensures storage == if hasWindow then old(storage) - {TokenKey} else old(storage)
      ensures cookie == old(cookie) && sent == old(sent)
    {
      common := WithoutBearer(common);
      if hasWindow {
        storage := storage - {TokenKey};
      }
    }

    /** An HTTP call through the instance: it is recorded with the headers it
        carries, and its outcome (the response data, or the error axios
        throws) is the one supplied. */
    method Send<D>(verb: Method, path: string, extra: map<string, string>, body: Body, outcome: Result<D, Failure>)
      returns (r: Result<D, Failure>)
      modifies this
      ensures sent == old(sent) + [Request(verb, path, Outgoing(common, extra), body)]
      ensures r == outcome
      ensures cookie == old(cookie) && common == old(common) && storage == old(storage)
    {
      sent := sent + [Request(verb, path, Outgoing(common, extra), body)];
      r := outcome;
    }

    /** getCsrfToken(). A token already in the cookie is returned without any
        request; otherwise exactly one GET /sanctum/csrf-cookie is issued
        (`issued` is its outcome: the cookie string the response leaves, or
        the error), the cookie is read again, and the new token is returned or
        the call fails with "CSRF token not found". Errors are rethrown. */
    method GetCsrfToken(issued: Result<string, Failure>) returns (r: Result<string, Failure>)
      modifies this
      ensures common == old(common) && storage == old(storage)
      ensures r == CsrfOutcome(old(cookie), issued)
      ensures sent == old(sent) + CsrfRequests(old(cookie), old(common))
      ensures cookie == if CsrfCookie.ExtractCsrfToken(old(cookie)) == Ok(None) && issued.Ok?
                        then CookieAfter(old(cookie), issued.value) else old(cookie)
      ensures r.Ok? ==> CsrfCookie.ExtractCsrfToken(cookie) == Ok(Some(r.value))
    {
      var csrfToken := CsrfCookie.ExtractCsrfToken(cookie);
      if csrfToken.Err? {
        return Err(csrfToken.error);
      }
      if Truthy(csrfToken.value) {
        return Ok(csrfToken.value.value);
      }
      var response := Send(Get, CsrfCookiePath, map[], NoBody, issued);
      if response.Err? {
        return Err(response.error);
      }
      cookie := CookieAfter(cookie, issued.value);
      var newToken := CsrfCookie.ExtractCsrfToken(cookie);
      if newToken.Err? {
        return Err(newToken.error);
      }
      if !Truthy(newToken.value) {
        return Err(CsrfNotFound);
      }
      return Ok(newToken.value.value);
    }

    /** The steps every form page takes before it posts: getCsrfToken(), then
        extractCsrfToken() once more, `throw missing` when that finds nothing,
        and otherwise post `body` to `path` with the token in the X-XSRF-TOKEN
        header. The post is sent exactly when getCsrfToken() succeeds, and
        then carries the token it returned; otherwise its error is the
        result. The second read sees the cookie getCsrfToken() just read, so
        `missing` is never thrown. */
    method PostWithCsrf<D>(path: string, body: Body, missing: Failure,
                           issued: Result<string, Failure>, outcome: Result<D, Failure>)
      returns (r: Result<D, Failure>, posted: bool)
      modifies this
      ensures common == old(common) && storage == old(storage)
      ensures posted <==> CsrfOutcome(old(cookie), issued).Ok?
      ensures posted ==>
        && sent == old(sent) + CsrfRequests(old(cookie), common)
                   + [Request(Post, path, Outgoing(common, map[XsrfHeader := CsrfOutcome(old(cookie), issued).value]), body)]
        && r == outcome
      ensures !posted ==>
        && sent == old(sent) + CsrfRequests(old(cookie), common)
        && r == Err(CsrfOutcome(old(cookie), issued).error)
    {
      posted := false;
      var token := GetCsrfToken(issued);
      if token.Err? {
        return Err(token.error), false;
      }
      match CsrfCookie.ExtractCsrfToken(cookie)
      case Err(e) =>
        assert false;
        r := Err(e);
      case Ok(None) =>
        assert false;
        r := Err(missing);
      case Ok(Some(csrfToken)) =>
        r := Send(Post, path, map[XsrfHeader := csrfToken], body, outcome);
        posted := true;
    }
  }
}
