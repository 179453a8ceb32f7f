/** The request and response interceptors of the first frontend's HTTP client
    (frontend/src/services/api.js). Browser storage and location are the
    `Browser` value threaded through. */
module ApiClient {
  import opened Common

  type Headers = map<string, string>

  /** The stored token (`localStorage`) and the current path. */
  datatype Browser = Browser(token: Option<string>, path: string)

  const BearerPrefix := "Bearer "

  /** The request interceptor: a stored, non-empty token becomes the
      Authorization header; otherwise the headers pass unchanged. */
  function InjectToken(headers: Headers, token: Option<string>): (r: Headers)
    ensures Truthy(token) ==> "Authorization" in r && r["Authorization"] == BearerPrefix + token.value
    ensures !Truthy(token) ==> r == headers
    ensures forall k | k in headers && k != "Authorization" :: k in r && r[k] == headers[k]
    ensures forall k | k in r && k != "Authorization" :: k in headers
  {
    if Truthy(token) then headers["Authorization" := BearerPrefix + token.value] else headers
  }

  /** The token a server reads back from a bearer header. */
  function BearerToken(h: string): Option<string> {
    if |h| >= |BearerPrefix| && h[..|BearerPrefix|] == BearerPrefix then Some(h[|BearerPrefix|..]) else None
  }

  /** The injected header carries the stored token exactly. */
  lemma InjectedTokenReadsBack(headers: Headers, token: Option<string>)
    requires Truthy(token)
    ensures BearerToken(InjectToken(headers, token)["Authorization"]) == token
  {
    var h := BearerPrefix + token.value;
    assert h[..|BearerPrefix|] == BearerPrefix;
    assert h[|BearerPrefix|..] == token.value;
  }

  /** How a request failed: no response at all, or an error status with the
      body's `message`, if any. */
  datatype Failure = NoResponse | Status(code: int, message: Option<string>)

  /** The plain object the client rejects with. It has no `response`. */
  datatype Rejection = Rejection(message: string, status: Option<int>)

  datatype Settled<+T> = Resolved(body: T) | Rejected(rejection: Rejection)

  /** A server response as the client sees it. */
  datatype Response<+T> = Answered(body: T) | Failed(failure: Failure)

  const NetworkError := "Network error. Please check your connection."
  const SessionExpired := "Session expired. Please log in again."
  const Unexpected := "An unexpected error occurred"

  /** The response interceptor. A 401 away from /login drops the token and
      goes to /login. */
  function Intercept<T>(resp: Response<T>, b: Browser): (r: (Settled<T>, Browser))
    ensures resp.Answered? ==> r == (Resolved(resp.body), b)
    ensures resp == Failed(NoResponse) ==> r == (Rejected(Rejection(NetworkError, None)), b)
    ensures resp.Failed? && resp.failure.Status? && resp.failure.code == 401 ==>
              && r.0 == Rejected(Rejection(SessionExpired, None))
              && r.1 == (if b.path != "/login" then Browser(None, "/login") else b)
    ensures resp.Failed? && resp.failure.Status? && resp.failure.code != 401 ==>
              r == (Rejected(Rejection(OrElse(resp.failure.message, Unexpected), Some(resp.failure.code))), b)
  {
    match resp
    case Answered(body) => (Resolved(body), b)
    case Failed(NoResponse) => (Rejected(Rejection(NetworkError, None)), b)
    case Failed(Status(code, message)) =>
      if code == 401 then
        (Rejected(Rejection(SessionExpired, None)), if b.path != "/login" then Browser(None, "/login") else b)
      else (Rejected(Rejection(OrElse(message, Unexpected), Some(code))), b)
  }

  /** Every rejection carries a message, and a status exactly for the
      failures that are not 401. */
  lemma RejectionWellFormed<T>(resp: Response<T>, b: Browser)
    requires Intercept(resp, b).0.Rejected?
    ensures var j := Intercept(resp, b).0.rejection;
            j.message != "" && (j.status.Some? <==> resp.failure.Status? && resp.failure.code != 401)
  {
  }

  /** The login page keeps its token on a 401, and handling a second 401
      changes nothing further. */
  lemma UnauthorizedSettles<T>(resp: Response<T>, b: Browser)
    requires resp.Failed? && resp.failure.Status? && resp.failure.code == 401
    ensures b.path == "/login" ==> Intercept(resp, b).1 == b
    ensures var b1 := Intercept(resp, b).1; Intercept(resp, b1).1 == b1
    ensures Intercept(resp, b).1.path == "/login"
  {
  }
}
