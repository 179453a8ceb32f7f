/** The origin check of the CORS options in backend/server.js. The value of
    the FRONTEND_URL environment variable is a parameter. */
module Cors {
  import opened Common

  const DefaultFrontend := "http://localhost:5173"
  const DenyPrefix := "The CORS policy for this site does not allow access from the specified Origin: "

  /** The allowed list: FRONTEND_URL when set and non-empty, otherwise the
      default development origin, then two fixed origins. */
  function AllowedOrigins(frontendUrl: Option<string>): (r: seq<string>)
    ensures |r| == 3 && r[1] == "http://localhost:3000" && r[2] == "http://127.0.0.1:5173"
    ensures r[0] == (if Truthy(frontendUrl) then frontendUrl.value else DefaultFrontend)
  {
    [OrElse(frontendUrl, DefaultFrontend), "http://localhost:3000", "http://127.0.0.1:5173"]
  }

  datatype Decision = Allow | Deny(message: string)

  /** The callback's verdict for a request carrying `origin`. */
  function CheckOrigin(frontendUrl: Option<string>, origin: Option<string>): (r: Decision)
    ensures r == Allow <==> !Truthy(origin) || origin.value in AllowedOrigins(frontendUrl)
    ensures r.Deny? ==> r.message == DenyPrefix + origin.value
  {
    if !Truthy(origin) then Allow
    else if origin.value !in AllowedOrigins(frontendUrl) then Deny(DenyPrefix + origin.value)
    else Allow
  }

  /** The refusal names the origin: it is the message's suffix, and the
      origin can be read back from it. */
  lemma DenyNamesOrigin(frontendUrl: Option<string>, origin: Option<string>)
    requires CheckOrigin(frontendUrl, origin).Deny?
    ensures var m := CheckOrigin(frontendUrl, origin).message;
            |m| > |DenyPrefix| && m[|DenyPrefix|..] == origin.value && m[..|DenyPrefix|] == DenyPrefix
  {
  }

  /** Requests without an origin, and the two fixed origins, always pass. */
  lemma FixedOriginsAllowed(frontendUrl: Option<string>)
    ensures CheckOrigin(frontendUrl, None) == Allow
    ensures CheckOrigin(frontendUrl, Some("")) == Allow
    ensures CheckOrigin(frontendUrl, Some("http://localhost:3000")) == Allow
    ensures CheckOrigin(frontendUrl, Some("http://127.0.0.1:5173")) == Allow
  {
    assert AllowedOrigins(frontendUrl)[1] == "http://localhost:3000";
    assert AllowedOrigins(frontendUrl)[2] == "http://127.0.0.1:5173";
  }

  /** Once FRONTEND_URL is set, the default development origin is refused,
      and the comparison is exact: a trailing slash is another origin. */
  lemma ExactComparison()
    ensures CheckOrigin(Some("https://app.example"), Some(DefaultFrontend)).Deny?
    ensures CheckOrigin(None, Some(DefaultFrontend)) == Allow
    ensures CheckOrigin(None, Some("http://localhost:5173/")).Deny?
  {
    var a := AllowedOrigins(Some("https://app.example"));
    assert a[0] != DefaultFrontend by { assert a[0][0] != DefaultFrontend[0] || a[0][4] != DefaultFrontend[4]; }
    assert a[1] != DefaultFrontend by { assert a[1][17] != DefaultFrontend[17]; }
    assert a[2] != DefaultFrontend by { assert a[2][7] != DefaultFrontend[7]; }
    var b := AllowedOrigins(None);
    var o := "http://localhost:5173/";
    assert b[0] != o && b[1] != o && b[2] != o by {
      assert |b[0]| != |o| && |b[1]| != |o| && |b[2]| != |o|;
    }
  }
}
