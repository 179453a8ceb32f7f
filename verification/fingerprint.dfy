/** The device fingerprint of backend/utils/deviceFInger.js: a SHA-256 digest
    of the client address, the user agent and a seed. The digest function is
    a parameter. */
module Fingerprint {
  import opened Common

  /** The request headers and socket address the fingerprint reads. */
  datatype Request = Request(
    forwardedFor: Option<string>,   // x-forwarded-for
    remoteAddress: Option<string>,  // req.socket.remoteAddress
    userAgent: Option<string>)      // user-agent

  /** The first truthy of x-forwarded-for and the socket address, else a
      placeholder. */
  function ClientIp(req: Request): (r: string)
    ensures Truthy(req.forwardedFor) ==> r == req.forwardedFor.value
    ensures !Truthy(req.forwardedFor) && Truthy(req.remoteAddress) ==> r == req.remoteAddress.value
    ensures !Truthy(req.forwardedFor) && !Truthy(req.remoteAddress) ==> r == "unknown-ip"
    ensures r != ""
  {
    OrElse(req.forwardedFor, OrElse(req.remoteAddress, "unknown-ip"))
  }

  function Agent(req: Request): (r: string)
    ensures Truthy(req.userAgent) ==> r == req.userAgent.value
    ensures !Truthy(req.userAgent) ==> r == "unknown-agent"
    ensures r != ""
  {
    OrElse(req.userAgent, "unknown-agent")
  }

  /** The text that is hashed; a seed left out is the empty string. */
  function Preimage(ip: string, agent: string, seed: string): string {
    ip + "-" + agent + "-" + seed
  }

  /** generateDeviceFingerprint: the digest of the address, the agent and the
      seed joined by dashes; a dash-free address can be read back from the
      text that is hashed. */
  function GenerateDeviceFingerprint(req: Request, seed: Option<string>, sha256: string -> string)
    : (r: string)
    ensures exists t :: r == sha256(t) && t == ClientIp(req) + "-" + Agent(req) + "-" + seed.GetOr("")
    ensures '-' !in ClientIp(req) ==>
              exists t :: r == sha256(t) && BeforeDash(t) == ClientIp(req)
  {
    var t := Preimage(ClientIp(req), Agent(req), seed.GetOr(""));
    if '-' in ClientIp(req) then sha256(t)
    else
      PreimageRecoversIp(ClientIp(req), Agent(req), seed.GetOr(""));
      sha256(t)
  }

  /** The text before the first '-'. */
  function BeforeDash(s: string): (r: string)
    ensures |r| <= |s| && r == s[..|r|]
    ensures '-' !in r
  {
    if s == [] || s[0] == '-' then [] else [s[0]] + BeforeDash(s[1..])
  }

  /** A dash-free address is recovered from the pre-image, which begins with
      the address and a dash. */
  lemma {:induction false} PreimageRecoversIp(ip: string, agent: string, seed: string)
    requires '-' !in ip
    ensures BeforeDash(Preimage(ip, agent, seed)) == ip
  {
    if ip != [] {
      assert Preimage(ip, agent, seed)[1..] == Preimage(ip[1..], agent, seed);
      PreimageRecoversIp(ip[1..], agent, seed);
    } else {
      assert Preimage(ip, agent, seed)[0] == '-';
    }
  }

  /** The fingerprint depends on the request only through the address, the
      agent and the seed: whichever header supplied the address. */
  lemma FingerprintDeterministic(r1: Request, r2: Request, seed: Option<string>, sha256: string -> string)
    requires ClientIp(r1) == ClientIp(r2) && Agent(r1) == Agent(r2)
    ensures GenerateDeviceFingerprint(r1, seed, sha256) == GenerateDeviceFingerprint(r2, seed, sha256)
  {
  }

  /** The separator is not escaped, so different address/agent pairs can
      share a pre-image and thus a fingerprint. */
  lemma SeparatorAmbiguity(sha256: string -> string)
    ensures var a := Request(Some("1.2.3.4-x"), None, Some("y"));
            var b := Request(Some("1.2.3.4"), None, Some("x-y"));
            ClientIp(a) != ClientIp(b)
            && GenerateDeviceFingerprint(a, None, sha256) == GenerateDeviceFingerprint(b, None, sha256)
  {
    assert Preimage("1.2.3.4-x", "y", "") == Preimage("1.2.3.4", "x-y", "");
  }

  function CompareFingerprints(fp1: string, fp2: string): (r: bool) {
    fp1 == fp2
  }

  /** Comparison is an equivalence: reflexive, symmetric and transitive. */
  lemma CompareIsEquivalence(a: string, b: string, c: string)
    ensures CompareFingerprints(a, a)
    ensures CompareFingerprints(a, b) == CompareFingerprints(b, a)
    ensures CompareFingerprints(a, b) && CompareFingerprints(b, c) ==> CompareFingerprints(a, c)
  {
  }
}
