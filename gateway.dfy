/**
 * The gateway's authentication filter.  Whitelisted paths pass untouched;
 * every other request needs an `Authorization: Bearer <token>` header
 * (section 2.1 of RFC 6750); the token must verify, and must not have
 * been issued before the moment its user was marked compromised; an
 * accepted `/token/verify` request is answered 200 directly, any other is
 * forwarded with the caller's id and role as headers.  Verifying the JWT
 * is an input of the model, and so is the blacklist's content.
 */
module Gateway {
  import opened Common

  const WHITELIST: seq<string> := ["/auth/", "/invoke", "/actuator/health"]
  const BLACKLIST_KEY_PREFIX: string := "blacklist:user:"
  const BEARER: string := "Bearer "
  const VERIFY_PATH: string := "/token/verify"

  /** Request headers by name, each with its values in order (header names as the client wrote them). */
  type Headers = map<string, seq<string>>

  datatype Request = Request(path: string, headers: Headers, remoteAddress: Option<string>)

  /** What a verified token says: its subject, its "role" claim and its issue time in milliseconds. */
  datatype Claims = Claims(subject: string, role: Option<string>, issuedAtMillis: Option<int>)

  /** Verifying a token: its claims, or None when it does not verify. */
  type TokenParser = string -> Option<Claims>

  /** What the filter does with a request. */
  datatype Decision =
    | PassThrough                                  // chain.filter with the request as it came
    | Unauthorized                                 // 401, not forwarded
    | VerifiedOk                                   // 200, not forwarded
    | ForwardAs(userId: string, role: Option<string>)  // forwarded with X-User-Id and X-User-Role
    | ClientIpFailure                              // getClientIp dereferenced a missing address

  // ---------------------------------------------------------------------
  // Headers
  // ---------------------------------------------------------------------

  /** getFirst: the first value of a header, None when absent. */
  function FirstHeader(headers: Headers, name: string): (r: Option<string>)
    ensures r.Some? <==> name in headers && |headers[name]| > 0
    ensures r.Some? ==> r.value == headers[name][0]
  {
    if name in headers && |headers[name]| > 0 then Some(headers[name][0]) else None
  }

  predicate Present(ip: Option<string>) {
    ip.Some? && ip.value != ""
  }

  /**
   * getClientIp: the first non-empty of three proxy headers; otherwise the
   * remote address.  The last test reads `ip == null || (ip.isEmpty() &&
   * remote != null)`, so a missing header with no remote address
   * dereferences null (None here), and an empty one with no remote
   * address is returned as it is.
   */
  function ClientIp(request: Request): Option<string> {
    var h := request.headers;
    var ip := FirstHeader(h, "X-Forwarded-For");
    var ip := if !Present(ip) then FirstHeader(h, "Proxy-Client-IP") else ip;
    var ip := if !Present(ip) then FirstHeader(h, "WL-Proxy-Client-IP") else ip;
    if ip.None? || (ip.value == "" && request.remoteAddress.Some?) then request.remoteAddress
    else ip
  }

  /** The client address is the first present proxy header, else the remote address, with the null quirk. */
  lemma ClientIpFallback(request: Request)
    ensures var h := request.headers;
            var xff, pci, wl := FirstHeader(h, "X-Forwarded-For"), FirstHeader(h, "Proxy-Client-IP"), FirstHeader(h, "WL-Proxy-Client-IP");
            && (Present(xff) ==> ClientIp(request) == xff)
            && (!Present(xff) && Present(pci) ==> ClientIp(request) == pci)
            && (!Present(xff) && !Present(pci) && Present(wl) ==> ClientIp(request) == wl)
            && (!Present(xff) && !Present(pci) && !Present(wl) ==>
                  (request.remoteAddress.Some? ==> ClientIp(request) == request.remoteAddress)
                  && (request.remoteAddress.None? && wl.None? ==> ClientIp(request).None?)
                  && (request.remoteAddress.None? && wl.Some? ==> ClientIp(request) == Some("")))
  {
  }

  /** The token of a bearer header: what follows "Bearer ", which must begin the header. */
  function BearerToken(header: Option<string>): (token: Option<string>)
    ensures token.Some? <==> header.Some? && StartsWith(header.value, BEARER)
    ensures token.Some? ==> header.value == BEARER + token.value
  {
    if header.Some? && StartsWith(header.value, BEARER) then Some(header.value[7..]) else None
  }

  // ---------------------------------------------------------------------
  // filter
  // ---------------------------------------------------------------------

  predicate Whitelisted(path: string) {
    exists i :: 0 <= i < |WHITELIST| && StartsWith(path, WHITELIST[i])
  }

  /** Date.getTime() / 1000L: seconds, truncated toward zero. */
  function IssuedAtSeconds(millis: int): int {
    JavaDiv(millis, 1000)
  }

  /** The answer to an accepted token. */
  function Accept(path: string, claims: Claims): Decision {
    if StartsWith(path, VERIFY_PATH) then VerifiedOk else ForwardAs(claims.subject, claims.role)
  }

  /**
   * The blacklist step: no entry accepts; an entry must parse as a long and
   * the token must carry an issue time (otherwise the error handler answers
   * 401); a token issued strictly before the entry is refused.
   */
  function CheckBlacklist(path: string, claims: Claims, entry: Option<string>): Decision {
    if entry.None? then Accept(path, claims)
    else
      match ParseLong(entry.value)
      case None => Unauthorized
      case Some(compromisedAt) =>
        if claims.issuedAtMillis.None? then Unauthorized
        else if IssuedAtSeconds(claims.issuedAtMillis.value) < compromisedAt then Unauthorized
        else Accept(path, claims)
  }

  /** filter. */
  function Filter(request: Request, parse: TokenParser, blacklist: map<string, string>): Decision {
    if ClientIp(request).None? then ClientIpFailure
    else if Whitelisted(request.path) then PassThrough
    else if "Authorization" !in request.headers then Unauthorized
    else
      match BearerToken(FirstHeader(request.headers, "Authorization"))
      case None => Unauthorized
      case Some(token) =>
        match parse(token)
        case None => Unauthorized
        case Some(claims) =>
          var key := BLACKLIST_KEY_PREFIX + claims.subject;
          CheckBlacklist(request.path, claims, if key in blacklist then Some(blacklist[key]) else None)
  }

  /** Whitelisted paths pass without any token check (once the client address is known). */
  lemma WhitelistBypass(request: Request, parse: TokenParser, blacklist: map<string, string>)
    requires ClientIp(request).Some?
    ensures Filter(request, parse, blacklist) == PassThrough <==> Whitelisted(request.path)
    ensures (StartsWith(request.path, "/auth/") || StartsWith(request.path, "/invoke")
             || StartsWith(request.path, "/actuator/health")) ==> Filter(request, parse, blacklist) == PassThrough
  {
    if StartsWith(request.path, "/auth/") {
      assert StartsWith(request.path, WHITELIST[0]);
    } else if StartsWith(request.path, "/invoke") {
      assert StartsWith(request.path, WHITELIST[1]);
    } else if StartsWith(request.path, "/actuator/health") {
      assert StartsWith(request.path, WHITELIST[2]);
    }
  }

  /**
   * Outside the whitelist a request is refused without a bearer header or
   * when its token does not verify; the verifier sees exactly what follows
   * "Bearer ".
   */
  lemma HeaderRequired(request: Request, parse: TokenParser, blacklist: map<string, string>)
    requires ClientIp(request).Some? && !Whitelisted(request.path)
    ensures BearerToken(FirstHeader(request.headers, "Authorization")).None? ==> Filter(request, parse, blacklist) == Unauthorized
    ensures "Authorization" !in request.headers ==> Filter(request, parse, blacklist) == Unauthorized
    ensures var token := BearerToken(FirstHeader(request.headers, "Authorization"));
            token.Some? && parse(token.value).None? ==> Filter(request, parse, blacklist) == Unauthorized
  {
  }

  /**
   * The blacklist comparison in seconds: a token issued strictly before
   * the compromise is refused, one issued at that second or later is
   * accepted like a user with no entry.
   */
  lemma BlacklistCutoff(path: string, claims: Claims, compromisedAt: int, millis: int)
    requires -0x8000_0000_0000_0000 <= compromisedAt <= 0x7fff_ffff_ffff_ffff
    requires claims.issuedAtMillis == Some(millis)
    ensures IssuedAtSeconds(millis) < compromisedAt ==>
              CheckBlacklist(path, claims, Some(IntToString(compromisedAt))) == Unauthorized
    ensures IssuedAtSeconds(millis) >= compromisedAt ==>
              CheckBlacklist(path, claims, Some(IntToString(compromisedAt))) == CheckBlacklist(path, claims, None)
  {
    ParseLongOfIntToString(compromisedAt);
  }

  /**
   * Only a verified, non-revoked token is forwarded, and then as its own
   * subject and role; /token/verify is answered, never forwarded.
   */
  lemma ForwardedOnlyAsTokenSubject(request: Request, parse: TokenParser, blacklist: map<string, string>)
    ensures var d := Filter(request, parse, blacklist);
            d.ForwardAs? || d.VerifiedOk? ==>
              && !Whitelisted(request.path)
              && BearerToken(FirstHeader(request.headers, "Authorization")).Some?
              && var claims := parse(BearerToken(FirstHeader(request.headers, "Authorization")).value);
              && claims.Some?
              && (d.ForwardAs? ==> d.userId == claims.value.subject && d.role == claims.value.role
                                   && !StartsWith(request.path, VERIFY_PATH))
              && (d.VerifiedOk? ==> StartsWith(request.path, VERIFY_PATH))
  {
  }
}
