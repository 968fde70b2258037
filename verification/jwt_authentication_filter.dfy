/**
 * The per-request bearer-token filter: public paths pass untouched; on other paths an
 * `Authorization: Bearer <token>` header (RFC 6750 section 2.1) is validated and turned into
 * the request's identity, and every failure becomes a fixed 401 JSON body or a 500 error.
 */
module JwtAuthenticationFilter {
  import opened Wrappers
  import opened Failures
  import opened JavaStrings
  import opened Security
  import opened Servlet
  import JwtTokenProvider

  // ---------------------------------------------------------------------------
  // Public paths

  /** isPublicEndpoint */
  predicate IsPublicEndpoint(requestUri: string) {
    StartsWith(requestUri, "/api/auth/") || StartsWith(requestUri, "/oauth2/")
    || StartsWith(requestUri, "/login/oauth2/code/") || requestUri == "/error"
  }

  /** The prefixes are matched with their trailing slash and `/error` exactly: the bare
      `/api/auth`, `/error/` pages and paths that merely contain a public prefix are protected. */
  lemma PublicEndpointBoundaries()
    ensures !IsPublicEndpoint("/api/auth") && IsPublicEndpoint("/api/auth/login")
    ensures !IsPublicEndpoint("/error/x") && IsPublicEndpoint("/error")
    ensures !IsPublicEndpoint("/api/posts/oauth2/") && IsPublicEndpoint("/login/oauth2/code/google")
  {
    assert "/api/auth/login"[..|"/api/auth/"|] == "/api/auth/";
    assert "/login/oauth2/code/google"[..|"/login/oauth2/code/"|] == "/login/oauth2/code/";
    assert "/api/posts/oauth2/"[..|"/api/auth/"|][5] != "/api/auth/"[5];
    assert "/api/posts/oauth2/"[..|"/oauth2/"|][1] != "/oauth2/"[1];
    assert "/error/x"[..|"/oauth2/"|][1] != "/oauth2/"[1];
  }

  // ---------------------------------------------------------------------------
  // Bearer credential

  const BearerPrefix := "Bearer "

  /** getJwtFromRequest: the Authorization header minus its first seven characters when it
      has text and starts with the case-sensitive "Bearer "; otherwise null. */
  function GetJwtFromRequest(authorization: Option<string>): (r: Option<string>)
    ensures r.Some? <==> authorization.Some? && HasText(authorization.value)
                         && StartsWith(authorization.value, BearerPrefix)
    ensures r.Some? ==> authorization.value == BearerPrefix + r.value
  {
    if authorization.Some? && HasText(authorization.value) && StartsWith(authorization.value, BearerPrefix)
    then
      assert authorization.value == authorization.value[..7] + authorization.value[7..];
      Some(authorization.value[7..])
    else None
  }

  /** Round trip: any credential sent as "Bearer <t>" is extracted as exactly `t`. */
  lemma BearerRoundTrip(t: string)
    ensures GetJwtFromRequest(Some(BearerPrefix + t)) == Some(t)
  {
    StartsWithConcat(BearerPrefix, t);
    assert !IsWhitespace((BearerPrefix + t)[0]);
  }

  /** Another scheme, or the prefix in another case, yields no credential. */
  lemma OtherSchemesIgnored(t: string)
    ensures GetJwtFromRequest(Some("bearer " + t)) == None
    ensures GetJwtFromRequest(Some("Basic " + t)) == None
    ensures GetJwtFromRequest(None) == None
  {
    assert ("bearer " + t)[0] == 'b';
    assert ("Basic " + t)[1] == 'a';
  }

  // ---------------------------------------------------------------------------
  // The decision

  /** The two token-provider calls the filter makes; a `None` authentication is a null. */
  datatype TokenPort = TokenPort(
    validate: string -> Result<bool, Exception>,
    authenticate: string -> Result<Option<Authentication>, Exception>)

  /** What the filter does with a request: continue the chain (installing an identity or
      not), answer 401 with a message, or send a 500 error. */
  datatype Outcome =
    | Continue(installed: Option<Authentication>)
    | Unauthorized(message: string)
    | ServerError(message: string)

  /** The catch clauses, in order: expired, bad signature, any other JWT exception, anything. */
  function ExceptionOutcome(e: Exception): (o: Outcome)
    ensures !o.Continue?
    ensures o.Unauthorized? <==> IsJwtException(e.kind)
    ensures o.ServerError? ==> o.message == "Unexpected authentication error: " + e.message
  {
    if e.kind == ExpiredJwt then Unauthorized("Token expired")
    else if e.kind == SignatureJwt then Unauthorized("Invalid token signature")
    else if IsJwtException(e.kind) then Unauthorized("Invalid token")
    else ServerError("Unexpected authentication error: " + e.message)
  }

  /** The status each outcome answers with; continuing leaves it to the rest of the chain. */
  function Status(o: Outcome): Option<int> {
    match o
    case Continue(_) => None
    case Unauthorized(_) => Some(401)
    case ServerError(_) => Some(500)
  }

  /** Every exception the filter catches is answered with 401 or 500, never passed on. */
  lemma ExceptionsAreAnswered(e: Exception)
    ensures Status(ExceptionOutcome(e)) == (if IsJwtException(e.kind) then Some(401) else Some(500))
    ensures e.kind == ExpiredJwt ==> ExceptionOutcome(e) == Unauthorized("Token expired")
    ensures e.kind == SignatureJwt ==> ExceptionOutcome(e) == Unauthorized("Invalid token signature")
    ensures IsJwtException(e.kind) && e.kind != ExpiredJwt && e.kind != SignatureJwt ==>
              ExceptionOutcome(e) == Unauthorized("Invalid token")
  {
  }

  /** doFilterInternal, as a decision on the request path and Authorization header. */
  function Decide(requestUri: string, authorization: Option<string>, port: TokenPort): Outcome {
    var jwt := GetJwtFromRequest(authorization);
    if IsPublicEndpoint(requestUri) then Continue(None)
    else if jwt.None? || !HasText(jwt.value) then Continue(None)
    else
      match port.validate(jwt.value)
      case Failure(e) => ExceptionOutcome(e)
      case Success(false) => Unauthorized("Invalid token")
      case Success(true) =>
        match port.authenticate(jwt.value)
        case Failure(e) => ExceptionOutcome(e)
        case Success(a) =>
          if a.Some? && a.value.principal.Some? then Continue(a) else Unauthorized("Invalid authentication data")
  }

  /** On a public path the chain continues, nothing is installed, and neither provider call
      matters: the outcome is the same for every token port. */
  lemma PublicPathSkipsToken(requestUri: string, authorization: Option<string>, port: TokenPort, other: TokenPort)
    requires IsPublicEndpoint(requestUri)
    ensures Decide(requestUri, authorization, port) == Continue(None)
    ensures Decide(requestUri, authorization, port) == Decide(requestUri, authorization, other)
  {
  }

  /** Without a bearer token, or with an empty one, a protected request continues
      anonymously. */
  lemma MissingTokenContinuesAnonymously(requestUri: string, authorization: Option<string>, port: TokenPort)
    requires GetJwtFromRequest(authorization).None? || !HasText(GetJwtFromRequest(authorization).value)
    ensures Decide(requestUri, authorization, port) == Continue(None)
  {
  }

  /** An identity is installed only for a protected path whose token validated and whose
      authentication and principal are non-null, and it is the one the provider built. */
  lemma InstalledOnlyAfterValidation(requestUri: string, authorization: Option<string>, port: TokenPort)
    requires Decide(requestUri, authorization, port).Continue?
    requires Decide(requestUri, authorization, port).installed.Some?
    ensures !IsPublicEndpoint(requestUri)
    ensures var jwt := GetJwtFromRequest(authorization);
            jwt.Some? && HasText(jwt.value)
            && port.validate(jwt.value) == Success(true)
            && port.authenticate(jwt.value) == Success(Decide(requestUri, authorization, port).installed)
            && Decide(requestUri, authorization, port).installed.value.principal.Some?
  {
  }

  /** A token that fails validation is answered 401 "Invalid token" and the chain stops. */
  lemma RejectedTokenIsUnauthorized(requestUri: string, t: string, port: TokenPort)
    requires !IsPublicEndpoint(requestUri) && HasText(t)
    requires port.validate(t) == Success(false)
    ensures Decide(requestUri, Some(BearerPrefix + t), port) == Unauthorized("Invalid token")
  {
    BearerRoundTrip(t);
  }

  // ---------------------------------------------------------------------------
  // The response body

  /** The JSON written for a 401: status, error and message, the message inserted as is. */
  function UnauthorizedBody(message: string): (body: string)
    ensures StartsWith(body, "{\"status\": 401, \"error\": \"Unauthorized\", \"message\": \"")
    ensures body[|body| - 2..] == "\"}"
  {
    var prefix := "{\"status\": 401, \"error\": \"Unauthorized\", \"message\": \"";
    StartsWithConcat(prefix, message + "\"}");
    prefix + message + "\"}"
  }

  /** The message can be read back from the body: it sits between the fixed prefix and the
      closing quote and brace. */
  lemma UnauthorizedBodyMessage(message: string)
    ensures var body := UnauthorizedBody(message);
            var n := |"{\"status\": 401, \"error\": \"Unauthorized\", \"message\": \""|;
            |body| == n + |message| + 2 && body[n..|body| - 2] == message
  {
  }

  /** setUnauthorizedResponse: status 401, JSON content type, UTF-8, and the body written. */
  method SetUnauthorizedResponse(response: HttpResponse, message: string)
    modifies response
    ensures response.status == 401
    ensures response.contentType == Some("application/json")
    ensures response.characterEncoding == Some("UTF-8")
    ensures response.body == old(response.body) + UnauthorizedBody(message)
    ensures response.committed == old(response.committed)
    ensures response.errorMessage == old(response.errorMessage)
    ensures response.redirectLocation == old(response.redirectLocation)
  {
    response.SetStatus(401);
    response.SetContentType("application/json");
    response.SetCharacterEncoding("UTF-8");
    var json := UnauthorizedBody(message);
    response.Write(json);
  }

  /** Writes the response for an exception caught by the filter. */
  method HandleException(e: Exception, response: HttpResponse)
    requires !response.committed
    modifies response
    ensures response.redirectLocation == old(response.redirectLocation)
    ensures ExceptionOutcome(e).Unauthorized? ==>
              response.status == 401 && response.body == old(response.body) + UnauthorizedBody(ExceptionOutcome(e).message)
              && response.contentType == Some("application/json") && response.characterEncoding == Some("UTF-8")
              && !response.committed && response.errorMessage == old(response.errorMessage)
    ensures ExceptionOutcome(e).ServerError? ==>
              response.status == 500 && response.errorMessage == Some(ExceptionOutcome(e).message)
              && response.committed && response.body == old(response.body)
              && response.contentType == old(response.contentType)
              && response.characterEncoding == old(response.characterEncoding)
  {
    if e.kind == ExpiredJwt {
      SetUnauthorizedResponse(response, "Token expired");
    } else if e.kind == SignatureJwt {
      SetUnauthorizedResponse(response, "Invalid token signature");
    } else if IsJwtException(e.kind) {
      SetUnauthorizedResponse(response, "Invalid token");
    } else {
      response.SendError(500, "Unexpected authentication error: " + e.message);
    }
  }

  /** The answer the whole filter gives: the rest of the chain runs inside the filter's
      try block, so an exception it throws after the filter continued is caught and answered
      like one from the token provider. */
  function Answer(o: Outcome, chainFailure: Option<Exception>): (r: Outcome)
    ensures !o.Continue? ==> r == o
    ensures o.Continue? ==> (r.Continue? <==> chainFailure.None?)
    ensures o.Continue? && chainFailure.Some? ==> r == ExceptionOutcome(chainFailure.value)
  {
    if o.Continue? && chainFailure.Some? then ExceptionOutcome(chainFailure.value) else o
  }

  /** doFilterInternal: continues the chain and installs the identity as Decide says, and
      writes the response Answer gives; nothing else is touched. An identity installed before
      the chain throws stays installed. */
  method DoFilterInternal(requestUri: string, authorization: Option<string>, port: TokenPort,
                          response: HttpResponse, context: SecurityContext, chain: FilterChain)
    requires !response.committed
    modifies response, context, chain
    ensures var o := Decide(requestUri, authorization, port);
            chain.invocations == old(chain.invocations) + (if o.Continue? then 1 else 0)
            && context.authentication == (if o.Continue? && o.installed.Some? then o.installed
                                          else old(context.authentication))
    ensures response.redirectLocation == old(response.redirectLocation)
    ensures match Answer(Decide(requestUri, authorization, port), chain.failure)
            case Continue(_) =>
              response.status == old(response.status) && response.body == old(response.body)
              && response.contentType == old(response.contentType)
              && response.characterEncoding == old(response.characterEncoding)
              && response.errorMessage == old(response.errorMessage)
              && response.committed == old(response.committed)
            case Unauthorized(message) =>
              response.status == 401 && response.body == old(response.body) + UnauthorizedBody(message)
              && response.contentType == Some("application/json") && response.characterEncoding == Some("UTF-8")
              && response.errorMessage == old(response.errorMessage)
              && response.committed == old(response.committed)
            case ServerError(message) =>
              response.status == 500 && response.errorMessage == Some(message) && response.committed
              && response.body == old(response.body)
              && response.contentType == old(response.contentType)
              && response.characterEncoding == old(response.characterEncoding)
  {
    ghost var o := Decide(requestUri, authorization, port);
    var jwt := GetJwtFromRequest(authorization);
    if IsPublicEndpoint(requestUri) {
      assert o == Continue(None);
      var thrown := chain.DoFilter();
      if thrown.Some? {
        HandleException(thrown.value, response);
      }
      return;
    }
    if jwt.Some? && HasText(jwt.value) {
      var valid := port.validate(jwt.value);
      if valid.Failure? {
        assert o == ExceptionOutcome(valid.error);
        HandleException(valid.error, response);
        return;
      }
      if valid.value {
        var authentication := port.authenticate(jwt.value);
        if authentication.Failure? {
          assert o == ExceptionOutcome(authentication.error);
          HandleException(authentication.error, response);
          return;
        }
        if authentication.value.Some? && authentication.value.value.principal.Some? {
          assert o == Continue(authentication.value);
          context.SetAuthentication(authentication.value.value);
        } else {
          assert o == Unauthorized("Invalid authentication data");
          SetUnauthorizedResponse(response, "Invalid authentication data");
          return;
        }
      } else {
        assert o == Unauthorized("Invalid token");
        SetUnauthorizedResponse(response, "Invalid token");
        return;
      }
    } else {
      assert o == Continue(None);
    }
    var thrown := chain.DoFilter();
    if thrown.Some? {
      HandleException(thrown.value, response);
    }
  }

  // ---------------------------------------------------------------------------
  // The filter over the real token provider

  /** The provider's calls as the filter makes them: validation at `validatedAt`, then
      getAuthentication at `authenticatedAt` (never null: it returns or throws). */
  function ProviderPort(p: JwtTokenProvider.Provider, validatedAt: int, authenticatedAt: int): TokenPort {
    TokenPort(
      t => JwtTokenProvider.ValidateToken(p, t, validatedAt),
      t => match JwtTokenProvider.GetAuthentication(p, t, authenticatedAt)
           case Success(a) => Success(Some(a))
           case Failure(e) => Failure(e))
  }

  /** With the real provider, "Invalid authentication data" can never be answered. */
  lemma NoInvalidAuthenticationData(requestUri: string, authorization: Option<string>,
                                    p: JwtTokenProvider.Provider, validatedAt: int, authenticatedAt: int)
    ensures Decide(requestUri, authorization, ProviderPort(p, validatedAt, authenticatedAt))
            != Unauthorized("Invalid authentication data")
  {
    var port := ProviderPort(p, validatedAt, authenticatedAt);
    var jwt := GetJwtFromRequest(authorization);
    if !IsPublicEndpoint(requestUri) && jwt.Some? && HasText(jwt.value) {
      var r := JwtTokenProvider.GetAuthentication(p, jwt.value, authenticatedAt);
      if port.validate(jwt.value) == Success(true) && r.Success? {
        assert port.authenticate(jwt.value) == Success(Some(r.value));
      }
    }
  }

  /** End to end: a token issued for an email, sent as a bearer credential to a protected
      path and read back by the library, installs an identity named by that email. */
  lemma IssuedTokenInstallsIdentity(requestUri: string, p: JwtTokenProvider.Provider, email: string,
                                    authorities: seq<string>, issuedAt: int, validatedAt: int, authenticatedAt: int)
    requires !IsPublicEndpoint(requestUri)
    requires JwtTokenProvider.KeyIsStrong(p.jwtSecret)
    requires forall k | 0 <= k < |authorities| :: JwtTokenProvider.WellFormedRole(authorities[k])
    requires JwtTokenProvider.ReadsBack(p, JwtTokenProvider.IssuedClaims(p, Some(email), authorities, issuedAt), validatedAt)
    requires JwtTokenProvider.ReadsBack(p, JwtTokenProvider.IssuedClaims(p, Some(email), authorities, issuedAt), authenticatedAt)
    ensures var token := JwtTokenProvider.GenerateTokenFromEmail(p, email, authorities, issuedAt).value;
            var o := Decide(requestUri, Some(BearerPrefix + token), ProviderPort(p, validatedAt, authenticatedAt));
            o.Continue? && o.installed.Some? && Name(o.installed.value) == Success(email)
  {
    var token := JwtTokenProvider.GenerateTokenFromEmail(p, email, authorities, issuedAt).value;
    BearerRoundTrip(token);
    ProviderPortAcceptsIssued(p, email, authorities, issuedAt, validatedAt, authenticatedAt);
  }

  /** The provider's port validates an issued token and authenticates it as a principal
      named by the email. */
  lemma ProviderPortAcceptsIssued(p: JwtTokenProvider.Provider, email: string, authorities: seq<string>,
                                  issuedAt: int, validatedAt: int, authenticatedAt: int)
    requires JwtTokenProvider.KeyIsStrong(p.jwtSecret)
    requires forall k | 0 <= k < |authorities| :: JwtTokenProvider.WellFormedRole(authorities[k])
    requires JwtTokenProvider.ReadsBack(p, JwtTokenProvider.IssuedClaims(p, Some(email), authorities, issuedAt), validatedAt)
    requires JwtTokenProvider.ReadsBack(p, JwtTokenProvider.IssuedClaims(p, Some(email), authorities, issuedAt), authenticatedAt)
    ensures var token := JwtTokenProvider.GenerateTokenFromEmail(p, email, authorities, issuedAt).value;
            var port := ProviderPort(p, validatedAt, authenticatedAt);
            HasText(token) && port.validate(token) == Success(true)
            && port.authenticate(token).Success? && port.authenticate(token).value.Some?
            && port.authenticate(token).value.value.principal.Some?
            && Name(port.authenticate(token).value.value) == Success(email)
  {
    JwtTokenProvider.IssuedTokenAuthenticates(p, email, authorities, issuedAt, validatedAt);
    JwtTokenProvider.IssuedTokenAuthenticates(p, email, authorities, issuedAt, authenticatedAt);
  }
}
