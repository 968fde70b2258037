/**
 * The OAuth2 login success handler: it picks the redirect target (the `redirect_uri`
 * parameter, or the first configured one), accepts it only if an allow-listed URI has the
 * same host and port (the open-redirect defence of RFC 6749 section 3.1.2), mints a token,
 * appends it as the `token` query parameter and redirects.
 */
module OAuth2SuccessHandler {
  import opened Wrappers
  import opened Failures
  import opened JavaStrings
  import opened Security
  import opened Servlet
  import JwtTokenProvider

  /** The parts of a java.net.URI the allow-list compares: the host (null for URIs without
      an authority) and the port (-1 when none is written). */
  datatype Uri = Uri(host: Option<string>, port: int)

  /** The handler's configuration: the token service, the allow-list in configuration
      order, and URI.create (`None` is the IllegalArgumentException of a malformed URI). */
  datatype Handler = Handler(
    tokenProvider: JwtTokenProvider.Provider,
    authorizedRedirectUris: seq<string>,
    parseUri: string -> Option<Uri>)

  /** One allow-list entry, as the stream sees it: `None` when creating it throws or its
      host is null (the host comparison then throws), else whether host (ignoring case)
      and port both match. */
  function EntryMatches(parseUri: string -> Option<Uri>, entry: string, client: Uri): (r: Option<bool>)
    ensures r == Some(true) <==>
              parseUri(entry).Some? && parseUri(entry).value.host.Some? && client.host.Some?
              && EqualsIgnoreCase(parseUri(entry).value.host.value, client.host.value)
              && parseUri(entry).value.port == client.port
    ensures r.None? <==> parseUri(entry).None? || parseUri(entry).value.host.None?
  {
    match parseUri(entry)
    case None => None
    case Some(a) =>
      if a.host.None? then None
      else Some(client.host.Some? && EqualsIgnoreCase(a.host.value, client.host.value) && a.port == client.port)
  }

  /** The lazy anyMatch over the allow-list: it stops at the first match, and an entry that
      throws before any match ends the search with the exception (`None`). */
  function AnyMatch(parseUri: string -> Option<Uri>, entries: seq<string>, client: Uri): Option<bool> {
    if entries == [] then Some(false)
    else
      match EntryMatches(parseUri, entries[0], client)
      case None => None
      case Some(true) => Some(true)
      case Some(false) => AnyMatch(parseUri, entries[1..], client)
  }

  /** isAuthorizedRedirectUri: a malformed URI, or any exception during the search, counts
      as not authorized. */
  predicate IsAuthorizedRedirectUri(h: Handler, uri: string) {
    match h.parseUri(uri)
    case None => false
    case Some(client) => AnyMatch(h.parseUri, h.authorizedRedirectUris, client) == Some(true)
  }

  /** Entry `k` matches and every entry before it was read without an exception. */
  predicate MatchesAt(parseUri: string -> Option<Uri>, entries: seq<string>, client: Uri, k: int)
    requires 0 <= k < |entries|
  {
    EntryMatches(parseUri, entries[k], client) == Some(true)
    && forall j | 0 <= j < k :: EntryMatches(parseUri, entries[j], client) == Some(false)
  }

  lemma {:induction false} AnyMatchIff(parseUri: string -> Option<Uri>, entries: seq<string>, client: Uri)
    ensures AnyMatch(parseUri, entries, client) == Some(true) <==>
              exists k | 0 <= k < |entries| :: MatchesAt(parseUri, entries, client, k)
  {
    if entries != [] {
      AnyMatchIff(parseUri, entries[1..], client);
      if AnyMatch(parseUri, entries, client) == Some(true) {
        if EntryMatches(parseUri, entries[0], client) != Some(true) {
          var k :| 0 <= k < |entries[1..]| && MatchesAt(parseUri, entries[1..], client, k);
          assert MatchesAt(parseUri, entries, client, k + 1);
        } else {
          assert MatchesAt(parseUri, entries, client, 0);
        }
      } else {
        forall k | 0 <= k < |entries| ensures !MatchesAt(parseUri, entries, client, k) {
          if k > 0 && MatchesAt(parseUri, entries, client, k) {
            assert MatchesAt(parseUri, entries[1..], client, k - 1);
          }
        }
      }
    }
  }

  /** A redirect URI is authorized iff it parses and some allow-list entry has the same
      host ignoring case and the same port, with no entry before it failing to parse or
      lacking a host. Scheme, path and query are not compared. */
  lemma AuthorizedIff(h: Handler, uri: string)
    ensures IsAuthorizedRedirectUri(h, uri) <==>
              h.parseUri(uri).Some?
              && exists k | 0 <= k < |h.authorizedRedirectUris| ::
                   MatchesAt(h.parseUri, h.authorizedRedirectUris, h.parseUri(uri).value, k)
  {
    if h.parseUri(uri).Some? {
      AnyMatchIff(h.parseUri, h.authorizedRedirectUris, h.parseUri(uri).value);
    }
  }

  /** An absent port (-1) never matches an explicit one, whatever the hosts: a redirect URI
      without a port is refused when every allow-list entry that parses names its port. */
  lemma AbsentPortDoesNotMatchExplicit(h: Handler, uri: string)
    requires h.parseUri(uri).Some? && h.parseUri(uri).value.port == -1
    requires forall k | 0 <= k < |h.authorizedRedirectUris| ::
               h.parseUri(h.authorizedRedirectUris[k]).Some? ==> h.parseUri(h.authorizedRedirectUris[k]).value.port != -1
    ensures !IsAuthorizedRedirectUri(h, uri)
  {
    var client := h.parseUri(uri).value;
    AuthorizedIff(h, uri);
    forall k | 0 <= k < |h.authorizedRedirectUris|
      ensures !MatchesAt(h.parseUri, h.authorizedRedirectUris, client, k)
    {
      assert EntryMatches(h.parseUri, h.authorizedRedirectUris[k], client) != Some(true);
    }
  }

  /** A malformed redirect URI is never authorized. */
  lemma MalformedIsUnauthorized(h: Handler, uri: string)
    requires h.parseUri(uri).None?
    ensures !IsAuthorizedRedirectUri(h, uri)
  {
  }

  // ---------------------------------------------------------------------------
  // The target URL

  /** UriComponentsBuilder.fromUriString(uri).queryParam("token", t).build().toUriString(),
      for a URI whose query, if any, is a list of distinct named parameters: the parameter
      joins the query (started with "?" if there is none) before any fragment. */
  function AppendTokenParam(uri: string, token: string): string {
    var hash := IndexOf(uri, '#');
    var base := if hash == -1 then uri else uri[..hash];
    var fragment := if hash == -1 then "" else uri[hash..];
    var separator := if '?' !in base then "?" else if base[|base| - 1] == '?' then "" else "&";
    base + separator + "token=" + token + fragment
  }

  /** For a URI without query or fragment the token is its whole query, and the part before
      the "?" is the URI itself. */
  lemma AppendTokenParamPlain(uri: string, token: string)
    requires '?' !in uri && '#' !in uri
    ensures var url := AppendTokenParam(uri, token);
            url == uri + "?token=" + token
            && IndexOf(url, '?') == |uri| && url[..|uri|] == uri && url[|uri| + 1..] == "token=" + token
  {
    var url := uri + "?token=" + token;
    assert url[|uri|] == '?';
    assert url[..|uri|] == uri;
    assert '?' !in url[..|uri|];
  }

  /** generateAuthToken: the token, or a RuntimeException wrapping the failure. */
  function GenerateAuthToken(h: Handler, a: Authentication, nowMs: int): (r: Result<string, Exception>)
    ensures r.Success? <==> JwtTokenProvider.GenerateToken(h.tokenProvider, a, nowMs).Success?
    ensures r.Failure? ==>
              var e := JwtTokenProvider.GenerateToken(h.tokenProvider, a, nowMs).error;
              r.error == Wrap(Runtime, "Failed to generate authentication token: " + e.message, e)
  {
    match JwtTokenProvider.GenerateToken(h.tokenProvider, a, nowMs)
    case Success(t) => Success(t)
    case Failure(e) => Failure(Wrap(Runtime, "Failed to generate authentication token: " + e.message, e))
  }

  /** determineTargetUrl */
  function DetermineTargetUrl(h: Handler, redirectParam: Option<string>, a: Authentication, nowMs: int)
    : (r: Result<string, Exception>)
    ensures redirectParam.None? && h.authorizedRedirectUris == [] ==>
              r == Failure(Throw(BadRequest, "No authorized redirect URIs configured"))
    ensures r.Success? ==>
              var uri := if redirectParam.Some? then redirectParam.value else h.authorizedRedirectUris[0];
              IsAuthorizedRedirectUri(h, uri)
              && GenerateAuthToken(h, a, nowMs).Success?
              && r.value == AppendTokenParam(uri, GenerateAuthToken(h, a, nowMs).value)
    ensures redirectParam.Some? || h.authorizedRedirectUris != [] ==>
              var uri := if redirectParam.Some? then redirectParam.value else h.authorizedRedirectUris[0];
              if !IsAuthorizedRedirectUri(h, uri) then
                r == Failure(Throw(BadRequest, "Unauthorized Redirect URI: " + uri))
              else
                r == match GenerateAuthToken(h, a, nowMs)
                     case Success(t) => Success(AppendTokenParam(uri, t))
                     case Failure(e) => Failure(e)
  {
    if redirectParam.None? && h.authorizedRedirectUris == [] then
      Failure(Throw(BadRequest, "No authorized redirect URIs configured"))
    else
      var uri := if redirectParam.Some? then redirectParam.value else h.authorizedRedirectUris[0];
      if !IsAuthorizedRedirectUri(h, uri) then Failure(Throw(BadRequest, "Unauthorized Redirect URI: " + uri))
      else
        match GenerateAuthToken(h, a, nowMs)
        case Failure(e) => Failure(e)
        case Success(token) => Success(AppendTokenParam(uri, token))
  }

  /** The default URI is checked exactly like a caller-supplied one. */
  lemma DefaultUriIsChecked(h: Handler, a: Authentication, nowMs: int)
    requires h.authorizedRedirectUris != []
    ensures DetermineTargetUrl(h, None, a, nowMs) == DetermineTargetUrl(h, Some(h.authorizedRedirectUris[0]), a, nowMs)
  {
  }

  /** An unauthorized URI is refused before any token is minted: the answer is the same
      whatever the token service. */
  lemma UnauthorizedRefusedBeforeMinting(h: Handler, uri: string, a: Authentication, nowMs: int,
                                         other: JwtTokenProvider.Provider)
    requires !IsAuthorizedRedirectUri(h, uri)
    ensures DetermineTargetUrl(h, Some(uri), a, nowMs) == Failure(Throw(BadRequest, "Unauthorized Redirect URI: " + uri))
    ensures DetermineTargetUrl(h.(tokenProvider := other), Some(uri), a, nowMs) == DetermineTargetUrl(h, Some(uri), a, nowMs)
  {
  }

  /** The message sent with the 500 error when any step fails. */
  function FailureMessage(e: Exception): string {
    "Authentication failed: " + e.message + "\nPlease check server logs for more details."
  }

  /** onAuthenticationSuccess: redirects to the target URL unless the response is already
      committed; a failure is answered with a 500 error, and sending that error on a
      committed response throws IllegalStateException out of the handler. */
  method OnAuthenticationSuccess(h: Handler, redirectParam: Option<string>, a: Authentication, nowMs: int,
                                 response: HttpResponse)
    returns (thrown: Option<Exception>)
    modifies response
    ensures response.body == old(response.body) && response.contentType == old(response.contentType)
            && response.characterEncoding == old(response.characterEncoding)
    ensures var target := DetermineTargetUrl(h, redirectParam, a, nowMs);
            if target.Success? then
              thrown.None? && response.errorMessage == old(response.errorMessage)
              && (if old(response.committed) then response.status == old(response.status)
                                                  && response.redirectLocation == old(response.redirectLocation)
                                                  && response.committed
                  else response.status == 302 && response.redirectLocation == Some(target.value) && response.committed)
            else if old(response.committed) then
              thrown.Some? && thrown.value.kind == IllegalState && response.status == old(response.status)
              && response.errorMessage == old(response.errorMessage)
              && response.redirectLocation == old(response.redirectLocation) && response.committed
            else
              thrown.None? && response.status == 500
              && response.errorMessage == Some(FailureMessage(target.error)) && response.committed
              && response.redirectLocation == old(response.redirectLocation)
  {
    var target := DetermineTargetUrl(h, redirectParam, a, nowMs);
    if target.Success? {
      if response.committed {
        return None;
      }
      response.SendRedirect(target.value);
      return None;
    }
    if response.committed {
      return Some(Throw(IllegalState, "Cannot call sendError() after the response has been committed"));
    }
    response.SendError(500, FailureMessage(target.error));
    return None;
  }
}
