/**
 * The JSON Web Token service: issuing a signed token (RFC 7519) for an authenticated
 * principal or an email address, validating a token, and turning a token back into an
 * Authentication whose authorities are decoded from the comma-joined `roles` claim.
 *
 * HMAC-SHA256 signing and compact-serialization parsing are library calls; the provider
 * carries them as the uninterpreted functions `sign` and `parse`.
 */
module JwtTokenProvider {
  import opened Wrappers
  import opened Failures
  import opened JavaStrings
  import opened JavaLists
  import opened Security

  /** The claims of a token. `None` is a claim that is absent (a null value is never
      written). `issuedAt` and `expiration` are NumericDates: whole seconds since the epoch. */
  datatype Claims = Claims(
    subject: Option<string>,
    username: Option<string>,
    email: Option<string>,
    roles: Option<string>,
    issuedAt: int,
    expiration: int)

  /** The configured secret and lifetime, and the signing library: `sign(secret, claims)`
      is the compact serialization of a token; `parse(secret, token, nowMs)` checks its
      signature and expiry at `nowMs` and yields its claims or the exception thrown. */
  datatype Provider = Provider(
    jwtSecret: string,
    jwtExpirationInMs: int,
    sign: (string, Claims) -> string,
    parse: (string, string, int) -> Result<Claims, Exception>)

  const DefaultRole := "ROLE_USER"

  /** An HS256 key must hold at least 256 bits (RFC 7518 section 3.2); the key bytes are the
      secret's UTF-8 encoding. A shorter key makes key construction throw WeakKeyException. */
  predicate KeyIsStrong(secret: string) {
    Utf8Length(secret) * 8 >= 256
  }

  const WeakKeyMessage := "The specified key byte array is not secure enough for any JWT HMAC-SHA algorithm"

  /** Java's long division, which truncates towards zero. */
  function JavaDiv(a: int, b: int): (q: int)
    requires b > 0
    ensures a >= 0 ==> q * b <= a < q * b + b
    ensures a < 0 ==> q * b - b < a <= q * b
  {
    if a >= 0 then a / b else -((-a) / b)
  }

  /** A java.util.Date (milliseconds) stored as a NumericDate claim. */
  function NumericDate(ms: int): int {
    JavaDiv(ms, 1000)
  }

  /** The roles claim: authority strings joined with ",", in iteration order. */
  function RolesClaim(authorities: seq<string>): string {
    Join(authorities, ",")
  }

  /** The claims written at `nowMs` for an identifier: subject, username and email are
      the same value, and the expiry is `jwtExpirationInMs` later. */
  function IssuedClaims(p: Provider, id: Option<string>, authorities: seq<string>, nowMs: int): (c: Claims)
    ensures c.subject == id && c.username == id && c.email == id
    ensures c.roles == Some(RolesClaim(authorities))
    ensures c.issuedAt == NumericDate(nowMs) && c.expiration == NumericDate(nowMs + p.jwtExpirationInMs)
  {
    Claims(id, id, id, Some(RolesClaim(authorities)), NumericDate(nowMs), NumericDate(nowMs + p.jwtExpirationInMs))
  }

  /** The identifier and authorities generateToken takes from an Authentication: the
      `email` attribute and the token's authorities for an OAuth2 user; the username and
      its own authorities for a UserDetails; the authentication's name otherwise. */
  function TokenIdentity(a: Authentication): (r: (Option<string>, seq<string>))
    ensures a.principal.Some? && a.principal.value.OAuth2User? ==>
              r == (Attribute(a.principal.value, "email"), a.authorities)
    ensures a.principal.Some? && a.principal.value.UserDetails? ==>
              r == (Some(a.principal.value.username), a.principal.value.authorities)
    ensures a.principal.None? ==> r == (Some(""), a.authorities)
    ensures a.principal.Some? && a.principal.value.OtherPrincipal? ==>
              r == (Some(a.principal.value.display), a.authorities)
  {
    match a.principal
    case Some(OAuth2User(_, _, _)) => (Attribute(a.principal.value, "email"), a.authorities)
    case Some(UserDetails(username, authorities)) => (Some(username), authorities)
    case _ =>
      var name := Name(a);
      (Some(name.value), a.authorities)
  }

  /** generateToken: signs the issued claims; any failure is rethrown as a
      RuntimeException "Failed to generate JWT token" wrapping the cause. */
  function GenerateToken(p: Provider, a: Authentication, nowMs: int): (r: Result<string, Exception>)
    ensures r.Success? <==> KeyIsStrong(p.jwtSecret)
    ensures r.Success? ==>
              r.value == p.sign(p.jwtSecret, IssuedClaims(p, TokenIdentity(a).0, TokenIdentity(a).1, nowMs))
    ensures r.Failure? ==>
              r.error.kind == Runtime && r.error.message == "Failed to generate JWT token"
              && r.error.cause == Some(Throw(WeakKey, WeakKeyMessage))
  {
    var (id, authorities) := TokenIdentity(a);
    if !KeyIsStrong(p.jwtSecret) then
      Failure(Wrap(Runtime, "Failed to generate JWT token", Throw(WeakKey, WeakKeyMessage)))
    else
      Success(p.sign(p.jwtSecret, IssuedClaims(p, id, authorities, nowMs)))
  }

  /** generateTokenFromEmail: the same claims for an email address; a weak key's
      exception is not wrapped. */
  function GenerateTokenFromEmail(p: Provider, email: string, authorities: seq<string>, nowMs: int)
    : (r: Result<string, Exception>)
    ensures r.Success? <==> KeyIsStrong(p.jwtSecret)
    ensures r.Success? ==> r.value == p.sign(p.jwtSecret, IssuedClaims(p, Some(email), authorities, nowMs))
    ensures r.Failure? ==> r.error == Throw(WeakKey, WeakKeyMessage)
  {
    if !KeyIsStrong(p.jwtSecret) then Failure(Throw(WeakKey, WeakKeyMessage))
    else Success(p.sign(p.jwtSecret, IssuedClaims(p, Some(email), authorities, nowMs)))
  }

  /** The two issuing paths agree: a UserDetails principal gets exactly the token its
      username would get from generateTokenFromEmail. */
  lemma GenerateTokenPathsAgree(p: Provider, username: string, authorities: seq<string>,
                                credentials: string, granted: seq<string>, nowMs: int)
    requires KeyIsStrong(p.jwtSecret)
    ensures GenerateToken(p, Authentication(Some(UserDetails(username, authorities)), credentials, granted), nowMs)
            == GenerateTokenFromEmail(p, username, authorities, nowMs)
  {
  }

  /** An issued token names one identifier three times: subject, username and email, and
      for an OAuth2 login that identifier is the `email` attribute. */
  lemma IssuedIdentifierAgrees(p: Provider, a: Authentication, nowMs: int)
    ensures var c := IssuedClaims(p, TokenIdentity(a).0, TokenIdentity(a).1, nowMs);
            c.subject == c.username == c.email
            && (a.principal.Some? && a.principal.value.OAuth2User? ==> c.email == Attribute(a.principal.value, "email"))
  {
  }

  // ---------------------------------------------------------------------------
  // Expiry

  /** With a clock after the epoch and a lifetime of at least one second, the expiry claim
      is strictly after the issue claim; with any non-negative lifetime it is not before. */
  lemma ExpiryAfterIssue(p: Provider, id: Option<string>, authorities: seq<string>, nowMs: int)
    requires nowMs >= 0 && p.jwtExpirationInMs >= 0
    ensures var c := IssuedClaims(p, id, authorities, nowMs);
            c.issuedAt <= c.expiration
            && (p.jwtExpirationInMs >= 1000 ==> c.issuedAt < c.expiration)
            && c.expiration - c.issuedAt <= p.jwtExpirationInMs / 1000 + 1
  {
    var c := IssuedClaims(p, id, authorities, nowMs);
    assert c.issuedAt * 1000 <= nowMs < c.issuedAt * 1000 + 1000;
    assert c.expiration * 1000 <= nowMs + p.jwtExpirationInMs < c.expiration * 1000 + 1000;
  }

  /** Because the claims hold whole seconds, a positive lifetime under one second can
      give a token whose expiry equals its issue time. */
  lemma SubSecondLifetimeExpiresAtIssue(p: Provider, id: Option<string>, authorities: seq<string>)
    requires p.jwtExpirationInMs == 999
    ensures var c := IssuedClaims(p, id, authorities, 0); c.issuedAt == c.expiration == 0
  {
  }

  // ---------------------------------------------------------------------------
  // Decoding the roles claim

  /** A non-empty string with no blank character at either end. */
  predicate IsTrimmedText(s: string) {
    s != [] && s[0] > ' ' && s[|s| - 1] > ' '
  }

  lemma TrimmedPieceIsText(s: string)
    requires Trim(s) != []
    ensures IsTrimmedText(Trim(s))
  {
  }

  /** Trims every piece and keeps the non-empty results, in order. */
  function TrimNonEmpty(pieces: seq<string>): (r: seq<string>)
    ensures |r| <= |pieces|
    ensures forall s | s in r :: IsTrimmedText(s)
  {
    if pieces == [] then []
    else
      var t := Trim(pieces[0]);
      var rest := TrimNonEmpty(pieces[1..]);
      if t == [] then rest else TrimmedPieceIsText(pieces[0]); [t] + rest
  }

  /** extractAuthorities: a missing or blank roles claim grants ROLE_USER alone; otherwise
      the claim is split on ",", each piece trimmed, and the empty pieces dropped. */
  function ExtractAuthorities(roles: Option<string>): (r: seq<string>)
    ensures roles.None? || IsBlank(roles.value) ==> r == [DefaultRole]
    ensures forall k | 0 <= k < |r| :: IsTrimmedText(r[k])
  {
    // a claim that trims to nothing is blank, by Trim's contract
    if roles.None? || IsBlank(roles.value) then [DefaultRole]
    else TrimNonEmpty(Split(roles.value, ','))
  }

  /** A role string the roles claim carries back unchanged: non-empty, already trimmed and
      free of the separator. */
  predicate WellFormedRole(role: string) {
    IsTrimmedText(role) && ',' !in role
  }

  lemma DefaultRoleWellFormed()
    ensures WellFormedRole(DefaultRole)
  {
    var s := DefaultRole;
    assert s[0] == 'R' && s[|s| - 1] == 'R';
    assert forall i | 0 <= i < |s| :: s[i] != ',';
  }

  lemma {:induction false} TrimNonEmptyKeepsWellFormed(xs: seq<string>)
    requires forall k | 0 <= k < |xs| :: WellFormedRole(xs[k])
    ensures TrimNonEmpty(xs) == xs
  {
    if xs != [] {
      assert Trim(xs[0]) == xs[0] by { assert WellFormedRole(xs[0]); }
      TrimNonEmptyKeepsWellFormed(xs[1..]);
      assert [xs[0]] + xs[1..] == xs;
    }
  }

  /** Splitting the joined roles gives the roles back. */
  lemma SplitRolesClaim(xs: seq<string>)
    requires xs != []
    requires forall k | 0 <= k < |xs| :: WellFormedRole(xs[k])
    ensures Split(RolesClaim(xs), ',') == xs
  {
    var j := RolesClaim(xs);
    if |xs| == 1 {
      JoinWithoutSeparator(xs, ',');
    } else {
      JoinHoldsSeparator(xs, ',');
      SplitAllJoin(xs, ',');
    }
  }

  /** Round trip: decoding the roles claim issued for well-formed authorities yields those
      authorities in order; issuing none yields the default role. */
  lemma RolesRoundTrip(xs: seq<string>)
    requires forall k | 0 <= k < |xs| :: WellFormedRole(xs[k])
    ensures ExtractAuthorities(Some(RolesClaim(xs))) == if xs == [] then [DefaultRole] else xs
  {
    if xs != [] {
      JoinStartsWithFirst(xs, ",");
      assert !IsBlank(RolesClaim(xs));
      SplitRolesClaim(xs);
      TrimNonEmptyKeepsWellFormed(xs);
    }
  }

  lemma {:induction false} SplitAllOfSeparators(s: string, sep: char)
    requires forall i | 0 <= i < |s| :: s[i] == sep
    ensures forall k | 0 <= k < |SplitAll(s, sep)| :: SplitAll(s, sep)[k] == []
  {
    if s != [] {
      SplitAllOfSeparators(s[1..], sep);
    }
  }

  /** A roles claim made only of commas is not blank, so it does not get the default role:
      it decodes to no authority at all. */
  lemma CommasOnlyDecodeToNothing(s: string)
    requires s != [] && forall i | 0 <= i < |s| :: s[i] == ','
    ensures ExtractAuthorities(Some(s)) == []
  {
    assert s[0] in s;
    SplitAllOfSeparators(s, ',');
  }

  /** A blank roles claim (here, any run of spaces) grants exactly the default role. */
  lemma BlankClaimGrantsDefault(roles: Option<string>)
    requires roles.Some? ==> forall i | 0 <= i < |roles.value| :: roles.value[i] == ' '
    ensures ExtractAuthorities(roles) == [DefaultRole]
  {
  }

  // ---------------------------------------------------------------------------
  // Parsing and validation

  /** Builds the signing key, then parses. An empty or whitespace-only token is rejected
      with IllegalArgumentException before the library looks at it. */
  function ParseClaims(p: Provider, token: string, nowMs: int): (r: Result<Claims, Exception>)
    ensures !KeyIsStrong(p.jwtSecret) ==> r == Failure(Throw(WeakKey, WeakKeyMessage))
    ensures KeyIsStrong(p.jwtSecret) && !HasText(token) ==> r.Failure? && r.error.kind == IllegalArgument
    ensures KeyIsStrong(p.jwtSecret) && HasText(token) ==> r == p.parse(p.jwtSecret, token, nowMs)
  {
    if !KeyIsStrong(p.jwtSecret) then Failure(Throw(WeakKey, WeakKeyMessage))
    else if !HasText(token) then Failure(Throw(IllegalArgument, "JWT String argument cannot be null or empty."))
    else p.parse(p.jwtSecret, token, nowMs)
  }

  /** The exception kinds validateToken catches and reports as `false`. */
  predicate CaughtByValidate(k: Kind) {
    k in {MalformedJwt, ExpiredJwt, UnsupportedJwt, IllegalArgument, SignatureJwt}
  }

  /** validateToken: true when the token parses, false for the five caught failure kinds;
      any other exception (a weak key, say) propagates to the caller. */
  function ValidateToken(p: Provider, token: string, nowMs: int): (r: Result<bool, Exception>)
    ensures r == Success(true) <==> ParseClaims(p, token, nowMs).Success?
    ensures r == Success(false) <==>
              ParseClaims(p, token, nowMs).Failure? && CaughtByValidate(ParseClaims(p, token, nowMs).error.kind)
    ensures r.Failure? ==> r.error == ParseClaims(p, token, nowMs).error && !CaughtByValidate(r.error.kind)
  {
    var c := ParseClaims(p, token, nowMs);
    if c.Success? then Success(true)
    else if CaughtByValidate(c.error.kind) then Success(false)
    else Failure(c.error)
  }

  /** With a usable key, an empty token is reported invalid rather than thrown. */
  lemma EmptyTokenIsInvalid(p: Provider, token: string, nowMs: int)
    requires KeyIsStrong(p.jwtSecret) && !HasText(token)
    ensures ValidateToken(p, token, nowMs) == Success(false)
  {
  }

  /** getAuthentication: an OAuth2 principal whose attributes are exactly `email` and
      `sub` from the claims, named by `email`, with the token as credentials. The
      authentication holds the decoded authorities in claim order; the principal
      (DefaultOAuth2User) keeps them as a set sorted by name, each name once. Parsing
      failures propagate. */
  function GetAuthentication(p: Provider, token: string, nowMs: int): (r: Result<Authentication, Exception>)
    ensures r.Success? <==> ParseClaims(p, token, nowMs).Success?
    ensures r.Failure? ==> r.error == ParseClaims(p, token, nowMs).error
    ensures r.Success? ==>
              var c := ParseClaims(p, token, nowMs).value;
              r.value.principal.Some? && r.value.principal.value.OAuth2User?
              && r.value.principal.value.attributes == map["email" := c.email, "sub" := c.subject]
              && r.value.principal.value.nameAttributeKey == "email"
              && StrictlySorted(r.value.principal.value.authorities)
              && (forall y :: y in r.value.principal.value.authorities <==> y in ExtractAuthorities(c.roles))
              && r.value.authorities == ExtractAuthorities(c.roles)
              && r.value.credentials == token
  {
    var c := ParseClaims(p, token, nowMs);
    if c.Failure? then Failure(c.error)
    else
      var authorities := ExtractAuthorities(c.value.roles);
      var attributes := map["email" := c.value.email, "sub" := c.value.subject];
      Success(Authentication(Some(OAuth2User(attributes, "email", SortedDistinct(authorities))), token, authorities))
  }

  /** A token the library reads back as it was written: the compact form is non-blank and
      parsing it at `nowMs` returns the signed claims. */
  predicate ReadsBack(p: Provider, c: Claims, nowMs: int) {
    var token := p.sign(p.jwtSecret, c);
    HasText(token) && p.parse(p.jwtSecret, token, nowMs) == Success(c)
  }

  /** A token issued for an email validates, and getAuthentication yields a principal
      named by that email whose authorities are the issued ones (or ROLE_USER for none). */
  lemma IssuedTokenAuthenticates(p: Provider, email: string, authorities: seq<string>, issuedMs: int, nowMs: int)
    requires KeyIsStrong(p.jwtSecret)
    requires forall k | 0 <= k < |authorities| :: WellFormedRole(authorities[k])
    requires ReadsBack(p, IssuedClaims(p, Some(email), authorities, issuedMs), nowMs)
    ensures var token := GenerateTokenFromEmail(p, email, authorities, issuedMs).value;
            ValidateToken(p, token, nowMs) == Success(true)
            && GetAuthentication(p, token, nowMs).Success?
            && var a := GetAuthentication(p, token, nowMs).value;
               Name(a) == Success(email)
               && a.authorities == (if authorities == [] then [DefaultRole] else authorities)
  {
    var c := IssuedClaims(p, Some(email), authorities, issuedMs);
    var token := p.sign(p.jwtSecret, c);
    assert GenerateTokenFromEmail(p, email, authorities, issuedMs).value == token;
    assert ParseClaims(p, token, nowMs) == Success(c);
    RolesRoundTrip(authorities);
    var principal := OAuth2User(map["email" := Some(email), "sub" := Some(email)], "email", SortedDistinct(ExtractAuthorities(c.roles)));
    assert GetAuthentication(p, token, nowMs).value.principal == Some(principal);
    assert Attribute(principal, "email") == Some(email);
  }
}
