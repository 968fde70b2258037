/**
 * The Spring Security values the modelled code inspects: the principal of an
 * Authentication (an OAuth2 user, a UserDetails, or anything else) and its name.
 */
module Security {
  import opened Wrappers
  import opened Failures

  /** The principal object held by an Authentication. A `None` attribute value is a key
      mapped to Java `null`; a missing key is an attribute that was never put. */
  datatype Principal =
    | OAuth2User(attributes: map<string, Option<string>>, nameAttributeKey: string, authorities: seq<string>)
    | UserDetails(username: string, authorities: seq<string>)
    | OtherPrincipal(display: string)

  /** An Authentication token: its principal (`None` is a null principal), its credentials
      and the granted authority strings. */
  datatype Authentication = Authentication(principal: Option<Principal>, credentials: string, authorities: seq<string>)

  /** OAuth2User.getAttribute: `None` when the key is missing or mapped to null. */
  function Attribute(p: Principal, key: string): (r: Option<string>)
    requires p.OAuth2User?
    ensures r.Some? <==> key in p.attributes && p.attributes[key].Some?
  {
    if key in p.attributes then p.attributes[key] else None
  }

  /** Authentication.getName: the UserDetails username, the OAuth2 user's name attribute
      (NullPointerException when it is null or missing), the principal's string form, or
      the empty string for a null principal. */
  function Name(a: Authentication): (r: Result<string, Exception>)
    ensures r.Failure? <==> a.principal.Some? && a.principal.value.OAuth2User?
                            && Attribute(a.principal.value, a.principal.value.nameAttributeKey).None?
    ensures r.Failure? ==> r.error.kind == NullPointer
  {
    match a.principal
    case None => Success("")
    case Some(UserDetails(username, _)) => Success(username)
    case Some(OtherPrincipal(display)) => Success(display)
    case Some(p) =>
      var v := Attribute(p, p.nameAttributeKey);
      if v.Some? then Success(v.value) else Failure(Throw(NullPointer, "name attribute is null"))
  }
}
