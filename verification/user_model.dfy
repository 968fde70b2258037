/**
 * The stored user account (the `users` collection) and the UserDetails view of it:
 * builder defaults, profile completeness, authorities, username and account flags.
 */
module UserModel {
  import opened Wrappers

  datatype AuthProvider = Local | Google | Facebook

  /** A user record. `None` is a null field; dates are whole days; `roles` is the role set
      in its iteration order, and `following`/`followers` hold user ids. Fields the modelled
      code never reads (timezone, social links, badges, timestamps) are not represented. */
  datatype User = User(
    id: string,
    fullName: Option<string>,
    email: Option<string>,
    password: Option<string>,
    imageUrl: Option<string>,
    emailVerified: bool,
    dateOfBirth: Option<int>,
    location: Option<string>,
    astronomyLevel: Option<string>,
    astronomyInterests: Option<set<string>>,
    biography: Option<string>,
    roles: seq<string>,
    enabled: bool,
    provider: AuthProvider,
    following: Option<seq<string>>,
    followers: Option<seq<string>>)

  /** A user built with the builder and no explicit values: every plain field null or
      false, and the declared defaults for roles, enabled, provider and the follow lists. */
  function Defaults(id: string): (u: User)
    ensures u.roles == [] && u.enabled && u.provider == Local
    ensures u.following == Some([]) && u.followers == Some([])
    ensures u.id == id && u.email.None? && u.password.None? && !u.emailVerified
  {
    User(id, None, None, None, None, false, None, None, None, None, None, [], true, Local, Some([]), Some([]))
  }

  // ---------------------------------------------------------------------------
  // Profile completeness

  predicate HasValue(s: Option<string>) {
    s.Some? && s.value != ""
  }

  /** The eight fields that count towards completeness, in the order they are tested:
      full name, email, image, date of birth, location, level, interests, biography. */
  function Filled(u: User): (r: seq<bool>)
    ensures |r| == 8
  {
    [HasValue(u.fullName), HasValue(u.email), HasValue(u.imageUrl), u.dateOfBirth.Some?,
     HasValue(u.location), HasValue(u.astronomyLevel),
     u.astronomyInterests.Some? && u.astronomyInterests.value != {}, HasValue(u.biography)]
  }

  function Bit(b: bool): nat { if b then 1 else 0 }

  /** The number of counted fields that are filled. */
  function FilledCount(u: User): (n: nat)
    ensures n <= 8
    ensures n == 0 <==> forall k | 0 <= k < 8 :: !Filled(u)[k]
  {
    var f := Filled(u);
    Bit(f[0]) + Bit(f[1]) + Bit(f[2]) + Bit(f[3]) + Bit(f[4]) + Bit(f[5]) + Bit(f[6]) + Bit(f[7])
  }

  /** Ten points per filled field, capped at 100: always a multiple of ten between 0 and
      80, so the cap never applies. */
  method GetProfileCompleteness(u: User) returns (completeness: int)
    ensures completeness == 10 * FilledCount(u)
    ensures 0 <= completeness <= 80
  {
    completeness := 0;
    if HasValue(u.fullName) { completeness := completeness + 10; }
    if HasValue(u.email) { completeness := completeness + 10; }
    if HasValue(u.imageUrl) { completeness := completeness + 10; }
    if u.dateOfBirth.Some? { completeness := completeness + 10; }
    if HasValue(u.location) { completeness := completeness + 10; }
    if HasValue(u.astronomyLevel) { completeness := completeness + 10; }
    if u.astronomyInterests.Some? && u.astronomyInterests.value != {} { completeness := completeness + 10; }
    if HasValue(u.biography) { completeness := completeness + 10; }
    FilledCountByField(u);
    completeness := if completeness < 100 then completeness else 100;
  }

  /** Ten times FilledCount, field by field in the order the fields are tested. */
  lemma FilledCountByField(u: User)
    ensures 10 * FilledCount(u) == (if HasValue(u.fullName) then 10 else 0) + (if HasValue(u.email) then 10 else 0)
                                   + (if HasValue(u.imageUrl) then 10 else 0) + (if u.dateOfBirth.Some? then 10 else 0)
                                   + (if HasValue(u.location) then 10 else 0)
                                   + (if HasValue(u.astronomyLevel) then 10 else 0)
                                   + (if u.astronomyInterests.Some? && u.astronomyInterests.value != {} then 10 else 0)
                                   + (if HasValue(u.biography) then 10 else 0)
  {
  }

  /** Filling in fields (and clearing none) never lowers completeness. */
  lemma CompletenessMonotone(u: User, v: User)
    requires forall k | 0 <= k < 8 :: Filled(u)[k] ==> Filled(v)[k]
    ensures FilledCount(u) <= FilledCount(v)
  {
  }

  /** Filling in an empty biography raises completeness by exactly ten. */
  lemma FillingBiographyAddsTen(u: User, text: string)
    requires !HasValue(u.biography) && text != ""
    ensures FilledCount(u.(biography := Some(text))) == FilledCount(u) + 1
  {
  }

  // ---------------------------------------------------------------------------
  // The UserDetails view

  /** getAuthorities: one authority per role string, in role order, and nothing else. */
  function Authorities(u: User): (r: seq<string>)
    ensures |r| == |u.roles|
    ensures forall a :: a in r <==> a in u.roles
  {
    u.roles
  }

  /** getUsername: the email is the login name. */
  function Username(u: User): (r: Option<string>)
    ensures r == u.email
  {
    u.email
  }

  predicate IsAccountNonExpired(u: User) { true }
  predicate IsAccountNonLocked(u: User) { true }
  predicate IsCredentialsNonExpired(u: User) { true }
  predicate IsEnabled(u: User) { u.enabled }

  /** The pre- and post-authentication checks Spring applies to a UserDetails pass exactly
      when the account is enabled: the other three flags never block a login. */
  lemma AccountUsableIffEnabled(u: User)
    ensures (IsAccountNonLocked(u) && IsEnabled(u) && IsAccountNonExpired(u) && IsCredentialsNonExpired(u))
            <==> u.enabled
  {
  }

  /** A freshly built user counts no profile field and may log in. */
  lemma DefaultsProfile(id: string)
    ensures FilledCount(Defaults(id)) == 0 && IsEnabled(Defaults(id))
  {
  }
}
