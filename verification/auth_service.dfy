/**
 * Local accounts: registration (password confirmation, unique email, encoded password,
 * ROLE_USER, a token for the new account) and login through the authentication manager.
 */
module AuthService {
  import opened Wrappers
  import opened Failures
  import opened Security
  import opened UserModel
  import opened UserQueries
  import opened Repositories
  import opened Servlet
  import JwtTokenProvider

  datatype RegistrationRequest = RegistrationRequest(fullName: string, email: string, password: string, confirmPassword: string)

  datatype AuthRequest = AuthRequest(email: string, password: string)

  /** The user as returned to clients, without password or profile fields. */
  datatype UserDto = UserDto(
    id: string,
    fullName: Option<string>,
    email: Option<string>,
    imageUrl: Option<string>,
    emailVerified: bool,
    roles: seq<string>,
    provider: AuthProvider)

  datatype AuthResponse = AuthResponse(accessToken: string, tokenType: string, user: UserDto)

  /** mapToUserDto: id, name, email, image, verification flag, roles and provider, copied. */
  function MapToUserDto(u: User): (d: UserDto)
    ensures d.id == u.id && d.fullName == u.fullName && d.email == u.email && d.imageUrl == u.imageUrl
    ensures d.emailVerified == u.emailVerified && d.roles == u.roles && d.provider == u.provider
  {
    UserDto(u.id, u.fullName, u.email, u.imageUrl, u.emailVerified, u.roles, u.provider)
  }

  /** The user registerUser builds: name, email and encoded password from the request,
      provider local, the single role ROLE_USER, and the builder defaults elsewhere. */
  function RegisteredUser(id: string, request: RegistrationRequest, encode: string -> string): (u: User)
    ensures u.password == Some(encode(request.password))
    ensures u.provider == Local && u.roles == [JwtTokenProvider.DefaultRole] && u.enabled
    ensures u.email == Some(request.email) && u.fullName == Some(request.fullName) && u.id == id
    ensures u.following == Some([]) && u.followers == Some([])
  {
    Defaults(id).(fullName := Some(request.fullName), email := Some(request.email),
                  password := Some(encode(request.password)), provider := Local,
                  roles := [JwtTokenProvider.DefaultRole])
  }

  /** A registered account's DTO shows the request's email and name, ROLE_USER and the
      local provider, and never a password. */
  lemma RegisteredDto(id: string, request: RegistrationRequest, encode: string -> string)
    ensures var d := MapToUserDto(RegisteredUser(id, request, encode));
            d.email == Some(request.email) && d.fullName == Some(request.fullName)
            && d.roles == ["ROLE_USER"] && d.provider == Local && !d.emailVerified
  {
  }

  /** The service's collaborators: the user collection, the token service, the password
      encoder and the authentication manager (credentials to an Authentication, or the
      AuthenticationException it throws). */
  class Service {
    const users: Repository<User>
    const tokenProvider: JwtTokenProvider.Provider
    const encode: string -> string
    const authenticate: (string, string) -> Result<Authentication, Exception>

    constructor (users: Repository<User>, tokenProvider: JwtTokenProvider.Provider, encode: string -> string,
                 authenticate: (string, string) -> Result<Authentication, Exception>)
      ensures this.users == users && this.tokenProvider == tokenProvider
      ensures this.encode == encode && this.authenticate == authenticate
    {
      this.users := users;
      this.tokenProvider := tokenProvider;
      this.encode := encode;
      this.authenticate := authenticate;
    }

    /** The user collection is keyed by id and its emails are unique. */
    predicate Valid()
      reads this, users
    {
      WellKeyed(users.entries) && UniqueEmails(users.entries)
    }

    /** registerUser. `newId` is the id the store assigns to the new document. The checks
        run in order and a failed check saves nothing; once saved, the user stays saved even
        if minting the token then throws. */
    method RegisterUser(request: RegistrationRequest, newId: string, nowMs: int)
      returns (r: Result<AuthResponse, Exception>)
      requires Valid() && newId !in users.entries
      modifies users
      ensures Valid()
      ensures request.password != request.confirmPassword ==>
                r == Failure(Throw(BadRequest, "Passwords do not match")) && users.entries == old(users.entries)
      ensures request.password == request.confirmPassword && ExistsByEmail(old(users.entries), request.email) ==>
                r == Failure(Throw(BadRequest, "Email is already in use")) && users.entries == old(users.entries)
      ensures request.password == request.confirmPassword && !ExistsByEmail(old(users.entries), request.email) ==>
                var u := RegisteredUser(newId, request, encode);
                var token := JwtTokenProvider.GenerateTokenFromEmail(tokenProvider, request.email, Authorities(u), nowMs);
                users.entries == old(users.entries)[newId := u]
                && (r.Success? <==> token.Success?)
                && (r.Success? ==> r.value == AuthResponse(token.value, "Bearer", MapToUserDto(u)))
                && (r.Failure? ==> r.error == token.error)
    {
      if request.password != request.confirmPassword {
        return Failure(Throw(BadRequest, "Passwords do not match"));
      }
      if ExistsByEmail(users.entries, request.email) {
        return Failure(Throw(BadRequest, "Email is already in use"));
      }
      var user := RegisteredUser(newId, request, encode);
      InsertKeepsUnique(users.entries, user);
      users.Save(newId, user);
      var token := JwtTokenProvider.GenerateTokenFromEmail(tokenProvider, user.email.value, Authorities(user), nowMs);
      if token.Failure? {
        return Failure(token.error);
      }
      return Success(AuthResponse(token.value, "Bearer", MapToUserDto(user)));
    }

    /** authenticateUser: authenticates the credentials, installs the result in the
        security context, mints a token for it and returns the stored user. */
    method AuthenticateUser(request: AuthRequest, context: SecurityContext, nowMs: int)
      returns (r: Result<AuthResponse, Exception>)
      requires Valid()
      modifies context
      ensures var a := authenticate(request.email, request.password);
              if a.Failure? then r == Failure(a.error) && context.authentication == old(context.authentication)
              else
                var token := JwtTokenProvider.GenerateToken(tokenProvider, a.value, nowMs);
                var found := FindByEmail(users.entries, request.email);
                context.authentication == Some(a.value)
                && (token.Failure? ==> r == Failure(token.error))
                && (token.Success? && found.None? ==> r == Failure(Throw(BadRequest, "User not found")))
                && (token.Success? && found.Some? ==> r == Success(AuthResponse(token.value, "Bearer", MapToUserDto(found.value))))
    {
      var authentication := authenticate(request.email, request.password);
      if authentication.Failure? {
        return Failure(authentication.error);
      }
      context.SetAuthentication(authentication.value);
      var token := JwtTokenProvider.GenerateToken(tokenProvider, authentication.value, nowMs);
      if token.Failure? {
        return Failure(token.error);
      }
      var user := FindByEmail(users.entries, request.email);
      if user.None? {
        return Failure(Throw(BadRequest, "User not found"));
      }
      return Success(AuthResponse(token.value, "Bearer", MapToUserDto(user.value)));
    }
  }

  /** The token minted at registration carries the new account's email as subject and
      decodes back to exactly ROLE_USER. */
  lemma RegistrationTokenClaims(p: JwtTokenProvider.Provider, id: string, request: RegistrationRequest,
                                encode: string -> string, nowMs: int)
    ensures var u := RegisteredUser(id, request, encode);
            var c := JwtTokenProvider.IssuedClaims(p, u.email, Authorities(u), nowMs);
            c.subject == Some(request.email)
            && JwtTokenProvider.ExtractAuthorities(c.roles) == ["ROLE_USER"]
  {
    var u := RegisteredUser(id, request, encode);
    assert Authorities(u) == [JwtTokenProvider.DefaultRole];
    JwtTokenProvider.DefaultRoleWellFormed();
    JwtTokenProvider.RolesRoundTrip([JwtTokenProvider.DefaultRole]);
  }
}
