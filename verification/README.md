# CosmoConnect core, modelled in Dafny

CosmoConnect is a Spring backend for an astronomy learning community. This project models two parts of it.

**Stateless bearer-token authentication:**
- the JWT provider that issues and reads tokens;
- the request filter that checks them;
- the OAuth2 success handler that redirects with a fresh token;
- registration and login;
- the user record's security methods.

**Collection updates behind the REST endpoints:**
- post likes, updates and media;
- comments;
- the follow graph;
- learning-progress entries;
- competitions and their attached files.

## How the model is built

Pure Java code (token claims, role decoding, URL rewriting, DTO conversion) becomes Dafny functions with lemmas about them. Code that changes state step by step becomes classes:
- the MongoDB repositories are `Repositories.Repository<T>` objects holding a `map` from id to document;
- the servlet response, the security context and the filter chain are `Servlet` classes;
- notifications and file storage are logs in `Effects`.

Each service and controller method is a `method` whose `ensures` ties the new state and the result to a specification function. The properties the source promises are proved about those functions.

Java exceptions are `Failures.Exception` values: a kind, a message and an optional cause. A method that may throw returns a `Result`. Java `null` is `Option.None`.

Some things are parameters rather than computed:
- the signing library;
- `URI.create`;
- the password encoder and `AuthenticationManager`;
- the id a database assigns;
- the storage outcome of each uploaded file;
- the clock.

## Model

| member | source | states |
|---|---|---|
| JwtTokenProvider.TokenIdentity | src/main/java/com/example/cosmoconnect/config/JwtTokenProvider.java:36-53 | The token identifier and authorities per principal kind: the OAuth2 `email` attribute with the authentication's authorities; the UserDetails username with its own authorities; otherwise the authentication name. |
| JwtTokenProvider.IssuedClaims | src/main/java/com/example/cosmoconnect/config/JwtTokenProvider.java:55-68 | Subject, `username` and `email` are the same identifier. `roles` is the comma-joined authorities. `iat`/`exp` are the issue time and issue time plus the lifetime, as whole seconds. |
| JwtTokenProvider.GenerateToken | src/main/java/com/example/cosmoconnect/config/JwtTokenProvider.java:30-76 | Succeeds iff the HS256 key is at least 256 bits. The token signs the issued claims of the principal's identity. A failure is a RuntimeException "Failed to generate JWT token" wrapping the WeakKeyException. |
| JwtTokenProvider.GenerateTokenFromEmail | src/main/java/com/example/cosmoconnect/config/JwtTokenProvider.java:144-161 | Succeeds iff the key is strong; the token signs the claims for that email. A weak key throws the WeakKeyException unwrapped. |
| JwtTokenProvider.GenerateTokenPathsAgree | src/main/java/com/example/cosmoconnect/config/JwtTokenProvider.java:42-47 | For a UserDetails principal, both issuing paths produce the same token. |
| JwtTokenProvider.IssuedIdentifierAgrees | src/main/java/com/example/cosmoconnect/config/JwtTokenProvider.java:62-66 | In every issued token, subject, `username` and `email` coincide. For an OAuth2 login the identifier is the `email` attribute. |
| JwtTokenProvider.ExpiryAfterIssue | src/main/java/com/example/cosmoconnect/config/JwtTokenProvider.java:55-56 | With a clock after the epoch, expiry is never before issue and at most one second more than the lifetime after it. It is strictly after issue once the lifetime is at least one second. |
| JwtTokenProvider.SubSecondLifetimeExpiresAtIssue | src/main/java/com/example/cosmoconnect/config/JwtTokenProvider.java:145-146 | A 999 ms lifetime yields `exp == iat`, because the claims hold whole seconds. |
| JwtTokenProvider.ExtractAuthorities | src/main/java/com/example/cosmoconnect/config/JwtTokenProvider.java:125-136 | A null or blank `roles` claim decodes to exactly [ROLE_USER]. Every decoded role is non-empty and trimmed. |
| JwtTokenProvider.TrimNonEmpty | src/main/java/com/example/cosmoconnect/config/JwtTokenProvider.java:131-135 | Trimming and dropping empty pieces keeps only non-empty trimmed roles, never more than it was given. |
| JwtTokenProvider.SplitRolesClaim | src/main/java/com/example/cosmoconnect/config/JwtTokenProvider.java:58-60 | Splitting the joined claim of well-formed roles on "," gives back the list. |
| JwtTokenProvider.RolesRoundTrip | src/main/java/com/example/cosmoconnect/config/JwtTokenProvider.java:125-136 | Decoding the issued roles claim of non-empty, trimmed, comma-free roles returns them in order. An empty list decodes to [ROLE_USER]. |
| JwtTokenProvider.CommasOnlyDecodeToNothing | src/main/java/com/example/cosmoconnect/config/JwtTokenProvider.java:127-135 | A claim made only of commas is not blank, so it decodes to no authorities rather than the default. |
| JwtTokenProvider.BlankClaimGrantsDefault | src/main/java/com/example/cosmoconnect/config/JwtTokenProvider.java:126-129 | An absent or all-space claim decodes to [ROLE_USER]. |
| JwtTokenProvider.ParseClaims | src/main/java/com/example/cosmoconnect/config/JwtTokenProvider.java:79-83 | Parsing fails with WeakKeyException for a weak key and with IllegalArgumentException for an empty token. Otherwise it is the library's verdict. |
| JwtTokenProvider.ValidateToken | src/main/java/com/example/cosmoconnect/config/JwtTokenProvider.java:104-123 | True iff the token parses. False iff parsing throws one of the five caught kinds. Any other exception propagates unchanged. |
| JwtTokenProvider.EmptyTokenIsInvalid | src/main/java/com/example/cosmoconnect/config/JwtTokenProvider.java:117-118 | With a strong key, an empty or whitespace token is invalid rather than an error. |
| JwtTokenProvider.GetAuthentication | src/main/java/com/example/cosmoconnect/config/JwtTokenProvider.java:78-102 | Succeeds iff the token parses. The principal is an OAuth2 user whose attributes are exactly `email` and `sub` from the claims, named by `email`. The authentication's authorities are the decoded roles in claim order. The principal's are the same names sorted, each once. The credentials are the token. |
| JavaLists.InsertSorted | src/main/java/com/example/cosmoconnect/config/JwtTokenProvider.java:95-99 | Adding a name to a name-sorted set keeps it strictly increasing and adds exactly that name. |
| JavaLists.SortedDistinct | src/main/java/com/example/cosmoconnect/config/JwtTokenProvider.java:95-99 | The principal's authority set: strictly increasing by name and holding exactly the names of the list. |
| JavaLists.StrictlySortedUnique | src/main/java/com/example/cosmoconnect/config/JwtTokenProvider.java:95-99 | Two strictly increasing lists with the same names are equal, so the principal's authorities do not depend on claim order. |
| JwtTokenProvider.IssuedTokenAuthenticates | src/main/java/com/example/cosmoconnect/config/JwtTokenProvider.java:78-161 | A token issued for an email validates and authenticates as a principal named by that email with the issued roles. This assumes the library reads back what it signed. |
| JwtAuthenticationFilter.PublicEndpointBoundaries | Working-PAF/PAF-BACKEND-DAYANA/src/main/java/com/example/cosmoconnect/config/JwtAuthenticationFilter.java:98-103 | `/api/auth` and `/error/x` are protected; `/api/auth/login`, `/error` and `/login/oauth2/code/…` are public. |
| JwtAuthenticationFilter.GetJwtFromRequest | Working-PAF/PAF-BACKEND-DAYANA/src/main/java/com/example/cosmoconnect/config/JwtAuthenticationFilter.java:105-114 | A token is returned iff the header has text and starts with the case-sensitive "Bearer ". The header is then "Bearer " followed by the token. |
| JwtAuthenticationFilter.BearerRoundTrip | Working-PAF/PAF-BACKEND-DAYANA/src/main/java/com/example/cosmoconnect/config/JwtAuthenticationFilter.java:105-114 | Extracting from "Bearer " + t gives back t. |
| JwtAuthenticationFilter.OtherSchemesIgnored | Working-PAF/PAF-BACKEND-DAYANA/src/main/java/com/example/cosmoconnect/config/JwtAuthenticationFilter.java:107-113 | Lower-case "bearer", "Basic" and a missing header yield no token. |
| JwtAuthenticationFilter.ExceptionOutcome | Working-PAF/PAF-BACKEND-DAYANA/src/main/java/com/example/cosmoconnect/config/JwtAuthenticationFilter.java:77-95 | Every caught exception is answered, never passed on. JWT exceptions give 401 and anything else gives 500 "Unexpected authentication error: …". |
| JwtAuthenticationFilter.ExceptionsAreAnswered | Working-PAF/PAF-BACKEND-DAYANA/src/main/java/com/example/cosmoconnect/config/JwtAuthenticationFilter.java:77-95 | The status is 401 for exactly the JWT exceptions, else 500. The messages for expired, bad-signature and other JWT errors are as written. |
| JwtAuthenticationFilter.PublicPathSkipsToken | Working-PAF/PAF-BACKEND-DAYANA/src/main/java/com/example/cosmoconnect/config/JwtAuthenticationFilter.java:38-42 | On a public path the chain continues with nothing installed, whatever the token service answers. |
| JwtAuthenticationFilter.MissingTokenContinuesAnonymously | Working-PAF/PAF-BACKEND-DAYANA/src/main/java/com/example/cosmoconnect/config/JwtAuthenticationFilter.java:44-76 | With no token, or an empty one, the chain continues and nothing is installed. |
| JwtAuthenticationFilter.InstalledOnlyAfterValidation | Working-PAF/PAF-BACKEND-DAYANA/src/main/java/com/example/cosmoconnect/config/JwtAuthenticationFilter.java:46-65 | An identity is installed only on a protected path, for a token that validated true and whose authentication and principal are non-null. |
| JwtAuthenticationFilter.RejectedTokenIsUnauthorized | Working-PAF/PAF-BACKEND-DAYANA/src/main/java/com/example/cosmoconnect/config/JwtAuthenticationFilter.java:67-71 | A token that validates false is answered 401 "Invalid token". |
| JwtAuthenticationFilter.UnauthorizedBody | Working-PAF/PAF-BACKEND-DAYANA/src/main/java/com/example/cosmoconnect/config/JwtAuthenticationFilter.java:119-122 | The body is the JSON object with status 401, error "Unauthorized" and the message. |
| JwtAuthenticationFilter.UnauthorizedBodyMessage | Working-PAF/PAF-BACKEND-DAYANA/src/main/java/com/example/cosmoconnect/config/JwtAuthenticationFilter.java:119-122 | The message appears in the body between its fixed prefix and the closing `"}`. |
| JwtAuthenticationFilter.SetUnauthorizedResponse | Working-PAF/PAF-BACKEND-DAYANA/src/main/java/com/example/cosmoconnect/config/JwtAuthenticationFilter.java:116-123 | Sets status 401, JSON content type and UTF-8, and appends the body. Nothing else changes. |
| JwtAuthenticationFilter.HandleException | Working-PAF/PAF-BACKEND-DAYANA/src/main/java/com/example/cosmoconnect/config/JwtAuthenticationFilter.java:77-95 | Writes the 401 response or sends the 500 error that ExceptionOutcome prescribes. |
| JwtAuthenticationFilter.Answer | Working-PAF/PAF-BACKEND-DAYANA/src/main/java/com/example/cosmoconnect/config/JwtAuthenticationFilter.java:32-95 | A decision to continue stays a continue only if the rest of the chain completes. An exception the chain throws is answered like a token-provider exception (401 or 500). Any other decision is the answer. |
| JwtAuthenticationFilter.DoFilterInternal | Working-PAF/PAF-BACKEND-DAYANA/src/main/java/com/example/cosmoconnect/config/JwtAuthenticationFilter.java:30-96 | The chain runs once exactly when the decision function says continue, and the identity it names is installed. The response is the one Answer gives: unchanged, a 401 JSON body, or a 500 error. An identity installed before the chain throws stays installed. Every response field the answer does not set keeps its value, and the redirect location never changes. |
| JwtAuthenticationFilter.NoInvalidAuthenticationData | Working-PAF/PAF-BACKEND-DAYANA/src/main/java/com/example/cosmoconnect/config/JwtAuthenticationFilter.java:49-66 | With the real provider, whose getAuthentication never returns null, "Invalid authentication data" is never answered. |
| JwtAuthenticationFilter.IssuedTokenInstallsIdentity | Working-PAF/PAF-BACKEND-DAYANA/src/main/java/com/example/cosmoconnect/config/JwtAuthenticationFilter.java:44-76 | End to end: a token issued for an email, sent as a bearer header to a protected path, installs an identity whose name is that email. |
| OAuth2SuccessHandler.EntryMatches | PAF-BACKEND-DAYANA/src/main/java/com/example/cosmoconnect/oauth2/OAuth2AuthenticationSuccessHandler.java:120-126 | One allow-list entry matches iff both hosts are present and equal ignoring case, and the ports are equal. It throws iff the entry is malformed or has no host. |
| OAuth2SuccessHandler.AnyMatchIff | PAF-BACKEND-DAYANA/src/main/java/com/example/cosmoconnect/oauth2/OAuth2AuthenticationSuccessHandler.java:120-126 | The lazy search succeeds iff some entry matches and every earlier entry is well-formed. |
| OAuth2SuccessHandler.AuthorizedIff | PAF-BACKEND-DAYANA/src/main/java/com/example/cosmoconnect/oauth2/OAuth2AuthenticationSuccessHandler.java:117-131 | A URI is authorized iff it parses and the search succeeds. Scheme, path and query are never compared. |
| OAuth2SuccessHandler.AbsentPortDoesNotMatchExplicit | PAF-BACKEND-DAYANA/src/main/java/com/example/cosmoconnect/oauth2/OAuth2AuthenticationSuccessHandler.java:123-125 | A client URI without a port is refused by every allow-list whose parseable entries all name a port, whatever the hosts. |
| OAuth2SuccessHandler.MalformedIsUnauthorized | PAF-BACKEND-DAYANA/src/main/java/com/example/cosmoconnect/oauth2/OAuth2AuthenticationSuccessHandler.java:127-131 | A malformed URI, or a malformed entry reached before any match, counts as unauthorized. |
| OAuth2SuccessHandler.AppendTokenParamPlain | PAF-BACKEND-DAYANA/src/main/java/com/example/cosmoconnect/oauth2/OAuth2AuthenticationSuccessHandler.java:95-97 | For a URI without a query, the target is the URI followed by `?token=` and the token. |
| OAuth2SuccessHandler.GenerateAuthToken | PAF-BACKEND-DAYANA/src/main/java/com/example/cosmoconnect/oauth2/OAuth2AuthenticationSuccessHandler.java:107-115 | The minted token, or a RuntimeException "Failed to generate authentication token: …" wrapping the cause. |
| OAuth2SuccessHandler.DetermineTargetUrl | PAF-BACKEND-DAYANA/src/main/java/com/example/cosmoconnect/oauth2/OAuth2AuthenticationSuccessHandler.java:69-105 | An empty allow-list with no parameter is a BadRequest "No authorized redirect URIs configured". Otherwise the chosen URI is the parameter, else the first entry. An unauthorized choice is a BadRequest "Unauthorized Redirect URI: …". An authorized one yields the URI with the minted token appended, or the minting failure unchanged. |
| OAuth2SuccessHandler.DefaultUriIsChecked | PAF-BACKEND-DAYANA/src/main/java/com/example/cosmoconnect/oauth2/OAuth2AuthenticationSuccessHandler.java:79-90 | Without a parameter the answer is the one for the first allow-list entry passed explicitly. |
| OAuth2SuccessHandler.UnauthorizedRefusedBeforeMinting | PAF-BACKEND-DAYANA/src/main/java/com/example/cosmoconnect/oauth2/OAuth2AuthenticationSuccessHandler.java:87-92 | An unauthorized URI gives BadRequest "Unauthorized Redirect URI: …" whatever the token service does. |
| OAuth2SuccessHandler.OnAuthenticationSuccess | PAF-BACKEND-DAYANA/src/main/java/com/example/cosmoconnect/oauth2/OAuth2AuthenticationSuccessHandler.java:33-67 | Redirects (302) to the target unless the response is committed. A failure sends 500 "Authentication failed: …" and throws IllegalState on a committed response. Body, content type and encoding never change; a committed response keeps its status, location and message. |
| AuthService.MapToUserDto | Working-PAF/PAF-BACKEND-DAYANA/src/main/java/com/example/cosmoconnect/service/AuthService.java:89-99 | id, fullName, email, imageUrl, emailVerified, roles and provider are copied unchanged. |
| AuthService.RegisteredUser | Working-PAF/PAF-BACKEND-DAYANA/src/main/java/com/example/cosmoconnect/service/AuthService.java:43-49 | The new user stores encode(password), provider `local`, roles exactly [ROLE_USER], and the request's name and email, with the builder defaults. |
| AuthService.RegisteredDto | Working-PAF/PAF-BACKEND-DAYANA/src/main/java/com/example/cosmoconnect/service/AuthService.java:61-65 | The registration response's user shows the request's email and name, provider local and role ROLE_USER, and is not email-verified. |
| AuthService.Service.RegisterUser | Working-PAF/PAF-BACKEND-DAYANA/src/main/java/com/example/cosmoconnect/service/AuthService.java:31-66 | A password mismatch ("Passwords do not match") is checked before the email ("Email is already in use"), and both save nothing. Otherwise exactly one user is saved and the response is Bearer plus the token minted from its email and authorities. |
| AuthService.Service.AuthenticateUser | Working-PAF/PAF-BACKEND-DAYANA/src/main/java/com/example/cosmoconnect/service/AuthService.java:68-87 | A failed authentication changes nothing. Otherwise the context holds the authentication, and the result is the token failure, "User not found", or Bearer plus the token and the stored user. |
| AuthService.RegistrationTokenClaims | Working-PAF/PAF-BACKEND-DAYANA/src/main/java/com/example/cosmoconnect/service/AuthService.java:52-58 | The registration token's subject is the new email and its roles decode to exactly [ROLE_USER]. |
| UserModel.Defaults | Working-PAF/PAF-BACKEND-DAYANA/src/main/java/com/example/cosmoconnect/model/User.java:85-101 | The builder defaults: no roles, enabled, provider local, empty following and followers. |
| UserModel.Filled | Working-PAF/PAF-BACKEND-DAYANA/src/main/java/com/example/cosmoconnect/model/User.java:107-114 | The eight counted fields, each present and non-empty (date of birth: present). |
| UserModel.FilledCount | Working-PAF/PAF-BACKEND-DAYANA/src/main/java/com/example/cosmoconnect/model/User.java:104-117 | Between 0 and 8, and 0 iff no counted field is filled. |
| UserModel.GetProfileCompleteness | Working-PAF/PAF-BACKEND-DAYANA/src/main/java/com/example/cosmoconnect/model/User.java:104-117 | The eight conditional `+= 10` steps give 10 per filled field, in [0, 80], so the cap at 100 never applies. |
| UserModel.CompletenessMonotone | Working-PAF/PAF-BACKEND-DAYANA/src/main/java/com/example/cosmoconnect/model/User.java:107-114 | Filling fields never lowers the count. |
| UserModel.FillingBiographyAddsTen | Working-PAF/PAF-BACKEND-DAYANA/src/main/java/com/example/cosmoconnect/model/User.java:114 | Filling an empty biography raises the count by exactly one. |
| UserModel.Authorities | Working-PAF/PAF-BACKEND-DAYANA/src/main/java/com/example/cosmoconnect/model/User.java:121-125 | One authority per role and no others. |
| UserModel.Username | Working-PAF/PAF-BACKEND-DAYANA/src/main/java/com/example/cosmoconnect/model/User.java:128-130 | The username is the email. |
| UserModel.AccountUsableIffEnabled | Working-PAF/PAF-BACKEND-DAYANA/src/main/java/com/example/cosmoconnect/model/User.java:133-150 | The four account checks all pass iff `enabled`; the other three are always true. |
| UserModel.DefaultsProfile | Working-PAF/PAF-BACKEND-DAYANA/src/main/java/com/example/cosmoconnect/model/User.java:85-117 | A default user has completeness 0 and is enabled. |
| UserQueries.FindByEmail | Working-PAF/PAF-BACKEND-DAYANA/src/main/java/com/example/cosmoconnect/repository/UserRepository.java:12-14 | Found iff some stored user has the email, and that user is the only one with it. |
| PostController.GetUserEmail | Working-PAF/PAF-BACKEND-DAYANA/src/main/java/com/example/cosmoconnect/controller/PostController.java:28-64 | A null authentication gives "No authentication present". OAuth2 gives the email attribute or "Email not found in OAuth2User attributes". UserDetails gives its username. Any other principal gives the authentication name. |
| PostController.EmailResolution | Working-PAF/PAF-BACKEND-DAYANA/src/main/java/com/example/cosmoconnect/controller/PostController.java:36-63 | An OAuth2 principal without email fails rather than falling back. Any other principal resolves to its display name. |
| PostController.MediaUrlOfStored | Working-PAF/PAF-BACKEND-DAYANA/src/main/java/com/example/cosmoconnect/controller/PostController.java:164 | The stored path "posts/X" is exposed as "/api/posts/files/X". |
| PostController.UrlsFor | Working-PAF/PAF-BACKEND-DAYANA/src/main/java/com/example/cosmoconnect/controller/PostController.java:161-165 | One URL per stored file, in upload order. |
| PostController.UrlsForAppend | Working-PAF/PAF-BACKEND-DAYANA/src/main/java/com/example/cosmoconnect/controller/PostController.java:162-165 | Each loop step appends the next file's URL. |
| PostController.StoreMedia | Working-PAF/PAF-BACKEND-DAYANA/src/main/java/com/example/cosmoconnect/controller/PostController.java:160-167 | The loop stores the files in order and collects their URLs. The first IOException stops it after the files stored so far. |
| PostController.StoredPaths | Working-PAF/PAF-BACKEND-DAYANA/src/main/java/com/example/cosmoconnect/controller/PostController.java:163 | One stored path per stored name, in order. |
| PostController.CreateDto | Working-PAF/PAF-BACKEND-DAYANA/src/main/java/com/example/cosmoconnect/controller/PostController.java:159-167 | The DTO's media URLs are replaced by the new ones only when files are supplied. |
| PostController.UpdateDto | Working-PAF/PAF-BACKEND-DAYANA/src/main/java/com/example/cosmoconnect/controller/PostController.java:180-188 | With files, the DTO's own URLs (none for null) are kept in front of the new ones. |
| PostController.UploadedUrlsOrder | Working-PAF/PAF-BACKEND-DAYANA/src/main/java/com/example/cosmoconnect/controller/PostController.java:159-188 | On update the old URLs come first and one new URL per file follows in order. On create only the new URLs remain. |
| PostController.Controller.CreatePostMultipart | Working-PAF/PAF-BACKEND-DAYANA/src/main/java/com/example/cosmoconnect/controller/PostController.java:143-169 | Fails on the email first. Then the files are stored, and either an IOException is answered or the post is created from the rewritten DTO. No file is deleted. |
| PostController.Controller.UpdatePostMultipart | Working-PAF/PAF-BACKEND-DAYANA/src/main/java/com/example/cosmoconnect/controller/PostController.java:171-190 | As create, but the post is updated by its author only, from the DTO with the new URLs appended. No file is deleted. |
| PostController.Controller.LikePost | Working-PAF/PAF-BACKEND-DAYANA/src/main/java/com/example/cosmoconnect/controller/PostController.java:127-133 | The stored posts and the notifications sent are those of PostService.Service.LikePost: the liked post saved only for a new like, exactly LikeNotifications sent, nothing changed on a failed lookup. Returns the re-read post, which the caller now sees as liked, with one more like unless already liked. |
| PostController.Controller.UnlikePost | Working-PAF/PAF-BACKEND-DAYANA/src/main/java/com/example/cosmoconnect/controller/PostController.java:135-141 | The stored post becomes the unliked one, or nothing changes on a failed lookup. Returns the re-read post, which the caller no longer sees as liked. |
| PostService.ConvertToDto | Working-PAF/PAF-BACKEND-DAYANA/src/main/java/com/example/cosmoconnect/service/PostService.java:407-450 | `likeCount` is the likes size, `commentCount` the comments size, and `liked` holds iff the viewer is in the likes. Id and author are copied. |
| PostService.LikeIdempotent | Working-PAF/PAF-BACKEND-DAYANA/src/main/java/com/example/cosmoconnect/service/PostService.java:293-296 | Liking twice equals liking once. Likes stay duplicate-free. The liker sees the post liked, with one more like when new. |
| PostService.UnlikeUndoesLike | Working-PAF/PAF-BACKEND-DAYANA/src/main/java/com/example/cosmoconnect/service/PostService.java:317-319 | Unlike undoes a new like. On duplicate-free likes the user no longer likes the post. Unliking an absent id changes nothing. |
| PostService.LikeNotifications | Working-PAF/PAF-BACKEND-DAYANA/src/main/java/com/example/cosmoconnect/service/PostService.java:294-305 | A LIKE notification to the author iff the like is new and the liker is not the author. |
| PostService.Lookup | Working-PAF/PAF-BACKEND-DAYANA/src/main/java/com/example/cosmoconnect/service/PostService.java:287-291 | The post is looked up ("Post not found") before the user ("User not found with email: …"). |
| PostService.OwnedPost | Working-PAF/PAF-BACKEND-DAYANA/src/main/java/com/example/cosmoconnect/service/PostService.java:193-201 | After the lookup, a non-author fails with "Not authorized to … this post". |
| PostService.UpdateProperties | Working-PAF/PAF-BACKEND-DAYANA/src/main/java/com/example/cosmoconnect/service/PostService.java:204-262 | The view shows every supplied value. Id, author, creation time, likes and comments are kept. The update is idempotent. A DTO supplying nothing changes only `updatedAt` and `isPublic`. |
| PostService.MediaTypeFor | Working-PAF/PAF-BACKEND-DAYANA/src/main/java/com/example/cosmoconnect/service/PostService.java:338-357 | Unchanged without files. Otherwise VIDEO iff the first file's content type starts with "video", else IMAGE. |
| PostService.MergedMediaProperties | Working-PAF/PAF-BACKEND-DAYANA/src/main/java/com/example/cosmoconnect/service/PostService.java:337-370 | Without removals, existing media come first and uploads follow in order. An entry remains iff it was stored or uploaded and is not listed for removal. Removal applies to both parts separately and keeps their order. |
| PostService.MediaUpdateProperties | Working-PAF/PAF-BACKEND-DAYANA/src/main/java/com/example/cosmoconnect/service/PostService.java:372-400 | The media path keeps identity, author, likes, comments and creation time. It takes the request's poll, clearing it when omitted. With no removal, the stored media (none when null) stay first and the new names follow in upload order. With no upload the media type is unchanged. |
| PostService.StoredBeforeFailure | Working-PAF/PAF-BACKEND-DAYANA/src/main/java/com/example/cosmoconnect/service/PostService.java:342-345 | The names the storage returned, in order, up to its first failure. |
| PostService.FirstStoreFailure | Working-PAF/PAF-BACKEND-DAYANA/src/main/java/com/example/cosmoconnect/service/PostService.java:353-356 | None iff every store succeeded; otherwise fewer names than files were stored. |
| PostService.StoredPrefix | Working-PAF/PAF-BACKEND-DAYANA/src/main/java/com/example/cosmoconnect/service/PostService.java:342-345 | While every store succeeds, the stored names keep pace with the loop. |
| PostService.FailureAt | Working-PAF/PAF-BACKEND-DAYANA/src/main/java/com/example/cosmoconnect/service/PostService.java:353-356 | When file i is the first to fail, exactly i names were stored and its message is reported. |
| PostService.NewPost | Working-PAF/PAF-BACKEND-DAYANA/src/main/java/com/example/cosmoconnect/service/PostService.java:40-67 | The request's fields, the author, no likes or comments, and both timestamps set to now. |
| PostService.GetPost | Working-PAF/PAF-BACKEND-DAYANA/src/main/java/com/example/cosmoconnect/service/PostService.java:140-148 | Succeeds iff the lookup does, with the stored post's view. |
| PostService.FeedContents | Working-PAF/PAF-BACKEND-DAYANA/src/main/java/com/example/cosmoconnect/service/PostService.java:157-187 | An unknown email fails with "User not found with email: …". A null following list throws NullPointerException. Otherwise the feed holds exactly the posts whose author the user follows or is, each shown liked iff the user likes it. |
| PostService.Service.CreatePost | Working-PAF/PAF-BACKEND-DAYANA/src/main/java/com/example/cosmoconnect/service/PostService.java:31-73 | An unknown email saves nothing. Otherwise exactly the new post is saved and its view returned. |
| PostService.Service.LikePost | Working-PAF/PAF-BACKEND-DAYANA/src/main/java/com/example/cosmoconnect/service/PostService.java:285-307 | Stores the liked post only for a new like and sends exactly LikeNotifications. Lookup failures change nothing. |
| PostService.Service.UnlikePost | Working-PAF/PAF-BACKEND-DAYANA/src/main/java/com/example/cosmoconnect/service/PostService.java:309-320 | Saves the post with the first occurrence removed, even when the user had not liked it. |
| PostService.Service.UpdatePost | Working-PAF/PAF-BACKEND-DAYANA/src/main/java/com/example/cosmoconnect/service/PostService.java:189-268 | A non-author or failed lookup changes nothing. Otherwise the stored post becomes ApplyUpdate of it. |
| PostService.Service.DeletePost | Working-PAF/PAF-BACKEND-DAYANA/src/main/java/com/example/cosmoconnect/service/PostService.java:270-283 | Only the author deletes, and only that post is removed. |
| PostService.Service.UpdatePostWithMedia | Working-PAF/PAF-BACKEND-DAYANA/src/main/java/com/example/cosmoconnect/service/PostService.java:322-405 | The author check precedes any change. A storage failure gives "Failed to store media files: …" and leaves the post unsaved. Otherwise the post becomes ApplyMediaUpdate and every removed name is deleted from storage. |
| PostService.StoreUploads | Working-PAF/PAF-BACKEND-DAYANA/src/main/java/com/example/cosmoconnect/service/PostService.java:340-356 | The files are stored in upload order. The names returned are exactly those stored before the first IOException, whose message is returned with them. Nothing is deleted. |
| PostService.DeleteAll | Working-PAF/PAF-BACKEND-DAYANA/src/main/java/com/example/cosmoconnect/service/PostService.java:360-370 | Every removed name is deleted from storage, in the request's order. Nothing is stored. |
| CommentService.ConvertToDto | Working-PAF/PAF-BACKEND-DAYANA/src/main/java/com/example/cosmoconnect/service/CommentService.java:192-205 | `likeCount` is the likes size and `isLiked` holds iff the viewer is in the likes. Id, author, post and content are copied. |
| CommentService.NewComment | Working-PAF/PAF-BACKEND-DAYANA/src/main/java/com/example/cosmoconnect/service/CommentService.java:53-59 | The request's content and post id, the caller as author, no likes, and both timestamps now. |
| CommentService.CommentNotifications | Working-PAF/PAF-BACKEND-DAYANA/src/main/java/com/example/cosmoconnect/service/CommentService.java:65-73 | A COMMENT notification to the post's author iff the commenter is someone else. |
| CommentService.CommentTarget | Working-PAF/PAF-BACKEND-DAYANA/src/main/java/com/example/cosmoconnect/service/CommentService.java:36-50 | The user is checked before the post, each failing with its own message. A null post id is refused. |
| CommentService.Lookup | Working-PAF/PAF-BACKEND-DAYANA/src/main/java/com/example/cosmoconnect/service/CommentService.java:123-127 | The user is looked up before the comment ("Comment not found"). |
| CommentService.OwnedComment | Working-PAF/PAF-BACKEND-DAYANA/src/main/java/com/example/cosmoconnect/service/CommentService.java:129-131 | After the lookup, a non-author fails with "Not authorized to … this comment". |
| CommentService.EditChangesOnlyContent | Working-PAF/PAF-BACKEND-DAYANA/src/main/java/com/example/cosmoconnect/service/CommentService.java:133-134 | An edit changes only content and `updatedAt`. The view shows both, and a later edit overrides an earlier one. |
| CommentService.CommentLikeProperties | Working-PAF/PAF-BACKEND-DAYANA/src/main/java/com/example/cosmoconnect/service/CommentService.java:170-188 | Liking is idempotent and shows the comment liked. Unliking undoes a new like and, on duplicate-free likes, leaves it not liked. |
| CommentService.Service.CreateComment | Working-PAF/PAF-BACKEND-DAYANA/src/main/java/com/example/cosmoconnect/service/CommentService.java:31-76 | A failed lookup saves nothing. Otherwise exactly the new comment is saved and exactly CommentNotifications is sent. |
| CommentService.Service.UpdateComment | Working-PAF/PAF-BACKEND-DAYANA/src/main/java/com/example/cosmoconnect/service/CommentService.java:119-140 | A non-author changes nothing. The author's comment becomes Edit of it. |
| CommentService.Service.DeleteComment | Working-PAF/PAF-BACKEND-DAYANA/src/main/java/com/example/cosmoconnect/service/CommentService.java:142-158 | Only the author deletes, and only that comment is removed. |
| CommentService.Service.LikeComment | Working-PAF/PAF-BACKEND-DAYANA/src/main/java/com/example/cosmoconnect/service/CommentService.java:160-175 | Saved only for a new like; likes stay duplicate-free. |
| CommentService.Service.UnlikeComment | Working-PAF/PAF-BACKEND-DAYANA/src/main/java/com/example/cosmoconnect/service/CommentService.java:177-190 | Saves the comment with the first occurrence of the caller removed. |
| UserController.SelfFollowBreaksGraph | Working-PAF/PAF-BACKEND-DAYANA/src/main/java/com/example/cosmoconnect/controller/UserController.java:69-81 | As written, a user following themselves breaks consistency, and a repeat adds them to their followers again. |
| UserController.Follow | Working-PAF/PAF-BACKEND-DAYANA/src/main/java/com/example/cosmoconnect/controller/UserController.java:74-81 | The stored ids are unchanged. Only the caller's and the target's records may change. A self-follow updates both lists of the one record, correcting the as-written two-copy save. |
| UserController.FollowEdges | Working-PAF/PAF-BACKEND-DAYANA/src/main/java/com/example/cosmoconnect/controller/UserController.java:76-78 | The follow relation gains exactly the pair (caller, target) on both sides. |
| UserController.FollowKeepsGraph | Working-PAF/PAF-BACKEND-DAYANA/src/main/java/com/example/cosmoconnect/controller/UserController.java:76-81 | Follow keeps the graph consistent and duplicate-free. It puts the target in the caller's following and the caller in the target's followers, and leaves every other record untouched. |
| UserController.FollowRepeatChangesNothing | Working-PAF/PAF-BACKEND-DAYANA/src/main/java/com/example/cosmoconnect/controller/UserController.java:76 | Following a target already followed changes nothing. |
| UserController.SelfUnfollowBreaksGraph | Working-PAF/PAF-BACKEND-DAYANA/src/main/java/com/example/cosmoconnect/controller/UserController.java:88-99 | As written, a user who follows themselves and unfollows keeps themselves in their following but not in their followers, which breaks consistency; unfollowing again changes nothing. |
| UserController.Unfollow | Working-PAF/PAF-BACKEND-DAYANA/src/main/java/com/example/cosmoconnect/controller/UserController.java:93-100 | The stored ids are unchanged. Only the caller's and the target's records may change. A self-unfollow updates both lists of the one record, correcting the as-written two-copy save. |
| UserController.UnfollowEdges | Working-PAF/PAF-BACKEND-DAYANA/src/main/java/com/example/cosmoconnect/controller/UserController.java:95-97 | The follow relation loses exactly the pair (caller, target). The lists stay duplicate-free. |
| UserController.UnfollowKeepsGraph | Working-PAF/PAF-BACKEND-DAYANA/src/main/java/com/example/cosmoconnect/controller/UserController.java:95-100 | Unfollow keeps the graph consistent and removes the target from the caller's following. |
| UserController.FollowThenUnfollow | Working-PAF/PAF-BACKEND-DAYANA/src/main/java/com/example/cosmoconnect/controller/UserController.java:76-100 | A new follow then unfollow restores every user's following and followers. |
| UserController.FollowersFollow | Working-PAF/PAF-BACKEND-DAYANA/src/main/java/com/example/cosmoconnect/controller/UserController.java:104-109 | getFollowers lists exactly the stored users that follow the user, and none for an unknown user or a null list. |
| UserController.FollowingFollowedBy | Working-PAF/PAF-BACKEND-DAYANA/src/main/java/com/example/cosmoconnect/controller/UserController.java:111-116 | getFollowing lists exactly the stored users that have the user among their followers, and none for an unknown user or a null list. |
| UserController.Controller.Parties | Working-PAF/PAF-BACKEND-DAYANA/src/main/java/com/example/cosmoconnect/controller/UserController.java:68-73 | The caller by authentication name and the target by id are the stored records. A missing one means "User not found". |
| UserController.Controller.FollowUser | Working-PAF/PAF-BACKEND-DAYANA/src/main/java/com/example/cosmoconnect/controller/UserController.java:66-83 | 400 "User not found" with no change, or OK with the users updated by Follow; the follow graph is kept. |
| UserController.Controller.UnfollowUser | Working-PAF/PAF-BACKEND-DAYANA/src/main/java/com/example/cosmoconnect/controller/UserController.java:85-102 | 400 "User not found" with no change, or OK with the users updated by Unfollow (the corrected self-unfollow); the follow graph is kept. |
| UserController.FollowKeepsValid | Working-PAF/PAF-BACKEND-DAYANA/src/main/java/com/example/cosmoconnect/controller/UserController.java:76-81 | Follow keeps records keyed by id, emails unique, and the graph valid. |
| UserController.UnfollowKeepsValid | Working-PAF/PAF-BACKEND-DAYANA/src/main/java/com/example/cosmoconnect/controller/UserController.java:95-100 | Unfollow keeps records keyed by id, emails unique, and the graph valid. |
| UserController.FollowChangesOnlyLists | Working-PAF/PAF-BACKEND-DAYANA/src/main/java/com/example/cosmoconnect/controller/UserController.java:76-81 | A follow keeps the same stored users and changes no field of any record except its two follow lists. |
| UserController.UnfollowChangesOnlyLists | Working-PAF/PAF-BACKEND-DAYANA/src/main/java/com/example/cosmoconnect/controller/UserController.java:95-100 | An unfollow keeps the same stored users and changes no field of any record except its two follow lists. |
| LearningService.CopyFields | Working-PAF/PAF-BACKEND-DAYANA/src/main/java/com/example/cosmoconnect/service/LearningService.java:27-36 | The result is the incoming entry with the stored entry's id and owner. |
| LearningService.Upsert | Working-PAF/PAF-BACKEND-DAYANA/src/main/java/com/example/cosmoconnect/service/LearningService.java:19-46 | The returned entry has an id and is what is stored under it. Entries stay keyed by id. |
| LearningService.UpsertProperties | Working-PAF/PAF-BACKEND-DAYANA/src/main/java/com/example/cosmoconnect/service/LearningService.java:22-41 | An update keeps id and owner and takes every other field. An unknown id inserts the entry unchanged. A null id inserts it under the generated id. |
| LearningService.UpsertIdempotent | Working-PAF/PAF-BACKEND-DAYANA/src/main/java/com/example/cosmoconnect/service/LearningService.java:22-37 | Saving the same entry with an id twice changes nothing more. |
| LearningService.GetLearningById | Working-PAF/PAF-BACKEND-DAYANA/src/main/java/com/example/cosmoconnect/service/LearningService.java:71-84 | Found iff stored. Otherwise "Failed to fetch learning entry" wrapping the not-found or null-id cause. |
| LearningService.DeleteOutcome | Working-PAF/PAF-BACKEND-DAYANA/src/main/java/com/example/cosmoconnect/service/LearningService.java:58-69 | A stored id is removed and nothing else. Otherwise "Failed to delete learning entry" wrapping the cause, with nothing deleted. |
| LearningService.SaveDeleteFetch | Working-PAF/PAF-BACKEND-DAYANA/src/main/java/com/example/cosmoconnect/service/LearningService.java:19-84 | A saved entry is fetched back as saved, can be deleted, and after that is no longer found. |
| LearningService.GetLearningsByUserId | Working-PAF/PAF-BACKEND-DAYANA/src/main/java/com/example/cosmoconnect/service/LearningService.java:86-100 | A null or blank user id fails with "Failed to fetch learning entries for user: User ID cannot be null or empty". Otherwise the result is exactly the entries that user owns. |
| LearningService.Service.SaveOrUpdate | Working-PAF/PAF-BACKEND-DAYANA/src/main/java/com/example/cosmoconnect/service/LearningService.java:19-46 | The repository and the returned entry are those of Upsert. |
| LearningService.Service.DeleteLearning | Working-PAF/PAF-BACKEND-DAYANA/src/main/java/com/example/cosmoconnect/service/LearningService.java:58-69 | The repository and the result are those of DeleteOutcome. |
| CompetitionController.NewCompetition | Working-PAF/PAF-BACKEND-DAYANA/src/main/java/com/example/cosmoconnect/controller/CompetitionController.java:49 | A fresh competition has no id and no files. |
| CompetitionController.StripStoredDir | Working-PAF/PAF-BACKEND-DAYANA/src/main/java/com/example/cosmoconnect/controller/CompetitionController.java:63 | A leading "competitions/" is removed; any other name is kept. |
| CompetitionController.ExposedUrl | Working-PAF/PAF-BACKEND-DAYANA/src/main/java/com/example/cosmoconnect/controller/CompetitionController.java:61-69 | Every exposed URL starts with "/api/competitions/files/". |
| CompetitionController.ExposedRoundTrip | Working-PAF/PAF-BACKEND-DAYANA/src/main/java/com/example/cosmoconnect/controller/CompetitionController.java:125-162 | "competitions/X" is exposed as "/api/competitions/files/X", and rewriting that URL back gives the stored name used for deletion. |
| CompetitionController.UndirectedNameNotRecovered | Working-PAF/PAF-BACKEND-DAYANA/src/main/java/com/example/cosmoconnect/controller/CompetitionController.java:63-162 | A stored name outside "competitions/" does not round-trip: deletion targets a different name. |
| CompetitionController.ApplyForm | Working-PAF/PAF-BACKEND-DAYANA/src/main/java/com/example/cosmoconnect/controller/CompetitionController.java:112-121 | Succeeds iff both dates parse (otherwise DateTimeParseException, start date first). Id and files are kept. |
| CompetitionController.ApplyFormOverwrites | Working-PAF/PAF-BACKEND-DAYANA/src/main/java/com/example/cosmoconnect/controller/CompetitionController.java:112-121 | All ten fields come from the form whatever the competition held before. |
| CompetitionController.SlotReplacesStoredFile | Working-PAF/PAF-BACKEND-DAYANA/src/main/java/com/example/cosmoconnect/controller/CompetitionController.java:123-139 | A supplied file deletes the old stored file first; without one the slot is unchanged. |
| CompetitionController.FilesChangeOnlyWhenSupplied | Working-PAF/PAF-BACKEND-DAYANA/src/main/java/com/example/cosmoconnect/controller/CompetitionController.java:123-139 | Banner and instructions change only when a non-empty file is supplied. Everything else is kept. |
| CompetitionController.DeleteRemovesAttached | Working-PAF/PAF-BACKEND-DAYANA/src/main/java/com/example/cosmoconnect/controller/CompetitionController.java:156-162 | Deleting a competition with both files set removes both stored names, banner first. |
| CompetitionController.NewCompetitionNotAnnounced | Working-PAF/PAF-BACKEND-DAYANA/src/main/java/com/example/cosmoconnect/service/CompetitionService.java:36-48 | As written, a new competition gets an id but no user is notified. |
| CompetitionController.SaveAnnouncesNew | Working-PAF/PAF-BACKEND-DAYANA/src/main/java/com/example/cosmoconnect/service/CompetitionService.java:33-54 | With the id tested before the save, a new competition is stored under the generated id and announced to every user in order with its link. A stored one announces nothing. |
| CompetitionController.GetCompetitionById | Working-PAF/PAF-BACKEND-DAYANA/src/main/java/com/example/cosmoconnect/controller/CompetitionController.java:174-185 | 200 with the competition iff stored. Otherwise 404 "Error fetching competition: Failed to fetch competition: Competition not found with id: …". |
| CompetitionController.Service.SaveOrUpdate | Working-PAF/PAF-BACKEND-DAYANA/src/main/java/com/example/cosmoconnect/service/CompetitionService.java:33-54 | The loop sends Save's notifications in order, and the repository becomes Save's. This is the corrected new-record test, which reads the id from before the save (see the CompetitionService.java:36-48 Findings row); as written nothing is announced. |
| CompetitionController.Controller.StoreFiles | Working-PAF/PAF-BACKEND-DAYANA/src/main/java/com/example/cosmoconnect/controller/CompetitionController.java:61-139 | The file steps of add (lines 61-69) and edit (lines 123-139): the result and the storage deletes and stores are those of AttachFiles, each old file deleted before its replacement is stored. |
| CompetitionController.Controller.AddCompetition | Working-PAF/PAF-BACKEND-DAYANA/src/main/java/com/example/cosmoconnect/controller/CompetitionController.java:33-78 | 201 with the saved new competition, or 500 "Error creating competition: …" with nothing saved. The save is the corrected SaveOrUpdate, so the announcements are those of the corrected test (see the CompetitionService.java:36-48 Findings row). |
| CompetitionController.Controller.UpdateCompetition | Working-PAF/PAF-BACKEND-DAYANA/src/main/java/com/example/cosmoconnect/controller/CompetitionController.java:93-148 | 200 with the form and files applied to the stored competition, or 500 "Error updating competition: …". No notification is sent. |
| CompetitionController.Controller.DeleteCompetition | Working-PAF/PAF-BACKEND-DAYANA/src/main/java/com/example/cosmoconnect/controller/CompetitionController.java:150-172 | Deletes the attached files, then the record, and answers 200 "Competition deleted successfully". An unknown id answers 500 "Error deleting competition: …" with nothing deleted. |

## Left out

- HMAC-SHA256 signing and compact JWT parsing are library code. The provider carries them as uninterpreted `sign` and `parse` functions. End-to-end lemmas assume only that `parse` reads back what `sign` wrote.
- `URI.create` is an uninterpreted parse function. Host comparison folds ASCII letters only.
- The clock is an integer parameter (milliseconds). Generated ids, UUID file names, the storage outcome of each upload and `LocalDate.parse` results are parameters too.
- Password encoding and `AuthenticationManager.authenticate` are function parameters.
- The SecurityContextHolder thread-local, the servlet filter chain and the redirect strategy are small classes; thread safety is not modelled.
- Notification delivery (SMTP, Twilio, persistence) is not modelled. A notification is an entry appended to a log.
- File storage is a log of stored and deleted names. Failures of `deleteFile` are not modelled.
- Repository failures are not modelled. The `catch` blocks of LearningService.saveorUpdate and CompetitionService.saveorUpdate are therefore unreachable.
- HashSet and `findAll` iteration order: roles are a sequence in a fixed order, and `findAll` order is the given recipient list.
- The JSON parsing of `postJson` in the multipart handlers is not modelled; the DTO is given already parsed.
- Query order is not modelled: the feed's `createdAt` descending order, and `findAllById` for followers and following (modelled as a set).
- Double-precision `timeSpentInHours` is a real that is only copied.
- PostService.createPostWithMedia, getUserPosts and getAllPublicPosts are not modelled, nor CommentService.getPostComments. They are reads or a variant of paths that are modelled.
- LearningService.listAll, CompetitionController.getCompetitions and serveFile are not modelled. They are plain reads and file streaming.
- CompetitionService.getCompetitionByID and deleteCompetition are modelled only through the controller, which is how they are reached.
- CompetitionService.save/update is not modelled; the controller does not call it.
- Working-PAF/PAF-BACKEND-DAYANA/src/main/java/com/example/cosmoconnect/model/Competition.java is not part of this model. The competition fields follow src/main/java/com/example/cosmoconnect/Entity/Competition.java.
- The claims hold whole seconds, so a lifetime under one second can give `exp == iat` (see JwtTokenProvider.SubSecondLifetimeExpiresAtIssue, at issue time 0).
- JwtTokenProvider.ExtractAuthorities: its own contract states only the default and well-formedness. The exact decoding is stated by RolesRoundTrip and CommasOnlyDecodeToNothing.
- OAuth2SuccessHandler.DetermineTargetUrl: UriComponentsBuilder re-serializes the query, grouping repeated names and dropping empty segments (`?a=1&b=2&a=3` becomes `?a=1&a=3&b=2&token=…`). AppendTokenParam keeps the query as written, so it matches only queries of distinct, non-empty, named parameters.
- JwtAuthenticationFilter.DoFilterInternal: the rest of the chain is modelled by its invocation count and the exception it throws, not by what it writes. An exception thrown after the chain has committed the response is answered as if the response were still open.
- PostController.StoreMedia: storeFile is taken to fail only with an IOException. A file name without "." (StringIndexOutOfBoundsException) or a null name (NullPointerException) at PostFileStorageService.java:31 reaches the multipart handlers with its own kind, which the model does not represent. PostService.StoreUploads makes the same assumption.
- CompetitionController.Controller.StoreFiles: the competition file storage service is not part of this model; its storeFile is likewise taken to fail only with an IOException.
- JavaLists.LessThan compares characters by code point. String.compareTo compares UTF-16 units, which differs only for characters outside the Basic Multilingual Plane.

## Findings

| source | as written | input that shows it | evidently intended | confidence | as-written member | corrected member |
|---|---|---|---|---|---|---|
| Working-PAF/PAF-BACKEND-DAYANA/src/main/java/com/example/cosmoconnect/controller/UserController.java:69-81 | Caller and target are loaded as two separate copies. Each copy is changed and saved, so when they are the same user the second save overwrites the first. | User "u" follows "u": the stored record lists "u" among its followers but not in its following, and a second follow adds "u" again. | Follow adds the pair on both sides of one record, keeping "B follows A iff A lists B as follower". | not executed | UserController.SelfFollowBreaksGraph | UserController.FollowKeepsGraph |
| Working-PAF/PAF-BACKEND-DAYANA/src/main/java/com/example/cosmoconnect/controller/UserController.java:88-99 | Caller and target are loaded as two separate copies. The caller's copy loses the target from its following, the target's copy loses the caller from its followers, and the target's copy is saved last. | User "u" with following ["u"] and followers ["u"] (the record a corrected self-follow leaves) unfollows "u": the stored record keeps "u" in its following but not in its followers, and a second unfollow changes nothing. | Unfollow removes the pair on both sides of one record, keeping "B follows A iff A lists B as follower". | not executed | UserController.SelfUnfollowBreaksGraph | UserController.UnfollowKeepsGraph |
| Working-PAF/PAF-BACKEND-DAYANA/src/main/java/com/example/cosmoconnect/service/CompetitionService.java:36-48 | The "new competition" test reads the id of the object after `save`, which assigns the generated id to that same object. | Saving a competition without an id while one user exists sends no notification. | New competitions are announced to every user. | not executed | CompetitionController.NewCompetitionNotAnnounced | CompetitionController.SaveAnnouncesNew |
