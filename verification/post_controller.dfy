/**
 * PostController: resolving the caller's email from the Authentication, building the
 * public URLs of uploaded media, and the multipart create/update and like/unlike handlers
 * that delegate to PostService.
 */
module PostController {
  import opened Wrappers
  import opened Failures
  import opened JavaStrings
  import opened Security
  import opened UserQueries
  import opened Effects
  import PS = PostService

  // ---------------------------------------------------------------------------
  // getUserEmail

  /** getUserEmail(authentication): the OAuth2 email attribute (required), the UserDetails
      username, or for any other principal the authentication's name. A null principal fails
      when its class is asked for. */
  function GetUserEmail(auth: Option<Authentication>): (r: Result<string, Exception>)
    ensures auth.None? ==> r == Failure(Throw(IllegalState, "No authentication present"))
    ensures auth.Some? && auth.value.principal.None? ==> r.Failure? && r.error.kind == NullPointer
    ensures auth.Some? && auth.value.principal.Some? && auth.value.principal.value.OAuth2User? ==>
              var p := auth.value.principal.value;
              (r.Success? <==> "email" in p.attributes && p.attributes["email"].Some?)
              && (r.Success? ==> r.value == p.attributes["email"].value)
              && (r.Failure? ==> r.error == Throw(IllegalState, "Email not found in OAuth2User attributes"))
    ensures auth.Some? && auth.value.principal.Some? && auth.value.principal.value.UserDetails? ==>
              r == Success(auth.value.principal.value.username)
    ensures auth.Some? && auth.value.principal.Some? && auth.value.principal.value.OtherPrincipal? ==>
              r == Name(auth.value)
  {
    match auth
    case None => Failure(Throw(IllegalState, "No authentication present"))
    case Some(a) =>
      match a.principal
      case None => Failure(Throw(NullPointer, "principal is null"))
      case Some(p) =>
        if p.OAuth2User? then
          var email := Attribute(p, "email");
          if email.None? then Failure(Throw(IllegalState, "Email not found in OAuth2User attributes"))
          else Success(email.value)
        else if p.UserDetails? then Success(p.username)
        else Name(a)
  }

  /** The email never falls back to the authentication name for an OAuth2 principal, and a
      principal of any other kind always resolves. */
  lemma EmailResolution(a: Authentication)
    requires a.principal.Some?
    ensures a.principal.value.OAuth2User? && Attribute(a.principal.value, "email").None? ==>
              GetUserEmail(Some(a)).Failure?
    ensures a.principal.value.OtherPrincipal? ==> GetUserEmail(Some(a)) == Success(a.principal.value.display)
    ensures a.principal.value.UserDetails? ==> GetUserEmail(Some(a)).Success?
  {
  }

  // ---------------------------------------------------------------------------
  // Media URLs

  const StoredPrefix := "posts/"
  const FilesPath := "/api/posts/files/"

  /** The path PostFileStorageService.storeFile returns for a file kept under `name`. */
  function StoredPath(name: string): string {
    StoredPrefix + name
  }

  /** The public URL of a stored path: the files endpoint followed by the path without its
      first six characters. */
  function MediaUrl(storedPath: string): string
    requires |storedPath| >= |StoredPrefix|
  {
    FilesPath + storedPath[|StoredPrefix|..]
  }

  /** The URL of a stored file ends in the name it was stored under. */
  lemma MediaUrlOfStored(name: string)
    ensures MediaUrl(StoredPath(name)) == FilesPath + name
    ensures StartsWith(MediaUrl(StoredPath(name)), FilesPath)
  {
    StartsWithConcat(StoredPrefix, name);
    StartsWithConcat(FilesPath, name);
  }

  /** The names the storage kept before its first IOException. */
  function StoredNames(outcomes: seq<Result<string, string>>): seq<string> {
    PS.StoredBeforeFailure(outcomes)
  }

  /** One URL per stored file, in upload order. */
  function UrlsFor(names: seq<string>): (urls: seq<string>)
    ensures |urls| == |names|
    ensures forall k | 0 <= k < |names| :: urls[k] == FilesPath + names[k]
  {
    if names == [] then []
    else
      MediaUrlOfStored(names[0]);
      [MediaUrl(StoredPath(names[0]))] + UrlsFor(names[1..])
  }

  lemma {:induction false} UrlsForAppend(names: seq<string>, name: string)
    ensures UrlsFor(names + [name]) == UrlsFor(names) + [FilesPath + name]
  {
    var a := UrlsFor(names + [name]);
    var b := UrlsFor(names) + [FilesPath + name];
    assert |a| == |b|;
    forall k | 0 <= k < |a| ensures a[k] == b[k] {
      assert (names + [name])[k] == if k < |names| then names[k] else name;
    }
  }

  /** Stores each uploaded file, in order, and collects its public URL; the first
      IOException ends the loop and propagates, the files stored before it staying stored. */
  method StoreMedia(outcomes: seq<Result<string, string>>, store: FileStore)
    returns (r: Result<seq<string>, Exception>)
    modifies store
    ensures store.stored == old(store.stored) + StoredPaths(StoredNames(outcomes))
    ensures store.deleted == old(store.deleted)
    ensures PS.FirstStoreFailure(outcomes).None? ==> r == Success(UrlsFor(StoredNames(outcomes)))
    ensures PS.FirstStoreFailure(outcomes).Some? ==> r == Failure(Throw(IO, PS.FirstStoreFailure(outcomes).value))
  {
    ghost var names := StoredNames(outcomes);
    var urls := [];
    var i := 0;
    while i < |outcomes|
      invariant 0 <= i <= |outcomes|
      invariant forall k | 0 <= k < i :: outcomes[k].Success?
      invariant i <= |names|
      invariant urls == UrlsFor(names[..i])
      invariant store.stored == old(store.stored) + StoredPaths(names[..i])
      invariant store.deleted == old(store.deleted)
    {
      match outcomes[i]
      case Failure(message) =>
        PS.FailureAt(outcomes, i);
        assert names[..i] == names;
        return Failure(Throw(IO, message));
      case Success(name) =>
        PS.StoredPrefix(outcomes, i + 1);
        assert names[..i + 1] == names[..i] + [name];
        UrlsForAppend(names[..i], name);
        StoredPathsAppend(names[..i], name);
        store.Store(StoredPath(name));
        MediaUrlOfStored(name);
        urls := urls + [MediaUrl(StoredPath(name))];
        i := i + 1;
    }
    PS.StoredPrefix(outcomes, |outcomes|);
    assert names[..i] == names;
    r := Success(urls);
  }

  /** The paths the storage returned for the stored names, in order. */
  function StoredPaths(names: seq<string>): (paths: seq<string>)
    ensures |paths| == |names|
    ensures forall k | 0 <= k < |names| :: paths[k] == StoredPath(names[k])
  {
    seq(|names|, k requires 0 <= k < |names| => StoredPath(names[k]))
  }

  lemma StoredPathsAppend(names: seq<string>, name: string)
    ensures StoredPaths(names + [name]) == StoredPaths(names) + [StoredPath(name)]
  {
    var a := StoredPaths(names + [name]);
    var b := StoredPaths(names) + [StoredPath(name)];
    forall k | 0 <= k < |a| ensures a[k] == b[k] {
      assert (names + [name])[k] == if k < |names| then names[k] else name;
    }
  }

  // ---------------------------------------------------------------------------
  // The request DTOs of the multipart handlers

  /** createPostMultipart: with files, the DTO's media URLs are replaced by the new ones. */
  function CreateDto(dto: PS.PostDto, names: seq<string>, uploaded: bool): (d: PS.PostDto)
    ensures !uploaded ==> d == dto
    ensures uploaded ==> d == dto.(mediaUrls := Some(UrlsFor(names)))
  {
    if uploaded then dto.(mediaUrls := Some(UrlsFor(names))) else dto
  }

  /** updatePostMultipart: with files, the new URLs follow the DTO's own media URLs. */
  function UpdateDto(dto: PS.PostDto, names: seq<string>, uploaded: bool): (d: PS.PostDto)
    ensures !uploaded ==> d == dto
    ensures uploaded ==> d == dto.(mediaUrls := Some(dto.mediaUrls.GetOr([]) + UrlsFor(names)))
  {
    if uploaded then dto.(mediaUrls := Some(dto.mediaUrls.GetOr([]) + UrlsFor(names))) else dto
  }

  /** On update the DTO's URLs are kept in front and one new URL per stored file follows,
      in upload order; on create only the new URLs remain. */
  lemma UploadedUrlsOrder(dto: PS.PostDto, names: seq<string>)
    ensures var urls := UpdateDto(dto, names, true).mediaUrls.value;
            var kept := dto.mediaUrls.GetOr([]);
            |urls| == |kept| + |names| && urls[..|kept|] == kept
            && forall k | 0 <= k < |names| :: urls[|kept| + k] == FilesPath + names[k]
    ensures var urls := CreateDto(dto, names, true).mediaUrls.value;
            |urls| == |names| && forall k | 0 <= k < |names| :: urls[k] == FilesPath + names[k]
  {
  }

  // ---------------------------------------------------------------------------
  // The handlers

  class Controller {
    const service: PS.Service
    const files: FileStore

    constructor (service: PS.Service, files: FileStore)
      ensures this.service == service && this.files == files
    {
      this.service := service;
      this.files := files;
    }

    predicate Valid()
      reads this, service, service.posts, service.users
    {
      service.Valid()
    }

    /** createPostMultipart(postJson, media, authentication), with the request body already
        read into `dto` and `outcomes[k]` the storage result for the k-th file. */
    method CreatePostMultipart(auth: Option<Authentication>, dto: PS.PostDto,
                               outcomes: seq<Result<string, string>>, newId: string, nowMs: int)
      returns (r: Result<PS.PostDto, Exception>)
      requires Valid() && newId !in service.posts.entries
      modifies service.posts, files
      ensures Valid()
      ensures files.deleted == old(files.deleted)
      ensures var e := GetUserEmail(auth);
              (e.Failure? ==> r == Failure(e.error) && service.posts.entries == old(service.posts.entries)
                              && files.stored == old(files.stored))
              && (e.Success? ==>
                    files.stored == old(files.stored) + StoredPaths(StoredNames(outcomes))
                    && (PS.FirstStoreFailure(outcomes).Some? ==>
                          r == Failure(Throw(IO, PS.FirstStoreFailure(outcomes).value))
                          && service.posts.entries == old(service.posts.entries))
                    && (PS.FirstStoreFailure(outcomes).None? ==>
                          var d := CreateDto(dto, StoredNames(outcomes), outcomes != []);
                          (!ExistsByEmail(service.users.entries, e.value) ==>
                             r == Failure(Throw(ResourceNotFound, PS.UserNotFound(e.value)))
                             && service.posts.entries == old(service.posts.entries))
                          && (ExistsByEmail(service.users.entries, e.value) ==>
                                var author := FindByEmail(service.users.entries, e.value).value;
                                var p := PS.NewPost(newId, d, author, nowMs);
                                service.posts.entries == old(service.posts.entries)[newId := p]
                                && r == Success(PS.ConvertToDto(p, author.id)))))
    {
      var e := GetUserEmail(auth);
      if e.Failure? {
        return Failure(e.error);
      }
      var d := dto;
      if |outcomes| > 0 {
        var urls := StoreMedia(outcomes, files);
        if urls.Failure? {
          return Failure(urls.error);
        }
        d := dto.(mediaUrls := Some(urls.value));
      } else {
        assert StoredNames(outcomes) == [];
      }
      r := service.CreatePost(d, e.value, newId, nowMs);
    }

    /** updatePostMultipart(postId, postJson, media, authentication) */
    method UpdatePostMultipart(auth: Option<Authentication>, postId: string, dto: PS.PostDto,
                               outcomes: seq<Result<string, string>>, nowMs: int)
      returns (r: Result<PS.PostDto, Exception>)
      requires Valid()
      modifies service.posts, files
      ensures Valid()
      ensures files.deleted == old(files.deleted)
      ensures var e := GetUserEmail(auth);
              (e.Failure? ==> r == Failure(e.error) && service.posts.entries == old(service.posts.entries)
                              && files.stored == old(files.stored))
              && (e.Success? ==>
                    files.stored == old(files.stored) + StoredPaths(StoredNames(outcomes))
                    && (PS.FirstStoreFailure(outcomes).Some? ==>
                          r == Failure(Throw(IO, PS.FirstStoreFailure(outcomes).value))
                          && service.posts.entries == old(service.posts.entries))
                    && (PS.FirstStoreFailure(outcomes).None? ==>
                          var d := UpdateDto(dto, StoredNames(outcomes), outcomes != []);
                          var o := PS.OwnedPost(old(service.posts.entries), service.users.entries, postId, e.value, "update");
                          (o.Failure? ==> r == Failure(o.error) && service.posts.entries == old(service.posts.entries))
                          && (o.Success? ==>
                                var p := PS.ApplyUpdate(o.value.0, d, nowMs);
                                service.posts.entries == old(service.posts.entries)[postId := p]
                                && r == Success(PS.ConvertToDto(p, o.value.1.id)))))
    {
      var e := GetUserEmail(auth);
      if e.Failure? {
        return Failure(e.error);
      }
      var d := dto;
      if |outcomes| > 0 {
        var urls := StoreMedia(outcomes, files);
        if urls.Failure? {
          return Failure(urls.error);
        }
        d := dto.(mediaUrls := Some(dto.mediaUrls.GetOr([]) + urls.value));
      } else {
        assert StoredNames(outcomes) == [];
      }
      r := service.UpdatePost(postId, d, e.value, nowMs);
    }

    /** likePost(postId, authentication): likes, then returns the post as re-read, which the
        caller now sees as liked. */
    method LikePost(auth: Option<Authentication>, postId: string) returns (r: Result<PS.PostDto, Exception>)
      requires Valid()
      modifies service.posts, service.notifications
      ensures Valid()
      ensures var e := GetUserEmail(auth);
              (e.Failure? ==> r == Failure(e.error) && service.posts.entries == old(service.posts.entries)
                              && service.notifications.sent == old(service.notifications.sent))
              && (e.Success? ==>
                    var l := PS.Lookup(old(service.posts.entries), service.users.entries, postId, e.value);
                    (l.Failure? ==> r == Failure(l.error) && service.posts.entries == old(service.posts.entries)
                                    && service.notifications.sent == old(service.notifications.sent))
                    && (l.Success? ==>
                          var (p, u) := l.value;
                          service.posts.entries == (if u.id in p.likes then old(service.posts.entries)
                                                    else old(service.posts.entries)[postId := PS.Like(p, u.id)])
                          && service.notifications.sent == old(service.notifications.sent) + PS.LikeNotifications(p, u)
                          && r == PS.GetPost(service.posts.entries, service.users.entries, postId, e.value)
                          && r.Success? && r.value.isLiked
                          && r.value.likeCount == |p.likes| + (if u.id in p.likes then 0 else 1)))
    {
      var e := GetUserEmail(auth);
      if e.Failure? {
        return Failure(e.error);
      }
      var done := service.LikePost(postId, e.value);
      if done.Failure? {
        return Failure(done.error);
      }
      r := PS.GetPost(service.posts.entries, service.users.entries, postId, e.value);
    }

    /** unlikePost(postId, authentication): unlikes, then returns the post as re-read, which
        the caller no longer sees as liked. */
    method UnlikePost(auth: Option<Authentication>, postId: string) returns (r: Result<PS.PostDto, Exception>)
      requires Valid()
      modifies service.posts
      ensures Valid()
      ensures var e := GetUserEmail(auth);
              (e.Failure? ==> r == Failure(e.error) && service.posts.entries == old(service.posts.entries))
              && (e.Success? ==>
                    var l := PS.Lookup(old(service.posts.entries), service.users.entries, postId, e.value);
                    (l.Failure? ==> r == Failure(l.error) && service.posts.entries == old(service.posts.entries))
                    && (l.Success? ==>
                          service.posts.entries == old(service.posts.entries)[postId := PS.Unlike(l.value.0, l.value.1.id)]
                          && r == PS.GetPost(service.posts.entries, service.users.entries, postId, e.value)
                          && r.Success? && !r.value.isLiked))
    {
      var e := GetUserEmail(auth);
      if e.Failure? {
        return Failure(e.error);
      }
      ghost var l := PS.Lookup(service.posts.entries, service.users.entries, postId, e.value);
      if l.Success? {
        PS.UnlikeUndoesLike(l.value.0, l.value.1.id);
      }
      var done := service.UnlikePost(postId, e.value);
      if done.Failure? {
        return Failure(done.error);
      }
      r := PS.GetPost(service.posts.entries, service.users.entries, postId, e.value);
    }
  }
}
