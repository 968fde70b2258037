/**
 * PostService: posts with their likes, author-only partial updates (with or without new
 * media files), deletion, the feed and the DTO view of a post.
 *
 * A post is a value; the `posts` repository is a map from post id to post that the service
 * methods update in place. The post's author is the referenced user record as loaded with
 * the post. Timestamps are integers supplied by the caller.
 */
module PostService {
  import opened Wrappers
  import opened Failures
  import opened JavaStrings
  import opened JavaLists
  import opened UserModel
  import opened Repositories
  import opened UserQueries
  import opened Effects

  /** Post.Poll and PostDto.PollDto, which hold the same three fields. */
  datatype Poll = Poll(question: Option<string>, options: Option<seq<string>>, votes: Option<map<string, int>>)

  /** A stored post. `comments` holds the ids of the embedded comments; only their number
      is read by the modelled code. */
  datatype Post = Post(
    id: string,
    title: Option<string>,
    description: Option<string>,
    content: Option<string>,
    mediaUrls: Option<seq<string>>,
    mediaType: Option<string>,
    telescopeUsed: Option<string>,
    location: Option<string>,
    celestialObject: Option<string>,
    observationDateTime: Option<int>,
    observationConditions: Option<string>,
    author: User,
    createdAt: Option<int>,
    updatedAt: Option<int>,
    likes: seq<string>,
    comments: seq<string>,
    isPublic: bool,
    coordinates: Option<string>,
    exposureTime: Option<string>,
    equipmentDetails: Option<string>,
    processingDetails: Option<string>,
    category: Option<string>,
    skillTags: Option<seq<string>>,
    poll: Option<Poll>,
    animationType: Option<string>)

  /** PostDto: the request body of create and update, and the view returned to clients. */
  datatype PostDto = PostDto(
    id: Option<string>,
    title: Option<string>,
    description: Option<string>,
    content: Option<string>,
    mediaUrls: Option<seq<string>>,
    mediaType: Option<string>,
    telescopeUsed: Option<string>,
    location: Option<string>,
    celestialObject: Option<string>,
    observationDateTime: Option<int>,
    observationConditions: Option<string>,
    authorId: Option<string>,
    authorName: Option<string>,
    authorImageUrl: Option<string>,
    createdAt: Option<int>,
    updatedAt: Option<int>,
    likeCount: int,
    commentCount: int,
    isLiked: bool,
    isPublic: bool,
    coordinates: Option<string>,
    exposureTime: Option<string>,
    equipmentDetails: Option<string>,
    processingDetails: Option<string>,
    category: Option<string>,
    skillTags: Option<seq<string>>,
    poll: Option<Poll>,
    animationType: Option<string>,
    removedMedia: Option<seq<string>>)

  /** An uploaded multipart file, as far as the service looks at it. */
  datatype UploadedFile = UploadedFile(contentType: Option<string>)

  // ---------------------------------------------------------------------------
  // The DTO view

  /** convertToDto(post, currentUserId) */
  function ConvertToDto(post: Post, currentUserId: string): (dto: PostDto)
    ensures dto.likeCount == |post.likes| && dto.commentCount == |post.comments|
    ensures dto.isLiked <==> currentUserId in post.likes
    ensures dto.id == Some(post.id) && dto.authorId == Some(post.author.id)
    ensures dto.removedMedia.None?
  {
    PostDto(Some(post.id), post.title, post.description, post.content, post.mediaUrls,
            post.mediaType, post.telescopeUsed, post.location, post.celestialObject,
            post.observationDateTime, post.observationConditions, Some(post.author.id),
            post.author.fullName, post.author.imageUrl, post.createdAt, post.updatedAt,
            |post.likes|, |post.comments|, currentUserId in post.likes, post.isPublic,
            post.coordinates, post.exposureTime, post.equipmentDetails, post.processingDetails,
            post.category, post.skillTags, post.poll, post.animationType, None)
  }

  // ---------------------------------------------------------------------------
  // Likes

  /** likePost's change to the post: the user id is added unless already present. */
  function Like(post: Post, userId: string): Post {
    post.(likes := AddIfAbsent(post.likes, userId))
  }

  /** unlikePost's change to the post: the first occurrence of the user id is removed. */
  function Unlike(post: Post, userId: string): Post {
    post.(likes := RemoveFirst(post.likes, userId))
  }

  /** Liking is idempotent and keeps the likes free of duplicates; the liker then sees the
      post as liked, and the count grew by one exactly when the like is new. */
  lemma LikeIdempotent(post: Post, userId: string)
    ensures Like(Like(post, userId), userId) == Like(post, userId)
    ensures NoDuplicates(post.likes) ==> NoDuplicates(Like(post, userId).likes)
    ensures ConvertToDto(Like(post, userId), userId).isLiked
    ensures ConvertToDto(Like(post, userId), userId).likeCount
            == |post.likes| + (if userId in post.likes then 0 else 1)
  {
  }

  /** Unliking undoes a new like, and on duplicate-free likes leaves the user not liking. */
  lemma UnlikeUndoesLike(post: Post, userId: string)
    ensures userId !in post.likes ==> Unlike(Like(post, userId), userId) == post
    ensures NoDuplicates(post.likes) ==>
              !ConvertToDto(Unlike(post, userId), userId).isLiked
              && NoDuplicates(Unlike(post, userId).likes)
    ensures userId !in post.likes ==> Unlike(post, userId) == post
  {
    if userId !in post.likes {
      AddThenRemove(post.likes, userId);
      assert Unlike(Like(post, userId), userId).likes == post.likes;
    }
    if NoDuplicates(post.likes) {
      RemoveFirstFromDistinct(post.likes, userId);
    }
  }

  /** The notification a like sends: to the author, for a new like by someone else. */
  function LikeNotifications(post: Post, liker: User): (r: seq<Notification>)
    ensures |r| <= 1
    ensures r != [] <==> liker.id !in post.likes && post.author.id != liker.id
    ensures r != [] ==> r[0].recipientId == post.author.id && r[0].kind == "LIKE"
  {
    if liker.id !in post.likes && post.author.id != liker.id then
      [Notification(post.author.id, "LIKE",
                    NullToString(liker.fullName) + " liked your post: " + NullToString(post.title),
                    "/posts/" + post.id)]
    else []
  }

  // ---------------------------------------------------------------------------
  // Lookups and the ownership check

  const PostNotFound := "Post not found"

  function UserNotFound(email: string): string {
    "User not found with email: " + email
  }

  /** Every post is stored under its own id. */
  predicate PostsKeyed(posts: map<string, Post>) {
    forall id | id in posts :: posts[id].id == id
  }

  /** No stored post lists a liker twice. */
  predicate LikesDistinct(posts: map<string, Post>) {
    forall id | id in posts :: NoDuplicates(posts[id].likes)
  }

  /** findById(postId) then findByEmail(userEmail), each failing with its own message. */
  function Lookup(posts: map<string, Post>, users: map<string, User>, postId: string, userEmail: string)
    : (r: Result<(Post, User), Exception>)
    requires WellKeyed(users) && UniqueEmails(users)
    ensures r.Success? <==> postId in posts && ExistsByEmail(users, userEmail)
    ensures postId !in posts ==> r == Failure(Throw(ResourceNotFound, PostNotFound))
    ensures postId in posts && !ExistsByEmail(users, userEmail) ==>
              r == Failure(Throw(ResourceNotFound, UserNotFound(userEmail)))
    ensures r.Success? ==> r.value.0 == posts[postId] && r.value.1.email == Some(userEmail)
                           && r.value.1.id in users && users[r.value.1.id] == r.value.1
  {
    if postId !in posts then Failure(Throw(ResourceNotFound, PostNotFound))
    else match FindByEmail(users, userEmail)
      case None => Failure(Throw(ResourceNotFound, UserNotFound(userEmail)))
      case Some(u) => Success((posts[postId], u))
  }

  /** Lookup followed by the author check of update, update-with-media and delete. */
  function OwnedPost(posts: map<string, Post>, users: map<string, User>, postId: string,
                     userEmail: string, action: string): (r: Result<(Post, User), Exception>)
    requires WellKeyed(users) && UniqueEmails(users)
    ensures r.Success? <==> Lookup(posts, users, postId, userEmail).Success?
                            && posts[postId].author.id == Lookup(posts, users, postId, userEmail).value.1.id
    ensures Lookup(posts, users, postId, userEmail).Failure? ==> r == Lookup(posts, users, postId, userEmail)
    ensures Lookup(posts, users, postId, userEmail).Success? && r.Failure? ==>
              r.error == Throw(Runtime, "Not authorized to " + action + " this post")
    ensures r.Success? ==> r == Lookup(posts, users, postId, userEmail)
  {
    match Lookup(posts, users, postId, userEmail)
    case Failure(e) => Failure(e)
    case Success(pu) =>
      if pu.0.author.id != pu.1.id then Failure(Throw(Runtime, "Not authorized to " + action + " this post"))
      else Success(pu)
  }

  // ---------------------------------------------------------------------------
  // Partial updates

  /** A null DTO value keeps the stored one. */
  function Override<T>(incoming: Option<T>, current: Option<T>): Option<T> {
    if incoming.Some? then incoming else current
  }

  /** The fields both update paths copy when the DTO supplies them. */
  function OverrideDetails(post: Post, dto: PostDto): Post {
    post.(title := Override(dto.title, post.title),
          description := Override(dto.description, post.description),
          content := Override(dto.content, post.content),
          telescopeUsed := Override(dto.telescopeUsed, post.telescopeUsed),
          location := Override(dto.location, post.location),
          celestialObject := Override(dto.celestialObject, post.celestialObject),
          observationDateTime := Override(dto.observationDateTime, post.observationDateTime),
          observationConditions := Override(dto.observationConditions, post.observationConditions),
          coordinates := Override(dto.coordinates, post.coordinates),
          exposureTime := Override(dto.exposureTime, post.exposureTime),
          equipmentDetails := Override(dto.equipmentDetails, post.equipmentDetails),
          processingDetails := Override(dto.processingDetails, post.processingDetails),
          category := Override(dto.category, post.category),
          skillTags := Override(dto.skillTags, post.skillTags))
  }

  /** updatePost's change to the post: the supplied fields (media and poll included) replace
      the stored ones, and updatedAt and isPublic are always set. */
  function ApplyUpdate(post: Post, dto: PostDto, nowMs: int): Post {
    OverrideDetails(post, dto).(
      mediaUrls := Override(dto.mediaUrls, post.mediaUrls),
      mediaType := Override(dto.mediaType, post.mediaType),
      poll := Override(dto.poll, post.poll),
      updatedAt := Some(nowMs),
      isPublic := dto.isPublic)
  }

  /** The DTO fields updatePost copies, all null. */
  predicate SuppliesNothing(dto: PostDto) {
    dto.title.None? && dto.description.None? && dto.content.None? && dto.mediaUrls.None?
    && dto.mediaType.None? && dto.telescopeUsed.None? && dto.location.None?
    && dto.celestialObject.None? && dto.observationDateTime.None?
    && dto.observationConditions.None? && dto.coordinates.None? && dto.exposureTime.None?
    && dto.equipmentDetails.None? && dto.processingDetails.None? && dto.category.None?
    && dto.skillTags.None? && dto.poll.None?
  }

  /** The view of the updated post shows every value the request supplied. */
  predicate ShowsSupplied(view: PostDto, dto: PostDto) {
    (dto.title.Some? ==> view.title == dto.title)
    && (dto.description.Some? ==> view.description == dto.description)
    && (dto.content.Some? ==> view.content == dto.content)
    && (dto.mediaUrls.Some? ==> view.mediaUrls == dto.mediaUrls)
    && (dto.mediaType.Some? ==> view.mediaType == dto.mediaType)
    && (dto.telescopeUsed.Some? ==> view.telescopeUsed == dto.telescopeUsed)
    && (dto.location.Some? ==> view.location == dto.location)
    && (dto.celestialObject.Some? ==> view.celestialObject == dto.celestialObject)
    && (dto.observationDateTime.Some? ==> view.observationDateTime == dto.observationDateTime)
    && (dto.observationConditions.Some? ==> view.observationConditions == dto.observationConditions)
    && (dto.coordinates.Some? ==> view.coordinates == dto.coordinates)
    && (dto.exposureTime.Some? ==> view.exposureTime == dto.exposureTime)
    && (dto.equipmentDetails.Some? ==> view.equipmentDetails == dto.equipmentDetails)
    && (dto.processingDetails.Some? ==> view.processingDetails == dto.processingDetails)
    && (dto.category.Some? ==> view.category == dto.category)
    && (dto.skillTags.Some? ==> view.skillTags == dto.skillTags)
    && (dto.poll.Some? ==> view.poll == dto.poll)
  }

  /** An update shows the supplied values, keeps the post's identity, author, creation time,
      likes, comments and animation hint, is idempotent, and with nothing supplied changes
      only updatedAt and isPublic. */
  lemma UpdateProperties(post: Post, dto: PostDto, nowMs: int, viewer: string)
    ensures ShowsSupplied(ConvertToDto(ApplyUpdate(post, dto, nowMs), viewer), dto)
    ensures var r := ApplyUpdate(post, dto, nowMs);
            r.id == post.id && r.author == post.author && r.createdAt == post.createdAt
            && r.likes == post.likes && r.comments == post.comments
            && r.animationType == post.animationType
            && r.updatedAt == Some(nowMs) && r.isPublic == dto.isPublic
    ensures ApplyUpdate(ApplyUpdate(post, dto, nowMs), dto, nowMs) == ApplyUpdate(post, dto, nowMs)
    ensures SuppliesNothing(dto) ==>
              ApplyUpdate(post, dto, nowMs) == post.(updatedAt := Some(nowMs), isPublic := dto.isPublic)
  {
    UpdateShowsSupplied(post, dto, nowMs, viewer);
    UpdateKeepsIdentity(post, dto, nowMs);
    UpdateIdempotent(post, dto, nowMs);
  }

  lemma UpdateShowsSupplied(post: Post, dto: PostDto, nowMs: int, viewer: string)
    ensures ShowsSupplied(ConvertToDto(ApplyUpdate(post, dto, nowMs), viewer), dto)
  {
  }

  lemma UpdateKeepsIdentity(post: Post, dto: PostDto, nowMs: int)
    ensures var r := ApplyUpdate(post, dto, nowMs);
            r.id == post.id && r.author == post.author && r.createdAt == post.createdAt
            && r.likes == post.likes && r.comments == post.comments
            && r.animationType == post.animationType
            && r.updatedAt == Some(nowMs) && r.isPublic == dto.isPublic
  {
  }

  lemma UpdateIdempotent(post: Post, dto: PostDto, nowMs: int)
    ensures ApplyUpdate(ApplyUpdate(post, dto, nowMs), dto, nowMs) == ApplyUpdate(post, dto, nowMs)
    ensures SuppliesNothing(dto) ==>
              ApplyUpdate(post, dto, nowMs) == post.(updatedAt := Some(nowMs), isPublic := dto.isPublic)
  {
  }

  // ---------------------------------------------------------------------------
  // Media of updatePostWithMedia

  /** The media type after an upload: VIDEO iff the first file's content type starts with
      "video", IMAGE for any other first file, and the stored type when nothing is uploaded. */
  function MediaTypeFor(media: seq<UploadedFile>, current: Option<string>): (r: Option<string>)
    ensures media == [] ==> r == current
    ensures media != [] ==> (r == Some("VIDEO") <==> media[0].contentType.Some? && StartsWith(media[0].contentType.value, "video"))
    ensures media != [] ==> r == Some("VIDEO") || r == Some("IMAGE")
  {
    if media == [] then current
    else
      var ct := media[0].contentType;
      if ct.Some? && StartsWith(ct.value, "video") then Some("VIDEO") else Some("IMAGE")
  }

  /** The removal list, when one is given and is not empty. */
  function Removals(dto: PostDto): seq<string> {
    if dto.removedMedia.Some? && dto.removedMedia.value != [] then dto.removedMedia.value else []
  }

  /** The media list after the upload: the stored list (or none), then the new files in upload
      order, without any entry the request asked to remove. */
  function MergedMedia(existing: Option<seq<string>>, uploaded: seq<string>, dto: PostDto): seq<string> {
    RemoveAll(existing.GetOr([]) + uploaded, Removals(dto))
  }

  /** Without removals the stored media stay first and the uploads follow in order; with
      removals every listed entry is gone and every other entry stays. */
  lemma MergedMediaProperties(existing: Option<seq<string>>, uploaded: seq<string>, dto: PostDto)
    ensures Removals(dto) == [] ==> MergedMedia(existing, uploaded, dto) == existing.GetOr([]) + uploaded
    ensures forall m :: m in MergedMedia(existing, uploaded, dto) <==>
                          (m in existing.GetOr([]) || m in uploaded) && m !in Removals(dto)
    ensures MergedMedia(existing, uploaded, dto)
            == RemoveAll(existing.GetOr([]), Removals(dto)) + RemoveAll(uploaded, Removals(dto))
  {
    RemoveAllNothing(existing.GetOr([]) + uploaded);
    RemoveAllAppend(existing.GetOr([]), uploaded, Removals(dto));
  }

  /** updatePostWithMedia's change to the post, once the files are stored: merged media, the
      computed type, the supplied detail fields and animation hint, the poll replaced by the
      request's (a null poll clears it), and updatedAt and isPublic set. */
  function ApplyMediaUpdate(post: Post, dto: PostDto, media: seq<UploadedFile>, uploaded: seq<string>,
                            nowMs: int): Post {
    OverrideDetails(post, dto).(
      mediaUrls := Some(MergedMedia(post.mediaUrls, uploaded, dto)),
      mediaType := MediaTypeFor(media, post.mediaType),
      animationType := Override(dto.animationType, post.animationType),
      poll := dto.poll,
      updatedAt := Some(nowMs),
      isPublic := dto.isPublic)
  }

  /** Unlike updatePost, the media path always clears the poll when the request has none,
      and keeps the likes, comments, author and identity. */
  lemma MediaUpdateProperties(post: Post, dto: PostDto, media: seq<UploadedFile>,
                              uploaded: seq<string>, nowMs: int)
    ensures var r := ApplyMediaUpdate(post, dto, media, uploaded, nowMs);
            r.poll == dto.poll && r.mediaUrls.Some?
            && r.id == post.id && r.author == post.author && r.likes == post.likes
            && r.comments == post.comments && r.createdAt == post.createdAt
    ensures Removals(dto) == [] ==>
              ApplyMediaUpdate(post, dto, media, uploaded, nowMs).mediaUrls == Some(post.mediaUrls.GetOr([]) + uploaded)
    ensures media == [] ==> ApplyMediaUpdate(post, dto, media, uploaded, nowMs).mediaType == post.mediaType
  {
    MergedMediaProperties(post.mediaUrls, uploaded, dto);
  }

  /** The names the storage back end returned before its first failure. */
  function StoredBeforeFailure(outcomes: seq<Result<string, string>>): (r: seq<string>)
    ensures |r| <= |outcomes|
    ensures forall k | 0 <= k < |r| :: outcomes[k] == Success(r[k])
  {
    if outcomes == [] || outcomes[0].Failure? then []
    else [outcomes[0].value] + StoredBeforeFailure(outcomes[1..])
  }

  /** The message of the first storage failure, if any. */
  function FirstStoreFailure(outcomes: seq<Result<string, string>>): (r: Option<string>)
    ensures r.None? <==> forall k | 0 <= k < |outcomes| :: outcomes[k].Success?
    ensures r.None? ==> |StoredBeforeFailure(outcomes)| == |outcomes|
    ensures r.Some? ==> |StoredBeforeFailure(outcomes)| < |outcomes|
                        && outcomes[|StoredBeforeFailure(outcomes)|] == Failure(r.value)
  {
    if outcomes == [] then None
    else if outcomes[0].Failure? then Some(outcomes[0].error)
    else FirstStoreFailure(outcomes[1..])
  }

  // ---------------------------------------------------------------------------
  // createPost

  /** The post createPost builds from the request: its fields, the author, both timestamps
      now, no likes and no comments. */
  function NewPost(id: string, dto: PostDto, author: User, nowMs: int): (p: Post)
    ensures p.id == id && p.author == author && p.likes == [] && p.comments == []
    ensures p.createdAt == Some(nowMs) && p.updatedAt == Some(nowMs)
    ensures p.title == dto.title && p.mediaUrls == dto.mediaUrls && p.poll == dto.poll
  {
    Post(id, dto.title, dto.description, dto.content, dto.mediaUrls, dto.mediaType,
         dto.telescopeUsed, dto.location, dto.celestialObject, dto.observationDateTime,
         dto.observationConditions, author, Some(nowMs), Some(nowMs), [], [], dto.isPublic,
         dto.coordinates, dto.exposureTime, dto.equipmentDetails, dto.processingDetails,
         dto.category, dto.skillTags, dto.poll, dto.animationType)
  }

  // ---------------------------------------------------------------------------
  // Queries

  /** getPost(postId, userEmail) */
  function GetPost(posts: map<string, Post>, users: map<string, User>, postId: string, userEmail: string)
    : (r: Result<PostDto, Exception>)
    requires WellKeyed(users) && UniqueEmails(users)
    ensures r.Success? <==> Lookup(posts, users, postId, userEmail).Success?
    ensures r.Success? ==> r.value.id == Some(posts[postId].id)
                           && r.value.likeCount == |posts[postId].likes|
                           && (r.value.isLiked <==> FindByEmail(users, userEmail).value.id in posts[postId].likes)
  {
    match Lookup(posts, users, postId, userEmail)
    case Failure(e) => Failure(e)
    case Success(pu) => Success(ConvertToDto(pu.0, pu.1.id))
  }

  /** getFeedPosts: the posts whose author the user follows or is, keyed by post id and
      viewed by the user. The following list must not be null. */
  function FeedPosts(posts: map<string, Post>, users: map<string, User>, userEmail: string)
    : (r: Result<map<string, PostDto>, Exception>)
    requires WellKeyed(users) && UniqueEmails(users)
  {
    match FindByEmail(users, userEmail)
    case None => Failure(Throw(ResourceNotFound, UserNotFound(userEmail)))
    case Some(u) =>
      match u.following
      case None => Failure(Throw(NullPointer, ""))
      case Some(following) =>
        var authors := following + [u.id];
        Success(map id | id in posts && posts[id].author.id in authors :: ConvertToDto(posts[id], u.id))
  }

  /** The feed holds the user's own posts and those of followed users and no others, each
      shown as liked exactly when the user likes it; an unknown user and a null following
      list are errors. */
  lemma FeedContents(posts: map<string, Post>, users: map<string, User>, userEmail: string)
    requires WellKeyed(users) && UniqueEmails(users)
    ensures !ExistsByEmail(users, userEmail) ==>
              FeedPosts(posts, users, userEmail) == Failure(Throw(ResourceNotFound, UserNotFound(userEmail)))
    ensures ExistsByEmail(users, userEmail) ==>
              var u := FindByEmail(users, userEmail).value;
              var r := FeedPosts(posts, users, userEmail);
              (u.following.None? ==> r.Failure? && r.error.kind == NullPointer)
              && (u.following.Some? ==>
                    r.Success?
                    && (forall id | id in posts ::
                          (id in r.value <==> posts[id].author.id == u.id || posts[id].author.id in u.following.value))
                    && (forall id | id in r.value :: r.value[id].isLiked <==> u.id in posts[id].likes))
  {
  }

  // ---------------------------------------------------------------------------
  // The service

  class Service {
    const posts: Repository<Post>
    const users: Repository<User>
    const files: FileStore
    const notifications: NotificationLog

    constructor (posts: Repository<Post>, users: Repository<User>, files: FileStore,
                 notifications: NotificationLog)
      ensures this.posts == posts && this.users == users
      ensures this.files == files && this.notifications == notifications
    {
      this.posts := posts;
      this.users := users;
      this.files := files;
      this.notifications := notifications;
    }

    /** The stored state the service relies on and keeps. */
    predicate Valid()
      reads this, posts, users
    {
      WellKeyed(users.entries) && UniqueEmails(users.entries)
      && PostsKeyed(posts.entries) && LikesDistinct(posts.entries)
    }

    /** createPost(postDto, userEmail), with the id the database assigns. */
    method CreatePost(dto: PostDto, userEmail: string, newId: string, nowMs: int)
      returns (r: Result<PostDto, Exception>)
      requires Valid() && newId !in posts.entries
      modifies posts
      ensures Valid()
      ensures !ExistsByEmail(users.entries, userEmail) ==>
                r == Failure(Throw(ResourceNotFound, UserNotFound(userEmail)))
                && posts.entries == old(posts.entries)
      ensures ExistsByEmail(users.entries, userEmail) ==>
                var author := FindByEmail(users.entries, userEmail).value;
                var p := NewPost(newId, dto, author, nowMs);
                posts.entries == old(posts.entries)[newId := p] && r == Success(ConvertToDto(p, author.id))
    {
      match FindByEmail(users.entries, userEmail)
      case None =>
        r := Failure(Throw(ResourceNotFound, UserNotFound(userEmail)));
      case Some(author) =>
        var p := NewPost(newId, dto, author, nowMs);
        posts.Save(newId, p);
        r := Success(ConvertToDto(p, author.id));
    }

    /** likePost(postId, userEmail) */
    method LikePost(postId: string, userEmail: string) returns (r: Result<(), Exception>)
      requires Valid()
      modifies posts, notifications
      ensures Valid()
      ensures var l := Lookup(old(posts.entries), users.entries, postId, userEmail);
              (l.Failure? ==> r == Failure(l.error) && posts.entries == old(posts.entries)
                              && notifications.sent == old(notifications.sent))
              && (l.Success? ==>
                    var (p, u) := l.value;
                    r.Success?
                    && posts.entries == (if u.id in p.likes then old(posts.entries)
                                         else old(posts.entries)[postId := Like(p, u.id)])
                    && notifications.sent == old(notifications.sent) + LikeNotifications(p, u))
    {
      match Lookup(posts.entries, users.entries, postId, userEmail)
      case Failure(e) =>
        r := Failure(e);
      case Success(pu) =>
        var (p, u) := pu;
        if u.id !in p.likes {
          posts.Save(p.id, Like(p, u.id));
          if p.author.id != u.id {
            notifications.CreateNotification(p.author.id, "LIKE",
              NullToString(u.fullName) + " liked your post: " + NullToString(p.title), "/posts/" + p.id);
          }
        }
        r := Success(());
    }

    /** unlikePost(postId, userEmail): the post is saved whether or not the user liked it. */
    method UnlikePost(postId: string, userEmail: string) returns (r: Result<(), Exception>)
      requires Valid()
      modifies posts
      ensures Valid()
      ensures var l := Lookup(old(posts.entries), users.entries, postId, userEmail);
              (l.Failure? ==> r == Failure(l.error) && posts.entries == old(posts.entries))
              && (l.Success? ==>
                    r.Success? && posts.entries == old(posts.entries)[postId := Unlike(l.value.0, l.value.1.id)])
    {
      match Lookup(posts.entries, users.entries, postId, userEmail)
      case Failure(e) =>
        r := Failure(e);
      case Success(pu) =>
        RemoveFirstFromDistinct(pu.0.likes, pu.1.id);
        posts.Save(pu.0.id, Unlike(pu.0, pu.1.id));
        r := Success(());
    }

    /** updatePost(postId, postDto, userEmail) */
    method UpdatePost(postId: string, dto: PostDto, userEmail: string, nowMs: int)
      returns (r: Result<PostDto, Exception>)
      requires Valid()
      modifies posts
      ensures Valid()
      ensures var o := OwnedPost(old(posts.entries), users.entries, postId, userEmail, "update");
              (o.Failure? ==> r == Failure(o.error) && posts.entries == old(posts.entries))
              && (o.Success? ==>
                    var p := ApplyUpdate(o.value.0, dto, nowMs);
                    posts.entries == old(posts.entries)[postId := p]
                    && r == Success(ConvertToDto(p, o.value.1.id)))
    {
      match OwnedPost(posts.entries, users.entries, postId, userEmail, "update")
      case Failure(e) =>
        r := Failure(e);
      case Success(pu) =>
        var p := ApplyUpdate(pu.0, dto, nowMs);
        posts.Save(p.id, p);
        r := Success(ConvertToDto(p, pu.1.id));
    }

    /** deletePost(postId, userEmail) */
    method DeletePost(postId: string, userEmail: string) returns (r: Result<(), Exception>)
      requires Valid()
      modifies posts
      ensures Valid()
      ensures var o := OwnedPost(old(posts.entries), users.entries, postId, userEmail, "delete");
              (o.Failure? ==> r == Failure(o.error) && posts.entries == old(posts.entries))
              && (o.Success? ==> r.Success? && posts.entries == old(posts.entries) - {postId})
    {
      match OwnedPost(posts.entries, users.entries, postId, userEmail, "delete")
      case Failure(e) =>
        r := Failure(e);
      case Success(pu) =>
        posts.DeleteById(pu.0.id);
        r := Success(());
    }

    /** updatePostWithMedia(postId, postDto, media, userEmail). `outcomes[k]` is what the
        storage back end does with `media[k]`: the name it stored the file under, or the
        message of the IOException it threw. */
    method UpdatePostWithMedia(postId: string, dto: PostDto, media: seq<UploadedFile>,
                               outcomes: seq<Result<string, string>>, userEmail: string, nowMs: int)
      returns (r: Result<PostDto, Exception>)
      requires Valid() && |outcomes| == |media|
      modifies posts, files
      ensures Valid()
      ensures var o := OwnedPost(old(posts.entries), users.entries, postId, userEmail, "update");
              (o.Failure? ==> r == Failure(o.error) && posts.entries == old(posts.entries)
                              && files.stored == old(files.stored) && files.deleted == old(files.deleted))
              && (o.Success? ==>
                    files.stored == old(files.stored) + StoredBeforeFailure(outcomes)
                    && (FirstStoreFailure(outcomes).Some? ==>
                          r == Failure(Throw(Runtime, "Failed to store media files: " + FirstStoreFailure(outcomes).value))
                          && posts.entries == old(posts.entries) && files.deleted == old(files.deleted))
                    && (FirstStoreFailure(outcomes).None? ==>
                          var p := ApplyMediaUpdate(o.value.0, dto, media, StoredBeforeFailure(outcomes), nowMs);
                          posts.entries == old(posts.entries)[postId := p]
                          && files.deleted == old(files.deleted) + Removals(dto)
                          && r == Success(ConvertToDto(p, o.value.1.id))))
    {
      var owned := OwnedPost(posts.entries, users.entries, postId, userEmail, "update");
      if owned.Failure? {
        return Failure(owned.error);
      }
      var (post, user) := owned.value;
      var mediaUrls := post.mediaUrls.GetOr([]);
      var stored, failure := StoreUploads(files, outcomes);
      if failure.Some? {
        return Failure(Throw(Runtime, "Failed to store media files: " + failure.value));
      }
      mediaUrls := mediaUrls + stored;
      var mediaType := MediaTypeFor(media, post.mediaType);
      var removals := Removals(dto);
      mediaUrls := RemoveAll(mediaUrls, removals);
      DeleteAll(files, removals);
      var updated := ApplyMediaUpdate(post, dto, media, StoredBeforeFailure(outcomes), nowMs);
      assert updated.mediaUrls == Some(mediaUrls);
      assert updated.mediaType == mediaType;
      posts.Save(updated.id, updated);
      r := Success(ConvertToDto(updated, user.id));
    }
  }

  /** Stores the uploads in order; the first IOException stops the loop, the files stored
      before it staying stored. Returns the stored names and the failure message, if any. */
  method StoreUploads(files: FileStore, outcomes: seq<Result<string, string>>)
    returns (stored: seq<string>, failure: Option<string>)
    modifies files
    ensures stored == StoredBeforeFailure(outcomes) && failure == FirstStoreFailure(outcomes)
    ensures files.stored == old(files.stored) + stored && files.deleted == old(files.deleted)
  {
    stored := [];
    var i := 0;
    while i < |outcomes|
      invariant 0 <= i <= |outcomes|
      invariant forall k | 0 <= k < i :: outcomes[k].Success?
      invariant i <= |StoredBeforeFailure(outcomes)|
      invariant stored == StoredBeforeFailure(outcomes)[..i]
      invariant files.stored == old(files.stored) + stored
      invariant files.deleted == old(files.deleted)
    {
      match outcomes[i]
      case Failure(message) =>
        FailureAt(outcomes, i);
        assert StoredBeforeFailure(outcomes)[..i] == StoredBeforeFailure(outcomes);
        return stored, Some(message);
      case Success(name) =>
        StoredPrefix(outcomes, i + 1);
        assert StoredBeforeFailure(outcomes)[..i + 1] == StoredBeforeFailure(outcomes)[..i] + [name];
        files.Store(name);
        stored := stored + [name];
        i := i + 1;
    }
    StoredPrefix(outcomes, |outcomes|);
    assert StoredBeforeFailure(outcomes)[..i] == StoredBeforeFailure(outcomes);
    failure := None;
  }

  /** Deletes the named files in order. */
  method DeleteAll(files: FileStore, names: seq<string>)
    modifies files
    ensures files.deleted == old(files.deleted) + names && files.stored == old(files.stored)
  {
    var j := 0;
    while j < |names|
      invariant 0 <= j <= |names|
      invariant files.deleted == old(files.deleted) + names[..j]
      invariant files.stored == old(files.stored)
    {
      assert names[..j + 1] == names[..j] + [names[j]];
      files.Delete(names[j]);
      j := j + 1;
    }
    assert names[..j] == names;
  }

  /** When the first i outcomes all succeeded, at least i names were stored. */
  lemma {:induction false} StoredPrefix(outcomes: seq<Result<string, string>>, i: nat)
    requires i <= |outcomes|
    requires forall k | 0 <= k < i :: outcomes[k].Success?
    ensures |StoredBeforeFailure(outcomes)| >= i
  {
    if i > 0 {
      StoredPrefix(outcomes[1..], i - 1);
    }
  }

  /** When outcome i is the first failure, exactly i names were stored. */
  lemma {:induction false} FailureAt(outcomes: seq<Result<string, string>>, i: nat)
    requires i < |outcomes| && outcomes[i].Failure?
    requires forall k | 0 <= k < i :: outcomes[k].Success?
    ensures |StoredBeforeFailure(outcomes)| == i
    ensures FirstStoreFailure(outcomes) == Some(outcomes[i].error)
  {
    if i > 0 {
      FailureAt(outcomes[1..], i - 1);
    }
  }
}
