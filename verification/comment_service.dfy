/**
 * CommentService: creating a comment on a post, author-only edits and deletion, likes, and
 * the DTO view of a comment. The `comments` repository maps comment ids to comments and is
 * updated in place; posts and users are only read.
 */
module CommentService {
  import opened Wrappers
  import opened Failures
  import opened JavaStrings
  import opened JavaLists
  import opened UserModel
  import opened Repositories
  import opened UserQueries
  import opened Effects
  import PS = PostService

  /** A stored comment; its author is the referenced user record as loaded. */
  datatype Comment = Comment(
    id: string,
    content: Option<string>,
    author: User,
    postId: Option<string>,
    createdAt: Option<int>,
    updatedAt: Option<int>,
    likes: seq<string>)

  /** CommentDto: the request body of create and update, and the view returned to clients. */
  datatype CommentDto = CommentDto(
    id: Option<string>,
    content: Option<string>,
    authorId: Option<string>,
    authorName: Option<string>,
    authorImageUrl: Option<string>,
    postId: Option<string>,
    createdAt: Option<int>,
    updatedAt: Option<int>,
    likeCount: int,
    isLiked: bool)

  /** convertToDto(comment, currentUserId) */
  function ConvertToDto(c: Comment, currentUserId: string): (dto: CommentDto)
    ensures dto.likeCount == |c.likes|
    ensures dto.isLiked <==> currentUserId in c.likes
    ensures dto.id == Some(c.id) && dto.authorId == Some(c.author.id) && dto.postId == c.postId
    ensures dto.content == c.content
  {
    CommentDto(Some(c.id), c.content, Some(c.author.id), c.author.fullName, c.author.imageUrl,
               c.postId, c.createdAt, c.updatedAt, |c.likes|, currentUserId in c.likes)
  }

  // ---------------------------------------------------------------------------
  // Creating a comment

  /** The comment createComment builds: the request's content and post id, the caller as
      author, both timestamps now and no likes. */
  function NewComment(id: string, dto: CommentDto, author: User, nowMs: int): (c: Comment)
    ensures c.id == id && c.content == dto.content && c.author == author && c.postId == dto.postId
    ensures c.likes == [] && c.createdAt == Some(nowMs) && c.updatedAt == Some(nowMs)
  {
    Comment(id, dto.content, author, dto.postId, Some(nowMs), Some(nowMs), [])
  }

  /** The notification a new comment sends: to the post's author, unless that is the
      commenter. */
  function CommentNotifications(post: PS.Post, author: User): (r: seq<Notification>)
    ensures |r| <= 1
    ensures r != [] <==> post.author.id != author.id
    ensures r != [] ==> r[0].recipientId == post.author.id && r[0].kind == "COMMENT"
                        && r[0].link == "/posts/" + post.id
  {
    if post.author.id != author.id then
      [Notification(post.author.id, "COMMENT",
                    NullToString(author.fullName) + " commented on your post: " + NullToString(post.title),
                    "/posts/" + post.id)]
    else []
  }

  /** The user, then the post the request names: findById(null) is refused with an
      IllegalArgumentException. */
  function CommentTarget(posts: map<string, PS.Post>, users: map<string, User>, dto: CommentDto, userEmail: string)
    : (r: Result<(User, PS.Post), Exception>)
    requires WellKeyed(users) && UniqueEmails(users)
    ensures r.Success? <==> ExistsByEmail(users, userEmail) && dto.postId.Some? && dto.postId.value in posts
    ensures !ExistsByEmail(users, userEmail) ==>
              r == Failure(Throw(ResourceNotFound, PS.UserNotFound(userEmail)))
    ensures ExistsByEmail(users, userEmail) && dto.postId.Some? && dto.postId.value !in posts ==>
              r == Failure(Throw(ResourceNotFound, "Post not found with ID: " + dto.postId.value))
    ensures r.Success? ==> r.value.0.email == Some(userEmail) && r.value.1 == posts[dto.postId.value]
  {
    match FindByEmail(users, userEmail)
    case None => Failure(Throw(ResourceNotFound, PS.UserNotFound(userEmail)))
    case Some(u) =>
      match dto.postId
      case None => Failure(Throw(IllegalArgument, "The given id must not be null"))
      case Some(pid) =>
        if pid in posts then Success((u, posts[pid]))
        else Failure(Throw(ResourceNotFound, "Post not found with ID: " + pid))
  }

  // ---------------------------------------------------------------------------
  // Edits, deletion and likes

  const CommentNotFound := "Comment not found"

  /** Every comment is stored under its own id. */
  predicate CommentsKeyed(comments: map<string, Comment>) {
    forall id | id in comments :: comments[id].id == id
  }

  /** No stored comment lists a liker twice. */
  predicate LikesDistinct(comments: map<string, Comment>) {
    forall id | id in comments :: NoDuplicates(comments[id].likes)
  }

  /** findByEmail(userEmail) then findById(commentId): note the user is looked up first. */
  function Lookup(comments: map<string, Comment>, users: map<string, User>, commentId: string, userEmail: string)
    : (r: Result<(Comment, User), Exception>)
    requires WellKeyed(users) && UniqueEmails(users)
    ensures r.Success? <==> ExistsByEmail(users, userEmail) && commentId in comments
    ensures !ExistsByEmail(users, userEmail) ==> r == Failure(Throw(ResourceNotFound, PS.UserNotFound(userEmail)))
    ensures ExistsByEmail(users, userEmail) && commentId !in comments ==>
              r == Failure(Throw(ResourceNotFound, CommentNotFound))
    ensures r.Success? ==> r.value.0 == comments[commentId] && r.value.1.email == Some(userEmail)
  {
    match FindByEmail(users, userEmail)
    case None => Failure(Throw(ResourceNotFound, PS.UserNotFound(userEmail)))
    case Some(u) =>
      if commentId in comments then Success((comments[commentId], u))
      else Failure(Throw(ResourceNotFound, CommentNotFound))
  }

  /** Lookup followed by the author check of update and delete. */
  function OwnedComment(comments: map<string, Comment>, users: map<string, User>, commentId: string,
                        userEmail: string, action: string): (r: Result<(Comment, User), Exception>)
    requires WellKeyed(users) && UniqueEmails(users)
    ensures r.Success? <==> Lookup(comments, users, commentId, userEmail).Success?
                            && comments[commentId].author.id == Lookup(comments, users, commentId, userEmail).value.1.id
    ensures Lookup(comments, users, commentId, userEmail).Failure? ==> r == Lookup(comments, users, commentId, userEmail)
    ensures Lookup(comments, users, commentId, userEmail).Success? && r.Failure? ==>
              r.error == Throw(Runtime, "Not authorized to " + action + " this comment")
    ensures r.Success? ==> r == Lookup(comments, users, commentId, userEmail)
  {
    match Lookup(comments, users, commentId, userEmail)
    case Failure(e) => Failure(e)
    case Success(cu) =>
      if cu.0.author.id != cu.1.id then Failure(Throw(Runtime, "Not authorized to " + action + " this comment"))
      else Success(cu)
  }

  /** updateComment's change: the content is replaced (also by null) and updatedAt set. */
  function Edit(c: Comment, content: Option<string>, nowMs: int): Comment {
    c.(content := content, updatedAt := Some(nowMs))
  }

  /** An edit leaves identity, author, post, creation time and likes alone, shows the new
      content, and the last of two edits wins. */
  lemma EditChangesOnlyContent(c: Comment, content: Option<string>, nowMs: int, viewer: string)
    ensures var e := Edit(c, content, nowMs);
            e.id == c.id && e.author == c.author && e.postId == c.postId
            && e.createdAt == c.createdAt && e.likes == c.likes
    ensures ConvertToDto(Edit(c, content, nowMs), viewer).content == content
    ensures ConvertToDto(Edit(c, content, nowMs), viewer).updatedAt == Some(nowMs)
    ensures forall content2: Option<string>, later: int ::
              Edit(Edit(c, content, nowMs), content2, later) == Edit(c, content2, later)
  {
  }

  function Like(c: Comment, userId: string): Comment {
    c.(likes := AddIfAbsent(c.likes, userId))
  }

  function Unlike(c: Comment, userId: string): Comment {
    c.(likes := RemoveFirst(c.likes, userId))
  }

  /** Liking a comment is idempotent and shows it as liked; unliking undoes a new like and,
      on duplicate-free likes, shows it as not liked. */
  lemma CommentLikeProperties(c: Comment, userId: string)
    ensures Like(Like(c, userId), userId) == Like(c, userId)
    ensures ConvertToDto(Like(c, userId), userId).isLiked
    ensures userId !in c.likes ==> Unlike(Like(c, userId), userId) == c
    ensures NoDuplicates(c.likes) ==>
              !ConvertToDto(Unlike(c, userId), userId).isLiked && NoDuplicates(Unlike(c, userId).likes)
              && NoDuplicates(Like(c, userId).likes)
  {
    if userId !in c.likes {
      AddThenRemove(c.likes, userId);
      assert Unlike(Like(c, userId), userId).likes == c.likes;
    }
    if NoDuplicates(c.likes) {
      RemoveFirstFromDistinct(c.likes, userId);
    }
  }

  // ---------------------------------------------------------------------------
  // The service

  class Service {
    const comments: Repository<Comment>
    const posts: Repository<PS.Post>
    const users: Repository<User>
    const notifications: NotificationLog

    constructor (comments: Repository<Comment>, posts: Repository<PS.Post>, users: Repository<User>,
                 notifications: NotificationLog)
      ensures this.comments == comments && this.posts == posts && this.users == users
      ensures this.notifications == notifications
    {
      this.comments := comments;
      this.posts := posts;
      this.users := users;
      this.notifications := notifications;
    }

    predicate Valid()
      reads this, comments, users
    {
      WellKeyed(users.entries) && UniqueEmails(users.entries)
      && CommentsKeyed(comments.entries) && LikesDistinct(comments.entries)
    }

    /** createComment(commentDto, userEmail), with the id the database assigns. */
    method CreateComment(dto: CommentDto, userEmail: string, newId: string, nowMs: int)
      returns (r: Result<CommentDto, Exception>)
      requires Valid() && newId !in comments.entries
      modifies comments, notifications
      ensures Valid()
      ensures var t := CommentTarget(posts.entries, users.entries, dto, userEmail);
              (t.Failure? ==> r == Failure(t.error) && comments.entries == old(comments.entries)
                              && notifications.sent == old(notifications.sent))
              && (t.Success? ==>
                    var c := NewComment(newId, dto, t.value.0, nowMs);
                    comments.entries == old(comments.entries)[newId := c]
                    && notifications.sent == old(notifications.sent) + CommentNotifications(t.value.1, t.value.0)
                    && r == Success(ConvertToDto(c, t.value.0.id)))
    {
      var t := CommentTarget(posts.entries, users.entries, dto, userEmail);
      if t.Failure? {
        return Failure(t.error);
      }
      var (author, post) := t.value;
      var c := NewComment(newId, dto, author, nowMs);
      comments.Save(newId, c);
      if post.author.id != author.id {
        notifications.CreateNotification(post.author.id, "COMMENT",
          NullToString(author.fullName) + " commented on your post: " + NullToString(post.title),
          "/posts/" + post.id);
      }
      r := Success(ConvertToDto(c, author.id));
    }

    /** updateComment(commentId, commentDto, userEmail) */
    method UpdateComment(commentId: string, dto: CommentDto, userEmail: string, nowMs: int)
      returns (r: Result<CommentDto, Exception>)
      requires Valid()
      modifies comments
      ensures Valid()
      ensures var o := OwnedComment(old(comments.entries), users.entries, commentId, userEmail, "update");
              (o.Failure? ==> r == Failure(o.error) && comments.entries == old(comments.entries))
              && (o.Success? ==>
                    var c := Edit(o.value.0, dto.content, nowMs);
                    comments.entries == old(comments.entries)[commentId := c]
                    && r == Success(ConvertToDto(c, o.value.1.id)))
    {
      var o := OwnedComment(comments.entries, users.entries, commentId, userEmail, "update");
      if o.Failure? {
        return Failure(o.error);
      }
      var c := Edit(o.value.0, dto.content, nowMs);
      comments.Save(c.id, c);
      r := Success(ConvertToDto(c, o.value.1.id));
    }

    /** deleteComment(commentId, userEmail) */
    method DeleteComment(commentId: string, userEmail: string) returns (r: Result<(), Exception>)
      requires Valid()
      modifies comments
      ensures Valid()
      ensures var o := OwnedComment(old(comments.entries), users.entries, commentId, userEmail, "delete");
              (o.Failure? ==> r == Failure(o.error) && comments.entries == old(comments.entries))
              && (o.Success? ==> r.Success? && comments.entries == old(comments.entries) - {commentId})
    {
      var o := OwnedComment(comments.entries, users.entries, commentId, userEmail, "delete");
      if o.Failure? {
        return Failure(o.error);
      }
      comments.DeleteById(o.value.0.id);
      r := Success(());
    }

    /** likeComment(commentId, userEmail): saved only when the like is new. */
    method LikeComment(commentId: string, userEmail: string) returns (r: Result<(), Exception>)
      requires Valid()
      modifies comments
      ensures Valid()
      ensures var l := Lookup(old(comments.entries), users.entries, commentId, userEmail);
              (l.Failure? ==> r == Failure(l.error) && comments.entries == old(comments.entries))
              && (l.Success? ==>
                    r.Success?
                    && comments.entries == (if l.value.1.id in l.value.0.likes then old(comments.entries)
                                            else old(comments.entries)[commentId := Like(l.value.0, l.value.1.id)]))
    {
      var l := Lookup(comments.entries, users.entries, commentId, userEmail);
      if l.Failure? {
        return Failure(l.error);
      }
      var (c, u) := l.value;
      if u.id !in c.likes {
        comments.Save(c.id, Like(c, u.id));
      }
      r := Success(());
    }

    /** unlikeComment(commentId, userEmail): saved whether or not the user liked it. */
    method UnlikeComment(commentId: string, userEmail: string) returns (r: Result<(), Exception>)
      requires Valid()
      modifies comments
      ensures Valid()
      ensures var l := Lookup(old(comments.entries), users.entries, commentId, userEmail);
              (l.Failure? ==> r == Failure(l.error) && comments.entries == old(comments.entries))
              && (l.Success? ==>
                    r.Success? && comments.entries == old(comments.entries)[commentId := Unlike(l.value.0, l.value.1.id)])
    {
      var l := Lookup(comments.entries, users.entries, commentId, userEmail);
      if l.Failure? {
        return Failure(l.error);
      }
      var (c, u) := l.value;
      var unliked := Unlike(c, u.id);
      assert unliked.id == c.id == commentId && NoDuplicates(unliked.likes) by {
        RemoveFirstFromDistinct(c.likes, u.id);
      }
      comments.Save(c.id, unliked);
      r := Success(());
    }
  }
}
