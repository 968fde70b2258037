/**
 * UserController: the follow graph. Each user record lists the ids it follows and the ids
 * following it; follow and unfollow update the caller's `following` and the target's
 * `followers` and save both records. The users repository is updated in place.
 */
module UserController {
  import opened Wrappers
  import opened Failures
  import opened JavaLists
  import opened UserModel
  import opened Repositories
  import opened UserQueries
  import opened Security

  /** A null list reads as empty. */
  function Following(u: User): seq<string> {
    u.following.GetOr([])
  }

  function Followers(u: User): seq<string> {
    u.followers.GetOr([])
  }

  /** Among stored users, b is in a's following exactly when a is in b's followers. */
  predicate Consistent(users: map<string, User>) {
    forall a, b | a in users && b in users :: b in Following(users[a]) <==> a in Followers(users[b])
  }

  /** The follow graph the controller keeps: consistent, and no list names an id twice. */
  predicate FollowGraph(users: map<string, User>) {
    Consistent(users)
    && forall a | a in users :: NoDuplicates(Following(users[a])) && NoDuplicates(Followers(users[a]))
  }

  // ---------------------------------------------------------------------------
  // followUser

  /** The records after followUser as written: the caller's copy gains the target in its
      following, the target's copy gains the caller in its followers, and the two copies
      are saved in that order. When caller and target are the same user, the second save
      replaces the first. */
  function FollowAsWritten(users: map<string, User>, current: User, targetId: string): map<string, User>
    requires targetId in users
  {
    var target := users[targetId];
    if targetId in Following(current) then users
    else
      users[current.id := current.(following := Some(Following(current) + [targetId]))]
           [targetId := target.(followers := Some(Followers(target) + [current.id]))]
  }

  /** A user following themselves: the saved record lists them as their own follower but
      not in their own following, so the graph is no longer consistent; a second call adds
      them to their followers once more. */
  lemma SelfFollowBreaksGraph()
    ensures var u := Defaults("u").(email := Some("u@example.org"));
            var users := map["u" := u];
            FollowGraph(users)
            && !Consistent(FollowAsWritten(users, u, "u"))
            && Followers(FollowAsWritten(FollowAsWritten(users, u, "u"), u, "u")["u"]) == ["u", "u"]
  {
    var u := Defaults("u").(email := Some("u@example.org"));
    var users := map["u" := u];
    var once := FollowAsWritten(users, u, "u");
    assert Following(u) == [] && Followers(u) == [];
    assert once["u"] == u.(followers := Some([] + ["u"]));
    assert "u" in Followers(once["u"]) && "u" !in Following(once["u"]);
  }

  /** followUser with the two updates applied to one record when the caller follows
      themselves, so that both lists change as they do for any other target. */
  function Follow(users: map<string, User>, current: User, targetId: string): (r: map<string, User>)
    requires current.id in users && targetId in users
    ensures r.Keys == users.Keys
  {
    var target := users[targetId];
    if targetId in Following(current) then users
    else if current.id == targetId then
      users[current.id := current.(following := Some(Following(current) + [targetId]),
                                   followers := Some(Followers(current) + [current.id]))]
    else
      users[current.id := current.(following := Some(Following(current) + [targetId]))]
           [targetId := target.(followers := Some(Followers(target) + [current.id]))]
  }

  /** A follow adds exactly the one edge from the caller to the target, on both sides. */
  lemma FollowEdges(users: map<string, User>, current: User, targetId: string, a: string, b: string)
    requires Consistent(users) && current.id in users && users[current.id] == current && targetId in users
    requires a in users && b in users
    ensures var r := Follow(users, current, targetId);
            (b in Following(r[a]) <==> b in Following(users[a]) || (a == current.id && b == targetId))
            && (a in Followers(r[b]) <==> a in Followers(users[b]) || (a == current.id && b == targetId))
  {
    if targetId in Following(current) {
      assert current.id in Followers(users[targetId]);
    }
  }

  /** A second follow of the same target changes nothing. */
  lemma FollowRepeatChangesNothing(users: map<string, User>, current: User, targetId: string)
    requires Consistent(users) && current.id in users && users[current.id] == current && targetId in users
    ensures var r := Follow(users, current, targetId);
            Follow(r, r[current.id], targetId) == r
  {
    FollowEdges(users, current, targetId, current.id, targetId);
  }

  /** After a follow the caller follows the target and is among its followers; the graph
      stays consistent and free of duplicates; and every other user's record is untouched. */
  lemma FollowKeepsGraph(users: map<string, User>, current: User, targetId: string)
    requires FollowGraph(users) && current.id in users && users[current.id] == current && targetId in users
    ensures var r := Follow(users, current, targetId);
            FollowGraph(r)
            && targetId in Following(r[current.id]) && current.id in Followers(r[targetId])
            && (forall x | x in users && x != current.id && x != targetId :: r[x] == users[x])
  {
    var r := Follow(users, current, targetId);
    var c := current.id;
    var t := targetId;
    FollowEdges(users, current, t, c, t);
    if t !in Following(current) {
      assert c !in Followers(users[t]);
      forall a, b | a in r && b in r
        ensures b in Following(r[a]) <==> a in Followers(r[b])
      {
        FollowEdges(users, current, t, a, b);
      }
      forall a | a in r
        ensures NoDuplicates(Following(r[a])) && NoDuplicates(Followers(r[a]))
      {
        if a == c {
          AppendFresh(Following(current), t);
        }
        if a == t {
          AppendFresh(Followers(users[t]), c);
        }
      }
    }
  }

  /** Appending an absent value keeps a list free of duplicates. */
  lemma AppendFresh(xs: seq<string>, x: string)
    requires NoDuplicates(xs) && x !in xs
    ensures NoDuplicates(xs + [x])
  {
    assert AddIfAbsent(xs, x) == xs + [x];
  }

  // ---------------------------------------------------------------------------
  // unfollowUser

  /** The records after unfollowUser as written: the caller's copy loses the target from
      its following, the target's copy loses the caller from its followers, and the two
      copies are saved in that order. When caller and target are the same user, the second
      save replaces the first. */
  function UnfollowAsWritten(users: map<string, User>, current: User, targetId: string): map<string, User>
    requires targetId in users
  {
    var target := users[targetId];
    if targetId !in Following(current) then users
    else
      users[current.id := current.(following := Some(RemoveFirst(Following(current), targetId)))]
           [targetId := target.(followers := Some(RemoveFirst(Followers(target), current.id)))]
  }

  /** A user who follows themselves and unfollows: the saved record still lists them in
      their own following but no longer among their followers, so the graph is no longer
      consistent, and the edge cannot be removed by unfollowing again. */
  lemma SelfUnfollowBreaksGraph()
    ensures var u := Defaults("u").(email := Some("u@example.org"), following := Some(["u"]), followers := Some(["u"]));
            var users := map["u" := u];
            var once := UnfollowAsWritten(users, u, "u");
            FollowGraph(users)
            && !Consistent(once)
            && Following(once["u"]) == ["u"] && Followers(once["u"]) == []
            && UnfollowAsWritten(once, once["u"], "u") == once
  {
    var u := Defaults("u").(email := Some("u@example.org"), following := Some(["u"]), followers := Some(["u"]));
    var users := map["u" := u];
    var once := UnfollowAsWritten(users, u, "u");
    assert RemoveFirst(["u"], "u") == [];
    assert once["u"] == u.(followers := Some([]));
    assert "u" in Following(once["u"]) && "u" !in Followers(once["u"]);
  }

  /** unfollowUser, with both removals applied to one record when the caller unfollows
      themselves: the first occurrence of the target leaves the caller's following and the
      first occurrence of the caller leaves the target's followers. */
  function Unfollow(users: map<string, User>, current: User, targetId: string): (r: map<string, User>)
    requires current.id in users && targetId in users
    ensures r.Keys == users.Keys
  {
    var target := users[targetId];
    if targetId !in Following(current) then users
    else if current.id == targetId then
      users[current.id := current.(following := Some(RemoveFirst(Following(current), targetId)),
                                   followers := Some(RemoveFirst(Followers(current), current.id)))]
    else
      users[current.id := current.(following := Some(RemoveFirst(Following(current), targetId)))]
           [targetId := target.(followers := Some(RemoveFirst(Followers(target), current.id)))]
  }

  /** In a graph free of duplicates an unfollow removes exactly the one edge from the caller
      to the target, on both sides, and keeps every list free of duplicates. */
  lemma UnfollowEdges(users: map<string, User>, current: User, targetId: string, a: string, b: string)
    requires FollowGraph(users) && current.id in users && users[current.id] == current && targetId in users
    requires a in users && b in users
    ensures var r := Unfollow(users, current, targetId);
            (b in Following(r[a]) <==> b in Following(users[a]) && !(a == current.id && b == targetId))
            && (a in Followers(r[b]) <==> a in Followers(users[b]) && !(a == current.id && b == targetId))
            && NoDuplicates(Following(r[a])) && NoDuplicates(Followers(r[b]))
  {
    var c := current.id;
    var t := targetId;
    if t in Following(current) {
      RemoveFirstFromDistinct(Following(current), t);
      RemoveFirstFromDistinct(Followers(users[t]), c);
    } else {
      assert c !in Followers(users[t]);
    }
  }

  /** After an unfollow the caller no longer follows the target nor is among its
      followers, and the graph stays consistent and free of duplicates. */
  lemma UnfollowKeepsGraph(users: map<string, User>, current: User, targetId: string)
    requires FollowGraph(users) && current.id in users && users[current.id] == current && targetId in users
    ensures var r := Unfollow(users, current, targetId);
            FollowGraph(r)
            && targetId !in Following(r[current.id]) && current.id !in Followers(r[targetId])
            && (forall x | x in users && x != current.id && x != targetId :: r[x] == users[x])
  {
    var r := Unfollow(users, current, targetId);
    UnfollowEdges(users, current, targetId, current.id, targetId);
    forall a, b | a in r && b in r
      ensures b in Following(r[a]) <==> a in Followers(r[b])
    {
      UnfollowEdges(users, current, targetId, a, b);
    }
    forall a | a in r
      ensures NoDuplicates(Following(r[a])) && NoDuplicates(Followers(r[a]))
    {
      UnfollowEdges(users, current, targetId, a, a);
    }
  }

  /** The lists a follow followed by an unfollow leaves behind are the ones before. */
  predicate Restored(users: map<string, User>, back: map<string, User>) {
    back.Keys == users.Keys
    && forall x | x in users :: Following(back[x]) == Following(users[x])
                                && Followers(back[x]) == Followers(users[x])
  }

  /** Following and then unfollowing leaves every follow list as it was. */
  lemma FollowThenUnfollow(users: map<string, User>, current: User, targetId: string)
    requires Consistent(users) && current.id in users && users[current.id] == current && targetId in users
    requires targetId !in Following(current)
    ensures var r := Follow(users, current, targetId);
            Restored(users, Unfollow(r, r[current.id], targetId))
  {
    if current.id == targetId {
      assert current.id !in Followers(current);
      SelfFollowThenUnfollow(users, current);
    } else {
      assert current.id !in Followers(users[targetId]);
      OtherFollowThenUnfollow(users, current, targetId);
    }
  }

  lemma SelfFollowThenUnfollow(users: map<string, User>, current: User)
    requires current.id in users && users[current.id] == current
    requires current.id !in Following(current) && current.id !in Followers(current)
    ensures var r := Follow(users, current, current.id);
            Restored(users, Unfollow(r, r[current.id], current.id))
  {
    var c := current.id;
    var r := Follow(users, current, c);
    var back := Unfollow(r, r[c], c);
    AddThenRemoveLast(Following(current), c);
    AddThenRemoveLast(Followers(current), c);
    assert Following(back[c]) == Following(current) && Followers(back[c]) == Followers(current);
  }

  lemma OtherFollowThenUnfollow(users: map<string, User>, current: User, targetId: string)
    requires current.id in users && users[current.id] == current && targetId in users
    requires current.id != targetId
    requires targetId !in Following(current) && current.id !in Followers(users[targetId])
    ensures var r := Follow(users, current, targetId);
            Restored(users, Unfollow(r, r[current.id], targetId))
  {
    var c := current.id;
    var t := targetId;
    var target := users[t];
    AddThenRemoveLast(Following(current), t);
    AddThenRemoveLast(Followers(target), c);
    var r := Follow(users, current, t);
    assert r[c] == current.(following := Some(Following(current) + [t]));
    assert r[t] == target.(followers := Some(Followers(target) + [c]));
    assert t in Following(r[c]);
    var back := Unfollow(r, r[c], t);
    assert back == r[c := r[c].(following := Some(RemoveFirst(Following(current) + [t], t)))]
                    [t := r[t].(followers := Some(RemoveFirst(Followers(target) + [c], c)))];
    forall x | x in users
      ensures Following(back[x]) == Following(users[x]) && Followers(back[x]) == Followers(users[x])
    {
      if x != c && x != t {
        assert back[x] == r[x] == users[x];
      }
    }
  }

  // ---------------------------------------------------------------------------
  // getFollowers / getFollowing

  /** findAllById over a user's followers: the stored users it lists; none for an unknown
      user or a null list. */
  function GetFollowers(users: map<string, User>, id: string): set<User> {
    if id !in users || users[id].followers.None? then {}
    else set x | x in users && x in Followers(users[id]) :: users[x]
  }

  function GetFollowing(users: map<string, User>, id: string): set<User> {
    if id !in users || users[id].following.None? then {}
    else set x | x in users && x in Following(users[id]) :: users[x]
  }

  /** In a consistent graph the followers listed for a user are exactly the stored users
      that follow them; an unknown user or a null followers list lists none. */
  lemma FollowersFollow(users: map<string, User>, id: string)
    requires Consistent(users) && WellKeyed(users)
    ensures id !in users || users[id].followers.None? ==> GetFollowers(users, id) == {}
    ensures id in users && users[id].followers.Some? ==>
              forall u :: u in GetFollowers(users, id) <==> u.id in users && users[u.id] == u && id in Following(u)
  {
    if id in users && users[id].followers.Some? {
      forall u ensures u in GetFollowers(users, id) <==> u.id in users && users[u.id] == u && id in Following(u) {
        if u.id in users && users[u.id] == u && id in Following(u) {
          assert u.id in Followers(users[id]);
        }
      }
    }
  }

  /** In a consistent graph the users listed as followed are exactly the stored users that
      list this user among their followers; an unknown user or a null list lists none. */
  lemma FollowingFollowedBy(users: map<string, User>, id: string)
    requires Consistent(users) && WellKeyed(users)
    ensures id !in users || users[id].following.None? ==> GetFollowing(users, id) == {}
    ensures id in users && users[id].following.Some? ==>
              forall u :: u in GetFollowing(users, id) <==> u.id in users && users[u.id] == u && id in Followers(u)
  {
    if id in users && users[id].following.Some? {
      forall u ensures u in GetFollowing(users, id) <==> u.id in users && users[u.id] == u && id in Followers(u) {
        if u.id in users && users[u.id] == u && id in Followers(u) {
          assert u.id in Following(users[id]);
        }
      }
    }
  }

  // ---------------------------------------------------------------------------
  // The controller

  /** The responses the handlers build: 200 with no body, or 400 (bad request) with a message. */
  datatype Response = Ok | UserNotFound(body: string)

  class Controller {
    const users: Repository<User>

    constructor (users: Repository<User>)
      ensures this.users == users
    {
      this.users := users;
    }

    predicate Valid()
      reads this, users
    {
      WellKeyed(users.entries) && UniqueEmails(users.entries) && FollowGraph(users.entries)
    }

    /** The caller by the authentication's name, then the target by id. */
    function Parties(auth: Option<Authentication>, targetId: string): (r: Result<Option<(User, User)>, Exception>)
      reads this, users
      requires Valid()
      ensures r.Success? && r.value.Some? ==>
                r.value.value.0.id in users.entries && users.entries[r.value.value.0.id] == r.value.value.0
                && targetId in users.entries && r.value.value.1 == users.entries[targetId]
      ensures r.Success? && r.value.None? ==>
                auth.Some? && Name(auth.value).Success?
                && (!ExistsByEmail(users.entries, Name(auth.value).value) || targetId !in users.entries)
      ensures auth.None? ==> r.Failure?
    {
      match auth
      case None => Failure(Throw(NullPointer, "authentication is null"))
      case Some(a) =>
        match Name(a)
        case Failure(e) => Failure(e)
        case Success(email) =>
          match FindByEmail(users.entries, email)
          case None => Success(None)
          case Some(current) =>
            if targetId in users.entries then Success(Some((current, users.entries[targetId])))
            else Success(None)
    }

    /** followUser(id, authentication) */
    method FollowUser(auth: Option<Authentication>, targetId: string) returns (r: Result<Response, Exception>)
      requires Valid()
      modifies users
      ensures Valid()
      ensures var p := old(Parties(auth, targetId));
              (p.Failure? ==> r == Failure(p.error) && users.entries == old(users.entries))
              && (p.Success? && p.value.None? ==> r == Success(UserNotFound("User not found"))
                                                  && users.entries == old(users.entries))
              && (p.Success? && p.value.Some? ==>
                    r == Success(Ok) && users.entries == Follow(old(users.entries), p.value.value.0, targetId))
    {
      var p := Parties(auth, targetId);
      if p.Failure? {
        return Failure(p.error);
      }
      if p.value.None? {
        return Success(UserNotFound("User not found"));
      }
      var (current, target) := p.value.value;
      ghost var before := users.entries;
      if targetId !in Following(current) {
        if current.id == targetId {
          users.Save(current.id, current.(following := Some(Following(current) + [targetId]),
                                          followers := Some(Followers(current) + [current.id])));
        } else {
          users.Save(current.id, current.(following := Some(Following(current) + [targetId])));
          users.Save(targetId, target.(followers := Some(Followers(target) + [current.id])));
        }
      }
      assert users.entries == Follow(before, current, targetId);
      FollowKeepsValid(before, current, targetId);
      r := Success(Ok);
    }

    /** unfollowUser(id, authentication) */
    method UnfollowUser(auth: Option<Authentication>, targetId: string) returns (r: Result<Response, Exception>)
      requires Valid()
      modifies users
      ensures Valid()
      ensures var p := old(Parties(auth, targetId));
              (p.Failure? ==> r == Failure(p.error) && users.entries == old(users.entries))
              && (p.Success? && p.value.None? ==> r == Success(UserNotFound("User not found"))
                                                  && users.entries == old(users.entries))
              && (p.Success? && p.value.Some? ==>
                    r == Success(Ok) && users.entries == Unfollow(old(users.entries), p.value.value.0, targetId))
    {
      var p := Parties(auth, targetId);
      if p.Failure? {
        return Failure(p.error);
      }
      if p.value.None? {
        return Success(UserNotFound("User not found"));
      }
      var (current, target) := p.value.value;
      ghost var before := users.entries;
      if targetId in Following(current) {
        if current.id == targetId {
          users.Save(current.id, current.(following := Some(RemoveFirst(Following(current), targetId)),
                                          followers := Some(RemoveFirst(Followers(current), current.id))));
        } else {
          users.Save(current.id, current.(following := Some(RemoveFirst(Following(current), targetId))));
          users.Save(targetId, target.(followers := Some(RemoveFirst(Followers(target), current.id))));
        }
      }
      assert users.entries == Unfollow(before, current, targetId);
      UnfollowKeepsValid(before, current, targetId);
      r := Success(Ok);
    }
  }

  /** The invariants of the users collection survive a follow and an unfollow. */
  lemma FollowKeepsValid(users: map<string, User>, current: User, targetId: string)
    requires WellKeyed(users) && UniqueEmails(users) && FollowGraph(users)
    requires current.id in users && users[current.id] == current && targetId in users
    ensures var r := Follow(users, current, targetId);
            WellKeyed(r) && UniqueEmails(r) && FollowGraph(r)
  {
    FollowKeepsGraph(users, current, targetId);
    FollowChangesOnlyLists(users, current, targetId);
    ReplaceKeepsIndex(users, Follow(users, current, targetId));
  }

  lemma UnfollowKeepsValid(users: map<string, User>, current: User, targetId: string)
    requires WellKeyed(users) && UniqueEmails(users) && FollowGraph(users)
    requires current.id in users && users[current.id] == current && targetId in users
    ensures var r := Unfollow(users, current, targetId);
            WellKeyed(r) && UniqueEmails(r) && FollowGraph(r)
  {
    UnfollowKeepsGraph(users, current, targetId);
    UnfollowChangesOnlyLists(users, current, targetId);
    ReplaceKeepsIndex(users, Unfollow(users, current, targetId));
  }

  /** The same users, each differing at most in its two follow lists. */
  predicate ListsOnlyChanged(before: map<string, User>, after: map<string, User>) {
    after.Keys == before.Keys
    && forall x | x in before :: after[x] == before[x].(following := after[x].following,
                                                        followers := after[x].followers)
  }

  lemma FollowChangesOnlyLists(users: map<string, User>, current: User, targetId: string)
    requires current.id in users && users[current.id] == current && targetId in users
    ensures ListsOnlyChanged(users, Follow(users, current, targetId))
  {
    var r := Follow(users, current, targetId);
    forall x | x in users
      ensures r[x] == users[x].(following := r[x].following, followers := r[x].followers)
    {
    }
  }

  lemma UnfollowChangesOnlyLists(users: map<string, User>, current: User, targetId: string)
    requires current.id in users && users[current.id] == current && targetId in users
    ensures ListsOnlyChanged(users, Unfollow(users, current, targetId))
  {
    var r := Unfollow(users, current, targetId);
    var c := current.id;
    var target := users[targetId];
    forall x | x in users
      ensures r[x] == users[x].(following := r[x].following, followers := r[x].followers)
    {
      if targetId !in Following(current) {
        assert r[x] == users[x];
      } else if c == targetId {
        var following := Some(RemoveFirst(Following(current), targetId));
        var followers := Some(RemoveFirst(Followers(current), c));
        if x == c {
          assert r[x] == current.(following := following, followers := followers);
        } else {
          assert r[x] == users[x];
        }
      } else {
        var following := Some(RemoveFirst(Following(current), targetId));
        var followers := Some(RemoveFirst(Followers(target), c));
        if x == c {
          assert r[x] == current.(following := following);
        } else if x == targetId {
          assert r[x] == target.(followers := followers);
        } else {
          assert r[x] == users[x];
        }
      }
    }
  }

  /** Follow and unfollow only rewrite the follow lists of stored users, so the records stay
      keyed by id and the email index stays unique. */
  lemma ReplaceKeepsIndex(before: map<string, User>, after: map<string, User>)
    requires WellKeyed(before) && UniqueEmails(before) && ListsOnlyChanged(before, after)
    ensures WellKeyed(after) && UniqueEmails(after)
  {
    forall a, b | a in after && b in after && after[a].email.Some? && after[a].email == after[b].email
      ensures a == b
    {
      assert after[a].email == before[a].email && after[b].email == before[b].email;
    }
  }
}
