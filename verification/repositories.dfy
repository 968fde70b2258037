/**
 * The document collections behind the services: each repository is a map from document
 * id to document, updated in place by save and deleteById.
 */
module Repositories {
  import opened Wrappers

  /** A MongoRepository: the stored documents by id. */
  class Repository<T> {
    var entries: map<string, T>

    constructor (initial: map<string, T>)
      ensures entries == initial
    {
      entries := initial;
    }

    /** findById */
    function FindById(id: string): (r: Option<T>)
      reads this
      ensures r.Some? <==> id in entries
      ensures r.Some? ==> r.value == entries[id]
    {
      if id in entries then Some(entries[id]) else None
    }

    /** save: inserts or replaces the document stored under `id`. */
    method Save(id: string, document: T)
      modifies this
      ensures entries == old(entries)[id := document]
    {
      entries := entries[id := document];
    }

    /** deleteById */
    method DeleteById(id: string)
      modifies this
      ensures entries == old(entries) - {id}
    {
      entries := entries - {id};
    }
  }
}

/** The queries of the user repository, which keeps emails unique (a unique index). */
module UserQueries {
  import opened Wrappers
  import opened UserModel

  /** Every user is stored under its own id. */
  predicate WellKeyed(users: map<string, User>) {
    forall id | id in users :: users[id].id == id
  }

  /** The unique index on email: no two stored users share an email. */
  predicate UniqueEmails(users: map<string, User>) {
    forall a, b | a in users && b in users && users[a].email.Some? && users[a].email == users[b].email :: a == b
  }

  /** existsByEmail */
  predicate ExistsByEmail(users: map<string, User>, email: string) {
    exists id | id in users :: users[id].email == Some(email)
  }

  /** findByEmail: the one user with that email, if any. */
  function FindByEmail(users: map<string, User>, email: string): (r: Option<User>)
    requires WellKeyed(users) && UniqueEmails(users)
    ensures r.Some? <==> ExistsByEmail(users, email)
    ensures r.Some? ==> r.value.id in users && users[r.value.id] == r.value && r.value.email == Some(email)
    ensures r.Some? ==> forall id | id in users && users[id].email == Some(email) :: id == r.value.id
  {
    if ExistsByEmail(users, email) then
      var id :| id in users && users[id].email == Some(email);
      Some(users[id])
    else None
  }

  /** Storing a user whose email is not yet taken, under a fresh id, keeps the index unique. */
  lemma InsertKeepsUnique(users: map<string, User>, u: User)
    requires WellKeyed(users) && UniqueEmails(users)
    requires u.id !in users && (u.email.Some? ==> !ExistsByEmail(users, u.email.value))
    ensures WellKeyed(users[u.id := u]) && UniqueEmails(users[u.id := u])
  {
  }

  /** Replacing a stored user by a copy with the same id and email keeps the index unique. */
  lemma ReplaceKeepsUnique(users: map<string, User>, u: User)
    requires WellKeyed(users) && UniqueEmails(users)
    requires u.id in users && u.email == users[u.id].email
    ensures WellKeyed(users[u.id := u]) && UniqueEmails(users[u.id := u])
  {
  }
}
