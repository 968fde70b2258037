/**
 * LearningService: the learning-progress entries of a user, kept in a repository keyed by
 * id. An upsert copies the editable fields of the incoming entry onto the stored one (never
 * its id or owner); lookups, deletion and listing by owner report every failure as a
 * RuntimeException wrapping the cause.
 */
module LearningService {
  import opened Wrappers
  import opened Failures
  import opened JavaStrings
  import opened Repositories

  /** A learning entry (model/Learning.java). Dates are epoch days; the hours are a
      double, carried here as a real that the service only copies. */
  datatype Learning = Learning(
    id: Option<string>,
    learningTopic: Option<string>,
    startDate: Option<int>,
    endDate: Option<int>,
    learningSubject: Option<string>,
    whatDidYouLearn: Option<string>,
    currentProgressStage: int,
    timeSpentInHours: real,
    isPublic: bool,
    skills: Option<seq<string>>,
    nextSteps: Option<string>,
    userId: Option<string>)

  /** Every stored entry carries the id it is stored under. */
  predicate Keyed(entries: map<string, Learning>) {
    forall k | k in entries :: entries[k].id == Some(k)
  }

  // ---------------------------------------------------------------------------
  // saveorUpdate

  /** The ten setter calls on the stored entry: topic, subject, text, both dates, stage,
      hours, visibility, skills and next steps come from the incoming entry. The result is
      the incoming entry with the stored entry's id and owner. */
  function CopyFields(existing: Learning, incoming: Learning): (r: Learning)
    ensures r == incoming.(id := existing.id, userId := existing.userId)
  {
    existing.(learningTopic := incoming.learningTopic,
              learningSubject := incoming.learningSubject,
              whatDidYouLearn := incoming.whatDidYouLearn,
              startDate := incoming.startDate,
              endDate := incoming.endDate,
              currentProgressStage := incoming.currentProgressStage,
              timeSpentInHours := incoming.timeSpentInHours,
              isPublic := incoming.isPublic,
              skills := incoming.skills,
              nextSteps := incoming.nextSteps)
  }

  /** The entries after saveorUpdate and the entry it returns. An incoming entry whose id is
      stored updates that entry; one with an unknown id is inserted under it; one without
      an id is inserted under the id the database generates. */
  function Upsert(entries: map<string, Learning>, incoming: Learning, generatedId: string)
    : (r: (map<string, Learning>, Learning))
    requires Keyed(entries)
    ensures r.1.id.Some? && r.0 == entries[r.1.id.value := r.1] && Keyed(r.0)
  {
    if incoming.id.Some? && incoming.id.value in entries then
      var saved := CopyFields(entries[incoming.id.value], incoming);
      (entries[incoming.id.value := saved], saved)
    else
      var id := if incoming.id.Some? then incoming.id.value else generatedId;
      var saved := incoming.(id := Some(id));
      (entries[id := saved], saved)
  }

  /** An update keeps the stored id and owner and takes every other field from the incoming
      entry; an insert stores the incoming entry as it is, with the generated id when it had
      none. */
  lemma UpsertProperties(entries: map<string, Learning>, incoming: Learning, generatedId: string)
    requires Keyed(entries) && generatedId !in entries
    ensures var (after, saved) := Upsert(entries, incoming, generatedId);
            (incoming.id.Some? && incoming.id.value in entries ==>
                  saved == incoming.(userId := entries[incoming.id.value].userId)
                  && after.Keys == entries.Keys)
            && (incoming.id.Some? && incoming.id.value !in entries ==>
                  saved == incoming && after.Keys == entries.Keys + {incoming.id.value})
            && (incoming.id.None? ==>
                  saved == incoming.(id := Some(generatedId)) && after.Keys == entries.Keys + {generatedId})
  {
  }

  /** Saving the same entry with an id a second time changes nothing more. */
  lemma {:induction false} UpsertIdempotent(entries: map<string, Learning>, incoming: Learning,
                                            generatedId: string, generatedAgain: string)
    requires Keyed(entries) && incoming.id.Some?
    ensures var once := Upsert(entries, incoming, generatedId).0;
            Upsert(once, incoming, generatedAgain).0 == once
  {
    var k := incoming.id.value;
    var once := Upsert(entries, incoming, generatedId).0;
    assert k in once;
    if k in entries {
      assert once[k] == incoming.(userId := entries[k].userId);
    } else {
      assert once[k] == incoming;
    }
    assert CopyFields(once[k], incoming) == once[k];
  }

  // ---------------------------------------------------------------------------
  // getLearningById, deleteLearning, getLearningsByUserId

  /** findById with a null id: Spring Data refuses it before querying. */
  function NullId(): Exception {
    Throw(IllegalArgument, "The given id must not be null")
  }

  function NotFound(id: string): Exception {
    Throw(Runtime, "Learning entry not found with id: " + id)
  }

  /** getLearningById: the stored entry; otherwise "Failed to fetch learning entry" wrapping
      the not-found (or null-id) failure. */
  function GetLearningById(entries: map<string, Learning>, id: Option<string>): (r: Result<Learning, Exception>)
    ensures r.Success? <==> id.Some? && id.value in entries
    ensures r.Success? ==> r.value == entries[id.value]
    ensures r.Failure? ==> r.error.kind == Runtime && r.error.message == "Failed to fetch learning entry"
                           && r.error.cause == Some(if id.None? then NullId() else NotFound(id.value))
  {
    match id
    case None => Failure(Wrap(Runtime, "Failed to fetch learning entry", NullId()))
    case Some(k) =>
      if k in entries then Success(entries[k])
      else Failure(Wrap(Runtime, "Failed to fetch learning entry", NotFound(k)))
  }

  /** deleteLearning: existsById, then deleteById; a missing or null id deletes nothing and
      fails with "Failed to delete learning entry" wrapping the cause. */
  function DeleteOutcome(entries: map<string, Learning>, id: Option<string>): (r: Result<map<string, Learning>, Exception>)
    ensures r.Success? <==> id.Some? && id.value in entries
    ensures r.Success? ==> r.value.Keys == entries.Keys - {id.value}
                           && forall k | k in r.value :: r.value[k] == entries[k]
    ensures r.Failure? ==> r.error.kind == Runtime && r.error.message == "Failed to delete learning entry"
                           && r.error.cause == Some(if id.None? then NullId() else NotFound(id.value))
  {
    match id
    case None => Failure(Wrap(Runtime, "Failed to delete learning entry", NullId()))
    case Some(k) =>
      if k !in entries then Failure(Wrap(Runtime, "Failed to delete learning entry", NotFound(k)))
      else Success(entries - {k})
  }

  /** After a successful delete the entry can no longer be fetched, and an entry just saved
      can be fetched back as saved. */
  lemma SaveDeleteFetch(entries: map<string, Learning>, incoming: Learning, generatedId: string)
    requires Keyed(entries)
    ensures var (after, saved) := Upsert(entries, incoming, generatedId);
            GetLearningById(after, saved.id) == Success(saved)
            && DeleteOutcome(after, saved.id).Success?
            && GetLearningById(DeleteOutcome(after, saved.id).value, saved.id).Failure?
  {
  }

  function InvalidUser(): Exception {
    Throw(IllegalArgument, "User ID cannot be null or empty")
  }

  /** getLearningsByUserId: the entries the user owns, by id. A null or blank user id is
      refused before the query; the failure message repeats the cause's message. */
  function GetLearningsByUserId(entries: map<string, Learning>, userId: Option<string>)
    : (r: Result<map<string, Learning>, Exception>)
    ensures r.Success? <==> userId.Some? && !IsBlank(userId.value)
    ensures r.Success? ==> forall k :: k in r.value <==> k in entries && entries[k].userId == userId
    ensures r.Success? ==> forall k | k in r.value :: r.value[k] == entries[k]
    ensures r.Failure? ==> r.error.kind == Runtime && r.error.cause == Some(InvalidUser())
                           && r.error.message == "Failed to fetch learning entries for user: " + InvalidUser().message
  {
    if userId.None? || Trim(userId.value) == [] then
      Failure(Wrap(Runtime, "Failed to fetch learning entries for user: " + InvalidUser().message, InvalidUser()))
    else
      Success(map k | k in entries && entries[k].userId == userId :: entries[k])
  }

  // ---------------------------------------------------------------------------
  // The service

  class Service {
    const repo: Repository<Learning>

    constructor (repo: Repository<Learning>)
      ensures this.repo == repo
    {
      this.repo := repo;
    }

    predicate Valid()
      reads this, repo
    {
      Keyed(repo.entries)
    }

    /** saveorUpdate(incoming), with the id the database generates for an entry without one. */
    method SaveOrUpdate(incoming: Learning, generatedId: string) returns (r: Learning)
      requires Valid() && generatedId !in repo.entries
      modifies repo
      ensures Valid()
      ensures (repo.entries, r) == Upsert(old(repo.entries), incoming, generatedId)
    {
      ghost var before := repo.entries;
      UpsertProperties(before, incoming, generatedId);
      if incoming.id.Some? {
        var existingOpt := repo.FindById(incoming.id.value);
        if existingOpt.Some? {
          var existing := existingOpt.value;
          existing := existing.(learningTopic := incoming.learningTopic);
          existing := existing.(learningSubject := incoming.learningSubject);
          existing := existing.(whatDidYouLearn := incoming.whatDidYouLearn);
          existing := existing.(startDate := incoming.startDate);
          existing := existing.(endDate := incoming.endDate);
          existing := existing.(currentProgressStage := incoming.currentProgressStage);
          existing := existing.(timeSpentInHours := incoming.timeSpentInHours);
          existing := existing.(isPublic := incoming.isPublic);
          existing := existing.(skills := incoming.skills);
          existing := existing.(nextSteps := incoming.nextSteps);
          repo.Save(incoming.id.value, existing);
          return existing;
        }
      }
      var id := if incoming.id.Some? then incoming.id.value else generatedId;
      r := incoming.(id := Some(id));
      repo.Save(id, r);
    }

    /** deleteLearning(id) */
    method DeleteLearning(id: Option<string>) returns (r: Result<(), Exception>)
      requires Valid()
      modifies repo
      ensures Valid()
      ensures var d := DeleteOutcome(old(repo.entries), id);
              (d.Failure? ==> r == Failure(d.error) && repo.entries == old(repo.entries))
              && (d.Success? ==> r.Success? && repo.entries == d.value)
    {
      if id.None? {
        return Failure(Wrap(Runtime, "Failed to delete learning entry", NullId()));
      }
      if id.value !in repo.entries {
        return Failure(Wrap(Runtime, "Failed to delete learning entry", NotFound(id.value)));
      }
      repo.DeleteById(id.value);
      r := Success(());
    }
  }
}
