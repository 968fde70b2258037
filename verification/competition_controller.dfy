/**
 * CompetitionController with the CompetitionService calls it makes. A competition's banner
 * and instructions are files kept by the storage service under names "competitions/X";
 * the record holds their public URLs "/api/competitions/files/X", and the controller turns
 * a URL back into the stored name when it deletes the file.
 */
module CompetitionController {
  import opened Wrappers
  import opened Failures
  import opened JavaStrings
  import opened Repositories
  import opened Effects

  /** A competition record. Dates are epoch days; the two file fields hold public URLs. */
  datatype Competition = Competition(
    id: Option<string>,
    competitionTitle: Option<string>,
    competitionCategory: Option<string>,
    competitionType: Option<string>,
    maxTeamSize: Option<int>,
    competitionDescription: Option<string>,
    problemStatement: Option<string>,
    startDate: Option<int>,
    submissionDeadline: Option<int>,
    competitionStatus: Option<string>,
    countdownTimerEnabled: Option<bool>,
    instructions: Option<string>,
    banner: Option<string>)

  /** new Competition(): every field null. */
  function NewCompetition(): (c: Competition)
    ensures c.id.None? && c.banner.None? && c.instructions.None?
  {
    Competition(None, None, None, None, None, None, None, None, None, None, None, None, None)
  }

  /** The required request parameters of add and edit. The two dates are the outcome of
      LocalDate.parse on the submitted text: the epoch day, or the parser's message. */
  datatype Form = Form(
    title: string,
    category: string,
    kind: string,
    maxTeamSize: int,
    description: string,
    problemStatement: string,
    startDate: Result<int, string>,
    submissionDeadline: Result<int, string>,
    status: string,
    countdownTimerEnabled: bool)

  /** An optional multipart file: absent, empty, or supplied, in which case storeFile either
      returns the stored name or throws an IOException with the given message. */
  datatype Upload = NoFile | EmptyFile | File(outcome: Result<string, string>)

  /** The handlers' ResponseEntity: a status and either the competition or a text. */
  datatype Body = Saved(competition: Competition) | Text(message: string)
  datatype Response = Response(status: int, body: Body)

  function ServerError(prefix: string, e: Exception): Response {
    Response(500, Text(prefix + e.message))
  }

  /** Every stored competition carries the id it is stored under. */
  predicate Keyed(entries: map<string, Competition>) {
    forall k | k in entries :: entries[k].id == Some(k)
  }

  // ---------------------------------------------------------------------------
  // Stored names and public URLs

  const StoredDir: string := "competitions/"
  const FilesUrl: string := "/api/competitions/files/"

  /** replaceFirst("^competitions/", ""): the directory prefix is dropped when present. */
  function StripStoredDir(name: string): (r: string)
    ensures StartsWith(name, StoredDir) ==> name == StoredDir + r
    ensures !StartsWith(name, StoredDir) ==> r == name
  {
    if StartsWith(name, StoredDir) then name[|StoredDir|..] else name
  }

  /** The URL a stored file is published under. */
  function ExposedUrl(name: string): (url: string)
    ensures StartsWith(url, FilesUrl)
  {
    StartsWithConcat(FilesUrl, StripStoredDir(name));
    FilesUrl + StripStoredDir(name)
  }

  /** replace("/api/competitions/files/", "competitions/"): the stored name a URL is deleted by. */
  function StoredNameOf(url: string): string {
    Replace(url, FilesUrl, StoredDir)
  }

  /** A name "competitions/X" is published as "/api/competitions/files/X", and turning that
      URL back gives the name, provided X does not itself hold the URL prefix. */
  lemma ExposedRoundTrip(rest: string)
    requires !Contains(rest, FilesUrl)
    ensures ExposedUrl(StoredDir + rest) == FilesUrl + rest
    ensures StoredNameOf(ExposedUrl(StoredDir + rest)) == StoredDir + rest
  {
    StartsWithConcat(StoredDir, rest);
    ReplaceLeading(FilesUrl, rest, StoredDir);
    ReplaceAbsent(rest, FilesUrl, StoredDir);
  }

  /** A name outside the directory is published as is, and the name derived from its URL
      is then a different one: the file would not be found for deletion. */
  lemma UndirectedNameNotRecovered(name: string)
    requires !StartsWith(name, StoredDir) && !Contains(name, FilesUrl)
    ensures ExposedUrl(name) == FilesUrl + name
    ensures StoredNameOf(ExposedUrl(name)) == StoredDir + name != name
  {
    ReplaceLeading(FilesUrl, name, StoredDir);
    ReplaceAbsent(name, FilesUrl, StoredDir);
    assert |StoredDir + name| != |name|;
  }

  // ---------------------------------------------------------------------------
  // The ten setters

  /** The setter sequence of add and edit: the ten scalar, date and status fields take the
      request's values; a date that does not parse aborts with the parser's exception. */
  function ApplyForm(c: Competition, form: Form): (r: Result<Competition, Exception>)
    ensures r.Success? <==> form.startDate.Success? && form.submissionDeadline.Success?
    ensures form.startDate.Failure? ==> r == Failure(Throw(DateTimeParse, form.startDate.error))
    ensures form.startDate.Success? && form.submissionDeadline.Failure? ==>
              r == Failure(Throw(DateTimeParse, form.submissionDeadline.error))
    ensures r.Success? ==> r.value.id == c.id && r.value.banner == c.banner && r.value.instructions == c.instructions
  {
    match form.startDate
    case Failure(m) => Failure(Throw(DateTimeParse, m))
    case Success(start) =>
      match form.submissionDeadline
      case Failure(m) => Failure(Throw(DateTimeParse, m))
      case Success(deadline) =>
        Success(c.(competitionTitle := Some(form.title),
                   competitionCategory := Some(form.category),
                   competitionType := Some(form.kind),
                   maxTeamSize := Some(form.maxTeamSize),
                   competitionDescription := Some(form.description),
                   problemStatement := Some(form.problemStatement),
                   startDate := Some(start),
                   submissionDeadline := Some(deadline),
                   competitionStatus := Some(form.status),
                   countdownTimerEnabled := Some(form.countdownTimerEnabled)))
  }

  /** The overwrite is unconditional: two records given the same form end up equal except for
      their id and files, whatever their previous values were; and the form's values are
      what the record holds. */
  lemma ApplyFormOverwrites(c1: Competition, c2: Competition, form: Form)
    requires form.startDate.Success? && form.submissionDeadline.Success?
    ensures var a := ApplyForm(c1, form).value;
            a == ApplyForm(c2, form).value.(id := c1.id, banner := c1.banner, instructions := c1.instructions)
            && a.competitionTitle == Some(form.title) && a.competitionCategory == Some(form.category)
            && a.competitionType == Some(form.kind) && a.maxTeamSize == Some(form.maxTeamSize)
            && a.competitionDescription == Some(form.description)
            && a.problemStatement == Some(form.problemStatement)
            && a.startDate == Some(form.startDate.value)
            && a.submissionDeadline == Some(form.submissionDeadline.value)
            && a.competitionStatus == Some(form.status)
            && a.countdownTimerEnabled == Some(form.countdownTimerEnabled)
  {
  }

  // ---------------------------------------------------------------------------
  // Banner and instructions

  /** A file part that is present and not empty. */
  predicate Supplied(u: Upload) {
    u.File?
  }

  /** One file field after an upload: unchanged unless a file is supplied, then the new
      file's URL, or the storage failure. */
  function SlotAfter(current: Option<string>, u: Upload): Result<Option<string>, Exception> {
    match u
    case File(Success(name)) => Success(Some(ExposedUrl(name)))
    case File(Failure(m)) => Failure(Throw(IO, m))
    case _ => Success(current)
  }

  /** The old file is deleted before the new one is stored, whether or not storing succeeds. */
  function SlotDeletes(current: Option<string>, u: Upload): seq<string> {
    if Supplied(u) && current.Some? then [StoredNameOf(current.value)] else []
  }

  function SlotStores(u: Upload): seq<string> {
    if u.File? && u.outcome.Success? then [u.outcome.value] else []
  }

  /** A supplied upload replacing a file that was published from "competitions/X" deletes
      exactly that stored name; no upload deletes nothing. */
  lemma SlotReplacesStoredFile(rest: string, u: Upload)
    requires !Contains(rest, FilesUrl)
    ensures SlotDeletes(Some(ExposedUrl(StoredDir + rest)), u) == (if Supplied(u) then [StoredDir + rest] else [])
    ensures !Supplied(u) ==> SlotAfter(Some(ExposedUrl(StoredDir + rest)), u) == Success(Some(ExposedUrl(StoredDir + rest)))
  {
    ExposedRoundTrip(rest);
  }

  /** Both file fields, banner first; a storage failure on the banner leaves the
      instructions untouched. */
  function AttachFiles(c: Competition, banner: Upload, instructions: Upload): Result<Competition, Exception> {
    match SlotAfter(c.banner, banner)
    case Failure(e) => Failure(e)
    case Success(b) =>
      match SlotAfter(c.instructions, instructions)
      case Failure(e) => Failure(e)
      case Success(i) => Success(c.(banner := b, instructions := i))
  }

  function FileDeletes(c: Competition, banner: Upload, instructions: Upload): seq<string> {
    SlotDeletes(c.banner, banner)
    + (if SlotAfter(c.banner, banner).Failure? then [] else SlotDeletes(c.instructions, instructions))
  }

  function FileStores(c: Competition, banner: Upload, instructions: Upload): seq<string> {
    SlotStores(banner) + (if SlotAfter(c.banner, banner).Failure? then [] else SlotStores(instructions))
  }

  /** Banner and instructions change only when a file is supplied, and then to the new
      file's URL; nothing else changes; the step fails exactly when a supplied file cannot
      be stored; and with no file supplied no file is deleted or stored. */
  lemma FilesChangeOnlyWhenSupplied(c: Competition, banner: Upload, instructions: Upload)
    ensures var a := AttachFiles(c, banner, instructions);
            (a.Failure? <==> (Supplied(banner) && banner.outcome.Failure?)
                             || (Supplied(instructions) && instructions.outcome.Failure?))
            && (a.Success? ==>
                  a.value.(banner := c.banner, instructions := c.instructions) == c
                  && a.value.banner == (if Supplied(banner) then Some(ExposedUrl(banner.outcome.value)) else c.banner)
                  && a.value.instructions
                     == (if Supplied(instructions) then Some(ExposedUrl(instructions.outcome.value)) else c.instructions))
            && (!Supplied(banner) && !Supplied(instructions) ==>
                  a == Success(c) && FileDeletes(c, banner, instructions) == [] && FileStores(c, banner, instructions) == [])
  {
  }

  /** The names deleteCompetition removes: the banner's, then the instructions'. */
  function AttachedNames(c: Competition): seq<string> {
    (if c.banner.Some? then [StoredNameOf(c.banner.value)] else [])
    + (if c.instructions.Some? then [StoredNameOf(c.instructions.value)] else [])
  }

  /** A competition whose files were published from "competitions/B" and "competitions/I"
      has exactly those two names deleted with it. */
  lemma DeleteRemovesAttached(c: Competition, b: string, i: string)
    requires !Contains(b, FilesUrl) && !Contains(i, FilesUrl)
    requires c.banner == Some(ExposedUrl(StoredDir + b)) && c.instructions == Some(ExposedUrl(StoredDir + i))
    ensures AttachedNames(c) == [StoredDir + b, StoredDir + i]
  {
    ExposedRoundTrip(b);
    ExposedRoundTrip(i);
  }

  // ---------------------------------------------------------------------------
  // CompetitionService.saveorUpdate and getCompetitionByID

  /** One notification per user, in the order findAll returns them. */
  function Announcements(saved: Competition, recipients: seq<string>): seq<Notification> {
    seq(|recipients|, i requires 0 <= i < |recipients| =>
      Notification(recipients[i], "COMPETITION",
                   "A new competition was added: " + NullToString(saved.competitionTitle),
                   "/competitions/" + NullToString(saved.id)))
  }

  /** saveorUpdate as written: save stores the record under its id, assigning the generated
      id to the very object it was given when it had none; the "no id before save" test
      reads that object after the save, so it never sees a missing id. */
  function SaveAsWritten(entries: map<string, Competition>, c: Competition, generatedId: string,
                         recipients: seq<string>): (map<string, Competition>, Competition, seq<Notification>)
  {
    var saved := if c.id.Some? then c else c.(id := Some(generatedId));
    var competitionAfterSave := saved;
    (entries[saved.id.value := saved], saved,
     if competitionAfterSave.id.None? then Announcements(saved, recipients) else [])
  }

  /** A new competition saved while one user is registered announces nothing. */
  lemma NewCompetitionNotAnnounced()
    ensures var r := SaveAsWritten(map[], NewCompetition(), "c1", ["u1"]);
            r.1.id == Some("c1") && r.2 == []
  {
  }

  /** saveorUpdate with the test made on the id the record had before the save. */
  function Save(entries: map<string, Competition>, c: Competition, generatedId: string,
                recipients: seq<string>): (map<string, Competition>, Competition, seq<Notification>)
  {
    var saved := if c.id.Some? then c else c.(id := Some(generatedId));
    (entries[saved.id.value := saved], saved,
     if c.id.None? then Announcements(saved, recipients) else [])
  }

  /** A new competition gets the generated id and is announced to every user, in order,
      with a link to it; saving a stored competition announces nothing. */
  lemma SaveAnnouncesNew(entries: map<string, Competition>, c: Competition, generatedId: string,
                         recipients: seq<string>)
    requires Keyed(entries) && (c.id.None? ==> generatedId !in entries)
    ensures var (after, saved, sent) := Save(entries, c, generatedId, recipients);
            Keyed(after) && saved.id.Some? && after == entries[saved.id.value := saved]
            && (c.id.None? ==>
                  saved == c.(id := Some(generatedId)) && after.Keys == entries.Keys + {generatedId}
                  && |sent| == |recipients|
                  && forall i | 0 <= i < |sent| ::
                       sent[i].recipientId == recipients[i] && sent[i].kind == "COMPETITION"
                       && sent[i].link == "/competitions/" + generatedId)
            && (c.id.Some? ==> saved == c && sent == [])
  {
    if c.id.None? {
      var saved := c.(id := Some(generatedId));
      assert NullToString(saved.id) == generatedId;
    }
  }

  function FetchFailure(id: string): Exception {
    Throw(Runtime, "Failed to fetch competition: Competition not found with id: " + id)
  }

  /** getCompetitionById: 200 with the record, or 404 with the service's message. */
  function GetCompetitionById(entries: map<string, Competition>, id: string): (r: Response)
    ensures r.status == 200 <==> id in entries
    ensures id in entries ==> r.body == Saved(entries[id])
    ensures id !in entries ==> r == Response(404, Text("Error fetching competition: " + FetchFailure(id).message))
  {
    if id in entries then Response(200, Saved(entries[id]))
    else Response(404, Text("Error fetching competition: " + FetchFailure(id).message))
  }

  // ---------------------------------------------------------------------------
  // The service and the controller

  class Service {
    const competitions: Repository<Competition>
    const notifications: NotificationLog

    constructor (competitions: Repository<Competition>, notifications: NotificationLog)
      ensures this.competitions == competitions && this.notifications == notifications
    {
      this.competitions := competitions;
      this.notifications := notifications;
    }

    predicate Valid()
      reads this, competitions
    {
      Keyed(competitions.entries)
    }

    /** saveorUpdate(competition), with the id the database generates for a new record and
        the users findAll returns. The new-record test is the corrected one of Save: it reads
        the id the argument had before the save. As written the test reads it after the save
        has assigned it, and nothing is announced (NewCompetitionNotAnnounced). */
    method SaveOrUpdate(c: Competition, generatedId: string, recipients: seq<string>) returns (saved: Competition)
      requires Valid() && (c.id.None? ==> generatedId !in competitions.entries)
      modifies competitions, notifications
      ensures Valid()
      ensures var s := Save(old(competitions.entries), c, generatedId, recipients);
              competitions.entries == s.0 && saved == s.1 && notifications.sent == old(notifications.sent) + s.2
    {
      SaveAnnouncesNew(competitions.entries, c, generatedId, recipients);
      saved := if c.id.Some? then c else c.(id := Some(generatedId));
      competitions.Save(saved.id.value, saved);
      if c.id.None? {
        var all := Announcements(saved, recipients);
        var i := 0;
        while i < |recipients|
          invariant 0 <= i <= |recipients|
          invariant notifications.sent == old(notifications.sent) + all[..i]
          invariant competitions.entries == old(competitions.entries)[saved.id.value := saved]
        {
          notifications.CreateNotification(recipients[i], "COMPETITION",
            "A new competition was added: " + NullToString(saved.competitionTitle),
            "/competitions/" + NullToString(saved.id));
          assert all[..i + 1] == all[..i] + [all[i]];
          i := i + 1;
        }
        assert all[..i] == all;
      }
    }
  }

  class Controller {
    const service: Service
    const files: FileStore

    constructor (service: Service, files: FileStore)
      ensures this.service == service && this.files == files
    {
      this.service := service;
      this.files := files;
    }

    predicate Valid()
      reads this, service, service.competitions
    {
      service.Valid()
    }

    /** The banner and instructions steps of add and edit: for each supplied file, the old
        file is deleted, the new one stored and its URL recorded. */
    method StoreFiles(c: Competition, banner: Upload, instructions: Upload) returns (r: Result<Competition, Exception>)
      modifies files
      ensures r == AttachFiles(c, banner, instructions)
      ensures files.deleted == old(files.deleted) + FileDeletes(c, banner, instructions)
      ensures files.stored == old(files.stored) + FileStores(c, banner, instructions)
    {
      var competition := c;
      if banner.File? {
        if competition.banner.Some? {
          files.Delete(StoredNameOf(competition.banner.value));
        }
        match banner.outcome
        case Failure(m) =>
          return Failure(Throw(IO, m));
        case Success(name) =>
          files.Store(name);
          competition := competition.(banner := Some(ExposedUrl(name)));
      }
      if instructions.File? {
        if competition.instructions.Some? {
          files.Delete(StoredNameOf(competition.instructions.value));
        }
        match instructions.outcome
        case Failure(m) =>
          return Failure(Throw(IO, m));
        case Success(name) =>
          files.Store(name);
          competition := competition.(instructions := Some(ExposedUrl(name)));
      }
      r := Success(competition);
    }

    /** addCompetition(...): 201 with the saved record, or 500 "Error creating competition: …".
        The save is the corrected SaveOrUpdate, so the new competition is announced. */
    method AddCompetition(form: Form, banner: Upload, instructions: Upload, generatedId: string,
                          recipients: seq<string>) returns (r: Response)
      requires Valid() && generatedId !in service.competitions.entries
      modifies service.competitions, service.notifications, files
      ensures Valid()
      ensures files.deleted == old(files.deleted)
      ensures var f := ApplyForm(NewCompetition(), form);
              (f.Failure? ==>
                 r == ServerError("Error creating competition: ", f.error)
                 && service.competitions.entries == old(service.competitions.entries)
                 && service.notifications.sent == old(service.notifications.sent)
                 && files.stored == old(files.stored))
              && (f.Success? ==>
                    files.stored == old(files.stored) + FileStores(f.value, banner, instructions)
                    && var a := AttachFiles(f.value, banner, instructions);
                    (a.Failure? ==>
                       r == ServerError("Error creating competition: ", a.error)
                       && service.competitions.entries == old(service.competitions.entries)
                       && service.notifications.sent == old(service.notifications.sent))
                    && (a.Success? ==>
                          var s := Save(old(service.competitions.entries), a.value, generatedId, recipients);
                          service.competitions.entries == s.0
                          && service.notifications.sent == old(service.notifications.sent) + s.2
                          && r == Response(201, Saved(s.1))))
    {
      var f := ApplyForm(NewCompetition(), form);
      if f.Failure? {
        return ServerError("Error creating competition: ", f.error);
      }
      var a := StoreFiles(f.value, banner, instructions);
      if a.Failure? {
        return ServerError("Error creating competition: ", a.error);
      }
      var saved := service.SaveOrUpdate(a.value, generatedId, recipients);
      r := Response(201, Saved(saved));
    }

    /** updateCompetition(id, ...): 200 with the saved record, or 500 "Error updating
        competition: …" for an unknown id, a bad date or a storage failure. */
    method UpdateCompetition(id: string, form: Form, banner: Upload, instructions: Upload) returns (r: Response)
      requires Valid()
      modifies service.competitions, service.notifications, files
      ensures Valid()
      ensures service.notifications.sent == old(service.notifications.sent)
      ensures id !in old(service.competitions.entries) ==>
                r == ServerError("Error updating competition: ", FetchFailure(id))
                && service.competitions.entries == old(service.competitions.entries)
                && files.stored == old(files.stored) && files.deleted == old(files.deleted)
      ensures id in old(service.competitions.entries) ==>
                var f := ApplyForm(old(service.competitions.entries)[id], form);
                (f.Failure? ==>
                   r == ServerError("Error updating competition: ", f.error)
                   && service.competitions.entries == old(service.competitions.entries)
                   && files.stored == old(files.stored) && files.deleted == old(files.deleted))
                && (f.Success? ==>
                      files.deleted == old(files.deleted) + FileDeletes(f.value, banner, instructions)
                      && files.stored == old(files.stored) + FileStores(f.value, banner, instructions)
                      && var a := AttachFiles(f.value, banner, instructions);
                      (a.Failure? ==>
                         r == ServerError("Error updating competition: ", a.error)
                         && service.competitions.entries == old(service.competitions.entries))
                      && (a.Success? ==>
                            service.competitions.entries == old(service.competitions.entries)[id := a.value]
                            && r == Response(200, Saved(a.value))))
    {
      var found := service.competitions.FindById(id);
      if found.None? {
        return ServerError("Error updating competition: ", FetchFailure(id));
      }
      var f := ApplyForm(found.value, form);
      if f.Failure? {
        return ServerError("Error updating competition: ", f.error);
      }
      var a := StoreFiles(f.value, banner, instructions);
      if a.Failure? {
        return ServerError("Error updating competition: ", a.error);
      }
      var saved := service.SaveOrUpdate(a.value, id, []);
      r := Response(200, Saved(saved));
    }

    /** deleteCompetition(id): the attached files are deleted, then the record; 500 "Error
        deleting competition: …" for an unknown id. */
    method DeleteCompetition(id: string) returns (r: Response)
      requires Valid()
      modifies service.competitions, files
      ensures Valid()
      ensures files.stored == old(files.stored)
      ensures id !in old(service.competitions.entries) ==>
                r == ServerError("Error deleting competition: ", FetchFailure(id))
                && service.competitions.entries == old(service.competitions.entries)
                && files.deleted == old(files.deleted)
      ensures id in old(service.competitions.entries) ==>
                r == Response(200, Text("Competition deleted successfully"))
                && files.deleted == old(files.deleted) + AttachedNames(old(service.competitions.entries)[id])
                && service.competitions.entries == old(service.competitions.entries) - {id}
    {
      var found := service.competitions.FindById(id);
      if found.None? {
        return ServerError("Error deleting competition: ", FetchFailure(id));
      }
      var competition := found.value;
      if competition.banner.Some? {
        files.Delete(StoredNameOf(competition.banner.value));
      }
      if competition.instructions.Some? {
        files.Delete(StoredNameOf(competition.instructions.value));
      }
      service.competitions.DeleteById(id);
      r := Response(200, Text("Competition deleted successfully"));
    }
  }
}
