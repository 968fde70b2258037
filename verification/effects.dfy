/**
 * The side effects the services have outside the repositories: notifications created
 * for other users and files stored or deleted. Each back end is a log of the requests
 * it received, in order; what the back end does with them is not modelled.
 */
module Effects {

  /** NotificationService.createNotification(userId, type, message, link) */
  datatype Notification = Notification(recipientId: string, kind: string, message: string, link: string)

  class NotificationLog {
    var sent: seq<Notification>

    constructor ()
      ensures sent == []
    {
      sent := [];
    }

    method CreateNotification(recipientId: string, kind: string, message: string, link: string)
      modifies this
      ensures sent == old(sent) + [Notification(recipientId, kind, message, link)]
    {
      sent := sent + [Notification(recipientId, kind, message, link)];
    }
  }

  /** A file storage service: the names it stored and the names it was asked to delete. */
  class FileStore {
    var stored: seq<string>
    var deleted: seq<string>

    constructor ()
      ensures stored == [] && deleted == []
    {
      stored := [];
      deleted := [];
    }

    /** storeFile, once the back end has chosen the name under which the file is kept. */
    method Store(name: string)
      modifies this
      ensures stored == old(stored) + [name] && deleted == old(deleted)
    {
      stored := stored + [name];
    }

    /** deleteFile; a failure of the back end is not observable to the callers modelled. */
    method Delete(name: string)
      modifies this
      ensures deleted == old(deleted) + [name] && stored == old(stored)
    {
      deleted := deleted + [name];
    }
  }
}
