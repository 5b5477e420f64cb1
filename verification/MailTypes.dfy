/** The entities that the mailbox replica exchanges with the server and keeps locally. */
module MailTypes {
  import opened Wrappers

  /** Element id of a `MailSet`, the stable key of a folder. */
  type FolderId = string

  /** Element id of a `Mail`. */
  type MailId = string

  datatype Mail = Mail(listId: string, id: MailId, subject: string, senderName: string, senderAddress: string,
                       receivedMs: nat, unread: bool, attachments: nat)

  /** A mail as one folder of the in-memory store holds it. */
  datatype StoredMail = StoredMail(mail: Mail, bodyLoaded: bool, uid: nat, attachmentsPending: bool)

  datatype FolderInfo = FolderInfo(id: FolderId, entriesListId: string, imapPath: string)

  /** The decrypted body blob of a mail; only its rendering matters here. */
  type Details = string

  datatype Operation = Create | Update | Delete | Other(code: int)

  datatype EntityUpdateEvent = EntityUpdateEvent(application: string, typeId: int, instanceListId: string,
                                                 instanceId: string, operation: Operation,
                                                 instance: Option<string>, blobInstance: Option<string>)

  datatype EntityUpdateBatch = EntityUpdateBatch(batchId: string, groupId: string, updates: seq<EntityUpdateEvent>)

  /** The server seen through one batch: every answer it gives is an arbitrary function of the question. */
  datatype Backend = Backend(listFolders: Result<seq<FolderInfo>, string>,
                             folderMails: FolderInfo -> Result<seq<Mail>, string>,
                             loadMail: (string, string) -> Result<Option<Mail>, string>,
                             decryptMail: string -> Result<Option<Mail>, string>,
                             decryptEntry: string -> Result<Option<(string, string)>, string>,
                             decryptDetails: string -> Result<Option<Details>, string>,
                             render: (Mail, Details) -> string)

  function Ids(s: seq<StoredMail>): set<MailId> {
    set x | x in s :: x.mail.id
  }

  function MailIds(s: seq<Mail>): set<MailId> {
    set x | x in s :: x.id
  }

  function FolderIds(list: seq<FolderInfo>): set<FolderId> {
    set x | x in list :: x.id
  }
}
