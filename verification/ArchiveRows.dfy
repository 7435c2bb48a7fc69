/** The RoomArchivedConversation row and the decisions taken from its fields alone. */
module ArchiveRows {
  import opened Options
  import opened ArchiveMessages

  datatype JobStatus =
    | Pending
    | ProcessingMessages
    | MessagesProcessed
    | UploadingMessagesFile
    | MessagesFileUploaded
    | DeletingMessagesFromDb
    | MessagesDeletedFromDb
    | Finished
    | Failed

  /** `file` is the list of exported messages, one line each, once a file is attached. */
  datatype Row = Row(
    status: JobStatus,
    job: int,
    startedAt: Option<int>,
    file: Option<seq<Message>>,
    deletedAt: Option<int>,
    finishedAt: Option<int>,
    failedAt: Option<int>,
    errors: seq<int>)

  function NewRow(job: int): Row {
    Row(Pending, job, None, None, None, None, None, [])
  }

  /** The soft lock: an in-progress status stamped less than `timeout` ago. */
  predicate IsActivelyProcessed(row: Row, now: int, timeout: nat) {
    && row.status !in {Finished, Failed}
    && row.startedAt.Some?
    && now - row.startedAt.value < timeout
  }

  predicate NeedsProcessingAndUpload(row: Row) {
    && row.status !in {MessagesFileUploaded, DeletingMessagesFromDb, MessagesDeletedFromDb}
    && !(row.status == Failed && row.file.Some?)
  }

  predicate NeedsMessageDeletion(row: Row) {
    && row.status != MessagesDeletedFromDb
    && !(row.status == Failed && row.deletedAt.Some?)
  }
}
