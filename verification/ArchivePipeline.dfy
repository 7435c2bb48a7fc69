/** One room's archive attempts: claim, export, upload, delete in batches, finish,
    with an exception or a worker crash possible at every database or storage call. */
module ArchivePipeline {
  import opened Options
  import opened ArchiveMessages
  import opened ArchiveRows

  /** How a call comes back: normally, by an exception, or not at all. */
  datatype Signal = Ok | Raised | Crashed {
    predicate IsFailure() { !Ok? }
    function PropagateFailure(): Signal
      requires IsFailure()
    {
      this
    }
  }

  /** After `calls` more calls the next one raises, or takes the worker down. */
  datatype Fault = Fault(calls: nat, crash: bool)

  datatype Outcome = Skipped | AlreadyArchived | Archived | RegisteredFailure | Died

  /** A scheduler run that prepares the room's row, or a worker's attempt with the
      faults that will hit it. A contended attempt finds the row locked, or created by
      another worker at the same time. */
  datatype Event = Prepare(job: int) | Attempt(job: int, contended: bool, faults: seq<Fault>)

  class ArchiveChatsService {
    const pageSize: nat
    const batchSize: nat
    const timeout: nat
    const original: Table  // the messages of the room when it was closed

    var row: Option<Row>   // committed RoomArchivedConversation of the room
    var messages: Table    // messages of the room still in the database
    var clock: int

    var conv: Row          // the worker's in-memory copy of the row
    var faults: seq<Fault>

    constructor (original: Table, pageSize: nat, batchSize: nat, timeout: nat)
      requires UniqueKeys(original) && 1 <= pageSize && 1 <= batchSize
      ensures Configured() && Safe() && row == None && messages == original && faults == []
    {
      this.original, this.pageSize, this.batchSize, this.timeout := original, pageSize, batchSize, timeout;
      row, messages, clock := None, original, 0;
      conv, faults := NewRow(0), [];
    }

    ghost predicate Configured() {
      UniqueKeys(original) && 1 <= pageSize && 1 <= batchSize
    }

    ghost function FullFile(): Option<seq<Message>>
      requires Configured()
    {
      Some(InOrder(original))
    }

    /** Nothing is lost: messages leave the database only after a complete file is
        attached, and the status and stamps never claim more than was done. */
    ghost predicate Safe()
      reads this
    {
      && Configured()
      && messages <= original
      && match row
         case None => messages == original
         case Some(r) =>
           && (r.file.Some? ==> r.file == FullFile())
           && (messages != original ==> r.file.Some?)
           && (r.status in {MessagesFileUploaded, DeletingMessagesFromDb, MessagesDeletedFromDb, Finished} ==>
                 r.file.Some?)
           && (r.status in {Pending, ProcessingMessages, MessagesProcessed, UploadingMessagesFile} ==>
                 messages == original && r.deletedAt.None?)
           && (r.deletedAt.Some? || r.status in {MessagesDeletedFromDb, Finished} ==>
                 messages == {} && r.file.Some?)
    }

    /** The worker's copy agrees with the committed row. */
    ghost predicate Synced()
      reads this
    {
      row == Some(conv)
    }

    ghost predicate NoneLeft()
      reads this
    {
      messages == {}
    }

    /** Progress once made is kept: an attached file stays, deleted messages stay deleted. */
    twostate predicate Monotone()
      reads this
    {
      && clock >= old(clock)
      && messages <= old(messages)
      && (old(row).Some? ==> row.Some?)
      && (old(row).Some? && old(row).value.file.Some? ==> row.value.file == old(row).value.file)
      && (old(row).Some? && old(row).value.deletedAt.Some? ==> row.value.deletedAt.Some?)
    }

    method Now() returns (t: int)
      modifies this`clock
      ensures t == clock >= old(clock)
    {
      var elapsed: nat :| 0 <= elapsed;
      clock := clock + elapsed;
      t := clock;
    }

    /** Entry into, or return from, the database or the storage. */
    method Io() returns (s: Signal)
      modifies this`faults
      ensures old(faults) == [] ==> s == Ok && faults == []
    {
      if faults == [] {
        return Ok;
      }
      var f := faults[0];
      if f.calls == 0 {
        faults := faults[1..];
        return if f.crash then Crashed else Raised;
      }
      faults := [Fault(f.calls - 1, f.crash)] + faults[1..];
      return Ok;
    }

    /** `conv.status = status; conv.save(update_fields=["status"])` */
    method SaveStatus(status: JobStatus) returns (s: Signal)
      requires Safe() && Synced() && conv.status !in {MessagesDeletedFromDb, Finished}
      requires status in {ProcessingMessages, UploadingMessagesFile} ==> messages == original && conv.deletedAt.None?
      requires status == MessagesFileUploaded ==> conv.file.Some?
      requires status in {ProcessingMessages, UploadingMessagesFile, MessagesFileUploaded}
      modifies this`conv, this`row, this`faults
      ensures Safe() && Monotone()
      ensures row.Some? && conv.errors == old(conv).errors
      ensures s.Ok? ==> Synced() && conv == old(conv).(status := status)
      ensures old(faults) == [] ==> s == Ok && faults == []
    {
      conv := conv.(status := status);
      :- Io();
      row := Some(row.value.(status := conv.status));
      :- Io();
      return Ok;
    }

    /** The claim, inside one transaction under the row lock. The clock is read once
        for the soft lock and once for the stamp. A contended claim gives up at once. */
    method ClaimRoomForArchive(job: int, contended: bool) returns (s: Signal, claimed: bool)
      requires Safe()
      modifies this
      ensures Safe() && Monotone() && messages == old(messages)
      ensures s.Ok? && claimed ==> Synced()
      ensures s.Ok? && claimed && conv.status != Finished ==>
        && conv.job == job && conv.startedAt.Some? && old(clock) <= conv.startedAt.value <= clock
        && conv == (if old(row).None? then NewRow(job) else old(row).value).(job := job, startedAt := conv.startedAt)
      ensures s.Ok? && (!claimed || conv.status == Finished) ==> row == old(row)
      ensures s.Ok? && !claimed ==> contended || (row.Some? && IsActivelyProcessed(row.value, old(clock), timeout))
      ensures contended ==> row == old(row) && (s.Ok? ==> !claimed)
      ensures !s.Ok? ==> row == old(row) || row == Some(conv)
      ensures row.Some? && old(row).Some? ==> row.value.errors == old(row).value.errors
      ensures old(faults) == [] ==> s == Ok && faults == []
    {
      claimed := false;
      s := Io();
      if !s.Ok? || contended {
        return;
      }
      conv := if row.None? then NewRow(job) else row.value;
      if conv.status == Finished {
        return Ok, true;
      }
      var now := Now();
      if IsActivelyProcessed(conv, now, timeout) {
        return Ok, false;
      }
      now := Now();
      conv := conv.(startedAt := Some(now), job := job);
      s := Io();
      if !s.Ok? { return; }
      row := Some(conv);
      s := Io();
      claimed := true;
    }

    method ProcessMessages() returns (s: Signal)
      requires Safe() && Synced() && NeedsProcessingAndUpload(conv) && conv.status != Finished
      modifies this
      ensures Safe() && Monotone() && messages == old(messages)
      ensures row.Some? && conv.errors == old(conv).errors
      ensures s.Ok? ==> Synced() && conv == old(conv).(status := ProcessingMessages, startedAt := conv.startedAt)
      ensures s.Ok? ==> messages == original && conv.deletedAt.None?
      ensures old(faults) == [] ==> s == Ok && faults == []
    {
      conv := conv.(status := ProcessingMessages);
      var now := Now();
      conv := conv.(startedAt := Some(now));
      :- Io();
      row := Some(row.value.(status := conv.status, startedAt := conv.startedAt));
      :- Io();
      return Ok;
    }

    /** Write every message to a temporary file, then attach the file to the row.
        Attaching saves the whole in-memory row. */
    method UploadMessagesFile() returns (s: Signal)
      requires Safe() && Synced()
      requires conv.status == ProcessingMessages ==> messages == original && conv.deletedAt.None?
      modifies this
      ensures Safe() && Monotone() && messages == old(messages)
      ensures row.Some? && conv.errors == old(conv).errors
      ensures s.Ok? ==> Synced() && conv == old(conv).(status := MessagesFileUploaded, file := FullFile())
      ensures old(conv).status != ProcessingMessages ==> s == Raised
      ensures old(faults) == [] && old(conv).status == ProcessingMessages ==> s == Ok && faults == []
    {
      if conv.status != ProcessingMessages {
        return Raised;
      }
      :- Io();
      var tmp := IterMessages(messages, pageSize);
      :- SaveStatus(UploadingMessagesFile);
      conv := conv.(file := Some(tmp));
      :- Io();
      row := Some(conv);
      :- Io();
      :- SaveStatus(MessagesFileUploaded);
      return Ok;
    }

    /** Delete the messages batch by batch, each batch in its own transaction. */
    method DeleteRoomMessages() returns (s: Signal)
      requires Safe() && Synced()
      modifies this
      ensures Safe() && Monotone() && row.Some?
      ensures conv.errors == old(conv).errors
      ensures s.Ok? ==> Synced() && NoneLeft() && conv.deletedAt.Some?
                        && conv == old(conv).(status := MessagesDeletedFromDb, deletedAt := conv.deletedAt)
      ensures old(faults) == [] && old(conv).status == MessagesFileUploaded ==> s == Ok && faults == []
    {
      s := Io();
      if !s.Ok? { return; }
      conv := row.value;
      if conv.status != MessagesFileUploaded {
        return Raised;
      }
      while true
        invariant Safe() && Synced() && conv == old(conv) && row == old(row) && clock == old(clock) && messages <= old(messages)
        invariant conv.status == MessagesFileUploaded
        invariant old(faults) == [] ==> faults == []
        decreases |messages|
      {
        s := Io();
        if !s.Ok? { return; }
        var batch := PickBatch(messages, batchSize);
        if batch == {} {
          break;
        }
        messages := messages - batch;
        :- Io();
      }
      conv := conv.(status := MessagesDeletedFromDb);
      var now := Now();
      conv := conv.(deletedAt := Some(now));
      :- Io();
      row := Some(row.value.(status := conv.status, deletedAt := conv.deletedAt));
      :- Io();
      return Ok;
    }

    /** Whatever the body of the attempt was doing, its failure is recorded on the row. */
    method RegisterError() returns (s: Signal)
      requires Safe() && row.Some?
      modifies this
      ensures Safe() && Monotone() && messages == old(messages) && row.Some?
      ensures s.Ok? ==> row.value.status == Failed && row.value.failedAt.Some?
                        && row.value.errors == old(conv).errors + [row.value.failedAt.value]
      ensures s.Ok? ==> row.value.file == old(row).value.file && row.value.deletedAt == old(row).value.deletedAt
      ensures old(faults) == [] ==> s == Ok && faults == []
    {
      var now := Now();
      conv := conv.(errors := conv.errors + [now], status := Failed, failedAt := Some(now));
      :- Io();
      row := Some(row.value.(errors := conv.errors, status := conv.status, failedAt := conv.failedAt));
      :- Io();
      return Ok;
    }

    /** First half of the guarded part: the export, unless a file is already attached. */
    method ExportMessages() returns (s: Signal)
      requires Safe() && Synced() && conv.status != Finished
      modifies this
      ensures Safe() && Monotone() && row.Some? && messages == old(messages)
      ensures conv.errors == old(conv).errors
      ensures s.Ok? ==> Synced() && conv.file.Some? && conv.status != Finished
      ensures s.Ok? && NeedsProcessingAndUpload(old(conv)) ==> conv.status == MessagesFileUploaded
      ensures old(faults) == [] ==> s == Ok && faults == []
    {
      if NeedsProcessingAndUpload(conv) {
        s := ProcessMessages();
        if !s.Ok? { return; }
        s := UploadMessagesFile();
        if !s.Ok? { return; }
      }
      s := Io();
      if !s.Ok? { return; }
      conv := row.value;
    }

    /** Second half: the deletion, unless it is already recorded. */
    method DeleteMessages() returns (s: Signal)
      requires Safe() && Synced() && conv.file.Some? && conv.status != Finished
      modifies this
      ensures Safe() && Monotone() && row.Some?
      ensures conv.errors == old(conv).errors
      ensures s.Ok? ==> Synced() && NoneLeft() && conv.file.Some?
      ensures old(faults) == [] ==> s == Ok && faults == []
    {
      if NeedsMessageDeletion(conv) {
        if conv.status != MessagesFileUploaded {
          s := SaveStatus(MessagesFileUploaded);
          if !s.Ok? { return; }
        }
        s := DeleteRoomMessages();
        if !s.Ok? { return; }
      }
      s := Io();
      if !s.Ok? { return; }
      conv := row.value;
    }

    /** The guarded part of an attempt. */
    method ProcessClaimed() returns (s: Signal)
      requires Safe() && Synced() && conv.status != Finished
      modifies this
      ensures Safe() && Monotone() && row.Some?
      ensures conv.errors == old(conv).errors
      ensures s.Ok? ==> Done()
      ensures old(faults) == [] ==> s == Ok && faults == []
    {
      s := ExportMessages();
      if !s.Ok? { return; }
      s := DeleteMessages();
      if !s.Ok? { return; }
      conv := conv.(status := Finished);
      var now := Now();
      conv := conv.(finishedAt := Some(now));
      s := Io();
      if !s.Ok? { return; }
      row := Some(row.value.(status := conv.status, finishedAt := conv.finishedAt));
      s := Io();
    }

    /** One task: claim the row, process it, and register any exception on it.
        Without faults, a room that can be claimed ends archived. */
    method ArchiveRoomHistory(job: int, contended: bool, faults: seq<Fault>) returns (outcome: Outcome)
      requires Safe()
      modifies this
      ensures Safe() && Monotone()
      ensures outcome == Archived ==> Done()
      ensures outcome == AlreadyArchived ==> row == old(row) && row.Some? && row.value.status == Finished
      ensures outcome == Skipped ==>
        row == old(row) && (contended || (row.Some? && IsActivelyProcessed(row.value, old(clock), timeout)))
      ensures contended ==> row == old(row) && messages == old(messages)
      ensures outcome in {Skipped, AlreadyArchived} ==> messages == old(messages)
      ensures outcome == RegisteredFailure ==>
        && row.Some? && row.value.status == Failed && row.value.failedAt.Some?
        && row.value.errors == (if old(row).None? then [] else old(row).value.errors) + [row.value.failedAt.value]
      ensures faults == [] ==> outcome in {Skipped, AlreadyArchived, Archived}
      ensures faults == [] && !contended && (old(row).None? || old(row).value.status == Failed) ==> outcome == Archived
    {
      this.faults := faults;
      var s, claimed := ClaimRoomForArchive(job, contended);
      if !s.Ok? {
        return Died;
      }
      if !claimed {
        return Skipped;
      }
      if conv.status == Finished {
        return AlreadyArchived;
      }
      s := ProcessClaimed();
      outcome := Archived;
      if s.Raised? {
        s := RegisterError();
        outcome := RegisteredFailure;
      }
      if !s.Ok? {
        return Died;
      }
      s := Io();
      if !s.Ok? {
        return Died;
      }
      conv := row.value;
    }

    /** The scheduler re-points an unfinished row to its job, or creates a PENDING row. */
    method CreatePendingRecord(job: int)
      requires Safe()
      modifies this`row
      ensures Safe() && Monotone() && row.Some?
      ensures row.value == if old(row).None? then NewRow(job)
                           else if old(row).value.status == Finished then old(row).value
                           else old(row).value.(job := job)
    {
      if row.None? {
        row := Some(NewRow(job));
      } else if row.value.status != Finished {
        row := Some(row.value.(job := job));
      }
    }

    /** Any sequence of scheduler runs and attempts, whatever faults hit them, is safe. */
    method Run(events: seq<Event>)
      requires Safe()
      modifies this
      ensures Safe() && Monotone()
      ensures messages != original ==> row.Some? && row.value.file == FullFile()
      ensures row.Some? && row.value.status == Finished ==> row.value.file == FullFile() && NoneLeft()
    {
      for i := 0 to |events|
        invariant Safe() && Monotone()
      {
        match events[i] {
          case Prepare(job) => CreatePendingRecord(job);
          case Attempt(job, contended, faults) => var _ := ArchiveRoomHistory(job, contended, faults);
        }
      }
    }

    /** Whatever happened before, once the last stamp is `timeout` old one attempt
        without faults archives the room. */
    method RunThenRecover(events: seq<Event>, job: int)
      requires Safe()
      modifies this
      ensures Done() || (row.Some? && row.value.status == Finished && row.value.file == FullFile() && NoneLeft())
    {
      Run(events);
      if row.Some? && row.value.startedAt.Some? && clock < row.value.startedAt.value + timeout {
        clock := row.value.startedAt.value + timeout;
      }
      var outcome := ArchiveRoomHistory(job, false, []);
    }

    /** The room is archived: complete file, empty table, FINISHED row. */
    ghost predicate Done()
      reads this
    {
      && Configured()
      && row.Some? && row.value.status == Finished && row.value.finishedAt.Some?
      && row.value.file == FullFile() && NoneLeft()
    }
  }
}
