/** Several archive workers alive on one row. A claim of a row that still has to be
    exported, while another attempt is alive, can lose every message; without such a claim
    no run loses any. */
module ArchiveRace {
  import opened ArchiveMessages
  import opened ArchiveRows
  import opened Listings
  import opened Options

  type Worker = int

  /** Where an attempt is. `conv` is the worker's copy of the row. */
  datatype Phase =
    | Idle
    | Claimed(conv: Row)
    | Reading(conv: Row, lines: seq<Message>, cursor: Cursor)
    | Read(conv: Row, lines: seq<Message>)
    | Deleting

  datatype World = World(now: int, row: Row, messages: Table, phases: map<Worker, Phase>)

  datatype Event =
    | Tick(elapsed: nat)
    | Claim(w: Worker)
    | Begin(w: Worker)
    | Page(w: Worker)
    | Attach(w: Worker)
    | Delete(w: Worker, batch: Table)
    | Fail(w: Worker)
    | Crash(w: Worker)

  datatype Config = Config(original: Table, pageSize: nat, timeout: nat)

  ghost predicate Configured(c: Config) {
    UniqueKeys(c.original) && 1 <= c.pageSize
  }

  function PhaseOf(s: World, w: Worker): Phase {
    if w in s.phases then s.phases[w] else Idle
  }

  function Move(s: World, w: Worker, p: Phase): World {
    s.(phases := s.phases[w := p])
  }

  predicate MayClaim(c: Config, s: World) {
    s.row.status != Finished && !IsActivelyProcessed(s.row, s.now, c.timeout)
  }

  /** One step of one worker. A claim stamps the row and leaves its status alone; attaching
      the file saves the worker's whole copy of the row. */
  function Step(c: Config, s: World, e: Event): Option<World>
    requires UniqueKeys(s.messages)
  {
    match e
    case Tick(elapsed) => Some(s.(now := s.now + elapsed))
    case Claim(w) =>
      if PhaseOf(s, w) != Idle || !MayClaim(c, s) then None
      else
        var row := s.row.(startedAt := Some(s.now));
        Some(Move(s, w, Claimed(row)).(row := row))
    case Begin(w) =>
      if !PhaseOf(s, w).Claimed? then None
      else if NeedsProcessingAndUpload(PhaseOf(s, w).conv) then
        var conv := PhaseOf(s, w).conv.(status := ProcessingMessages, startedAt := Some(s.now));
        Some(Move(s, w, Reading(conv, [], Start)).(row := s.row.(status := ProcessingMessages, startedAt := Some(s.now))))
      else Some(Move(s, w, Deleting).(row := s.row.(status := MessagesFileUploaded)))
    case Page(w) =>
      if !PhaseOf(s, w).Reading? then None
      else
        var p := PhaseOf(s, w);
        var page := QueryPage(s.messages, p.cursor, c.pageSize);
        Some(Move(s, w, if page == [] then Read(p.conv, p.lines)
                        else Reading(p.conv, p.lines + page, CursorAt(page[|page| - 1]))))
    case Attach(w) =>
      if !PhaseOf(s, w).Read? then None
      else
        var row := PhaseOf(s, w).conv.(file := Some(PhaseOf(s, w).lines), status := MessagesFileUploaded);
        Some(Move(s, w, Deleting).(row := row))
    case Delete(w, batch) =>
      if PhaseOf(s, w) != Deleting || !(batch <= s.messages) then None
      else if s.messages == {} then Some(Move(s, w, Idle).(row := s.row.(status := Finished)))
      else Some(s.(messages := s.messages - batch))
    case Fail(w) =>
      if PhaseOf(s, w) == Idle then None else Some(Move(s, w, Idle).(row := s.row.(status := Failed)))
    case Crash(w) => Some(Move(s, w, Idle))
  }

  lemma StepKeepsKeys(c: Config, s: World, e: Event)
    requires UniqueKeys(s.messages) && Step(c, s, e).Some?
    ensures Step(c, s, e).value.messages <= s.messages && UniqueKeys(Step(c, s, e).value.messages)
  {
    hide QueryPage;
  }

  function Run(c: Config, s: World, events: seq<Event>): Option<World>
    requires UniqueKeys(s.messages)
    decreases |events|
  {
    if events == [] then Some(s)
    else
      match Step(c, s, events[0])
      case None => None
      case Some(t) =>
        StepKeepsKeys(c, s, events[0]);
        Run(c, t, events[1..])
  }

  predicate Alive(s: World, w: Worker) {
    PhaseOf(s, w) != Idle
  }

  // ---- What no attempt may break ----

  ghost function FullFile(c: Config): Option<seq<Message>>
    requires Configured(c)
  {
    Some(InOrder(c.original))
  }

  /** A message that is gone is in the file, which is complete when there is one. */
  ghost predicate Safe(c: Config, s: World)
    requires Configured(c)
  {
    && s.messages <= c.original
    && (s.row.file.Some? ==> s.row.file == FullFile(c))
    && (s.messages != c.original ==> s.row.file.Some?)
    && (s.row.status in {Pending, ProcessingMessages} ==> s.messages == c.original)
    && (s.row.status in {MessagesFileUploaded, Finished} ==> s.row.file.Some?)
    && s.row.status in {Pending, ProcessingMessages, MessagesFileUploaded, Finished, Failed}
    && (s.row.status == Finished ==> s.messages == {})
  }

  /** What an attempt that is alone on the row relies on. */
  ghost predicate Sound(c: Config, s: World, p: Phase)
    requires Configured(c)
  {
    match p
    case Idle => true
    case Claimed(conv) => conv == s.row && s.row.status != Finished
    case Reading(_, lines, cursor) => s.messages == c.original && s.row.status == ProcessingMessages && Exported(c.original, lines, cursor)
    case Read(_, lines) => s.messages == c.original && s.row.status == ProcessingMessages && lines == InOrder(c.original)
    case Deleting => s.row.file.Some? && s.row.status == MessagesFileUploaded
  }

  ghost predicate Alone(c: Config, s: World)
    requires Configured(c)
  {
    && (forall v, w | Alive(s, v) && Alive(s, w) :: v == w)
    && (forall w | Alive(s, w) :: Sound(c, s, PhaseOf(s, w)))
  }

  /** The file is attached, and every attempt alive only has messages to delete. */
  ghost predicate Settled(s: World) {
    && s.row.file.Some? && s.row.status in {Failed, MessagesFileUploaded, Finished}
    && forall w | Alive(s, w) ::
         PhaseOf(s, w) == Deleting || (PhaseOf(s, w).Claimed? && !NeedsProcessingAndUpload(PhaseOf(s, w).conv))
  }

  ghost predicate Guarded(c: Config, s: World)
    requires Configured(c)
  {
    Safe(c, s) && (Alone(c, s) || Settled(s))
  }

  lemma PageIsSound(c: Config, s: World, w: Worker)
    requires Configured(c) && Safe(c, s) && PhaseOf(s, w).Reading? && Sound(c, s, PhaseOf(s, w))
    ensures UniqueKeys(s.messages)
    ensures var t := Step(c, s, Page(w)); t.Some? && Sound(c, t.value, PhaseOf(t.value, w))
  {
    hide InOrder, QueryPage;
    var p := PhaseOf(s, w);
    NextPageContinues(c.original, p.lines, p.cursor, c.pageSize);
  }

  /** With nobody else alive, a step of `w` wakes nobody else. */
  lemma OthersIdle(s: World, t: World, w: Worker)
    requires forall v | Alive(s, v) :: v == w
    requires t.phases == s.phases || (w in t.phases && t.phases == s.phases[w := t.phases[w]])
    ensures forall v :: Alive(t, v) ==> v == w
  {
    forall v ensures Alive(t, v) ==> v == w {
      assert v != w ==> (Alive(t, v) <==> Alive(s, v));
    }
  }

  lemma NothingExported(c: Config)
    requires Configured(c)
    ensures Exported(c.original, [], Start)
  {}

  lemma StepKeepsAlone(c: Config, s: World, e: Event)
    requires Configured(c) && Safe(c, s) && Alone(c, s) && (e.Claim? ==> forall v :: !Alive(s, v))
    requires UniqueKeys(s.messages) && Step(c, s, e).Some?
    ensures Safe(c, Step(c, s, e).value) && Alone(c, Step(c, s, e).value)
  {
    hide InOrder, QueryPage, Exported;
    var t := Step(c, s, e).value;
    match e {
      case Tick(elapsed) => assert forall v :: Alive(t, v) <==> Alive(s, v);
      case Claim(w) => OthersIdle(s, t, w);
      case Begin(w) =>
        NothingExported(c);
        assert Alive(s, w);
        OthersIdle(s, t, w);
      case Page(w) =>
        assert Alive(s, w);
        PageIsSound(c, s, w);
        OthersIdle(s, t, w);
      case Attach(w) =>
        assert Alive(s, w);
        OthersIdle(s, t, w);
      case Delete(w, batch) =>
        assert Alive(s, w);
        OthersIdle(s, t, w);
      case Fail(w) =>
        assert Alive(s, w);
        OthersIdle(s, t, w);
      case Crash(w) => assert forall v :: Alive(t, v) ==> Alive(s, v) && PhaseOf(t, v) == PhaseOf(s, v);
    }
  }

  /** Once settled, any number of attempts may overlap. */
  lemma StepKeepsSettled(c: Config, s: World, e: Event)
    requires Configured(c) && Safe(c, s) && Settled(s)
    requires UniqueKeys(s.messages) && Step(c, s, e).Some?
    ensures Safe(c, Step(c, s, e).value) && Settled(Step(c, s, e).value)
  {
    hide InOrder, QueryPage;
    var t := Step(c, s, e).value;
    if !e.Tick? {
      assert e.Claim? || e.Crash? || Alive(s, e.w);
      forall v | v != e.w ensures PhaseOf(t, v) == PhaseOf(s, v) && (Alive(t, v) <==> Alive(s, v)) {}
    } else {
      forall v ensures PhaseOf(t, v) == PhaseOf(s, v) && (Alive(t, v) <==> Alive(s, v)) {}
    }
  }

  /** An attempt alive on a row that need not be exported has only messages to delete. */
  lemma AloneIsSettled(c: Config, s: World, v: Worker)
    requires Configured(c) && Safe(c, s) && Alone(c, s) && Alive(s, v)
    requires !NeedsProcessingAndUpload(s.row) && s.row.status != Finished
    ensures Settled(s)
  {}

  // ---- Careful claims ----

  /** A row that still has to be exported is not claimed while an attempt is alive. */
  ghost predicate Careful(s: World, e: Event) {
    e.Claim? && NeedsProcessingAndUpload(s.row) ==> forall v :: !Alive(s, v)
  }

  ghost predicate CarefulRun(c: Config, s: World, events: seq<Event>)
    requires UniqueKeys(s.messages)
    decreases |events|
  {
    events != [] ==>
      && Careful(s, events[0])
      && match Step(c, s, events[0])
         case None => true
         case Some(t) =>
           StepKeepsKeys(c, s, events[0]);
           CarefulRun(c, t, events[1..])
  }

  lemma StepKeepsGuarded(c: Config, s: World, e: Event)
    requires Configured(c) && Guarded(c, s) && Careful(s, e)
    requires UniqueKeys(s.messages) && Step(c, s, e).Some?
    ensures Guarded(c, Step(c, s, e).value)
  {
    if Settled(s) {
      hide Step, Safe, Alone, Settled;
      StepKeepsSettled(c, s, e);
    } else if v :| e.Claim? && Alive(s, v) {
      AloneIsSettled(c, s, v);
      hide Step, Safe, Alone, Settled;
      StepKeepsSettled(c, s, e);
    } else {
      hide Step, Safe, Alone, Settled;
      StepKeepsAlone(c, s, e);
    }
  }

  /** In every run with careful claims no message is lost, whatever fails, crashes or runs
      late, and however many attempts overlap. */
  lemma {:induction false} CarefulRunIsSafe(c: Config, s: World, events: seq<Event>)
    requires Configured(c) && Guarded(c, s) && UniqueKeys(s.messages)
    requires CarefulRun(c, s, events) && Run(c, s, events).Some?
    ensures Guarded(c, Run(c, s, events).value)
    decreases |events|
  {
    hide Step, Guarded, Careful;
    if events != [] {
      StepKeepsGuarded(c, s, events[0]);
      StepKeepsKeys(c, s, events[0]);
      CarefulRunIsSafe(c, Step(c, s, events[0]).value, events[1..]);
    }
  }

  // ---- Attempts that keep apart ----

  /** Every attempt alive ends before the row's stamp is `timeout` old. */
  ghost predicate Prompt(c: Config, s: World) {
    forall w | Alive(s, w) :: s.row.startedAt.Some? && s.now < s.row.startedAt.value + c.timeout
  }

  /** A FAILED row is not claimed while another attempt is alive. */
  ghost predicate Orderly(s: World, e: Event) {
    e.Claim? && s.row.status == Failed ==> forall v :: !Alive(s, v)
  }

  ghost predicate OrderlyRun(c: Config, s: World, events: seq<Event>)
    requires UniqueKeys(s.messages)
    decreases |events|
  {
    && Prompt(c, s)
    && (events != [] ==>
          && Orderly(s, events[0])
          && match Step(c, s, events[0])
             case None => true
             case Some(t) =>
               StepKeepsKeys(c, s, events[0]);
               OrderlyRun(c, t, events[1..]))
  }

  /** A claim finds nobody alive: the soft lock keeps it off a row that is not FAILED. */
  lemma ClaimFindsNobody(c: Config, s: World, w: Worker)
    requires Prompt(c, s) && Orderly(s, Claim(w)) && MayClaim(c, s)
    ensures forall v :: !Alive(s, v)
  {}

  lemma {:induction false} OrderlyIsCareful(c: Config, s: World, events: seq<Event>)
    requires UniqueKeys(s.messages) && OrderlyRun(c, s, events) && Run(c, s, events).Some?
    ensures CarefulRun(c, s, events)
    decreases |events|
  {
    if events != [] {
      if events[0].Claim? {
        ClaimFindsNobody(c, s, events[0].w);
      }
      hide Step, Prompt, Orderly;
      StepKeepsKeys(c, s, events[0]);
      OrderlyIsCareful(c, Step(c, s, events[0]).value, events[1..]);
    }
  }

  /** The soft lock makes claims careful when attempts end within the timeout and keep off
      FAILED rows that others work on. */
  lemma OrderlyRunIsSafe(c: Config, s: World, events: seq<Event>)
    requires Configured(c) && Safe(c, s) && Alone(c, s) && UniqueKeys(s.messages)
    requires OrderlyRun(c, s, events) && Run(c, s, events).Some?
    ensures Safe(c, Run(c, s, events).value)
  {
    OrderlyIsCareful(c, s, events);
    CarefulRunIsSafe(c, s, events);
  }

  // ---- What a careless claim can lose ----

  predicate NoClaims(events: seq<Event>) {
    forall e: Event | e in events :: !e.Claim?
  }

  /** Some run of the attempts alive, without a further claim, leads from `s` to `t`. */
  ghost predicate WorksOn(c: Config, s: World, t: World)
    requires UniqueKeys(s.messages)
  {
    exists events :: NoClaims(events) && Run(c, s, events) == Some(t)
  }

  lemma {:induction false} RunOneMore(c: Config, s: World, events: seq<Event>, t: World, e: Event)
    requires UniqueKeys(s.messages) && Run(c, s, events) == Some(t) && UniqueKeys(t.messages)
    ensures Run(c, s, events + [e]) == Step(c, t, e)
    decreases |events|
  {
    hide Step;
    if events == [] {
      assert [] + [e] == [e] && [e][1..] == [];
    } else {
      StepKeepsKeys(c, s, events[0]);
      assert (events + [e])[1..] == events[1..] + [e];
      RunOneMore(c, Step(c, s, events[0]).value, events[1..], t, e);
    }
  }

  lemma WorksByStep(c: Config, s: World, t: World, e: Event, u: World)
    requires UniqueKeys(s.messages) && WorksOn(c, s, t) && UniqueKeys(t.messages) && !e.Claim? && Step(c, t, e) == Some(u)
    ensures WorksOn(c, s, u) && UniqueKeys(u.messages)
  {
    hide Step;
    var events :| NoClaims(events) && Run(c, s, events) == Some(t);
    RunOneMore(c, s, events, t, e);
    StepKeepsKeys(c, t, e);
    assert NoClaims(events + [e]);
  }

  /** A worker that reads on undisturbed ends up with all the messages. */
  lemma {:induction false} ReadsOn(c: Config, s: World, t: World, w: Worker)
    requires Configured(c) && UniqueKeys(s.messages) && WorksOn(c, s, t) && t.messages == c.original
    requires PhaseOf(t, w).Reading? && Exported(c.original, PhaseOf(t, w).lines, PhaseOf(t, w).cursor)
    ensures WorksOn(c, s, Move(t, w, Read(PhaseOf(t, w).conv, InOrder(c.original))))
    decreases |InOrder(c.original)| - |PhaseOf(t, w).lines|
  {
    hide InOrder, QueryPage, WorksOn;
    var p := PhaseOf(t, w);
    NextPageContinues(c.original, p.lines, p.cursor, c.pageSize);
    var u := Step(c, t, Page(w)).value;
    WorksByStep(c, s, t, Page(w), u);
    if InOrder(c.original)[|p.lines|..] == [] {
      assert p.lines == InOrder(c.original);
    } else {
      ReadsOn(c, s, u, w);
      assert u.phases[w := Read(p.conv, InOrder(c.original))] == t.phases[w := Read(p.conv, InOrder(c.original))];
    }
  }

  lemma StartsThere(c: Config, s: World)
    requires UniqueKeys(s.messages)
    ensures WorksOn(c, s, s)
  {
    assert NoClaims([]) && Run(c, s, []) == Some(s);
  }

  /** Nothing is left to read. */
  lemma EmptyPage(cursor: Cursor, size: nat)
    requires UniqueKeys({})
    ensures QueryPage({}, cursor, size) == []
  {
    InOrderLists({});
    var q := InOrder(Remaining({}, cursor));
    assert Remaining({}, cursor) == {};
    NothingListed(q);
  }

  lemma NothingListed(q: seq<Message>)
    requires IsListing(Less, q, {})
    ensures q == []
  {
    EmptyListing(Less, q, {});
  }

  /** An attempt on its way to the full file. */
  ghost predicate Exporting(c: Config, p: Phase)
    requires Configured(c)
  {
    match p
    case Claimed(conv) => NeedsProcessingAndUpload(conv)
    case Reading(_, lines, cursor) => Exported(c.original, lines, cursor)
    case Read(_, lines) => lines == InOrder(c.original)
    case _ => false
  }

  /** The first worker reads everything; whoever else reads has read nothing yet. */
  lemma FirstHasRead(c: Config, s: World, t: World, v: Worker) returns (u: World)
    requires Configured(c) && UniqueKeys(s.messages) && WorksOn(c, s, t) && t.messages == c.original
    requires Exporting(c, PhaseOf(t, v))
    ensures WorksOn(c, s, u) && u.messages == c.original
    ensures PhaseOf(u, v).Read? && PhaseOf(u, v).lines == InOrder(c.original) && u.phases == t.phases[v := PhaseOf(u, v)]
  {
    hide InOrder, QueryPage, WorksOn, Exported;
    u := t;
    if PhaseOf(u, v).Claimed? {
      NothingExported(c);
      u := Step(c, t, Begin(v)).value;
      WorksByStep(c, s, t, Begin(v), u);
    }
    if PhaseOf(u, v).Reading? {
      ReadsOn(c, s, u, v);
      u := Move(u, v, Read(PhaseOf(u, v).conv, InOrder(c.original)));
    }
    assert u.phases == t.phases[v := PhaseOf(u, v)];
  }

  /** The first worker archives the room; the second one then finds no messages and
      attaches an empty file over the full one. */
  lemma Overwrites(c: Config, s: World, v: Worker, w: Worker) returns (t: World)
    requires Configured(c) && UniqueKeys(s.messages) && s.messages == c.original && v != w
    requires Exporting(c, PhaseOf(s, v)) && PhaseOf(s, w).Claimed? && NeedsProcessingAndUpload(PhaseOf(s, w).conv)
    ensures WorksOn(c, s, t) && t.messages == {} && t.row.file == Some([])
  {
    hide InOrder, QueryPage, WorksOn, Exported;
    StartsThere(c, s);
    var s1 := Step(c, s, Begin(w)).value;
    WorksByStep(c, s, s, Begin(w), s1);
    var s2 := FirstHasRead(c, s, s1, v);
    var s3 := Step(c, s2, Attach(v)).value;
    WorksByStep(c, s, s2, Attach(v), s3);
    var s4 := s3.(messages := {});
    if c.original != {} {
      assert s3.messages - c.original == {};
      WorksByStep(c, s, s3, Delete(v, c.original), s4);
    }
    var conv := PhaseOf(s4, w).conv;
    assert PhaseOf(s4, w) == Reading(conv, [], Start);
    EmptyPage(Start, c.pageSize);
    var s5 := Move(s4, w, Read(conv, []));
    WorksByStep(c, s, s4, Page(w), s5);
    t := Step(c, s5, Attach(w)).value;
    WorksByStep(c, s, s5, Attach(w), t);
  }

  /** Some message of the room is neither in the database nor in the row's file. */
  ghost predicate Loses(c: Config, s: World) {
    exists m | m in c.original :: m !in s.messages && (s.row.file.None? || m !in s.row.file.value)
  }

  lemma SafeLosesNothing(c: Config, s: World)
    requires Configured(c) && Safe(c, s)
    ensures !Loses(c, s)
  {
    InOrderLists(c.original);
    assert forall m :: m in InOrder(c.original) <==> m in Elements(InOrder(c.original));
  }

  lemma {:induction false} WorkIsCareful(c: Config, s: World, events: seq<Event>)
    requires UniqueKeys(s.messages) && NoClaims(events)
    ensures CarefulRun(c, s, events)
    decreases |events|
  {
    hide Step;
    if events != [] {
      assert !events[0].Claim?;
      if Step(c, s, events[0]).Some? {
        StepKeepsKeys(c, s, events[0]);
        WorkIsCareful(c, Step(c, s, events[0]).value, events[1..]);
      }
    }
  }

  /** Some run whose later claims are careful leads from `s` to the loss of a message. */
  ghost predicate CanLose(c: Config, s: World)
    requires UniqueKeys(s.messages)
  {
    exists events | CarefulRun(c, s, events) :: Run(c, s, events).Some? && Loses(c, Run(c, s, events).value)
  }

  /** After such a claim, the attempts alive can end with no message in the database and
      none in the file. */
  lemma CarelessClaimLoses(c: Config, s: World, v: Worker, w: Worker)
    requires Configured(c) && Safe(c, s) && Alone(c, s) && UniqueKeys(s.messages) && c.original != {}
    requires PhaseOf(s, w) == Idle && MayClaim(c, s) && NeedsProcessingAndUpload(s.row) && Alive(s, v)
    ensures var t := Step(c, s, Claim(w)).value;
            && UniqueKeys(t.messages) && CanLose(c, t)
            && exists u :: WorksOn(c, t, u) && u.messages == {} && u.row.file == Some([])
  {
    var t := Step(c, s, Claim(w)).value;
    hide InOrder, QueryPage, Exported, IsActivelyProcessed;
    var u := Overwrites(c, t, v, w);
    hide Step;
    var events :| NoClaims(events) && Run(c, t, events) == Some(u);
    WorkIsCareful(c, t, events);
    var m :| m in c.original;
    assert m !in u.messages;
  }

  /** The exact condition. From any state that careful claims can reach, which includes those
      from a new row (`NewRowLosesNothing`), a claim can lead to the loss of a message if and
      only if the row still has to be exported and another attempt is alive. */
  lemma ClaimCanLoseIff(c: Config, s: World, w: Worker)
    requires Configured(c) && Guarded(c, s) && UniqueKeys(s.messages) && c.original != {}
    requires PhaseOf(s, w) == Idle && MayClaim(c, s)
    ensures var t := Step(c, s, Claim(w)).value;
            && UniqueKeys(t.messages)
            && (CanLose(c, t) <==> NeedsProcessingAndUpload(s.row) && exists v :: Alive(s, v))
  {
    var t := Step(c, s, Claim(w)).value;
    if v :| NeedsProcessingAndUpload(s.row) && Alive(s, v) {
      CarelessClaimLoses(c, s, v, w);
    } else {
      StepKeepsGuarded(c, s, Claim(w));
      hide Step, Guarded, Safe, Loses;
      forall events | CarefulRun(c, t, events) && Run(c, t, events).Some?
        ensures !Loses(c, Run(c, t, events).value)
      {
        CarefulRunIsSafe(c, t, events);
        GuardedLosesNothing(c, Run(c, t, events).value);
      }
    }
  }

  lemma GuardedLosesNothing(c: Config, s: World)
    requires Configured(c) && Guarded(c, s)
    ensures !Loses(c, s)
  {
    SafeLosesNothing(c, s);
  }

  /** From a new row, careful claims lead to such states only, and no message is lost. */
  lemma NewRowLosesNothing(c: Config, s: World, job: int, events: seq<Event>)
    requires Configured(c) && s.row == NewRow(job) && s.messages == c.original && forall w :: !Alive(s, w)
    requires CarefulRun(c, s, events) && Run(c, s, events).Some?
    ensures Guarded(c, Run(c, s, events).value) && !Loses(c, Run(c, s, events).value)
  {
    hide InOrder, CarefulRun;
    CarefulRunIsSafe(c, s, events);
    GuardedLosesNothing(c, Run(c, s, events).value);
  }

  ghost predicate Reaches(c: Config, s: World, t: World)
    requires UniqueKeys(s.messages)
  {
    exists events :: Run(c, s, events) == Some(t)
  }

  lemma ReachesAfterTwo(c: Config, s: World, e: Event, t: World, f: Event, u: World, x: World)
    requires UniqueKeys(s.messages) && Step(c, s, e) == Some(t)
    requires UniqueKeys(t.messages) && Step(c, t, f) == Some(u)
    requires UniqueKeys(u.messages) && WorksOn(c, u, x)
    ensures Reaches(c, s, x)
  {
    hide Step;
    var events :| NoClaims(events) && Run(c, u, events) == Some(x);
    assert ([f] + events)[1..] == events;
    assert Run(c, t, [f] + events) == Some(x);
    assert ([e] + ([f] + events))[1..] == [f] + events;
    assert Run(c, s, [e] + ([f] + events)) == Some(x);
  }

  /** Two workers that both claim a FAILED row without a file, whoever else is alive, can
      lose every message of the room. */
  lemma FailedRowLosesMessages(c: Config, s: World, v: Worker, w: Worker, m: Message)
    requires Configured(c) && s.messages == c.original && v != w && m in c.original
    requires PhaseOf(s, v) == Idle && PhaseOf(s, w) == Idle
    requires s.row.status == Failed && s.row.file.None?
    ensures UniqueKeys(s.messages)
    ensures exists t :: Reaches(c, s, t) && m !in t.messages && t.row.file.Some? && m !in t.row.file.value
  {
    hide InOrder, QueryPage, Exported;
    var row := s.row.(startedAt := Some(s.now));
    var s1 := Move(s, v, Claimed(row)).(row := row);
    var s2 := Move(s1, w, Claimed(row));
    var t := Overwrites(c, s2, v, w);
    ReachesAfterTwo(c, s, Claim(v), s1, Claim(w), s2, t);
  }
}
