/** A bulk send: one task per room, one outcome row per task, and progress passes under
    the cooldown protocol that mark the send FINISHED. */
module BulkSend {
  import opened Options
  import C = Cooldown

  datatype SendStatus = Pending | Processing | Finished

  /** What a progress pass has read: the send row first, then the outcome counts. */
  datatype Reading =
    | Loaded(finished: bool, qty: nat)
    | Counted(finished: bool, qty: nat, processed: nat)

  /** `listed` rooms have no task yet, `queued` ones have a task that has not run.
      `messages` counts the committed messages. `raising` tasks committed their message
      but their notification raised; `doubled` of those have recorded a second row.
      `toNotify` commits have yet to ask for a progress update. `readings` maps a pass,
      by its place in the run, to what it has read; `seen` maps a progress request to
      the number of outcome rows when it was made. */
  datatype Send = Send(
    cd: C.World,
    status: SendStatus,
    qty: nat,
    listed: nat,
    queued: nat,
    messages: nat,
    succeeded: nat,
    failed: nat,
    raising: nat,
    doubled: nat,
    toNotify: nat,
    readings: map<nat, Reading>,
    seen: map<nat, nat>)
  {
    function Rows(): nat {
      succeeded + failed
    }
  }

  /** How the sending to one room ends. */
  datatype Delivery =
    | Delivered     // message and SUCCESS row committed
    | RoomClosed    // FAILED row, no message
    | RolledBack    // an exception inside the transaction: FAILED row, no message
    | NotifyRaised  // committed, then the on-commit notification raised

  datatype Event =
    | FanOut(rooms: nat)
    | Dispatch
    | RoomTask(delivery: Delivery)
    | RecordRaise
    | Notify
    | Cool(e: C.Event)
    | Load(p: C.Pass)
    | Count(p: C.Pass)
    | FinishPass(p: C.Pass)

  /** A send just created, with nothing dispatched, recorded or requested. */
  predicate New(s: Send) {
    && s.cd == C.INITIAL
    && s.status == Pending && s.qty == s.listed == s.queued == s.messages == 0
    && s.succeeded == s.failed == s.raising == s.doubled == s.toNotify == 0
    && s.readings == map[] && s.seen == map[]
  }

  function Step(c: C.Config, s: Send, e: Event): Option<Send> {
    match e
    case FanOut(rooms) =>
      if s.status != Pending then None else Some(s.(status := Processing, qty := rooms, listed := rooms))
    case Dispatch =>
      if s.listed == 0 then None else Some(s.(listed := s.listed - 1, queued := s.queued + 1))
    case RoomTask(delivery) =>
      if s.queued == 0 then None else Some(Deliver(s.(queued := s.queued - 1), delivery))
    case RecordRaise =>
      if s.raising == 0 then None
      else Some(s.(raising := s.raising - 1, doubled := s.doubled + 1, failed := s.failed + 1, toNotify := s.toNotify + 1))
    case Notify =>
      if s.toNotify == 0 || C.Step(c, s.cd, C.Trigger).None? then None
      else
        Some(s.(toNotify := s.toNotify - 1, cd := C.Step(c, s.cd, C.Trigger).value, seen := s.seen[s.cd.order := s.Rows()]))
    case Cool(ce) =>
      if ce.Trigger? || ce.End? || C.Step(c, s.cd, ce).None? then None
      else Some(s.(cd := C.Step(c, s.cd, ce).value))
    case Load(p) =>
      if p !in s.cd.running || p.order in s.readings then None
      else Some(s.(readings := s.readings[p.order := Loaded(s.status == Finished, s.qty)]))
    case Count(p) =>
      if p !in s.cd.running || p.order !in s.readings || !s.readings[p.order].Loaded? then None
      else
        var r := s.readings[p.order];
        Some(s.(readings := s.readings[p.order := Counted(r.finished, r.qty, s.Rows())]))
    case FinishPass(p) =>
      if p.order !in s.readings || !s.readings[p.order].Counted? || C.Step(c, s.cd, C.End(p)).None? then None
      else
        var r := s.readings[p.order];
        Some(s.(cd := C.Step(c, s.cd, C.End(p)).value,
                status := if 0 < r.qty <= r.processed && !r.finished then Finished else s.status))
  }

  /** The rows and requests one room's task leaves. */
  function Deliver(s: Send, delivery: Delivery): Send {
    match delivery
    case Delivered =>
      s.(messages := s.messages + 1, succeeded := s.succeeded + 1, toNotify := s.toNotify + 1)
    case RoomClosed => s.(failed := s.failed + 1, toNotify := s.toNotify + 1)
    case RolledBack => s.(failed := s.failed + 1, toNotify := s.toNotify + 1)
    case NotifyRaised =>
      s.(messages := s.messages + 1, succeeded := s.succeeded + 1, raising := s.raising + 1)
  }

  function Run(c: C.Config, s: Send, events: seq<Event>): Option<Send>
    decreases |events|
  {
    if events == [] then Some(s)
    else
      match Step(c, s, events[0])
      case None => None
      case Some(t) => Run(c, t, events[1..])
  }

  /** Nothing is left to do: no task, no request, no attempt and no pass. */
  predicate Quiet(s: Send) {
    s.listed == 0 && s.queued == 0 && s.raising == 0 && s.toNotify == 0 && C.Quiet(s.cd)
  }

  /** Each room's task accounts for one row, plus one for each raising notification. */
  predicate Accounted(s: Send) {
    && s.listed + s.queued + s.Rows() == s.qty + s.doubled
    && s.messages == s.succeeded
    && s.raising + s.doubled <= s.succeeded && s.doubled <= s.failed
    && (s.status == Finished ==> 0 < s.qty <= s.Rows())
    && (s.status == Pending ==> s.qty == 0 && s.listed == 0 && s.queued == 0 && s.Rows() == 0 && s.doubled == 0 && s.toNotify == 0 && s.raising == 0
                                && C.Quiet(s.cd) && forall o :: o !in s.readings)
  }

  /** The latest progress request was made when the latest row was already there. */
  ghost predicate Requested(s: Send) {
    && s.seen.Keys == s.cd.triggers
    && (forall k | k in s.seen :: k < s.cd.order && s.seen[k] <= s.Rows())
    && (s.toNotify > 0 || s.raising > 0 || s.Rows() == 0 || exists k | k in s.seen :: s.seen[k] == s.Rows())
  }

  /** What a pass has read is true of the send. */
  ghost predicate Informed(s: Send) {
    && (forall p | p in s.cd.running :: p.order < s.cd.order)
    && (forall o | o in s.readings ::
          && o < s.cd.order && s.readings[o].qty == s.qty
          && (s.readings[o].finished ==> s.status == Finished)
          && (s.readings[o].Counted? ==> s.readings[o].processed <= s.Rows()))
  }

  /** A pass counted at least the rows that every request made before it began had seen. */
  ghost predicate Caught(s: Send) {
    && (forall o, k | o in s.readings && s.readings[o].Counted? && k in s.seen && k < o ::
          s.seen[k] <= s.readings[o].processed)
  }

  /** A pass is known by its place in the run. */
  ghost predicate Numbered(w: C.World) {
    && (forall p | p in w.running :: p.order < w.order && p.order !in w.ended)
    && (forall p, q | p in w.running && q in w.running && p.order == q.order :: p == q)
    && (forall o | o in w.ended :: o < w.order)
  }

  /** A pass that ended had counted, and marked the send when the count was complete. */
  ghost predicate Concluded(s: Send) {
    && Numbered(s.cd)
    && (forall o | o in s.cd.ended ::
          && o in s.readings && s.readings[o].Counted?
          && (0 < s.qty <= s.readings[o].processed ==> s.status == Finished))
  }

  ghost predicate Consistent(c: C.Config, s: Send) {
    Accounted(s) && Requested(s) && Informed(s) && Caught(s) && Concluded(s) && C.Awake(c, s.cd)
  }

  lemma StepKeepsAccounted(c: C.Config, s: Send, e: Event)
    requires Accounted(s) && Informed(s) && Step(c, s, e).Some?
    ensures Accounted(Step(c, s, e).value)
  {
    hide C.Step;
    if s.status == Pending {
      match e {
        case Cool(ce) => C.QuietStaysQuiet(c, s.cd, ce);
        case _ =>
      }
    }
  }

  /** New rows leave someone to ask for an update, and only asking settles that. */
  lemma RowsWaitForNotice(c: C.Config, s: Send, e: Event)
    requires !e.Notify? && Step(c, s, e).Some?
    ensures var t := Step(c, s, e).value;
            && t.seen == s.seen && t.cd.triggers == s.cd.triggers && s.cd.order <= t.cd.order
            && s.Rows() <= t.Rows()
            && (s.toNotify > 0 || s.raising > 0 || s.Rows() < t.Rows() ==> t.toNotify > 0 || t.raising > 0)
  {
    hide C.Step;
    match e {
      case Cool(ce) => C.StepRecords(c, s.cd, ce);
      case FinishPass(p) => C.StepRecords(c, s.cd, C.End(p));
      case _ =>
    }
  }

  lemma StepKeepsRequested(c: C.Config, s: Send, e: Event)
    requires Requested(s) && Step(c, s, e).Some?
    ensures Requested(Step(c, s, e).value)
  {
    hide C.Step;
    var t := Step(c, s, e).value;
    if e.Notify? {
      C.StepRecords(c, s.cd, C.Trigger);
      assert t.seen[s.cd.order] == t.Rows();
    } else {
      hide Step;
      RowsWaitForNotice(c, s, e);
    }
  }

  lemma StepKeepsInformed(c: C.Config, s: Send, e: Event)
    requires Accounted(s) && Requested(s) && Informed(s) && Step(c, s, e).Some?
    ensures Informed(Step(c, s, e).value)
  {
    hide C.Step;
    match e {
      case Notify => RunningIsOlder(c, s.cd, C.Trigger);
      case Cool(ce) => RunningIsOlder(c, s.cd, ce);
      case FinishPass(p) => RunningIsOlder(c, s.cd, C.End(p));
      case _ =>
    }
  }

  lemma RunningIsOlder(c: C.Config, w: C.World, e: C.Event)
    requires C.Step(c, w, e).Some?
    requires forall p | p in w.running :: p.order < w.order
    ensures var t := C.Step(c, w, e).value; t.order == w.order + 1 && forall p | p in t.running :: p.order < t.order
  {}

  lemma StepKeepsCaught(c: C.Config, s: Send, e: Event)
    requires Requested(s) && Informed(s) && Caught(s) && Step(c, s, e).Some?
    ensures Caught(Step(c, s, e).value)
  {
    var t := Step(c, s, e).value;
    forall o, k | o in t.readings && t.readings[o].Counted? && k in t.seen && k < o
      ensures t.seen[k] <= t.readings[o].processed
    {
      assert o in s.readings;
      assert k in s.seen;
    }
  }

  lemma StepKeepsNumbered(c: C.Config, w: C.World, e: C.Event)
    requires Numbered(w) && C.Step(c, w, e).Some?
    ensures Numbered(C.Step(c, w, e).value)
  {}

  lemma StepKeepsConcluded(c: C.Config, s: Send, e: Event)
    requires Accounted(s) && Informed(s) && Concluded(s) && Step(c, s, e).Some?
    ensures Concluded(Step(c, s, e).value)
  {
    hide C.Step, Numbered;
    match e {
      case Notify =>
        StepKeepsNumbered(c, s.cd, C.Trigger);
        EndsAreRecorded(c, s.cd, C.Trigger);
      case Cool(ce) =>
        StepKeepsNumbered(c, s.cd, ce);
        EndsAreRecorded(c, s.cd, ce);
      case FinishPass(p) =>
        StepKeepsNumbered(c, s.cd, C.End(p));
        EndsAreRecorded(c, s.cd, C.End(p));
      case Load(p) => NotYetEnded(s.cd, p);
      case Count(p) => NotYetEnded(s.cd, p);
      case _ =>
    }
  }

  lemma EndsAreRecorded(c: C.Config, w: C.World, e: C.Event)
    requires C.Step(c, w, e).Some?
    ensures C.Step(c, w, e).value.ended == w.ended + if e.End? then {e.p.order} else {}
  {}

  lemma NotYetEnded(w: C.World, p: C.Pass)
    requires Numbered(w) && p in w.running
    ensures p.order !in w.ended
  {}

  lemma StepKeepsConsistent(c: C.Config, s: Send, e: Event)
    requires Consistent(c, s) && Step(c, s, e).Some?
    ensures Consistent(c, Step(c, s, e).value)
  {
    StepKeepsAccounted(c, s, e);
    StepKeepsRequested(c, s, e);
    StepKeepsInformed(c, s, e);
    StepKeepsCaught(c, s, e);
    StepKeepsConcluded(c, s, e);
    match e {
      case Notify => C.StepKeepsAwake(c, s.cd, C.Trigger);
      case Cool(ce) => C.StepKeepsAwake(c, s.cd, ce);
      case FinishPass(p) => C.StepKeepsAwake(c, s.cd, C.End(p));
      case _ =>
    }
  }

  lemma {:induction false} RunKeepsConsistent(c: C.Config, s: Send, events: seq<Event>)
    requires Consistent(c, s) && Run(c, s, events).Some?
    ensures Consistent(c, Run(c, s, events).value)
    decreases |events|
  {
    if events != [] {
      StepKeepsConsistent(c, s, events[0]);
      RunKeepsConsistent(c, Step(c, s, events[0]).value, events[1..]);
    }
  }

  lemma NewIsConsistent(c: C.Config, s: Send)
    requires New(s)
    ensures Consistent(c, s)
  {
    C.InitialIsAwake(c);
  }

  lemma QuietIsFinished(c: C.Config, s: Send)
    requires Consistent(c, s) && Quiet(s) && 0 < s.qty
    ensures s.status == Finished
  {
    assert 0 < s.Rows();
    var k :| k in s.seen && s.seen[k] == s.Rows();
    assert C.PassedSince(s.cd, k);
    var o :| o in s.cd.ended && k < o;
    assert s.seen[k] <= s.readings[o].processed;
  }

  /** When a fanned-out send goes quiet, every room has its row and the send is FINISHED,
      if there was any room at all. The rows are exactly as many as the rooms if and
      only if no notification raised. */
  lemma QuietSendIsFinished(c: C.Config, start: Send, events: seq<Event>, s: Send)
    requires New(start) && Run(c, start, events) == Some(s)
    requires Quiet(s) && s.status != Pending
    ensures s.Rows() == s.qty + s.doubled
    ensures s.Rows() == s.qty <==> s.doubled == 0
    ensures s.status == Finished <==> 0 < s.qty
    ensures s.messages == s.succeeded
  {
    NewIsConsistent(c, start);
    RunKeepsConsistent(c, start, events);
    if 0 < s.qty {
      QuietIsFinished(c, s);
    }
  }

  /** A send that is FINISHED early lacks at most as many rooms as notifications raised;
      when none raised, every room's task has run. */
  lemma FinishedMeansComplete(c: C.Config, start: Send, events: seq<Event>, s: Send)
    requires New(start) && Run(c, start, events) == Some(s)
    requires s.status == Finished
    ensures s.listed + s.queued <= s.doubled
  {
    NewIsConsistent(c, start);
    RunKeepsConsistent(c, start, events);
  }

  // ---- How early a send can finish ----

  /** Some run leads from `s` to `t`. */
  ghost predicate Reaches(c: C.Config, s: Send, t: Send) {
    exists events :: Run(c, s, events) == Some(t)
  }

  lemma {:induction false} RunConcat(c: C.Config, s: Send, a: seq<Event>, b: seq<Event>)
    requires Run(c, s, a).Some?
    ensures Run(c, s, a + b) == Run(c, Run(c, s, a).value, b)
    decreases |a|
  {
    hide Step;
    if a == [] {
      assert a + b == b;
    } else {
      assert (a + b)[1..] == a[1..] + b;
      RunConcat(c, Step(c, s, a[0]).value, a[1..], b);
    }
  }

  lemma ReachesItself(c: C.Config, s: Send)
    ensures Reaches(c, s, s)
  {
    assert Run(c, s, []) == Some(s);
  }

  lemma ReachesByStep(c: C.Config, s: Send, t: Send, e: Event, u: Send)
    requires Reaches(c, s, t) && Step(c, t, e) == Some(u)
    ensures Reaches(c, s, u)
  {
    hide Step;
    var a :| Run(c, s, a) == Some(t);
    RunFirst(c, t, e);
    RunConcat(c, s, a, [e]);
  }

  lemma {:induction false} DispatchAll(c: C.Config, s: Send, t: Send)
    requires Reaches(c, s, t)
    ensures Reaches(c, s, t.(listed := 0, queued := t.queued + t.listed))
    decreases t.listed
  {
    if t.listed > 0 {
      var u := t.(listed := t.listed - 1, queued := t.queued + 1);
      Dispatched(c, t);
      ReachesByStep(c, s, t, Dispatch, u);
      DispatchAll(c, s, u);
    }
  }

  /** `n` room tasks that end well. */
  function Delivering(s: Send, n: nat): Send
    requires n <= s.queued
  {
    s.(queued := s.queued - n, messages := s.messages + n, succeeded := s.succeeded + n, toNotify := s.toNotify + n)
  }

  lemma {:induction false} DeliverMany(c: C.Config, s: Send, t: Send, n: nat)
    requires Reaches(c, s, t) && n <= t.queued
    ensures Reaches(c, s, Delivering(t, n))
    decreases n
  {
    if n > 0 {
      ReachesByStep(c, s, t, RoomTask(Delivered), Delivering(t, 1));
      DeliverMany(c, s, Delivering(t, 1), n - 1);
    }
  }

  /** `n` room tasks whose notification raises, each with its second row. */
  function Doubling(s: Send, n: nat): Send
    requires n <= s.queued
  {
    s.(queued := s.queued - n, messages := s.messages + n, succeeded := s.succeeded + n,
       failed := s.failed + n, doubled := s.doubled + n, toNotify := s.toNotify + n)
  }

  lemma {:induction false} DoubleMany(c: C.Config, s: Send, t: Send, n: nat)
    requires Reaches(c, s, t) && n <= t.queued
    ensures Reaches(c, s, Doubling(t, n))
    decreases n
  {
    if n > 0 {
      var u := Deliver(t.(queued := t.queued - 1), NotifyRaised);
      ReachesByStep(c, s, t, RoomTask(NotifyRaised), u);
      ReachesByStep(c, s, u, RecordRaise, Doubling(t, 1));
      DoubleMany(c, s, Doubling(t, 1), n - 1);
    }
  }

  /** The progress request of a fresh send starts a pass at once. */
  lemma PassStarts(c: C.Config, s: Send, t: Send) returns (u: Send)
    requires Reaches(c, s, t) && t.cd == C.INITIAL && t.toNotify > 0
    ensures Reaches(c, s, u) && C.Pass(1, 0) in u.cd.running
    ensures u == t.(cd := u.cd, toNotify := t.toNotify - 1, seen := u.seen)
  {
    hide Reaches;
    var w := C.Step(c, C.INITIAL, C.Trigger).value;
    var t1 := t.(cd := w, toNotify := t.toNotify - 1, seen := t.seen[0 := t.Rows()]);
    ReachesByStep(c, s, t, Notify, t1);
    u := t1.(cd := C.Step(c, w, C.TryLock(0)).value);
    ReachesByStep(c, s, t1, Cool(C.TryLock(0)), u);
  }

  /** With as many rows as rooms, a pass finishes the send. */
  lemma PassFinishes(c: C.Config, s: Send, t: Send, p: C.Pass) returns (u: Send)
    requires Reaches(c, s, t) && p in t.cd.running && p.order !in t.readings
    requires 0 < t.qty <= t.Rows() && t.status == Processing
    ensures Reaches(c, s, u) && u == t.(cd := u.cd, readings := u.readings, status := Finished)
  {
    hide Reaches, C.Step;
    C.RunningCanEnd(c, t.cd, p);
    var t1 := t.(readings := t.readings[p.order := Loaded(false, t.qty)]);
    ReachesByStep(c, s, t, Load(p), t1);
    var t2 := t1.(readings := t1.readings[p.order := Counted(false, t.qty, t.Rows())]);
    ReachesByStep(c, s, t1, Count(p), t2);
    u := t2.(cd := C.Step(c, t2.cd, C.End(p)).value, status := Finished);
    ReachesByStep(c, s, t2, FinishPass(p), u);
  }

  ghost predicate FinishesEarly(c: C.Config, start: Send, s: Send, rooms: nat, untried: nat) {
    Reaches(c, start, s) && s.status == Finished && s.qty == rooms && s.listed + s.queued == untried
  }

  /** A send of `rooms` rooms can be FINISHED while `untried` of them have no outcome, if
      and only if these are at most half of the rooms: each of them is made up for by the
      second row of a room whose notification raised. */
  lemma EarlyFinishIff(c: C.Config, start: Send, rooms: nat, untried: nat)
    requires New(start) && 0 < rooms
    ensures (exists s :: FinishesEarly(c, start, s, rooms, untried)) <==> 2 * untried <= rooms
  {
    if 2 * untried <= rooms {
      var s := FinishEarly(c, start, rooms, untried);
    }
    forall s | FinishesEarly(c, start, s, rooms, untried) ensures 2 * untried <= rooms {
      var events :| Run(c, start, events) == Some(s);
      NewIsConsistent(c, start);
      RunKeepsConsistent(c, start, events);
    }
  }

  /** For every number of raising notifications there is such a run that lacks exactly as
      many rooms. */
  lemma FinishEarly(c: C.Config, start: Send, rooms: nat, raising: nat) returns (s: Send)
    requires New(start) && 0 < rooms && 2 * raising <= rooms
    ensures FinishesEarly(c, start, s, rooms, raising) && s.doubled == raising
  {
    ReachesItself(c, start);
    var t := start.(status := Processing, qty := rooms, listed := rooms);
    ReachesByStep(c, start, start, FanOut(rooms), t);
    DispatchAll(c, start, t);
    t := t.(listed := 0, queued := rooms);
    DeliverMany(c, start, t, rooms - 2 * raising);
    t := Delivering(t, rooms - 2 * raising);
    DoubleMany(c, start, t, raising);
    t := Doubling(t, raising);
    t := PassStarts(c, start, t);
    s := PassFinishes(c, start, t, C.Pass(1, 0));
  }

  // ---- The Celery tasks ----

  lemma RunFirst(c: C.Config, s: Send, e: Event)
    ensures Run(c, s, [e]) == Step(c, s, e)
  {
    assert [e][1..] == [];
  }

  lemma {:induction false} RunOneMore(c: C.Config, s: Send, events: seq<Event>, e: Event)
    requires Run(c, s, events).Some? && Step(c, Run(c, s, events).value, e).Some?
    ensures Run(c, s, events + [e]) == Step(c, Run(c, s, events).value, e)
    decreases |events|
  {
    hide Step;
    if events == [] {
      assert [] + [e] == [e];
      RunFirst(c, s, e);
    } else {
      assert (events + [e])[1..] == events[1..] + [e];
      RunOneMore(c, Step(c, s, events[0]).value, events[1..], e);
    }
  }

  function Dispatches(n: nat): seq<Event> {
    if n == 0 then [] else Dispatches(n - 1) + [Dispatch]
  }

  /** The steps of one room's task that nothing interrupts. */
  function Sending(roomActive: bool, fails: bool, notifyRaises: bool): seq<Event> {
    if !roomActive then [RoomTask(RoomClosed), Notify]
    else if fails then [RoomTask(RolledBack), Notify]
    else if notifyRaises then [RoomTask(NotifyRaised), RecordRaise, Notify]
    else [RoomTask(Delivered), Notify]
  }

  class BulkMessageSend {
    const c: C.Config
    var status: SendStatus
    var roomsQty: nat
    var succeeded: nat
    var failed: nat
    var messages: nat
    var cd: C.World
    ghost var listed: nat
    ghost var queued: nat
    ghost var raising: nat
    ghost var doubled: nat
    ghost var toNotify: nat
    ghost var readings: map<nat, Reading>
    ghost var seen: map<nat, nat>

    constructor (c: C.Config)
      ensures this.c == c && New(State())
    {
      this.c := c;
      status, roomsQty, succeeded, failed, messages, cd := Pending, 0, 0, 0, 0, C.INITIAL;
      listed, queued, raising, doubled, toNotify, readings, seen := 0, 0, 0, 0, 0, map[], map[];
    }

    ghost function State(): Send
      reads this
    {
      Send(cd, status, roomsQty, listed, queued, messages, succeeded, failed, raising, doubled, toNotify, readings, seen)
    }

    /** Marks the send and dispatches a task for each room. */
    method ProcessBulkMessageSend(rooms: nat)
      requires status == Pending
      modifies this
      ensures Run(c, old(State()), [FanOut(rooms)] + Dispatches(rooms)) == Some(State())
      ensures status == Processing && roomsQty == rooms && listed == 0 && queued == old(queued) + rooms
    {
      hide Step, Run;
      ghost var s := State();
      status, roomsQty, listed := Processing, rooms, rooms;
      FansOut(c, s, rooms);
      RunFirst(c, s, FanOut(rooms));
      assert [FanOut(rooms)] + Dispatches(0) == [FanOut(rooms)];
      for k := 0 to rooms
        invariant Run(c, s, [FanOut(rooms)] + Dispatches(k)) == Some(State())
        invariant status == Processing && roomsQty == rooms && listed == rooms - k && queued == old(queued) + k
      {
        Dispatched(c, State());
        RunOneMore(c, s, [FanOut(rooms)] + Dispatches(k), Dispatch);
        assert [FanOut(rooms)] + Dispatches(k) + [Dispatch] == [FanOut(rooms)] + Dispatches(k + 1);
        listed, queued := listed - 1, queued + 1;
      }
    }

    method ScheduleProgressUpdate()
      requires toNotify > 0
      modifies this
      ensures Step(c, old(State()), Notify) == Some(State())
    {
      seen := seen[cd.order := succeeded + failed];
      cd := C.Step(c, cd, C.Trigger).value;
      toNotify := toNotify - 1;
    }

    method CreateFailedRow(ghost delivery: Delivery)
      requires queued > 0 && (delivery == RoomClosed || delivery == RolledBack)
      modifies this
      ensures Step(c, old(State()), RoomTask(delivery)) == Some(State()) && toNotify > 0
    {
      failed := failed + 1;
      queued, toNotify := queued - 1, toNotify + 1;
    }

    /** The message and its row, committed together. When the message's notification
        raises on commit, the progress update after it is not asked for. */
    method Commit(notifyRaises: bool)
      requires queued > 0
      modifies this
      ensures Step(c, old(State()), RoomTask(if notifyRaises then NotifyRaised else Delivered)) == Some(State())
      ensures if notifyRaises then raising > 0 else toNotify > 0
    {
      messages, succeeded, queued := messages + 1, succeeded + 1, queued - 1;
      if notifyRaises {
        raising := raising + 1;
      } else {
        toNotify := toNotify + 1;
      }
    }

    /** The exception handler does not know that the row is already there. */
    method CreateSecondRow()
      requires raising > 0
      modifies this
      ensures Step(c, old(State()), RecordRaise) == Some(State()) && toNotify > 0
    {
      failed := failed + 1;
      raising, doubled, toNotify := raising - 1, doubled + 1, toNotify + 1;
    }

    /** One room's task. */
    method SendToRoom(roomActive: bool, fails: bool, notifyRaises: bool)
      requires queued > 0
      modifies this
      ensures Run(c, old(State()), Sending(roomActive, fails, notifyRaises)) == Some(State())
    {
      hide Step, Run;
      ghost var s := State();
      if !roomActive {
        CreateFailedRow(RoomClosed);
        RunFirst(c, s, RoomTask(RoomClosed));
        ScheduleProgressUpdate();
        RunOneMore(c, s, [RoomTask(RoomClosed)], Notify);
        assert [RoomTask(RoomClosed)] + [Notify] == [RoomTask(RoomClosed), Notify];
        return;
      }
      if fails {
        CreateFailedRow(RolledBack);
        RunFirst(c, s, RoomTask(RolledBack));
        ScheduleProgressUpdate();
        RunOneMore(c, s, [RoomTask(RolledBack)], Notify);
        assert [RoomTask(RolledBack)] + [Notify] == [RoomTask(RolledBack), Notify];
        return;
      }
      Commit(notifyRaises);
      ghost var first := RoomTask(if notifyRaises then NotifyRaised else Delivered);
      RunFirst(c, s, first);
      if notifyRaises {
        CreateSecondRow();
        RunOneMore(c, s, [first], RecordRaise);
        assert [first] + [RecordRaise] == [first, RecordRaise];
        ScheduleProgressUpdate();
        RunOneMore(c, s, [first, RecordRaise], Notify);
        assert [first, RecordRaise] + [Notify] == [first, RecordRaise, Notify];
      } else {
        ScheduleProgressUpdate();
        RunOneMore(c, s, [first], Notify);
        assert [first] + [Notify] == [first, Notify];
      }
    }

    method ReadSend(ghost p: C.Pass) returns (finished: bool, totalToSend: nat)
      requires p in cd.running && p.order !in readings
      modifies `readings
      ensures finished == (status == Finished) && totalToSend == roomsQty
      ensures readings == old(readings)[p.order := Loaded(finished, totalToSend)]
      ensures Step(c, old(State()), Load(p)) == Some(State())
    {
      finished, totalToSend := status == Finished, roomsQty;
      readings := readings[p.order := Loaded(finished, totalToSend)];
    }

    method CountRows(ghost p: C.Pass) returns (processed: nat)
      requires p in cd.running && p.order in readings && readings[p.order].Loaded?
      modifies `readings
      ensures processed == succeeded + failed
      ensures var r := old(readings)[p.order]; readings == old(readings)[p.order := Counted(r.finished, r.qty, processed)]
      ensures Step(c, old(State()), Count(p)) == Some(State())
    {
      processed := succeeded + failed;
      readings := readings[p.order := Counted(readings[p.order].finished, readings[p.order].qty, processed)];
    }

    /** Finishes the send at 100%, unless it was finished already. */
    method Conclude(p: C.Pass, finished: bool, totalToSend: nat, processed: nat)
      requires p in cd.running && p.order in readings && readings[p.order] == Counted(finished, totalToSend, processed)
      modifies `status, `cd
      ensures status == if 0 < totalToSend <= processed && !finished then Finished else old(status)
      ensures Step(c, old(State()), FinishPass(p)) == Some(State())
    {
      if totalToSend > 0 && processed >= totalToSend && !finished {
        status := Finished;
      }
      cd := C.Step(c, cd, C.End(p)).value;
    }

    /** A progress pass. */
    method UpdateProgress(p: C.Pass)
      requires p in cd.running && p.order !in readings
      modifies this
      ensures Run(c, old(State()), [Load(p), Count(p), FinishPass(p)]) == Some(State())
      ensures status == if 0 < old(roomsQty) <= old(succeeded) + old(failed) then Finished else old(status)
    {
      hide Step, Run;
      ghost var s := State();
      var finished, totalToSend := ReadSend(p);
      RunFirst(c, s, Load(p));
      var processed := CountRows(p);
      RunOneMore(c, s, [Load(p)], Count(p));
      assert [Load(p)] + [Count(p)] == [Load(p), Count(p)];
      Conclude(p, finished, totalToSend, processed);
      RunOneMore(c, s, [Load(p), Count(p)], FinishPass(p));
      assert [Load(p), Count(p)] + [FinishPass(p)] == [Load(p), Count(p), FinishPass(p)];
    }
  }

  lemma FansOut(c: C.Config, s: Send, rooms: nat)
    requires s.status == Pending
    ensures Step(c, s, FanOut(rooms)) == Some(s.(status := Processing, qty := rooms, listed := rooms))
  {}

  lemma Dispatched(c: C.Config, s: Send)
    requires s.listed > 0
    ensures Step(c, s, Dispatch) == Some(s.(listed := s.listed - 1, queued := s.queued + 1))
  {}
}
