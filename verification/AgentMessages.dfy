/** Concurrent creations of one agent message under one request_id: claim the key, create,
    then store the message id or release the key; the others poll. */
module AgentMessages {
  import opened Options

  type Client = int
  datatype MessageId = Uuid(n: int)

  /** What the request_id key holds. */
  datatype Value = PendingMarker | Stored(id: MessageId)

  /** Where a request is. A request that could not reach Redis for its claim goes on
      as if it had won. */
  datatype Phase =
    | NotStarted
    | Creating
    | Created(id: MessageId)   // committed, key not written yet
    | Failing                  // creation raised, key not released yet
    | Polling(left: nat)       // lost the claim; `left` reads to go
    | Fetching(left: nat, id: MessageId)
    | Returned(id: MessageId)
    | Raised
    | Dead

  /** `messages` are the committed messages. `expiries` and `bypasses` count the times
      the key ran out, and the requests that could not reach Redis for their claim. */
  datatype World = World(
    key: Option<Value>,
    messages: set<MessageId>,
    phases: map<Client, Phase>,
    expiries: nat,
    bypasses: nat)

  datatype Event =
    | Claim(c: Client)
    | Bypass(c: Client)
    | Create(c: Client, id: MessageId)
    | Fail(c: Client)
    | Store(c: Client, reached: bool)    // `reached`: Redis was available for the call
    | Release(c: Client, reached: bool)
    | Poll(c: Client, reached: bool)
    | Fetch(c: Client)
    | Crash(c: Client)
    | Expire

  const INITIAL := World(None, {}, map[], 0, 0)

  function PhaseOf(w: World, c: Client): Phase {
    if c in w.phases then w.phases[c] else NotStarted
  }

  function Move(w: World, c: Client, p: Phase): World {
    w.(phases := w.phases[c := p])
  }

  /** One step of one request; `attempts` is the number of polls after the first read. */
  function Step(attempts: nat, w: World, e: Event): Option<World> {
    match e
    case Claim(c) =>
      if PhaseOf(w, c) != NotStarted then None
      else if w.key.None? then Some(Move(w, c, Creating).(key := Some(PendingMarker)))
      else Some(Move(w, c, Polling(attempts + 1)))
    case Bypass(c) =>
      if PhaseOf(w, c) != NotStarted then None
      else Some(Move(w, c, Creating).(bypasses := w.bypasses + 1))
    case Create(c, id) =>
      if !PhaseOf(w, c).Creating? || id in w.messages then None
      else
        Some(Move(w, c, Created(id)).(messages := w.messages + {id}))
    case Fail(c) =>
      if !PhaseOf(w, c).Creating? then None
      else Some(Move(w, c, Failing))
    case Store(c, reached) =>
      if !PhaseOf(w, c).Created? then None
      else
        var id := PhaseOf(w, c).id;
        Some(Move(w, c, Returned(id)).(key := if reached then Some(Stored(id)) else w.key))
    case Release(c, reached) =>
      if PhaseOf(w, c) != Failing then None
      else Some(Move(w, c, Raised).(key := if reached then None else w.key))
    case Poll(c, reached) =>
      if !PhaseOf(w, c).Polling? then None
      else
        var left := PhaseOf(w, c).left;
        if left == 0 then Some(Move(w, c, Raised))
        else if reached && w.key.Some? && w.key.value.Stored? then Some(Move(w, c, Fetching(left - 1, w.key.value.id)))
        else Some(Move(w, c, Polling(left - 1)))
    case Fetch(c) =>
      if !PhaseOf(w, c).Fetching? then None
      else
        var p := PhaseOf(w, c);
        Some(Move(w, c, if p.id in w.messages then Returned(p.id) else Polling(p.left)))
    case Crash(c) => Some(Move(w, c, Dead))
    case Expire =>
      if w.key.None? then None else Some(w.(key := None, expiries := w.expiries + 1))
  }

  function Run(attempts: nat, w: World, events: seq<Event>): Option<World>
    decreases |events|
  {
    if events == [] then Some(w)
    else
      match Step(attempts, w, events[0])
      case None => None
      case Some(v) => Run(attempts, v, events[1..])
  }

  // ---- How many messages ----

  /** A request that may still commit a message. */
  predicate MayCreate(p: Phase) {
    p.Creating? || p.Failing?
  }

  function Creators(w: World): set<Client> {
    set c | c in w.phases && MayCreate(w.phases[c])
  }

  /** Each expiry and each request without Redis lets one more creation through, and so
      does the key while it is there. */
  ghost predicate Bounded(w: World) {
    |w.messages| + |Creators(w)| <= w.expiries + w.bypasses + if w.key.Some? then 1 else 0
  }

  lemma CreatorsAfter(w: World, c: Client, p: Phase)
    ensures |Creators(Move(w, c, p))| ==
            |Creators(w)| - (if MayCreate(PhaseOf(w, c)) then 1 else 0) + (if MayCreate(p) then 1 else 0)
  {
    var without := Creators(w) - {c};
    assert Creators(w) == if MayCreate(PhaseOf(w, c)) then without + {c} else without;
    assert Creators(Move(w, c, p)) == if MayCreate(p) then without + {c} else without;
  }

  lemma CreatorsDependOnPhases(v: World, w: World)
    requires v.phases == w.phases
    ensures Creators(v) == Creators(w)
  {}

  function One(b: bool): nat {
    if b then 1 else 0
  }

  lemma StepMovesOne(attempts: nat, w: World, e: Event)
    requires Step(attempts, w, e).Some? && !e.Expire?
    ensures var v := Step(attempts, w, e).value; e.c in v.phases && v.phases == w.phases[e.c := v.phases[e.c]]
  {}

  /** A message comes only with a claim that is spent. */
  lemma StepSpendsClaims(attempts: nat, w: World, e: Event)
    requires Step(attempts, w, e).Some? && !e.Expire?
    ensures var v := Step(attempts, w, e).value;
            |v.messages| - |w.messages| + One(MayCreate(PhaseOf(v, e.c))) - One(MayCreate(PhaseOf(w, e.c)))
            <= v.expiries - w.expiries + v.bypasses - w.bypasses + One(v.key.Some?) - One(w.key.Some?)
  {}

  lemma StepKeepsBounded(attempts: nat, w: World, e: Event)
    requires Bounded(w) && Step(attempts, w, e).Some?
    ensures Bounded(Step(attempts, w, e).value)
  {
    hide Creators;
    var v := Step(attempts, w, e).value;
    if e.Expire? {
      CreatorsDependOnPhases(v, w);
    } else {
      hide Step;
      StepMovesOne(attempts, w, e);
      StepSpendsClaims(attempts, w, e);
      CreatorsAfter(w, e.c, v.phases[e.c]);
      CreatorsDependOnPhases(v, Move(w, e.c, v.phases[e.c]));
    }
  }

  lemma {:induction false} RunKeepsBounded(attempts: nat, w: World, events: seq<Event>)
    requires Bounded(w) && Run(attempts, w, events).Some?
    ensures Bounded(Run(attempts, w, events).value)
    decreases |events|
  {
    if events != [] {
      StepKeepsBounded(attempts, w, events[0]);
      RunKeepsBounded(attempts, Step(attempts, w, events[0]).value, events[1..]);
    }
  }

  /** At most one message per lifetime of the key, plus one per request that could not
      reach Redis; so one at most when the key does not expire and Redis is up. Worker
      crashes do not add any. */
  lemma MessagesAreBounded(attempts: nat, events: seq<Event>, w: World)
    requires Run(attempts, INITIAL, events) == Some(w)
    ensures |w.messages| <= 1 + w.expiries + w.bypasses
  {
    assert Creators(INITIAL) == {};
    RunKeepsBounded(attempts, INITIAL, events);
  }

  // ---- Which message ----

  /** With Redis up and the key not expired: the key tells whether a creation is under
      way or done, one request at most is creating, and everybody has the one message. */
  ghost predicate Agreed(w: World) {
    && w.expiries == 0 && w.bypasses == 0
    && (w.key.None? ==> w.messages == {})
    && (w.key.Some? && w.key.value.Stored? ==> w.messages == {w.key.value.id})
    && (forall x, y | x in w.messages && y in w.messages :: x == y)
    && (forall c | c in w.phases ::
          match w.phases[c]
          case Creating => w.key == Some(PendingMarker) && w.messages == {}
          case Failing => w.key == Some(PendingMarker) && w.messages == {}
          case Created(id) => w.key == Some(PendingMarker) && w.messages == {id}
          case Fetching(_, id) => id in w.messages
          case Returned(id) => id in w.messages
          case _ => true)
  }

  /** A request that holds the claim. */
  predicate Claims(p: Phase) {
    p.Creating? || p.Failing? || p.Created?
  }

  ghost predicate OneClaimant(w: World) {
    && (forall c | c in w.phases && Claims(w.phases[c]) :: w.key.Some?)
    && (forall c, d | c in w.phases && d in w.phases && Claims(w.phases[c]) && Claims(w.phases[d]) :: c == d)
  }

  lemma StepKeepsOneClaimant(attempts: nat, w: World, e: Event)
    requires OneClaimant(w) && Step(attempts, w, e).Some? && !e.Expire? && !e.Bypass?
    ensures OneClaimant(Step(attempts, w, e).value)
  {}

  lemma StepKeepsAgreed(attempts: nat, w: World, e: Event)
    requires Agreed(w) && OneClaimant(w) && Step(attempts, w, e).Some? && !e.Expire? && !e.Bypass?
    ensures Agreed(Step(attempts, w, e).value)
  {
    var v := Step(attempts, w, e).value;
    match e {
      case Poll(c, reached) => assert v.key == w.key && v.messages == w.messages;
      case Fetch(c) => assert v.key == w.key && v.messages == w.messages;
      case _ =>
    }
  }

  lemma {:induction false} RunKeepsAgreed(attempts: nat, w: World, events: seq<Event>)
    requires Agreed(w) && OneClaimant(w) && Run(attempts, w, events).Some?
    requires forall e | e in events :: !e.Expire? && !e.Bypass?
    ensures Agreed(Run(attempts, w, events).value)
    decreases |events|
  {
    if events != [] {
      StepKeepsAgreed(attempts, w, events[0]);
      StepKeepsOneClaimant(attempts, w, events[0]);
      RunKeepsAgreed(attempts, Step(attempts, w, events[0]).value, events[1..]);
    }
  }

  lemma AtMostOne(t: set<MessageId>)
    requires forall x, y | x in t && y in t :: x == y
    ensures |t| <= 1
  {
    if |t| > 0 {
      var x :| x in t;
      assert t == {x};
    }
  }

  /** Redis up and the key alive: at most one message is committed, every request that
      returns gives that message, and the key is absent only if there is none. */
  lemma EveryoneGetsTheOneMessage(attempts: nat, events: seq<Event>, w: World)
    requires Run(attempts, INITIAL, events) == Some(w)
    requires forall e | e in events :: !e.Expire? && !e.Bypass?
    ensures |w.messages| <= 1
    ensures forall c | c in w.phases && w.phases[c].Returned? :: w.messages == {w.phases[c].id}
    ensures w.key.None? ==> w.messages == {}
  {
    RunKeepsAgreed(attempts, INITIAL, events);
    AtMostOne(w.messages);
  }

  /** A request that lost the claim never creates: once it polls, it only ever returns
      a message it read from the key, or raises. */
  lemma {:induction false} LosersNeverCreate(attempts: nat, w: World, events: seq<Event>, c: Client)
    requires PhaseOf(w, c).Polling? || PhaseOf(w, c).Fetching? || PhaseOf(w, c).Returned?
             || PhaseOf(w, c).Raised? || PhaseOf(w, c).Dead?
    requires Run(attempts, w, events).Some?
    ensures var p := PhaseOf(Run(attempts, w, events).value, c);
            p.Polling? || p.Fetching? || p.Returned? || p.Raised? || p.Dead?
    decreases |events|
  {
    if events != [] {
      LosersNeverCreate(attempts, Step(attempts, w, events[0]).value, events[1..], c);
    }
  }

  /** The bound is met: after an expiry in mid-creation a second message is committed. */
  lemma ExpiryLetsASecondMessageIn(attempts: nat, a: Client, b: Client, x: MessageId, y: MessageId)
    requires a != b && x != y
    ensures exists events, w :: Run(attempts, INITIAL, events) == Some(w) && w.expiries == 1 && w.messages == {x, y}
  {
    var w1 := Step(attempts, INITIAL, Claim(a)).value;
    var w2 := Step(attempts, w1, Expire).value;
    var w3 := Step(attempts, w2, Claim(b)).value;
    var w4 := Step(attempts, w3, Create(a, x)).value;
    var w5 := Step(attempts, w4, Create(b, y)).value;
    var e1, e2, e3, e4, e5 := Claim(a), Expire, Claim(b), Create(a, x), Create(b, y);
    Prepend(attempts, w4, e5, w5, []);
    Prepend(attempts, w3, e4, w4, [e5] + []);
    Prepend(attempts, w2, e3, w3, [e4] + ([e5] + []));
    Prepend(attempts, w1, e2, w2, [e3] + ([e4] + ([e5] + [])));
    Prepend(attempts, INITIAL, e1, w1, [e2] + ([e3] + ([e4] + ([e5] + []))));
    assert w5.messages == {x, y};
  }

  /** Some run leads to `w`, in which clients and messages are numbered below `n`. */
  ghost predicate Reached(attempts: nat, w: World, n: nat) {
    && (exists events :: Run(attempts, INITIAL, events) == Some(w))
    && (forall c | c in w.phases :: c < n)
    && (forall id | id in w.messages :: id.n < n)
  }

  lemma ReachedByStep(attempts: nat, w: World, n: nat, e: Event, v: World)
    requires Reached(attempts, w, n) && Step(attempts, w, e) == Some(v)
    ensures exists events :: Run(attempts, INITIAL, events) == Some(v)
  {
    hide Step;
    var events :| Run(attempts, INITIAL, events) == Some(w);
    RunOneMore(attempts, INITIAL, events, e);
  }

  lemma MoreMessages(t: set<MessageId>, id: MessageId)
    requires id !in t
    ensures |t + {id}| == |t| + 1
  {}

  /** Client `n` gets to create, by claiming an absent key or without Redis, and commits. */
  lemma CommitsOne(attempts: nat, w: World, n: nat, bypass: bool) returns (v: World)
    requires Reached(attempts, w, n) && (bypass || w.key.None?)
    ensures Reached(attempts, v, n + 1) && |v.messages| == |w.messages| + 1
    ensures v.expiries == w.expiries && v.bypasses == w.bypasses + if bypass then 1 else 0
    ensures !bypass ==> v.key.Some?
  {
    var e := if bypass then Bypass(n) else Claim(n);
    assert PhaseOf(w, n) == NotStarted;
    var u := Step(attempts, w, e).value;
    ReachedByStep(attempts, w, n, e, u);
    assert Reached(attempts, u, n + 1);
    v := Step(attempts, u, Create(n, Uuid(n))).value;
    ReachedByStep(attempts, u, n + 1, Create(n, Uuid(n)), v);
    MoreMessages(w.messages, Uuid(n));
  }

  lemma {:induction false} CommitsPerExpiry(attempts: nat, e: nat) returns (w: World)
    ensures Reached(attempts, w, e) && |w.messages| == w.expiries == e && w.bypasses == 0 && w.key.None?
  {
    if e == 0 {
      w := INITIAL;
      assert Run(attempts, INITIAL, []) == Some(w);
    } else {
      var u := CommitsPerExpiry(attempts, e - 1);
      u := CommitsOne(attempts, u, e - 1, false);
      w := Step(attempts, u, Expire).value;
      ReachedByStep(attempts, u, e, Expire, w);
    }
  }

  lemma {:induction false} CommitsPerBypass(attempts: nat, w: World, n: nat, b: nat) returns (v: World)
    requires Reached(attempts, w, n)
    ensures Reached(attempts, v, n + b) && |v.messages| == |w.messages| + b
    ensures v.expiries == w.expiries && v.bypasses == w.bypasses + b
  {
    v := w;
    if b > 0 {
      v := CommitsPerBypass(attempts, w, n, b - 1);
      v := CommitsOne(attempts, v, n + b - 1, true);
    }
  }

  /** The bound is met for every number of expiries and of requests without Redis. */
  lemma MessageBoundIsMet(attempts: nat, e: nat, b: nat)
    ensures exists events, w ::
      Run(attempts, INITIAL, events) == Some(w) && w.expiries == e && w.bypasses == b && |w.messages| == 1 + e + b
  {
    var w := CommitsPerExpiry(attempts, e);
    w := CommitsOne(attempts, w, e, false);
    w := CommitsPerBypass(attempts, w, e + 1, b);
    var events :| Run(attempts, INITIAL, events) == Some(w);
  }

  lemma Prepend(attempts: nat, w: World, e: Event, v: World, events: seq<Event>)
    requires Step(attempts, w, e) == Some(v)
    ensures Run(attempts, w, [e] + events) == Run(attempts, v, events)
  {
    assert ([e] + events)[1..] == events;
  }

  // ---- One request ----

  lemma {:induction false} RunOneMore(attempts: nat, w: World, events: seq<Event>, e: Event)
    requires Run(attempts, w, events).Some? && Step(attempts, Run(attempts, w, events).value, e).Some?
    ensures Run(attempts, w, events + [e]) == Step(attempts, Run(attempts, w, events).value, e)
    decreases |events|
  {
    hide Step;
    if events == [] {
      assert [] + [e] == [e] && [e][1..] == [];
    } else {
      assert (events + [e])[1..] == events[1..] + [e];
      RunOneMore(attempts, Step(attempts, w, events[0]).value, events[1..], e);
    }
  }

  /** A request that nothing interrupts, over the shared key and the message table. Each
      call says whether it reaches Redis. */
  class CreateAgentMessage {
    const attempts: nat
    var key: Option<Value>
    var messages: set<MessageId>
    ghost var phases: map<Client, Phase>
    ghost var expiries: nat
    ghost var bypasses: nat

    constructor (attempts: nat)
      ensures this.attempts == attempts && State() == INITIAL
    {
      this.attempts := attempts;
      key, messages, phases, expiries, bypasses := None, {}, map[], 0, 0;
    }

    ghost function State(): World
      reads this
    {
      World(key, messages, phases, expiries, bypasses)
    }

    /** SET NX; without Redis the request goes on as if it had won. */
    method ClaimRequestId(c: Client, reached: bool) returns (claimed: bool)
      requires PhaseOf(State(), c) == NotStarted
      modifies this
      ensures claimed <==> !reached || old(key).None?
      ensures PhaseOf(State(), c) == if claimed then Creating else Polling(attempts + 1)
      ensures messages == old(messages) && (old(key).Some? ==> key == old(key))
      ensures Step(attempts, old(State()), if reached then Claim(c) else Bypass(c)) == Some(State())
    {
      if !reached {
        bypasses, phases := bypasses + 1, phases[c := Creating];
        return true;
      }
      claimed := key.None?;
      if claimed {
        key := Some(PendingMarker);
      }
      phases := phases[c := if claimed then Creating else Polling(attempts + 1)];
    }

    method CreateMessage(c: Client, id: MessageId, fails: bool)
      requires PhaseOf(State(), c) == Creating && id !in messages
      modifies this
      ensures PhaseOf(State(), c) == if fails then Failing else Created(id)
      ensures messages == if fails then old(messages) else old(messages) + {id}
      ensures Step(attempts, old(State()), if fails then Fail(c) else Create(c, id)) == Some(State())
    {
      if fails {
        phases := phases[c := Failing];
      } else {
        messages, phases := messages + {id}, phases[c := Created(id)];
      }
    }

    method StoreRequestIdMessage(c: Client, id: MessageId, reached: bool)
      requires PhaseOf(State(), c) == Created(id)
      modifies this
      ensures reached ==> key == Some(Stored(id))
      ensures messages == old(messages) && PhaseOf(State(), c) == Returned(id)
      ensures Step(attempts, old(State()), Store(c, reached)) == Some(State())
    {
      if reached {
        key := Some(Stored(id));
      }
      phases := phases[c := Returned(id)];
    }

    method ReleaseRequestId(c: Client, reached: bool)
      requires PhaseOf(State(), c) == Failing
      modifies this
      ensures reached ==> key.None?
      ensures messages == old(messages) && PhaseOf(State(), c) == Raised
      ensures Step(attempts, old(State()), Release(c, reached)) == Some(State())
    {
      if reached {
        key := None;
      }
      phases := phases[c := Raised];
    }

    /** One read of the key and, when it holds an id, one look for the message. */
    method Read(c: Client, reached: bool, ghost w: World, ghost trace: seq<Event>)
      returns (found: Option<MessageId>, ghost after: seq<Event>)
      requires PhaseOf(State(), c).Polling? && PhaseOf(State(), c).left > 0
      requires Run(attempts, w, trace) == Some(State())
      modifies this`phases
      ensures Run(attempts, w, after) == Some(State())
      ensures match found
              case Some(id) => reached && key == Some(Stored(id)) && id in messages && PhaseOf(State(), c) == Returned(id)
              case None =>
                && PhaseOf(State(), c) == Polling(PhaseOf(old(State()), c).left - 1)
                && (reached && key.Some? && key.value.Stored? ==> key.value.id !in messages)
    {
      hide Run;
      ghost var left := PhaseOf(State(), c).left;
      found, after := None, trace + [Poll(c, reached)];
      RunOneMore(attempts, w, trace, Poll(c, reached));
      if reached && key.Some? && key.value.Stored? {
        var id := key.value.id;
        phases := phases[c := Fetching(left - 1, id)];
        RunOneMore(attempts, w, after, Fetch(c));
        after := after + [Fetch(c)];
        if id in messages {
          found := Some(id);
        }
        phases := phases[c := if id in messages then Returned(id) else Polling(left - 1)];
      } else {
        phases := phases[c := Polling(left - 1)];
      }
    }

    /** Reads once, then polls: a message is found exactly when the key holds its id and
        one of the reads reaches Redis; otherwise the request is refused as a duplicate. */
    method ResolveExistingMessage(c: Client, reached: seq<bool>, ghost w: World, ghost trace: seq<Event>)
      returns (found: Option<MessageId>, ghost after: seq<Event>)
      requires PhaseOf(State(), c) == Polling(attempts + 1) && |reached| == attempts + 1
      requires Run(attempts, w, trace) == Some(State())
      modifies this`phases
      ensures Run(attempts, w, after) == Some(State())
      ensures found.Some? <==> key.Some? && key.value.Stored? && key.value.id in messages && true in reached
      ensures found.Some? ==> key == Some(Stored(found.value))
      ensures PhaseOf(State(), c) == if found.Some? then Returned(found.value) else Raised
    {
      hide Run;
      found, after := Read(c, reached[0], w, trace);
      for k := 1 to attempts + 1
        invariant Run(attempts, w, after) == Some(State())
        invariant found.None? ==> PhaseOf(State(), c) == Polling(attempts + 1 - k)
        invariant found.None? && true in reached[..k] ==> key.None? || !key.value.Stored? || key.value.id !in messages
        invariant match found
                  case Some(id) => PhaseOf(State(), c) == Returned(id) && key == Some(Stored(id)) && id in messages && true in reached
                  case None => true
      {
        if found.Some? {
          break;
        }
        assert reached[..k + 1] == reached[..k] + [reached[k]];
        found, after := Read(c, reached[k], w, after);
      }
      assert reached[..|reached|] == reached;
      if found.None? {
        RunOneMore(attempts, w, after, Poll(c, false));
        after := after + [Poll(c, false)];
        phases := phases[c := Raised];
      }
    }

    /** The whole request takes the machine's steps. It returns its own new message when
        it won the claim, or the message stored under the key. */
    method Execute(c: Client, id: MessageId, fails: bool, claims: bool, settles: bool, reached: seq<bool>)
      returns (result: Option<MessageId>, ghost trace: seq<Event>)
      requires PhaseOf(State(), c) == NotStarted && id !in messages && |reached| == attempts + 1
      modifies this
      ensures Run(attempts, old(State()), trace) == Some(State())
      ensures PhaseOf(State(), c) == if result.Some? then Returned(result.value) else Raised
      ensures !claims || old(key).None? ==> result == if fails then None else Some(id)
      ensures claims && old(key).Some? ==>
        && messages == old(messages) && key == old(key)
        && (result.Some? ==> key == Some(Stored(result.value)))
    {
      hide Run, Step;
      ghost var w := State();
      NothingHappened(attempts, w);
      var claimed := ClaimRequestId(c, claims);
      trace := [if claims then Claim(c) else Bypass(c)];
      RunOneMore(attempts, w, [], trace[0]);
      assert [] + trace == trace;
      if !claimed {
        result, trace := ResolveExistingMessage(c, reached, w, trace);
        return;
      }
      CreateMessage(c, id, fails);
      RunOneMore(attempts, w, trace, if fails then Fail(c) else Create(c, id));
      trace := trace + [if fails then Fail(c) else Create(c, id)];
      if fails {
        ReleaseRequestId(c, settles);
        RunOneMore(attempts, w, trace, Release(c, settles));
        trace := trace + [Release(c, settles)];
        result := None;
      } else {
        StoreRequestIdMessage(c, id, settles);
        RunOneMore(attempts, w, trace, Store(c, settles));
        trace := trace + [Store(c, settles)];
        result := Some(id);
      }
    }
  }

  lemma NothingHappened(attempts: nat, w: World)
    ensures Run(attempts, w, []) == Some(w)
  {}
}
