/** The queue times of a room that routing and requeueing move, and the waiting metric
    that sums them. Times are in microseconds. */
module RoomWaiting {
  import opened Options

  const SECOND := 1000000

  type Agent = string

  /** `Route` assigns the room at `now` and takes the metric at `measured`. */
  datatype Event = Route(agent: Agent, now: int, measured: int) | Requeue(now: int)

  datatype Stint = Stint(start: int, end: int)
  {
    function Length(): int {
      end - start
    }

    /** Whole seconds, cut off as the metric does. */
    function Seconds(): int {
      if start <= end then (end - start) / SECOND else -((start - end) / SECOND)
    }
  }

  // ---- What happened, read off the events ----

  function End(e: Event): int {
    match e case Route(_, _, measured) => measured case Requeue(now) => now
  }

  /** When everything so far was over. */
  function Latest(created: int, events: seq<Event>): int {
    if events == [] then created else End(events[|events| - 1])
  }

  /** Nothing moves the room between an assignment and its metric. */
  predicate InTime(created: int, events: seq<Event>) {
    forall k | 0 <= k < |events| ::
      && Latest(created, events[..k]) <= events[k].now
      && (events[k].Route? ==> events[k].now <= events[k].measured)
  }

  /** Since when the room has been queued: since the creation without an agent, or since
      it was requeued. */
  function QueuedSince(created: int, agent: Option<Agent>, events: seq<Event>): Option<int> {
    if events == [] then if agent.Some? then None else Some(created)
    else
      var before := QueuedSince(created, agent, events[..|events| - 1]);
      match events[|events| - 1]
      case Route(_, _, _) => None
      case Requeue(now) => if before.Some? then before else Some(now)
  }

  /** The stints in the queue that a routing pass ended. */
  function Stints(created: int, agent: Option<Agent>, events: seq<Event>): seq<Stint> {
    if events == [] then []
    else
      var before := events[..|events| - 1];
      var since := QueuedSince(created, agent, before);
      var e := events[|events| - 1];
      Stints(created, agent, before) + if e.Route? && since.Some? then [Stint(since.value, e.measured)] else []
  }

  /** When the room first had an agent. */
  function FirstAssigned(created: int, agent: Option<Agent>, events: seq<Event>): Option<int> {
    if events == [] then if agent.Some? then Some(created) else None
    else
      var before := FirstAssigned(created, agent, events[..|events| - 1]);
      var e := events[|events| - 1];
      if before.None? && e.Route? then Some(e.now) else before
  }

  function TotalSeconds(stints: seq<Stint>): int {
    if stints == [] then 0 else TotalSeconds(stints[..|stints| - 1]) + stints[|stints| - 1].Seconds()
  }

  function TotalLength(stints: seq<Stint>): int {
    if stints == [] then 0 else TotalLength(stints[..|stints| - 1]) + stints[|stints| - 1].Length()
  }

  /** Each stint ends before the next begins, all within the given time. */
  ghost predicate Disjoint(stints: seq<Stint>, from: int, to: int) {
    && (forall i | 0 <= i < |stints| :: from <= stints[i].start <= stints[i].end <= to)
    && (forall i, j | 0 <= i < j < |stints| :: stints[i].end <= stints[j].start)
  }

  lemma {:induction false} LatestAdvances(created: int, events: seq<Event>)
    requires InTime(created, events)
    ensures created <= Latest(created, events)
  {
    if events != [] {
      var n := |events| - 1;
      InTimeBefore(created, events);
      LatestAdvances(created, events[..n]);
    }
  }

  lemma InTimeBefore(created: int, events: seq<Event>)
    requires InTime(created, events) && events != []
    ensures var n := |events| - 1;
            && InTime(created, events[..n])
            && Latest(created, events[..n]) <= events[n].now <= Latest(created, events)
  {
    var n := |events| - 1;
    forall k | 0 <= k < n ensures Latest(created, events[..n][..k]) <= events[..n][k].now {
      assert events[..n][..k] == events[..k];
    }
  }

  /** The stints are disjoint, and the room has been in the queue since after the last. */
  lemma {:induction false} StintsAreDisjoint(created: int, agent: Option<Agent>, events: seq<Event>)
    requires InTime(created, events)
    ensures Disjoint(Stints(created, agent, events), created, Latest(created, events))
    ensures var since := QueuedSince(created, agent, events);
            since.Some? ==>
              && created <= since.value <= Latest(created, events)
              && forall s | s in Stints(created, agent, events) :: s.end <= since.value
  {
    if events != [] {
      var n := |events| - 1;
      InTimeBefore(created, events);
      LatestAdvances(created, events[..n]);
      StintsAreDisjoint(created, agent, events[..n]);
      var before := Stints(created, agent, events[..n]);
      assert forall i | 0 <= i < |before| :: before[i] in before;
    }
  }

  lemma {:induction false} TotalsAreBounded(stints: seq<Stint>, from: int, to: int)
    requires Disjoint(stints, from, to) && from <= to
    ensures 0 <= TotalSeconds(stints) * SECOND <= TotalLength(stints) <= to - from
  {
    if stints != [] {
      var n := |stints| - 1;
      var last := stints[n];
      TotalsAreBounded(stints[..n], from, last.start);
      assert last.Seconds() == last.Length() / SECOND;
    }
  }

  /** The whole seconds of all stints together never exceed the room's age. */
  lemma WaitingWithinAge(created: int, agent: Option<Agent>, events: seq<Event>)
    requires InTime(created, events)
    ensures var stints := Stints(created, agent, events);
            0 <= TotalSeconds(stints) * SECOND <= TotalLength(stints) <= Latest(created, events) - created
  {
    LatestAdvances(created, events);
    StintsAreDisjoint(created, agent, events);
    TotalsAreBounded(Stints(created, agent, events), created, Latest(created, events));
  }

  /** Once the room has had an agent, the time of the first stays. */
  lemma {:induction false} FirstAssignedStays(created: int, agent: Option<Agent>, events: seq<Event>, k: nat)
    requires k <= |events| && FirstAssigned(created, agent, events[..k]).Some?
    ensures FirstAssigned(created, agent, events) == FirstAssigned(created, agent, events[..k])
  {
    if k == |events| {
      assert events[..k] == events;
    } else {
      var n := |events| - 1;
      assert events[..n][..k] == events[..k];
      FirstAssignedStays(created, agent, events[..n], k);
    }
  }

  // ---- The room ----

  class Room {
    var user: Option<Agent>
    var userAssignedAt: Option<int>
    var firstUserAssignedAt: Option<int>
    var addedToQueueAt: Option<int>
    var waitingTime: int
    var queuedCount: nat

    /** The first save of a new room. */
    constructor (agent: Option<Agent>, now: int)
      ensures user == agent && addedToQueueAt == Some(now)
      ensures userAssignedAt == firstUserAssignedAt == if agent.Some? then Some(now) else None
      ensures waitingTime == 0 && queuedCount == 0
    {
      user, addedToQueueAt := agent, Some(now);
      userAssignedAt := if agent.Some? then Some(now) else None;
      firstUserAssignedAt := userAssignedAt;
      waitingTime, queuedCount := 0, 0;
    }

    /** Saves an open room whose user was `before` when it was loaded. */
    method Save(before: Option<Agent>, now: int)
      modifies this
      ensures user == old(user) && waitingTime == old(waitingTime) && queuedCount == old(queuedCount)
      ensures addedToQueueAt == if before.Some? && user.None? then Some(now) else old(addedToQueueAt)
      ensures userAssignedAt ==
              if user != before || (user.Some? && old(userAssignedAt).None?) then Some(now) else old(userAssignedAt)
      ensures firstUserAssignedAt ==
              if old(firstUserAssignedAt).Some? || user.None? then old(firstUserAssignedAt) else userAssignedAt
    {
      var userHasChanged := user != before;
      if (user.Some? && userAssignedAt.None?) || userHasChanged {
        userAssignedAt := Some(now);
      }
      if user.Some? && firstUserAssignedAt.None? {
        firstUserAssignedAt := if userAssignedAt.Some? then userAssignedAt else Some(now);
      }
      if userHasChanged && user.None? {
        addedToQueueAt := Some(now);
      }
    }

    function LastQueueWaitingTime(endTime: int): int
      reads this
    {
      if addedToQueueAt.None? then 0 else Stint(addedToQueueAt.value, endTime).Seconds()
    }

    /** A routing pass takes only rooms without an agent. */
    method Route(agent: Agent, now: int, measured: int)
      modifies this
      ensures user == if old(user).None? then Some(agent) else old(user)
      ensures addedToQueueAt == old(addedToQueueAt)
      ensures firstUserAssignedAt ==
              if old(user).None? && old(firstUserAssignedAt).None? then Some(now) else old(firstUserAssignedAt)
      ensures waitingTime == old(waitingTime) + if old(user).None? then old(LastQueueWaitingTime(measured)) else 0
      ensures queuedCount == old(queuedCount) + if old(user).None? then 1 else 0
    {
      if user.Some? {
        return;
      }
      user := Some(agent);
      Save(None, now);
      waitingTime := waitingTime + LastQueueWaitingTime(measured);
      queuedCount := queuedCount + 1;
    }

    /** The agent lost access: the room goes back to its queue. */
    method Requeue(now: int)
      modifies this
      ensures user == None && waitingTime == old(waitingTime) && queuedCount == old(queuedCount)
      ensures addedToQueueAt == if old(user).Some? then Some(now) else old(addedToQueueAt)
      ensures firstUserAssignedAt == old(firstUserAssignedAt)
    {
      var oldUser := user;
      if oldUser.None? {
        return;
      }
      user := None;
      Save(oldUser, now);
    }

    /** Over any run from the creation, the metric is the sum of the whole seconds of the
        stints, and their number. */
    method Live(created: int, agent: Option<Agent>, events: seq<Event>)
      requires user == agent && addedToQueueAt == Some(created) && waitingTime == 0 && queuedCount == 0
      requires firstUserAssignedAt == if agent.Some? then Some(created) else None
      requires InTime(created, events)
      modifies this
      ensures waitingTime == TotalSeconds(Stints(created, agent, events))
      ensures queuedCount == |Stints(created, agent, events)|
      ensures firstUserAssignedAt == FirstAssigned(created, agent, events)
      ensures 0 <= waitingTime * SECOND <= Latest(created, events) - created
    {
      for k := 0 to |events|
        invariant waitingTime == TotalSeconds(Stints(created, agent, events[..k]))
        invariant queuedCount == |Stints(created, agent, events[..k])|
        invariant firstUserAssignedAt == FirstAssigned(created, agent, events[..k])
        invariant user.None? <==> QueuedSince(created, agent, events[..k]).Some?
        invariant user.None? ==> addedToQueueAt == QueuedSince(created, agent, events[..k])
        invariant user.Some? ==> firstUserAssignedAt.Some?
      {
        assert events[..k + 1][..k] == events[..k];
        OneMoreStint(created, agent, events, k);
        match events[k] {
          case Route(a, now, measured) => Route(a, now, measured);
          case Requeue(now) => Requeue(now);
        }
      }
      assert events[..|events|] == events;
      WaitingWithinAge(created, agent, events);
    }
  }

  lemma OneMoreStint(created: int, agent: Option<Agent>, events: seq<Event>, k: nat)
    requires k < |events|
    ensures var before := Stints(created, agent, events[..k]);
            var since := QueuedSince(created, agent, events[..k]);
            var stints := Stints(created, agent, events[..k + 1]);
            if events[k].Route? && since.Some? then
              var s := Stint(since.value, events[k].measured);
              |stints| == |before| + 1 && TotalSeconds(stints) == TotalSeconds(before) + s.Seconds()
            else stints == before
  {
    assert events[..k + 1][..k] == events[..k];
    var before, stints := Stints(created, agent, events[..k]), Stints(created, agent, events[..k + 1]);
    if stints != before {
      assert stints[..|before|] == before;
    }
  }
}
