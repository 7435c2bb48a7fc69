/** One routing pass over a queue: waiting rooms, oldest first, to the least loaded
    online agents below their limits. */
module QueueRouting {
  import opened Arithmetic
  import opened Listings
  import opened Options

  /** `limit` is the agent's own limit or the sector's. `elsewhere` counts the agent's
      active rooms in other queues of the sector. Two queries count rooms the agent has
      ended: `endedToday` by date, for the load, and `closedToday` by time, for ties. */
  datatype Agent = Agent(online: bool, limit: nat, elsewhere: nat, endedToday: nat, closedToday: nat)

  /** A room of the queue; `user` is the index of the agent it is assigned to. */
  datatype Room = Room(isActive: bool, user: Option<nat>, addedToQueueAt: Option<int>, createdOn: int)

  /** Whether load counts the rooms closed today (the "general" option), and whether the
      fewest rooms closed today break ties. */
  datatype Policy = Policy(general: bool, leastClosed: bool)

  // ---- Loads and limits ----

  predicate AssignedTo(r: Room, a: nat) {
    r.isActive && r.user == Some(a)
  }

  /** How many active rooms of the queue agent `a` has. */
  function Assigned(rooms: seq<Room>, a: nat): nat {
    if rooms == [] then 0
    else (if AssignedTo(rooms[|rooms| - 1], a) then 1 else 0) + Assigned(rooms[..|rooms| - 1], a)
  }

  function ActiveRooms(rooms: seq<Room>, agents: seq<Agent>, a: nat): nat
    requires a < |agents|
  {
    agents[a].elsewhere + Assigned(rooms, a)
  }

  predicate Available(rooms: seq<Room>, agents: seq<Agent>, a: nat) {
    a < |agents| && agents[a].online && ActiveRooms(rooms, agents, a) < agents[a].limit
  }

  /** How many more rooms agent `a` can take. */
  function Spare(rooms: seq<Room>, agents: seq<Agent>, a: nat): nat
    requires a < |agents|
  {
    if Available(rooms, agents, a) then agents[a].limit - ActiveRooms(rooms, agents, a) else 0
  }

  /** How many rooms the first `n` agents can take together. */
  function Capacity(rooms: seq<Room>, agents: seq<Agent>, n: nat): nat
    requires n <= |agents|
  {
    if n == 0 then 0 else Capacity(rooms, agents, n - 1) + Spare(rooms, agents, n - 1)
  }

  /** The field that the routing option compares. */
  function Load(opts: Policy, rooms: seq<Room>, agents: seq<Agent>, a: nat): nat {
    if a < |agents| then
      ActiveRooms(rooms, agents, a) + (if opts.general then agents[a].endedToday else 0)
    else 0
  }

  // ---- The queue ----

  predicate IsWaiting(r: Room) {
    r.isActive && r.user.None?
  }

  function Waiting(rooms: seq<Room>): set<nat> {
    set i: nat | i < |rooms| && IsWaiting(rooms[i])
  }

  /** `Coalesce("added_to_queue_at", "created_on")` */
  function QueueDate(r: Room): int {
    if r.addedToQueueAt.Some? then r.addedToQueueAt.value else r.createdOn
  }

  predicate Distinct(q: seq<nat>) {
    forall i, j | 0 <= i < j < |q| :: q[i] != q[j]
  }

  /** `q` holds the waiting rooms, each once, oldest first; ties come in any order. */
  ghost predicate IsQueue(rooms: seq<Room>, q: seq<nat>) {
    && Distinct(q)
    && (forall r: nat :: r in q <==> r in Waiting(rooms))
    && (forall i, j | 0 <= i < j < |q| && q[i] < |rooms| && q[j] < |rooms| ::
          QueueDate(rooms[q[i]]) <= QueueDate(rooms[q[j]]))
  }

  // ---- Facts about counting ----

  lemma {:induction false} AssignCounts(rooms: seq<Room>, r: nat, a: nat, b: nat)
    requires r < |rooms| && IsWaiting(rooms[r])
    ensures var after := rooms[r := rooms[r].(user := Some(a))];
            Assigned(after, b) == Assigned(rooms, b) + if a == b then 1 else 0
  {
    var after := rooms[r := rooms[r].(user := Some(a))];
    var n := |rooms| - 1;
    if r == n {
      assert after[..n] == rooms[..n];
    } else {
      assert after[..n] == rooms[..n][r := rooms[r].(user := Some(a))];
      AssignCounts(rooms[..n], r, a, b);
    }
  }

  lemma {:induction false} AssignUsesCapacity(rooms: seq<Room>, agents: seq<Agent>, r: nat, a: nat, n: nat)
    requires r < |rooms| && IsWaiting(rooms[r]) && Available(rooms, agents, a) && n <= |agents|
    ensures var after := rooms[r := rooms[r].(user := Some(a))];
            Capacity(rooms, agents, n) == Capacity(after, agents, n) + if a < n then 1 else 0
  {
    if n > 0 {
      AssignUsesCapacity(rooms, agents, r, a, n - 1);
      AssignCounts(rooms, r, a, n - 1);
    }
  }

  lemma {:induction false} NoCapacityLeft(rooms: seq<Room>, agents: seq<Agent>, n: nat)
    requires n <= |agents| && forall a: nat :: !Available(rooms, agents, a)
    ensures Capacity(rooms, agents, n) == 0
  {
    if n > 0 { NoCapacityLeft(rooms, agents, n - 1); }
  }

  ghost predicate IsMin(t: set<nat>, f: nat -> nat, a: nat) {
    a in t && forall b | b in t :: f(a) <= f(b)
  }

  lemma {:induction false} MinExists(t: set<nat>, f: nat -> nat)
    requires t != {}
    ensures exists a :: IsMin(t, f, a)
  {
    var c :| c in t;
    if t == {c} {
      assert IsMin(t, f, c);
    } else {
      MinExists(t - {c}, f);
      var a :| IsMin(t - {c}, f, a);
      assert forall b | b in t :: b == c || b in t - {c};
      assert IsMin(t, f, if f(c) <= f(a) then c else a);
    }
  }

  /** `[x for x in t if f(x) == min(f(y) for y in t)]` */
  method LeastOf(t: set<nat>, f: nat -> nat) returns (least: set<nat>)
    requires t != {}
    ensures least != {} && least <= t
    ensures forall a :: a in least <==> IsMin(t, f, a)
  {
    least := set a | a in t && forall b | b in t :: f(a) <= f(b);
    MinExists(t, f);
    ghost var m :| IsMin(t, f, m);
    assert m in least;
  }

  // ---- What a pass keeps ----

  /** The first `k` rooms of the queue went to online agents, all others are as before. */
  ghost predicate Routed(agents: seq<Agent>, before: seq<Room>, after: seq<Room>, q: seq<nat>, k: nat) {
    && |after| == |before|
    && k <= |q|
    && (forall i | 0 <= i < k && q[i] < |before| ::
          && after[q[i]].user.Some? && after[q[i]].user.value < |agents|
          && agents[after[q[i]].user.value].online
          && after[q[i]] == before[q[i]].(user := after[q[i]].user))
    && (forall r | 0 <= r < |before| && r !in q[..k] :: after[r] == before[r])
  }

  /** Nobody loses a room, and nobody is taken above the limit. */
  ghost predicate WithinLimits(agents: seq<Agent>, before: seq<Room>, after: seq<Room>) {
    forall a: nat | a < |agents| ::
      var had, has := ActiveRooms(before, agents, a), ActiveRooms(after, agents, a);
      had <= has && (has <= agents[a].limit || has == had)
  }

  /** An agent that got a room is at most one room ahead of everyone who could still
      take one. */
  ghost predicate Balanced(opts: Policy, agents: seq<Agent>, before: seq<Room>, after: seq<Room>) {
    forall a: nat, b: nat | a < |agents| && Available(after, agents, b) && Assigned(before, a) < Assigned(after, a) ::
      Load(opts, after, agents, a) <= Load(opts, after, agents, b) + 1
  }

  /** `after` gives one more room to agent `a` than `sofar`, and to nobody else. */
  ghost predicate OneMoreFor(sofar: seq<Room>, after: seq<Room>, a: nat) {
    forall b: nat :: Assigned(after, b) == Assigned(sofar, b) + if a == b then 1 else 0
  }

  lemma AssignKeepsRouted(agents: seq<Agent>, before: seq<Room>, sofar: seq<Room>, q: seq<nat>, k: nat, a: nat)
    requires IsQueue(before, q) && Routed(agents, before, sofar, q, k) && k < |q|
    requires a < |agents| && agents[a].online
    ensures q[k] < |before| && IsWaiting(sofar[q[k]])
    ensures Routed(agents, before, sofar[q[k] := sofar[q[k]].(user := Some(a))], q, k + 1)
  {
    var r := q[k];
    assert r in Waiting(before);
    assert r !in q[..k];
    var after := sofar[r := sofar[r].(user := Some(a))];
    assert q[..k + 1] == q[..k] + [r];
    forall x | 0 <= x < |before| && x !in q[..k + 1] ensures after[x] == before[x] {
      assert x != r && x !in q[..k];
    }
  }

  lemma OneMoreKeepsLimits(agents: seq<Agent>, before: seq<Room>, sofar: seq<Room>, after: seq<Room>, a: nat)
    requires WithinLimits(agents, before, sofar) && Available(sofar, agents, a) && OneMoreFor(sofar, after, a)
    ensures WithinLimits(agents, before, after)
  {}

  lemma OneMoreKeepsBalance(opts: Policy, agents: seq<Agent>, before: seq<Room>, sofar: seq<Room>, after: seq<Room>, a: nat)
    requires Balanced(opts, agents, before, sofar) && Available(sofar, agents, a) && OneMoreFor(sofar, after, a)
    requires WithinLimits(agents, before, sofar)
    requires forall b: nat | Available(sofar, agents, b) :: Load(opts, sofar, agents, a) <= Load(opts, sofar, agents, b)
    ensures Balanced(opts, agents, before, after)
  {
    forall c: nat, b: nat | c < |agents| && Available(after, agents, b) && Assigned(before, c) < Assigned(after, c)
      ensures Load(opts, after, agents, c) <= Load(opts, after, agents, b) + 1
    {
      assert Available(sofar, agents, b);
    }
  }

  // ---- No other assignment does better ----

  /** How many active rooms the first `n` agents have together. */
  function Taken(rooms: seq<Room>, n: nat): nat {
    if rooms == [] then 0
    else
      var r := rooms[|rooms| - 1];
      (if r.isActive && r.user.Some? && r.user.value < n then 1 else 0) + Taken(rooms[..|rooms| - 1], n)
  }

  lemma {:induction false} TakenGrows(rooms: seq<Room>, n: nat)
    ensures Taken(rooms, n + 1) == Taken(rooms, n) + Assigned(rooms, n)
  {
    if rooms != [] { TakenGrows(rooms[..|rooms| - 1], n); }
  }

  lemma {:induction false} NobodyTakes(rooms: seq<Room>)
    ensures Taken(rooms, 0) == 0
  {
    if rooms != [] { NobodyTakes(rooms[..|rooms| - 1]); }
  }

  /** `after` comes from `before` by giving waiting rooms to online agents. */
  ghost predicate Assigns(agents: seq<Agent>, before: seq<Room>, after: seq<Room>) {
    && |after| == |before|
    && forall r | 0 <= r < |before| ::
         || after[r] == before[r]
         || (IsWaiting(before[r]) && after[r] == before[r].(user := after[r].user)
             && (after[r].user.Some? ==> after[r].user.value < |agents| && agents[after[r].user.value].online))
  }

  lemma {:induction false} OfflineGetNothing(agents: seq<Agent>, before: seq<Room>, after: seq<Room>, a: nat)
    requires Assigns(agents, before, after) && a < |agents|
    ensures Assigned(before, a) <= Assigned(after, a)
    ensures !agents[a].online ==> Assigned(after, a) == Assigned(before, a)
  {
    if before != [] {
      var n := |before| - 1;
      assert before[..n][..] == before[..n];
      OfflineGetNothing(agents, before[..n], after[..n], a);
    }
  }

  lemma {:induction false} GainIsWithinCapacity(agents: seq<Agent>, before: seq<Room>, after: seq<Room>, n: nat)
    requires Assigns(agents, before, after) && WithinLimits(agents, before, after) && n <= |agents|
    ensures Taken(after, n) <= Taken(before, n) + Capacity(before, agents, n)
  {
    if n == 0 {
      NobodyTakes(after);
    } else {
      GainIsWithinCapacity(agents, before, after, n - 1);
      TakenGrows(before, n - 1);
      TakenGrows(after, n - 1);
      OfflineGetNothing(agents, before, after, n - 1);
    }
  }

  lemma WaitingOfPrefix(rooms: seq<Room>)
    requires rooms != []
    ensures var n := |rooms| - 1;
            Waiting(rooms) == Waiting(rooms[..n]) + if IsWaiting(rooms[n]) then {n} else {}
  {}

  lemma {:induction false} GainIsWithinQueue(agents: seq<Agent>, before: seq<Room>, after: seq<Room>, k: nat)
    requires Assigns(agents, before, after)
    ensures Taken(after, k) <= Taken(before, k) + |Waiting(before)|
  {
    if before != [] {
      var n := |before| - 1;
      GainIsWithinQueue(agents, before[..n], after[..n], k);
      WaitingOfPrefix(before);
    }
  }

  /** No assignment within the limits places more rooms than a pass does. */
  lemma NoAssignmentPlacesMore(agents: seq<Agent>, before: seq<Room>, after: seq<Room>)
    requires Assigns(agents, before, after) && WithinLimits(agents, before, after)
    ensures Taken(after, |agents|) <=
            Taken(before, |agents|) + Min(|Waiting(before)|, Capacity(before, agents, |agents|))
  {
    GainIsWithinCapacity(agents, before, after, |agents|);
    GainIsWithinQueue(agents, before, after, |agents|);
  }

  lemma {:induction false} DistinctLength(q: seq<nat>, t: set<nat>)
    requires Distinct(q) && forall r: nat :: r in q <==> r in t
    ensures |q| == |t|
  {
    if q == [] {
      assert t == {} by { assert forall r :: r !in t; }
    } else {
      var n := |q| - 1;
      assert q == q[..n] + [q[n]];
      assert forall r: nat :: r in q[..n] <==> r in t - {q[n]};
      DistinctLength(q[..n], t - {q[n]});
    }
  }

  /** A room still waiting after a pass is no older than any room the pass assigned. */
  lemma PassIsFifo(agents: seq<Agent>, before: seq<Room>, after: seq<Room>, q: seq<nat>, k: nat, r: nat, w: nat)
    requires IsQueue(before, q) && Routed(agents, before, after, q, k)
    requires r < |before| && w < |before| && IsWaiting(before[r]) && IsWaiting(before[w])
    requires after[r].user.Some? && after[w].user.None?
    ensures QueueDate(before[r]) <= QueueDate(before[w])
  {
    assert r in Waiting(before) && w in Waiting(before);
    assert r in q[..k];
    var i :| 0 <= i < k && q[i] == r;
    var j :| 0 <= j < |q| && q[j] == w;
    assert k <= j;
  }

  class QueueRouter {
    const agents: seq<Agent>
    const opts: Policy
    var rooms: seq<Room>

    constructor (agents: seq<Agent>, opts: Policy, rooms: seq<Room>)
      ensures this.agents == agents && this.opts == opts && this.rooms == rooms
    {
      this.agents, this.opts, this.rooms := agents, opts, rooms;
    }

    method GetRoomsToRoute() returns (q: seq<nat>)
      ensures IsQueue(rooms, q)
    {
      var rs := rooms;
      var older := (i: nat, j: nat) =>
        i < |rs| && j < |rs| &&
        (QueueDate(rs[i]) < QueueDate(rs[j]) || (QueueDate(rs[i]) == QueueDate(rs[j]) && i < j));
      assert TotalOn(older, Waiting(rs));
      ListingLists(older, Waiting(rs));
      q := Listing(older, Waiting(rs));
      assert forall r: nat :: r in q <==> r in Elements(q);
      assert forall i, j | 0 <= i < j < |q| :: older(q[i], q[j]);
    }

    /** An available agent of least load; ties by fewest rooms closed today when that is
        enabled; what ties remain are broken at random. */
    method GetAvailableAgent() returns (agent: Option<nat>)
      ensures agent.None? <==> forall a: nat :: !Available(rooms, agents, a)
      ensures agent.Some? ==>
        && Available(rooms, agents, agent.value)
        && (forall b: nat | Available(rooms, agents, b) ::
              Load(opts, rooms, agents, agent.value) <= Load(opts, rooms, agents, b))
        && (opts.leastClosed ==> forall b: nat |
              && Available(rooms, agents, b)
              && Load(opts, rooms, agents, b) == Load(opts, rooms, agents, agent.value) ::
              agents[agent.value].closedToday <= agents[b].closedToday)
    {
      var rs, all, o := rooms, agents, opts;
      var available := set a: nat | a < |all| && Available(rs, all, a);
      assert forall a: nat :: Available(rs, all, a) <==> a in available;
      if available == {} {
        return None;
      }
      var load := (a: nat) => Load(o, rs, all, a);
      var eligible := LeastOf(available, load);
      ghost var tied := eligible;
      if o.leastClosed {
        var closed := (a: nat) => if a < |all| then all[a].closedToday else 0;
        eligible := LeastOf(eligible, closed);
      }
      var chosen :| chosen in eligible;
      assert IsMin(available, load, chosen);
      forall b | b in available && load(b) == load(chosen) ensures b in tied {
        assert IsMin(available, load, b);
      }
      agent := Some(chosen);
    }

    /** The pass. `q` is the order the rooms were taken in. Nothing interferes with it, so the
        checks for a room already routed, an agent gone offline or full never fire. */
    method RouteRooms() returns (ghost q: seq<nat>, routed: nat)
      modifies this
      ensures IsQueue(old(rooms), q)
      ensures routed == Min(|Waiting(old(rooms))|, Capacity(old(rooms), agents, |agents|))
      ensures Routed(agents, old(rooms), rooms, q, routed)
      ensures WithinLimits(agents, old(rooms), rooms)
      ensures Balanced(opts, agents, old(rooms), rooms)
    {
      ghost var before := rooms;
      var queue := GetRoomsToRoute();
      q, routed := queue, 0;
      DistinctLength(q, Waiting(rooms));
      while routed < |queue|
        invariant routed <= |queue|
        invariant Routed(agents, before, rooms, q, routed)
        invariant WithinLimits(agents, before, rooms) && Balanced(opts, agents, before, rooms)
        invariant Capacity(before, agents, |agents|) == routed + Capacity(rooms, agents, |agents|)
      {
        var agent := GetAvailableAgent();
        if agent.None? {
          NoCapacityLeft(rooms, agents, |agents|);
          break;
        }
        ghost var sofar := rooms;
        AssignKeepsRouted(agents, before, sofar, q, routed, agent.value);
        AssignUsesCapacity(rooms, agents, queue[routed], agent.value, |agents|);
        rooms := rooms[queue[routed] := rooms[queue[routed]].(user := agent)];
        forall b: nat ensures Assigned(rooms, b) == Assigned(sofar, b) + if agent.value == b then 1 else 0 {
          AssignCounts(sofar, queue[routed], agent.value, b);
        }
        OneMoreKeepsLimits(agents, before, sofar, rooms, agent.value);
        OneMoreKeepsBalance(opts, agents, before, sofar, rooms, agent.value);
        routed := routed + 1;
      }
    }
  }
}
