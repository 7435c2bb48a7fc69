/** The average response time of a room: each agent turn is timed from the last contact
    message before it, or from the room's creation. Times are in microseconds. */
module ResponseTimes {
  const SECOND := 1000000

  datatype Message = Message(at: int, byContact: bool, byUser: bool)

  /** A message of the contact counts as such even when it names a user. */
  predicate Agent(m: Message) {
    m.byUser && !m.byContact
  }

  predicate Ordered(q: seq<Message>) {
    forall i, j | 0 <= i < j < |q| :: q[i].at <= q[j].at
  }

  predicate Relevant(m: Message, created: int) {
    (m.byUser || m.byContact) && created <= m.at
  }

  /** The query: messages of users and contacts since the room's creation, in order. */
  function Selected(q: seq<Message>, created: int): (r: seq<Message>)
    requires Ordered(q)
    ensures Ordered(r) && forall m :: m in r <==> m in q && Relevant(m, created)
  {
    if q == [] then []
    else
      var rest := Selected(q[1..], created);
      assert forall m | m in rest :: m in q[1..] && q[0].at <= m.at;
      if Relevant(q[0], created) then [q[0]] + rest else rest
  }

  // ---- Which messages answer ----

  /** Message `i` is the agent's first after a contact turn, or after the creation: a
      contact message separates it from every earlier agent message. */
  predicate Answers(q: seq<Message>, i: nat)
    requires i < |q|
  {
    Agent(q[i]) && forall j | 0 <= j < i && Agent(q[j]) :: exists c | j < c < i :: q[c].byContact
  }

  /** When the wait that message `i` may end began. */
  function Waiting(q: seq<Message>, created: int, i: nat): int
    requires i <= |q|
  {
    if i == 0 then created
    else if q[i - 1].byContact then q[i - 1].at
    else Waiting(q, created, i - 1)
  }

  function Total(q: seq<Message>, created: int, n: nat): int
    requires n <= |q|
  {
    if n == 0 then 0
    else Total(q, created, n - 1) + if Answers(q, n - 1) then q[n - 1].at - Waiting(q, created, n - 1) else 0
  }

  function Count(q: seq<Message>, n: nat): nat
    requires n <= |q|
  {
    if n == 0 then 0 else Count(q, n - 1) + if Answers(q, n - 1) then 1 else 0
  }

  /** The last answer before `n`, or the creation. */
  function LastAnswer(q: seq<Message>, created: int, n: nat): int
    requires n <= |q|
  {
    if n == 0 then created
    else if Answers(q, n - 1) then q[n - 1].at
    else LastAnswer(q, created, n - 1)
  }

  // ---- The loop ----

  method CalculateResponseTime(created: int, all: seq<Message>) returns (seconds: int)
    requires Ordered(all)
    ensures var q := Selected(all, created);
            var count := Count(q, |q|);
            seconds == if count == 0 then 0 else Total(q, created, |q|) / (SECOND * count)
    ensures var q := Selected(all, created);
            0 <= seconds * Count(q, |q|) * SECOND <= LastAnswer(q, created, |q|) - created
  {
    hide Answers, Selected, Ordered, LastAnswer;
    var messages := Selected(all, created);
    var total, count := 0, 0;
    var lastTime, lastWasFromAgent := created, false;
    for i := 0 to |messages|
      invariant total == Total(messages, created, i) && count == Count(messages, i)
      invariant lastTime == Waiting(messages, created, i)
      invariant lastWasFromAgent <==> i > 0 && Agent(messages[i - 1])
    {
      var m := messages[i];
      assert Relevant(m, created);
      AnswersNextToContact(messages, i, created);
      if m.byContact {
        lastTime := m.at;
        lastWasFromAgent := false;
        continue;
      }
      if m.byUser {
        if lastWasFromAgent {
          continue;
        }
        lastWasFromAgent := true;
        total := total + (m.at - lastTime);
        count := count + 1;
      }
    }
    TotalIsBounded(messages, created, |messages|);
    if count == 0 {
      return 0;
    }
    AverageTimesCount(total, count);
    seconds := total / (SECOND * count);
  }

  lemma AverageTimesCount(total: int, count: int)
    requires 0 <= total && 0 < count
    ensures 0 <= total / (SECOND * count) * count * SECOND <= total
  {
    var q := total / (SECOND * count);
    QuotientTimesDivisor(total, SECOND * count);
    assert q * (SECOND * count) == q * count * SECOND;
  }

  lemma QuotientTimesDivisor(a: int, n: int)
    requires 0 <= a && 0 < n
    ensures 0 <= a / n && 0 <= a / n * n <= a
  {}

  /** Among messages of users and contacts, an agent message answers exactly when no
      agent message comes right before it. */
  lemma AnswersNextToContact(q: seq<Message>, i: nat, created: int)
    requires i < |q| && forall m | m in q :: Relevant(m, created)
    ensures Answers(q, i) <==> Agent(q[i]) && (i == 0 || !Agent(q[i - 1]))
  {
    if i > 0 && Agent(q[i]) {
      assert Relevant(q[i - 1], created);
    }
  }

  // ---- Disjoint waits ----

  /** The wait that `i` may end begins no earlier than any contact message before it. */
  lemma {:induction false} WaitingIsLatest(q: seq<Message>, created: int, i: nat, c: nat)
    requires Ordered(q) && c < i <= |q| && q[c].byContact
    ensures q[c].at <= Waiting(q, created, i)
  {
    if c < i - 1 && !q[i - 1].byContact {
      WaitingIsLatest(q, created, i - 1, c);
    }
  }

  lemma {:induction false} WaitingIsBounded(q: seq<Message>, created: int, i: nat)
    requires Ordered(q) && i <= |q| && forall m | m in q :: created <= m.at
    ensures created <= Waiting(q, created, i) && (i < |q| ==> Waiting(q, created, i) <= q[i].at)
  {
    if i > 0 {
      assert q[i - 1] in q;
      WaitingIsBounded(q, created, i - 1);
    }
  }

  /** The counted waits are pairwise disjoint: a later one begins when or after an
      earlier one has ended. */
  lemma WaitsAreDisjoint(q: seq<Message>, created: int, i: nat, k: nat)
    requires Ordered(q) && i < k < |q| && Answers(q, i) && Answers(q, k)
    ensures q[i].at <= Waiting(q, created, k)
  {
    var c :| i < c < k && q[c].byContact;
    WaitingIsLatest(q, created, k, c);
  }

  lemma {:induction false} WaitFollowsLastAnswer(q: seq<Message>, created: int, k: nat, n: nat)
    requires Ordered(q) && n <= k < |q| && Answers(q, k) && forall m | m in q :: created <= m.at
    ensures LastAnswer(q, created, n) <= Waiting(q, created, k)
  {
    if n == 0 {
      WaitingIsBounded(q, created, k);
    } else if Answers(q, n - 1) {
      WaitsAreDisjoint(q, created, n - 1, k);
    } else {
      WaitFollowsLastAnswer(q, created, k, n - 1);
    }
  }

  /** So together they fit between the creation and the last answer. */
  lemma {:induction false} TotalIsBounded(q: seq<Message>, created: int, n: nat)
    requires Ordered(q) && n <= |q| && forall m | m in q :: created <= m.at
    ensures 0 <= Total(q, created, n) <= LastAnswer(q, created, n) - created
  {
    if n > 0 {
      TotalIsBounded(q, created, n - 1);
      WaitingIsBounded(q, created, n - 1);
      if Answers(q, n - 1) {
        WaitFollowsLastAnswer(q, created, n - 1, n - 1);
      }
    }
  }
}
