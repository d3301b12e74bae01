/** Round-robin admission to one UART (fair_queue.py).

    Everything the source does while it holds the condition lock is one atomic step here: entering
    `turn`, one pass of its wait loop, leaving a turn, `close`. `condition.wait` lies between two
    passes, so any other steps may come there. The deadline test, the disconnection test and failing
    callbacks are inputs. Tickets are numbered in order of admission. */
module FairQueues {
  import opened Options
  import opened Sequences

  const CLIENTS: nat := 4

  datatype Counts = Counts(completed: nat, expired: nat, cancelled: nat, rejected: nat)

  datatype Grant = Grant(client: nat, ticket: nat)

  /** `locked` is the device lock; `grants` and the counters after it record what happened. */
  datatype Queue = Queue(
    perClient: int, capacity: int,
    waiting: seq<seq<nat>>, active: Option<nat>, last: nat, closed: bool, counts: Counts,
    locked: bool,
    grants: seq<Grant>, admitted: nat, removed: nat)

  function Total(waiting: seq<seq<nat>>): nat {
    if waiting == [] then 0 else |waiting[0]| + Total(waiting[1..])
  }

  predicate WellFormed(q: Queue) {
    |q.waiting| == CLIENTS && q.last < CLIENTS
  }

  /** `_next`: the first class with a waiting ticket, starting after the class served last. */
  function Next(q: Queue, offset: nat): (client: Option<nat>)
    requires WellFormed(q) && 1 <= offset <= CLIENTS + 1
    ensures client.Some? ==> client.value < CLIENTS && q.waiting[client.value] != []
    decreases CLIENTS + 1 - offset
  {
    if offset > CLIENTS then None
    else if q.waiting[(q.last + offset) % CLIENTS] != [] then Some((q.last + offset) % CLIENTS)
    else Next(q, offset + 1)
  }

  /** The test a waiting ticket must pass to take its turn, short of the device lock. */
  predicate Selected(q: Queue, client: nat, ticket: nat)
    requires WellFormed(q)
  {
    q.active.None? && Next(q, 1) == Some(client) && q.waiting[client][0] == ticket
  }

  function Without(tickets: seq<nat>, ticket: nat): seq<nat> {
    if tickets == [] then []
    else if tickets[0] == ticket then tickets[1..]
    else [tickets[0]] + Without(tickets[1..], ticket)
  }

  // ---------- The steps ----------

  datatype Entry = Refused | Full | Queued(ticket: nat)

  function Enter(q: Queue, client: nat): (r: (Queue, Entry))
    requires WellFormed(q) && client < CLIENTS
  {
    if q.closed || (q.active.None? && q.locked) then (q, Refused)
    else if |q.waiting[client]| >= q.perClient || Total(q.waiting) >= q.capacity then
      (q.(counts := q.counts.(rejected := q.counts.rejected + 1)), Full)
    else
      (q.(waiting := q.waiting[client := q.waiting[client] + [q.admitted]], admitted := q.admitted + 1),
       Queued(q.admitted))
  }

  /** What one pass of the wait loop finds before it looks at the queue. */
  datatype Look = Fine | CallbackFails | Expired | Disconnected

  datatype Pass = Waits | Leaves | Starts

  function Drop(q: Queue, client: nat, ticket: nat): Queue
    requires WellFormed(q) && client < CLIENTS
  {
    q.(waiting := q.waiting[client := Without(q.waiting[client], ticket)])
  }

  function Poll(q: Queue, client: nat, ticket: nat, look: Look): (r: (Queue, Pass))
    requires WellFormed(q) && client < CLIENTS && ticket in q.waiting[client]
  {
    if q.closed || look == CallbackFails then
      (Drop(q, client, ticket).(removed := q.removed + 1), Leaves)
    else if look == Expired then
      (Drop(q, client, ticket).(counts := q.counts.(expired := q.counts.expired + 1)), Leaves)
    else if look == Disconnected then
      (Drop(q, client, ticket).(counts := q.counts.(cancelled := q.counts.cancelled + 1)), Leaves)
    else if Selected(q, client, ticket) && !q.locked then
      (q.(waiting := q.waiting[client := q.waiting[client][1..]],
          active := Some(client), last := client, locked := true,
          grants := q.grants + [Grant(client, ticket)]), Starts)
    else (q, Waits)
  }

  function Leave(q: Queue): Queue
    requires q.active.Some?
  {
    q.(locked := false, active := None, counts := q.counts.(completed := q.counts.completed + 1))
  }

  datatype Step =
    | Entering(client: nat)
    | Polling(client: nat, ticket: nat, look: Look)
    | Leaving
    | Closing
    | Outside(locks: bool)  // someone takes or releases the device lock without a turn

  predicate Enabled(q: Queue, s: Step) {
    WellFormed(q) &&
    match s
    case Entering(client) => client < CLIENTS
    case Polling(client, ticket, _) => client < CLIENTS && ticket in q.waiting[client]
    case Leaving => q.active.Some?
    case Closing => true
    case Outside(locks) => if locks then !q.locked else q.locked && q.active.None?
  }

  function Do(q: Queue, s: Step): Queue
    requires Enabled(q, s)
  {
    match s
    case Entering(client) => Enter(q, client).0
    case Polling(client, ticket, look) => Poll(q, client, ticket, look).0
    case Leaving => Leave(q)
    case Closing => q.(closed := true)
    case Outside(locks) => q.(locked := locks)
  }

  predicate Grants(q: Queue, s: Step)
    requires Enabled(q, s)
  {
    s.Polling? && Poll(q, s.client, s.ticket, s.look).1 == Starts
  }

  // ---------- The source's object ----------

  class FairQueue {
    const perClient: int
    const capacity: int
    var waiting: seq<seq<nat>>
    var active: Option<nat>
    var last: nat
    var closed: bool
    var counts: Counts
    var locked: bool    // device_lock
    var tickets: nat    // object identities handed out
    ghost var grants: seq<Grant>
    ghost var removed: nat

    ghost function State(): Queue
      reads this
    {
      Queue(perClient, capacity, waiting, active, last, closed, counts, locked, grants, tickets, removed)
    }

    constructor (perClient: int, capacity: int)
      ensures State() == Queue(perClient, capacity, [[], [], [], []], None, CLIENTS - 1, false,
                               Counts(0, 0, 0, 0), false, [], 0, 0)
    {
      this.perClient, this.capacity := perClient, capacity;
      waiting, active, last, closed := [[], [], [], []], None, CLIENTS - 1, false;
      counts, locked, tickets := Counts(0, 0, 0, 0), false, 0;
      grants, removed := [], 0;
    }

    method NextClient() returns (client: Option<nat>)
      requires WellFormed(State())
      ensures client == Next(State(), 1)
    {
      var offset := 1;
      while offset < CLIENTS + 1
        invariant 1 <= offset <= CLIENTS + 1 && Next(State(), 1) == Next(State(), offset)
      {
        client := Some((last + offset) % CLIENTS);
        if waiting[client.value] != [] {
          return;
        }
        offset := offset + 1;
      }
      client := None;
    }

    method Pending() returns (n: nat)
      ensures n == Total(waiting)
    {
      n := 0;
      for i := 0 to |waiting|
        invariant n + Total(waiting[i..]) == Total(waiting)
      {
        assert waiting[i..][1..] == waiting[i + 1..];
        n := n + |waiting[i]|;
      }
    }

    /** `turn`, from taking the condition lock to joining the queue. */
    method EnterTurn(client: nat) returns (entry: Entry)
      requires WellFormed(State()) && client < CLIENTS
      modifies this
      ensures (State(), entry) == Enter(old(State()), client)
    {
      if closed {
        return Refused;
      }
      if active.None? && locked {
        return Refused;
      }
      var pending := Pending();
      if |waiting[client]| >= perClient || pending >= capacity {
        counts := counts.(rejected := counts.rejected + 1);
        return Full;
      }
      var ticket := tickets;
      tickets := tickets + 1;
      waiting := waiting[client := waiting[client] + [ticket]];
      return Queued(ticket);
    }

    /** One pass of the wait loop, with the `except` clause that takes a leaving ticket out. */
    method PollTurn(client: nat, ticket: nat, look: Look) returns (pass: Pass)
      requires WellFormed(State()) && client < CLIENTS && ticket in waiting[client]
      modifies this
      ensures (State(), pass) == Poll(old(State()), client, ticket, look)
    {
      if closed || look == CallbackFails {
        removed := removed + 1;
        RemoveTicket(client, ticket);
        return Leaves;
      }
      if look == Expired {
        counts := counts.(expired := counts.expired + 1);
        RemoveTicket(client, ticket);
        return Leaves;
      }
      if look == Disconnected {
        counts := counts.(cancelled := counts.cancelled + 1);
        RemoveTicket(client, ticket);
        return Leaves;
      }
      var next := NextClient();
      if active.None? && next == Some(client) && waiting[client][0] == ticket && !locked {
        locked := true;
        waiting := waiting[client := waiting[client][1..]];
        active := Some(client);
        last := client;
        grants := grants + [Grant(client, ticket)];
        return Starts;
      }
      return Waits;
    }

    method RemoveTicket(client: nat, ticket: nat)
      requires WellFormed(State()) && client < CLIENTS
      modifies this`waiting
      ensures waiting == old(waiting)[client := Without(old(waiting[client]), ticket)]
    {
      waiting := waiting[client := Without(waiting[client], ticket)];
    }

    /** The `finally` after the caller's transaction. */
    method LeaveTurn()
      requires active.Some?
      modifies this
      ensures State() == Leave(old(State()))
    {
      locked := false;
      active := None;
      counts := counts.(completed := counts.completed + 1);
    }

    /** `turn` without a request context: it takes the device lock if it is free, past every waiting ticket. */
    method EnterDirect() returns (ok: bool)
      requires WellFormed(State())
      modifies this
      ensures ok <==> Enabled(old(State()), Outside(true))
      ensures State() == if ok then Do(old(State()), Outside(true)) else old(State())
    {
      ok := !locked;
      if ok {
        locked := true;
      }
    }

    /** Its `finally`. */
    method LeaveDirect()
      requires Enabled(State(), Outside(false))
      modifies this
      ensures State() == Do(old(State()), Outside(false))
    {
      locked := false;
    }

    method Close()
      modifies this
      ensures State() == old(State()).(closed := true)
    {
      closed := true;
    }
  }

  // ---------- Safety, order and conservation ----------

  function Max0(n: int): nat {
    if n < 0 then 0 else n
  }

  /** Within a class tickets wait in order of admission; a ticket waits in one class only. */
  predicate Ordered(waiting: seq<seq<nat>>, admitted: nat) {
    && (forall c :: 0 <= c < |waiting| ==> Increasing(waiting[c]))
    && (forall c, x :: 0 <= c < |waiting| && x in waiting[c] ==> x < admitted)
    && (forall c, d, x :: 0 <= c < d < |waiting| && x in waiting[c] ==> x !in waiting[d])
  }

  /** First in, first out: a grant came before every ticket its class still holds and before its later grants. */
  predicate FirstInFirstOut(waiting: seq<seq<nat>>, grants: seq<Grant>) {
    && (forall i :: 0 <= i < |grants| ==> grants[i].client < |waiting|)
    && (forall i, x :: 0 <= i < |grants| && x in waiting[grants[i].client] ==> grants[i].ticket < x)
    && (forall i, j :: 0 <= i < j < |grants| && grants[i].client == grants[j].client ==>
          grants[i].ticket < grants[j].ticket)
  }

  predicate Limited(q: Queue) {
    && WellFormed(q)
    && (q.active.Some? ==> q.active.value < CLIENTS && q.locked)
    && (forall c :: 0 <= c < CLIENTS ==> |q.waiting[c]| <= Max0(q.perClient))
    && Total(q.waiting) <= Max0(q.capacity)
  }

  /** Every admitted ticket waits, is active, or left in exactly one of the five ways. */
  predicate Conserved(q: Queue) {
    && q.admitted == Total(q.waiting) + (if q.active.Some? then 1 else 0) + q.counts.completed
                     + q.counts.expired + q.counts.cancelled + q.removed
    && |q.grants| == (if q.active.Some? then 1 else 0) + q.counts.completed
  }

  predicate Invariant(q: Queue) {
    && Limited(q)
    && Conserved(q)
    && Ordered(q.waiting, q.admitted)
    && FirstInFirstOut(q.waiting, q.grants)
    && forall i :: 0 <= i < |q.grants| ==> q.grants[i].ticket < q.admitted
  }

  lemma {:induction false} TotalUpdate(waiting: seq<seq<nat>>, c: nat, tickets: seq<nat>)
    requires c < |waiting|
    ensures Total(waiting[c := tickets]) == Total(waiting) - |waiting[c]| + |tickets|
  {
    if c > 0 {
      TotalUpdate(waiting[1..], c - 1, tickets);
      assert waiting[c := tickets][1..] == waiting[1..][c - 1 := tickets];
    } else {
      assert waiting[c := tickets][1..] == waiting[1..];
    }
  }

  lemma {:induction false} WithoutAt(tickets: seq<nat>, k: nat)
    requires k < |tickets| && Increasing(tickets)
    ensures Without(tickets, tickets[k]) == tickets[..k] + tickets[k + 1..]
  {
    if k > 0 {
      WithoutAt(tickets[1..], k - 1);
    }
  }

  lemma WithoutCuts(tickets: seq<nat>, ticket: nat) returns (k: nat)
    requires Increasing(tickets) && ticket in tickets
    ensures k < |tickets| && tickets[k] == ticket
    ensures Without(tickets, ticket) == tickets[..k] + tickets[k + 1..]
    ensures |Without(tickets, ticket)| == |tickets| - 1
    ensures Increasing(Without(tickets, ticket))
    ensures forall x :: x in Without(tickets, ticket) ==> x in tickets
  {
    k :| 0 <= k < |tickets| && tickets[k] == ticket;
    WithoutAt(tickets, k);
  }

  lemma ShrinkKeepsOrder(waiting: seq<seq<nat>>, c: nat, fewer: seq<nat>, admitted: nat, grants: seq<Grant>)
    requires c < |waiting| && Ordered(waiting, admitted) && FirstInFirstOut(waiting, grants)
    requires Increasing(fewer) && forall x :: x in fewer ==> x in waiting[c]
    ensures Ordered(waiting[c := fewer], admitted) && FirstInFirstOut(waiting[c := fewer], grants)
  {}

  lemma GrowKeepsOrder(waiting: seq<seq<nat>>, c: nat, admitted: nat, grants: seq<Grant>)
    requires c < |waiting| && Ordered(waiting, admitted) && FirstInFirstOut(waiting, grants)
    requires forall i :: 0 <= i < |grants| ==> grants[i].ticket < admitted
    ensures var more := waiting[c := waiting[c] + [admitted]];
            Ordered(more, admitted + 1) && FirstInFirstOut(more, grants)
  {
    var more := waiting[c := waiting[c] + [admitted]];
    assert forall x :: x in more[c] <==> x in waiting[c] || x == admitted;
    forall i, j | 0 <= i < j < |more[c]| ensures more[c][i] < more[c][j] {
      assert more[c][i] in waiting[c];
    }
  }

  lemma GrantKeepsOrder(waiting: seq<seq<nat>>, c: nat, admitted: nat, grants: seq<Grant>)
    requires c < |waiting| && Ordered(waiting, admitted) && FirstInFirstOut(waiting, grants) && waiting[c] != []
    ensures FirstInFirstOut(waiting[c := waiting[c][1..]], grants + [Grant(c, waiting[c][0])])
  {
    var head, rest := waiting[c][0], waiting[c][1..];
    var waiting', grants' := waiting[c := rest], grants + [Grant(c, head)];
    assert waiting[c] == [head] + rest && Increasing(waiting[c]);
    forall x | x in rest ensures head < x {
      var k :| 0 <= k < |rest| && rest[k] == x;
      assert waiting[c][0] < waiting[c][k + 1];
    }
    assert head in waiting[c];
    forall i, x | 0 <= i < |grants'| && x in waiting'[grants'[i].client] ensures grants'[i].ticket < x {
      assert i < |grants| ==> x in waiting[grants[i].client];
    }
  }

  lemma DropKeepsInvariant(q: Queue, client: nat, ticket: nat, q': Queue)
    requires Invariant(q) && client < CLIENTS && ticket in q.waiting[client]
    requires q' == Drop(q, client, ticket).(counts := q'.counts, removed := q'.removed)
    requires q'.counts.completed == q.counts.completed
    requires q'.counts.expired + q'.counts.cancelled + q'.removed
          == q.counts.expired + q.counts.cancelled + q.removed + 1
    ensures Invariant(q')
  {
    var tickets := q.waiting[client];
    hide FirstInFirstOut, Without, Total, Limited;
    var k := WithoutCuts(tickets, ticket);
    ShrinkKeepsOrder(q.waiting, client, Without(tickets, ticket), q.admitted, q.grants);
    hide Ordered;
    TotalUpdate(q.waiting, client, Without(tickets, ticket));
    ShrinkKeepsLimits(q, client, Without(tickets, ticket), q');
  }

  lemma ShrinkKeepsLimits(q: Queue, client: nat, fewer: seq<nat>, q': Queue)
    requires Limited(q) && client < CLIENTS && |fewer| <= |q.waiting[client]|
    requires q' == q.(waiting := q.waiting[client := fewer], counts := q'.counts, removed := q'.removed)
    ensures Limited(q')
  {
    hide Total;
    TotalUpdate(q.waiting, client, fewer);
  }

  lemma EnterKeepsInvariant(q: Queue, client: nat)
    requires Invariant(q) && client < CLIENTS
    ensures Invariant(Enter(q, client).0)
  {
    hide FirstInFirstOut, Ordered;
    TotalUpdate(q.waiting, client, q.waiting[client] + [q.admitted]);
    GrowKeepsOrder(q.waiting, client, q.admitted, q.grants);
  }

  lemma StartKeepsInvariant(q: Queue, client: nat, ticket: nat)
    requires Invariant(q) && client < CLIENTS && Selected(q, client, ticket) && !q.locked && !q.closed
    requires ticket in q.waiting[client]
    ensures Invariant(Poll(q, client, ticket, Fine).0)
  {
    TotalUpdate(q.waiting, client, q.waiting[client][1..]);
    ShrinkKeepsOrder(q.waiting, client, q.waiting[client][1..], q.admitted, q.grants);
    GrantKeepsOrder(q.waiting, client, q.admitted, q.grants);
  }

  /** One bus owner at most, limits, order and conservation survive every step. */
  lemma StepKeepsInvariant(q: Queue, s: Step)
    requires Invariant(q) && Enabled(q, s)
    ensures Invariant(Do(q, s))
  {
    match s {
      case Entering(client) => EnterKeepsInvariant(q, client);
      case Polling(client, ticket, look) =>
        if q.closed || look != Fine {
          DropKeepsInvariant(q, client, ticket, Do(q, s));
        } else if Selected(q, client, ticket) && !q.locked {
          StartKeepsInvariant(q, client, ticket);
        }
      case Leaving =>
      case Closing =>
      case Outside(_) =>
    }
  }

  // ---------- Whole runs ----------

  predicate IsRun(q: Queue, steps: seq<Step>)
    decreases steps
  {
    steps == [] || (Enabled(q, steps[0]) && IsRun(Do(q, steps[0]), steps[1..]))
  }

  function Final(q: Queue, steps: seq<Step>): Queue
    requires IsRun(q, steps)
    decreases steps
  {
    if steps == [] then q else Final(Do(q, steps[0]), steps[1..])
  }

  /** Turns started during the run, by a class or by any. */
  function Turns(q: Queue, steps: seq<Step>, client: Option<nat>): nat
    requires IsRun(q, steps)
    decreases steps
  {
    if steps == [] then 0
    else (if Grants(q, steps[0]) && (client.None? || client.value == steps[0].client) then 1 else 0)
         + Turns(Do(q, steps[0]), steps[1..], client)
  }

  predicate Initial(q: Queue) {
    q.waiting == [[], [], [], []] && q.active.None? && q.last == CLIENTS - 1 && !q.closed &&
    q.counts == Counts(0, 0, 0, 0) && q.grants == [] && q.admitted == 0 && q.removed == 0
  }

  lemma {:induction false} RunKeepsInvariant(q: Queue, steps: seq<Step>)
    requires Invariant(q) && IsRun(q, steps)
    ensures Invariant(Final(q, steps))
    decreases steps
  {
    hide Invariant;
    if steps != [] {
      StepKeepsInvariant(q, steps[0]);
      RunKeepsInvariant(Do(q, steps[0]), steps[1..]);
    }
  }

  /** In every run of a fresh queue: one owner, limits, order within a class, and conservation of tickets. */
  lemma FreshRunsAreSafe(q: Queue, steps: seq<Step>)
    requires Initial(q) && IsRun(q, steps)
    ensures Invariant(Final(q, steps))
  {
    NothingWaits(q.waiting);
    RunKeepsInvariant(q, steps);
  }

  lemma {:induction false} NothingWaits(waiting: seq<seq<nat>>)
    requires forall c :: 0 <= c < |waiting| ==> waiting[c] == []
    ensures Total(waiting) == 0
  {
    if waiting != [] {
      NothingWaits(waiting[1..]);
    }
  }

  /** After `close` no turn starts, however the run goes on. */
  lemma {:induction false} NoTurnAfterClose(q: Queue, steps: seq<Step>)
    requires q.closed && IsRun(q, steps)
    ensures Turns(q, steps, None) == 0 && Final(q, steps).closed && Final(q, steps).grants == q.grants
    decreases steps
  {
    if steps != [] {
      NoTurnAfterClose(Do(q, steps[0]), steps[1..]);
    }
  }

  // ---------- Whose turn it is ----------

  /** How many classes come before `client` in the next round. */
  function Distance(client: nat, last: nat): (d: nat)
    requires client < CLIENTS && last < CLIENTS
    ensures d < CLIENTS
  {
    if client > last then client - last - 1 else client + CLIENTS - 1 - last
  }

  lemma {:induction false} NextIsNearest(q: Queue, offset: nat, client: nat)
    requires WellFormed(q) && client < CLIENTS && q.waiting[client] != []
    requires 1 <= offset <= Distance(client, q.last) + 1
    ensures Next(q, offset).Some?
    ensures offset - 1 <= Distance(Next(q, offset).value, q.last) <= Distance(client, q.last)
    decreases CLIENTS + 1 - offset
  {
    if q.waiting[(q.last + offset) % CLIENTS] == [] {
      NextIsNearest(q, offset + 1, client);
    }
  }

  /** When the bus is free and something waits, exactly one ticket passes the turn-selection test. */
  lemma ExactlyOneSelected(q: Queue)
    requires Invariant(q) && q.active.None? && exists c :: 0 <= c < CLIENTS && q.waiting[c] != []
    ensures Next(q, 1).Some?
    ensures forall c: nat, x :: c < CLIENTS && x in q.waiting[c] ==>
      (Selected(q, c, x) <==> c == Next(q, 1).value && x == q.waiting[Next(q, 1).value][0])
  {
    var c :| 0 <= c < CLIENTS && q.waiting[c] != [];
    NextIsNearest(q, 1, c);
  }

  // ---------- What each step comes to ----------

  /** The class is the first with something waiting, counting on from the class served last, and the ticket heads it. */
  predicate Foremost(q: Queue, client: nat, ticket: nat)
    requires WellFormed(q)
  {
    client < CLIENTS && q.waiting[client] != [] && q.waiting[client][0] == ticket &&
    forall c :: 0 <= c < CLIENTS && q.waiting[c] != [] ==> TurnsAway(q.last, client) <= TurnsAway(q.last, c)
  }

  /** From 1 for the class after `last` to 4 for `last` itself. */
  function TurnsAway(last: nat, client: nat): nat {
    (client + 2 * CLIENTS - last - 1) % CLIENTS + 1
  }

  lemma {:induction false} NextIsForemost(q: Queue, offset: nat)
    requires WellFormed(q) && 1 <= offset <= CLIENTS + 1
    requires forall c :: 0 <= c < CLIENTS && q.waiting[c] != [] ==> TurnsAway(q.last, c) >= offset
    ensures Next(q, offset).None? <==> q.waiting == [[], [], [], []]
    ensures Next(q, offset).Some? ==> Foremost(q, Next(q, offset).value, q.waiting[Next(q, offset).value][0])
    decreases CLIENTS + 1 - offset
  {
    if offset > CLIENTS {
      forall c | 0 <= c < CLIENTS ensures q.waiting[c] == [] {}
    } else {
      AwayIs(q.last, offset);
      hide TurnsAway;
      if q.waiting[(q.last + offset) % CLIENTS] == [] {
        NextIsForemost(q, offset + 1);
      }
    }
  }

  lemma AwayIs(last: nat, offset: nat)
    requires last < CLIENTS && 1 <= offset <= CLIENTS
    ensures (last + offset) % CLIENTS < CLIENTS && TurnsAway(last, (last + offset) % CLIENTS) == offset
    ensures forall c: nat :: c < CLIENTS && TurnsAway(last, c) == offset ==> c == (last + offset) % CLIENTS
  {
    forall c: nat | c < CLIENTS && TurnsAway(last, c) == offset ensures c == (last + offset) % CLIENTS {
      assert TurnsAway(last, c) == if c > last then c - last else c + CLIENTS - last;
    }
  }

  lemma OneForemost(q: Queue, client: nat, other: nat, ticket: nat, ticket': nat)
    requires WellFormed(q) && Foremost(q, client, ticket) && Foremost(q, other, ticket')
    ensures client == other && ticket == ticket'
  {}

  lemma SelectedIsForemost(q: Queue, client: nat, ticket: nat)
    requires WellFormed(q) && client < CLIENTS && ticket in q.waiting[client]
    ensures Selected(q, client, ticket) <==> q.active.None? && Foremost(q, client, ticket)
  {
    NextIsForemost(q, 1);
    hide Next;
    var next := Next(q, 1).value;
    if Foremost(q, client, ticket) {
      OneForemost(q, next, client, q.waiting[next][0], ticket);
    }
  }

  /** A pass leaves exactly for a closed queue or what it looked at, counted as what it is; it starts exactly for the
      foremost ticket on a free bus, which it takes; and otherwise it changes nothing. */
  lemma PassIff(q: Queue, client: nat, ticket: nat, look: Look)
    requires Invariant(q) && client < CLIENTS && ticket in q.waiting[client]
    ensures
      var (q', pass) := Poll(q, client, ticket, look);
      (pass == Leaves <==> q.closed || look != Fine) &&
      (pass == Starts <==> !q.closed && look == Fine && q.active.None? && !q.locked && Foremost(q, client, ticket)) &&
      (pass == Leaves ==>
        ticket !in q'.waiting[client] && q'.active == q.active && q'.last == q.last && q'.locked == q.locked &&
        q'.counts == Counts(q.counts.completed,
                            q.counts.expired + (if !q.closed && look == Expired then 1 else 0),
                            q.counts.cancelled + (if !q.closed && look == Disconnected then 1 else 0),
                            q.counts.rejected)) &&
      (pass == Starts ==>
        q'.active == Some(client) && q'.last == client && q'.locked && q'.waiting[client] == q.waiting[client][1..] &&
        q'.counts == q.counts) &&
      (pass == Waits ==> q' == q)
  {
    hide FirstInFirstOut, Conserved, Foremost, Selected;
    SelectedIsForemost(q, client, ticket);
    if q.closed || look != Fine {
      var k := WithoutCuts(q.waiting[client], ticket);
      Removed(q.waiting[client], k);
    }
  }

  lemma Removed(tickets: seq<nat>, k: nat)
    requires Increasing(tickets) && k < |tickets|
    ensures tickets[k] !in tickets[..k] + tickets[k + 1..]
  {}

  /** When the queue is open, the bus free and something waits, exactly one ticket starts its turn when it is polled. */
  lemma ExactlyOneStarts(q: Queue) returns (client: nat, ticket: nat)
    requires Invariant(q) && !q.closed && q.active.None? && !q.locked && q.waiting != [[], [], [], []]
    ensures client < CLIENTS && ticket in q.waiting[client] && Foremost(q, client, ticket)
    ensures forall c: nat, x: nat :: c < CLIENTS && x in q.waiting[c] ==>
      (Poll(q, c, x, Fine).1 == Starts <==> c == client && x == ticket)
  {
    NextIsForemost(q, 1);
    client := Next(q, 1).value;
    ticket := q.waiting[client][0];
    hide Invariant, Poll, Next, Foremost;
    forall c: nat, x: nat | c < CLIENTS && x in q.waiting[c]
      ensures Poll(q, c, x, Fine).1 == Starts <==> c == client && x == ticket
    {
      PassIff(q, c, x, Fine);
      if Foremost(q, c, x) {
        OneForemost(q, c, client, x, ticket);
      }
    }
  }

  /** A client is refused exactly by a closed queue or a bus held outside it, turned away exactly by a full class or a
      full queue, and otherwise waits behind its class. */
  lemma EntryIff(q: Queue, client: nat)
    requires WellFormed(q) && client < CLIENTS
    ensures
      var (q', entry) := Enter(q, client);
      var pending := |q.waiting[0]| + |q.waiting[1]| + |q.waiting[2]| + |q.waiting[3]|;
      (entry == Refused <==> q.closed || (q.active.None? && q.locked)) &&
      (entry == Full <==> entry != Refused && (|q.waiting[client]| >= q.perClient || pending >= q.capacity)) &&
      (entry == Refused ==> q' == q) &&
      (entry == Full ==> q' == q.(counts := q.counts.(rejected := q.counts.rejected + 1))) &&
      (entry.Queued? ==>
        entry.ticket == q.admitted &&
        q' == q.(waiting := q.waiting[client := q.waiting[client] + [entry.ticket]], admitted := q.admitted + 1))
  {
    TotalOfFour(q.waiting);
  }

  lemma TotalOfFour(waiting: seq<seq<nat>>)
    requires |waiting| == CLIENTS
    ensures Total(waiting) == |waiting[0]| + |waiting[1]| + |waiting[2]| + |waiting[3]|
  {
    assert Total(waiting[1..]) == |waiting[1]| + Total(waiting[1..][1..]);
    assert Total(waiting[1..][1..]) == |waiting[2]| + Total(waiting[1..][1..][1..]);
    assert Total(waiting[1..][1..][1..]) == |waiting[3]| + Total([]);
  }

  /** The end of a turn frees bus and device lock, so some waiting ticket can start. */
  lemma LeavingFreesBus(q: Queue)
    requires Invariant(q) && q.active.Some?
    ensures Leave(q).active.None? && !Leave(q).locked && Leave(q).waiting == q.waiting && Leave(q).last == q.last
    ensures Leave(q).counts.completed == q.counts.completed + 1
  {}

  // ---------- The bypass bound ----------

  /** The position of a waiting ticket, in turns: at most 4k + 3 for the k-th of its class. */
  function Rank(q: Queue, client: nat, k: nat): (rank: nat)
    requires WellFormed(q) && client < CLIENTS
    ensures rank <= 4 * k + 3
  {
    4 * k + Distance(client, q.last)
  }

  lemma GrantEffect(q: Queue, s: Step)
    requires WellFormed(q) && Enabled(q, s) && Grants(q, s)
    ensures Next(q, 1) == Some(s.client) && Do(q, s).last == s.client
    ensures q.waiting[s.client] != [] && q.waiting[s.client][0] == s.ticket
    ensures Do(q, s).waiting == q.waiting[s.client := q.waiting[s.client][1..]]
  {}

  lemma OtherEffect(q: Queue, s: Step, client: nat)
    requires WellFormed(q) && Enabled(q, s) && !Grants(q, s) && client < CLIENTS
    ensures WellFormed(Do(q, s)) && Do(q, s).last == q.last
    ensures q.waiting[client] <= Do(q, s).waiting[client] ||
            (s.Polling? && s.client == client && Do(q, s).waiting[client] == Without(q.waiting[client], s.ticket))
  {}

  lemma GrantLowersRank(q: Queue, s: Step, client: nat, k: nat)
    requires WellFormed(q) && Enabled(q, s) && Grants(q, s) && client < CLIENTS && k < |q.waiting[client]|
    requires s.client == client ==> k > 0
    ensures Rank(Do(q, s), client, if s.client == client then k - 1 else k) < Rank(q, client, k)
  {
    GrantEffect(q, s);
    NextIsNearest(q, 1, client);
  }

  /** No step raises the rank of a ticket that goes on waiting, and every turn that starts lowers it. */
  lemma StepLowersRank(q: Queue, s: Step, client: nat, k: nat) returns (k': nat)
    requires Invariant(q) && Enabled(q, s) && client < CLIENTS && k < |q.waiting[client]|
    requires q.waiting[client][k] in Do(q, s).waiting[client]
    ensures k' <= k && k' < |Do(q, s).waiting[client]| && Do(q, s).waiting[client][k'] == q.waiting[client][k]
    ensures Rank(Do(q, s), client, k') <= Rank(q, client, k)
    ensures Grants(q, s) ==> Rank(Do(q, s), client, k') < Rank(q, client, k)
  {
    hide FirstInFirstOut, Poll, Enter, Leave, Next;
    var tickets := q.waiting[client];
    k' := k;
    if Grants(q, s) {
      GrantEffect(q, s);
      if s.client == client {
        HeadGone(tickets, k);
        k' := k - 1;
      }
      GrantLowersRank(q, s, client, k);
    } else {
      OtherEffect(q, s, client);
      if !(tickets <= Do(q, s).waiting[client]) {
        var j := WithoutCuts(tickets, s.ticket);
        k' := if j < k then k - 1 else k;
      }
    }
  }

  lemma HeadGone(tickets: seq<nat>, k: nat)
    requires Increasing(tickets) && k < |tickets| && tickets[k] in tickets[1..]
    ensures k > 0
  {}

  predicate StaysWaiting(q: Queue, steps: seq<Step>, client: nat, ticket: nat)
    requires IsRun(q, steps)
    decreases steps
  {
    WellFormed(q) && client < CLIENTS && ticket in q.waiting[client] &&
    (steps != [] ==> StaysWaiting(Do(q, steps[0]), steps[1..], client, ticket))
  }

  /** While the k-th ticket of its class waits, at most 4k + 3 turns start, whatever arrivals,
      expiries, cancellations, releases and outside locking come between. */
  lemma {:induction false} BypassBound(q: Queue, steps: seq<Step>, client: nat, k: nat)
    requires Invariant(q) && IsRun(q, steps) && client < CLIENTS && k < |q.waiting[client]|
    requires StaysWaiting(q, steps, client, q.waiting[client][k])
    ensures Turns(q, steps, None) <= Rank(q, client, k) <= 4 * k + 3
    decreases steps
  {
    hide Invariant, Do, Grants;
    if steps != [] {
      var q' := Do(q, steps[0]);
      StepKeepsInvariant(q, steps[0]);
      var k' := StepLowersRank(q, steps[0], client, k);
      BypassBound(q', steps[1..], client, k');
    }
  }

  /** Each turn that starts counts against the rank of a ticket that goes on waiting. */
  lemma {:induction false} RankRunsDown(q: Queue, steps: seq<Step>, client: nat, k: nat) returns (k': nat)
    requires Invariant(q) && IsRun(q, steps) && client < CLIENTS && k < |q.waiting[client]|
    requires StaysWaiting(q, steps, client, q.waiting[client][k])
    ensures var q' := Final(q, steps);
      Invariant(q') && k' < |q'.waiting[client]| && q'.waiting[client][k'] == q.waiting[client][k] &&
      Turns(q, steps, None) + Rank(q', client, k') <= Rank(q, client, k)
    decreases steps
  {
    hide Invariant, Do, Grants;
    if steps == [] {
      k' := k;
    } else {
      StepKeepsInvariant(q, steps[0]);
      var j := StepLowersRank(q, steps[0], client, k);
      k' := RankRunsDown(Do(q, steps[0]), steps[1..], client, j);
    }
  }

  /** So the k-th ticket of its class does start: once as many turns as its rank, 4k + 3 at most, have started before
      it, it is the one that starts when it is polled with the bus free. */
  lemma StartsInTheEnd(q: Queue, steps: seq<Step>, client: nat, k: nat)
    requires Invariant(q) && IsRun(q, steps) && client < CLIENTS && k < |q.waiting[client]|
    requires StaysWaiting(q, steps, client, q.waiting[client][k])
    requires Turns(q, steps, None) >= 4 * k + 3
    ensures var q' := Final(q, steps); var ticket := q.waiting[client][k];
      WellFormed(q') && ticket in q'.waiting[client] &&
      (!q'.closed && q'.active.None? && !q'.locked ==> Poll(q', client, ticket, Fine).1 == Starts)
  {
    hide Final, Turns, StaysWaiting, IsRun;
    var q', ticket := Final(q, steps), q.waiting[client][k];
    var k' := RankRunsDown(q, steps, client, k);
    PassIff(q', client, ticket, Fine);
    hide Poll, FirstInFirstOut, Conserved, Ordered;
    assert k' == 0 && Distance(client, q'.last) == 0;
    assert TurnsAway(q'.last, client) == 1;
    assert Foremost(q', client, ticket);
  }

  /** `other` comes after `client` in the next round. */
  predicate Behind(q: Queue, other: nat, client: nat)
    requires WellFormed(q) && other < CLIENTS && client < CLIENTS
  {
    Distance(client, q.last) < Distance(other, q.last)
  }

  lemma ServedFallsBehind(q: Queue, s: Step, client: nat, other: nat)
    requires Invariant(q) && Enabled(q, s) && client < CLIENTS && other < CLIENTS && other != client
    requires q.waiting[client] != []
    ensures Grants(q, s) && s.client == other ==> !Behind(q, other, client) && Behind(Do(q, s), other, client)
    ensures Behind(q, other, client) && !(Grants(q, s) && s.client == client) ==> Behind(Do(q, s), other, client)
  {
    hide FirstInFirstOut, Ordered, Poll, Enter, Leave, Next;
    if Grants(q, s) {
      GrantEffect(q, s);
      NextIsNearest(q, 1, client);
    } else {
      OtherEffect(q, s, client);
    }
  }

  /** Once a ticket heads its class, each other class is served at most once before it, and its own not at all. */
  lemma {:induction false} HeadBypassedOncePerClass(q: Queue, steps: seq<Step>, client: nat, other: nat)
    requires Invariant(q) && IsRun(q, steps) && client < CLIENTS && other < CLIENTS && q.waiting[client] != []
    requires StaysWaiting(q, steps, client, q.waiting[client][0])
    ensures Turns(q, steps, Some(other)) <= (if other == client || Behind(q, other, client) then 0 else 1)
    decreases steps
  {
    hide Invariant, Do, Grants;
    if steps != [] {
      var q' := Do(q, steps[0]);
      StepKeepsInvariant(q, steps[0]);
      var k' := StepLowersRank(q, steps[0], client, 0);
      HeadKeepsOwnTurn(q, steps[0], client);
      if other != client {
        ServedFallsBehind(q, steps[0], client, other);
      }
      HeadBypassedOncePerClass(q', steps[1..], client, other);
    }
  }

  lemma HeadKeepsOwnTurn(q: Queue, s: Step, client: nat)
    requires Invariant(q) && Enabled(q, s) && client < CLIENTS && q.waiting[client] != []
    requires q.waiting[client][0] in Do(q, s).waiting[client]
    ensures !(Grants(q, s) && s.client == client)
  {
    hide FirstInFirstOut, Poll, Enter, Leave, Next;
    if Grants(q, s) && s.client == client {
      GrantEffect(q, s);
      HeadGone(q.waiting[client], 0);
    }
  }
}
