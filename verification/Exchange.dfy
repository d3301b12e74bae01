/** One request and its reply on the half-duplex bus: `PiBus._exchange` and the reads built on it.

    The UART is the environment: whether a write or drain succeeds, and which bytes arrive when, are
    inputs. A run of exchanges is a run of the bus session whose reservations carry their requests. */
module Exchanges {
  import opened Options
  import opened Sequences
  import opened Bits
  import opened Packets
  import opened FrameStreams
  import opened BusSessions

  const DISCOVERY_TIMEOUT: real := 0.050
  const DISCOVERY_GUARD: real := 0.005
  const WRITE_ALLOWANCE: real := 1.1

  /** One round of the receive loop: how long after the end of transmission the deadline was tested, and what the
      `serial.read` that followed returned, however late. */
  datatype Arrival = Arrival(tested: real, data: seq<byte>)

  datatype Outcome =
    | Reply(packet: Packet)
    | RocStatus(status: byte)   // ROCError
    | Silence                   // ResponseTimeout
    | UartFailure               // OSError, TimeoutError of the UART itself
    | Invalid                   // ValueError before anything is sent

  predicate Matches(request: Packet, responseKind: int, r: Packet) {
    r.kind == responseKind && r.roc == request.roc && r.transaction == request.transaction &&
    r.command == request.command
  }

  predicate Answers(request: Packet, responseKind: int, r: Packet) {
    Matches(request, responseKind, r) && |r.payload| == 3
  }

  function FirstAnswer(request: Packet, responseKind: int, packets: seq<Packet>): (i: nat)
    ensures i <= |packets|
    ensures i < |packets| ==> Answers(request, responseKind, packets[i])
    ensures forall j :: 0 <= j < i ==> !Answers(request, responseKind, packets[j])
  {
    if packets == [] then 0
    else if Answers(request, responseKind, packets[0]) then 0
    else 1 + FirstAnswer(request, responseKind, packets[1..])
  }

  function Judgement(request: Packet, responseKind: int, packets: seq<Packet>): (o: Outcome)
    ensures o != Invalid && o != UartFailure && (o.Reply? ==> |o.packet.payload| == 3)
  {
    var i := FirstAnswer(request, responseKind, packets);
    if i == |packets| then Silence
    else if packets[i].payload[0] != 0 then RocStatus(packets[i].payload[0])
    else Reply(packets[i])
  }

  // ---------- What a panel has to send ----------

  /** A packet of the kind, panel, transaction and command asked for, with a status and a value. */
  predicate IsReply(p: Packet, kind: int, roc: int, transaction: int, command: int) {
    p.kind == kind && p.roc == roc && p.transaction == transaction && p.command == command && |p.payload| == 3
  }

  predicate FirstReply(packets: seq<Packet>, i: nat, kind: int, roc: int, transaction: int, command: int) {
    i < |packets| && IsReply(packets[i], kind, roc, transaction, command) &&
    forall j :: 0 <= j < i ==> !IsReply(packets[j], kind, roc, transaction, command)
  }

  /** After the status, the low byte and the high byte. */
  function ValueIn(p: Packet): int
    requires |p.payload| == 3
  {
    p.payload[1] as int + 256 * p.payload[2] as int
  }

  /** A read of an ordinary value: that of the first `RESPONSE` to the request, if its status is 0. */
  ghost predicate ScalarRead(packets: seq<Packet>, roc: int, transaction: int, command: int, value: Option<nat>) {
    match value
    case Some(v) =>
      exists i: nat :: FirstReply(packets, i, RESPONSE, roc, transaction, command) && packets[i].payload[0] == 0 &&
        v == ValueIn(packets[i])
    case None =>
      forall i: nat :: FirstReply(packets, i, RESPONSE, roc, transaction, command) ==> packets[i].payload[0] != 0
  }

  /** A read of a panel's ID, from the first `CONTROL_RESPONSE` to the request. */
  ghost predicate IdRead(packets: seq<Packet>, roc: int, transaction: int, read: PanelRead) {
    match read
    case Id(a) =>
      a == roc &&
      exists i: nat :: FirstReply(packets, i, CONTROL_RESPONSE, roc, transaction, 2) &&
        packets[i].payload[0] == 0 && ValueIn(packets[i]) == a
    case Problem =>
      exists i: nat :: FirstReply(packets, i, CONTROL_RESPONSE, roc, transaction, 2) &&
        !(packets[i].payload[0] == 0 && ValueIn(packets[i]) == roc)
    case NoResponse =>
      forall i :: 0 <= i < |packets| ==> !IsReply(packets[i], CONTROL_RESPONSE, roc, transaction, 2)
    case Aborted => false
  }

  lemma JudgedIsFirst(request: Packet, responseKind: int, packets: seq<Packet>, i: nat)
    requires FirstReply(packets, i, responseKind, request.roc, request.transaction, request.command)
    ensures Judgement(request, responseKind, packets) ==
      if packets[i].payload[0] != 0 then RocStatus(packets[i].payload[0]) else Reply(packets[i])
  {
    FirstAnswerUnique(request, responseKind, packets, i);
  }

  lemma JudgedSilent(request: Packet, responseKind: int, packets: seq<Packet>)
    ensures Judgement(request, responseKind, packets) == Silence <==>
      forall i :: 0 <= i < |packets| ==>
        !IsReply(packets[i], responseKind, request.roc, request.transaction, request.command)
    ensures Judgement(request, responseKind, packets) != Silence ==>
      FirstReply(packets, FirstAnswer(request, responseKind, packets), responseKind, request.roc, request.transaction,
                 request.command)
  {
    hide FirstAnswer;
    var i := FirstAnswer(request, responseKind, packets);
    if i < |packets| {
      assert IsReply(packets[i], responseKind, request.roc, request.transaction, request.command);
    }
  }

  lemma ScalarReadOf(request: Packet, packets: seq<Packet>)
    ensures ScalarRead(packets, request.roc, request.transaction, request.command,
                       ScalarOf(Judgement(request, RESPONSE, packets)))
  {
    JudgedSilent(request, RESPONSE, packets);
    hide Judgement, FirstAnswer;
    forall i: nat | FirstReply(packets, i, RESPONSE, request.roc, request.transaction, request.command)
      ensures Judgement(request, RESPONSE, packets) ==
        if packets[i].payload[0] != 0 then RocStatus(packets[i].payload[0]) else Reply(packets[i])
    {
      JudgedIsFirst(request, RESPONSE, packets, i);
    }
  }

  lemma IdReadOf(request: Packet, packets: seq<Packet>)
    requires request.command == 2
    ensures IdRead(packets, request.roc, request.transaction,
                   ReadOf(Judgement(request, CONTROL_RESPONSE, packets), request.roc))
  {
    JudgedSilent(request, CONTROL_RESPONSE, packets);
    hide Judgement, FirstAnswer;
    forall i: nat | FirstReply(packets, i, CONTROL_RESPONSE, request.roc, request.transaction, request.command)
      ensures Judgement(request, CONTROL_RESPONSE, packets) ==
        if packets[i].payload[0] != 0 then RocStatus(packets[i].payload[0]) else Reply(packets[i])
    {
      JudgedIsFirst(request, CONTROL_RESPONSE, packets, i);
    }
  }

  /** What is heard is what arrived by reads begun in time: nothing of it is dropped, repeated or reordered. */
  lemma {:induction false} HeardIs(arrivals: seq<Arrival>, timeout: real, n: nat)
    requires n <= |arrivals| && forall i :: 0 <= i < n ==> arrivals[i].tested < timeout
    requires n < |arrivals| ==> arrivals[n].tested >= timeout
    ensures Heard(arrivals, timeout) == Flat(seq(n, i requires 0 <= i < n => arrivals[i].data))
  {
    if n > 0 {
      HeardIs(arrivals[1..], timeout, n - 1);
      FlatCons(arrivals[0].data, seq(n - 1, i requires 0 <= i < n - 1 => arrivals[1..][i].data));
      hide Flat;
      ChunksCons(arrivals, n);
    }
  }

  lemma ChunksCons(arrivals: seq<Arrival>, n: nat)
    requires 0 < n <= |arrivals|
    ensures seq(n, i requires 0 <= i < n => arrivals[i].data)
         == [arrivals[0].data] + seq(n - 1, i requires 0 <= i < n - 1 => arrivals[1..][i].data)
  {}

  /** However its bytes are split up between reads begun in time, a panel's reply to a read is the value of the read. */
  lemma ReplyIsRead(arrivals: seq<Arrival>, timeout: real, roc: int, transaction: int, command: int, lo: byte, hi: byte,
                    value: Option<nat>)
    requires Packet(RESPONSE, roc, transaction, command, [0, lo, hi]).Valid()
    requires Heard(arrivals, timeout) == Wire(Packet(RESPONSE, roc, transaction, command, [0, lo, hi]))
    requires ScalarRead(FeedAll(IDLE, Heard(arrivals, timeout)).packets, roc, transaction, command, value)
    ensures value == Some(lo as int + 256 * hi as int)
  {
    var p := Packet(RESPONSE, roc, transaction, command, [0, lo, hi]);
    OneFrame(p);
    assert FirstReply([p], 0, RESPONSE, roc, transaction, command);
  }

  /** What a request comes to, by what is heard before its deadline. */
  function Answered(request: Packet, discovery: bool, uartOk: bool, timeout: real, arrivals: seq<Arrival>): Outcome {
    if !request.Valid() then Invalid
    else if !uartOk then UartFailure
    else Judgement(request, ResponseKind(request.kind),
                   FeedAll(IDLE, Heard(arrivals, if discovery then DISCOVERY_TIMEOUT else timeout)).packets)
  }

  /** The bytes of all reads begun before the deadline. */
  function Heard(arrivals: seq<Arrival>, timeout: real): seq<byte> {
    if arrivals == [] || arrivals[0].tested >= timeout then []
    else arrivals[0].data + Heard(arrivals[1..], timeout)
  }

  predicate DiscoveryRequest(request: Packet, responseKind: int) {
    request.kind == CONTROL_REQUEST && request.command == 2 && request.payload == [] &&
    responseKind == CONTROL_RESPONSE
  }

  /** The measurement in a reply with status 0; any other outcome is an error to the caller. */
  function ScalarOf(o: Outcome): Option<nat> {
    if o.Reply? && |o.packet.payload| == 3 then Some(FromLittleEndian(o.packet.payload[1], o.packet.payload[2])) else None
  }

  /** What reading a panel's ID comes to; `Aborted` is an error that ends a scan. */
  datatype PanelRead = Id(address: int) | NoResponse | Problem | Aborted

  /** A panel that answers with another address than its own is a problem. */
  function ReadOf(o: Outcome, address: int): PanelRead {
    match o
    case Reply(r) =>
      if |r.payload| == 3 && FromLittleEndian(r.payload[1], r.payload[2]) == address then Id(address) else Problem
    case RocStatus(_) => Problem
    case Silence => NoResponse
    case _ => Aborted
  }

  /** The answer to a panel-ID request with transaction `id`. */
  function Probe(address: int, id: int, window: real, arrivals: seq<Arrival>): PanelRead {
    ReadOf(Judgement(Packet(CONTROL_REQUEST, address, id, 2, []), CONTROL_RESPONSE,
                     FeedAll(IDLE, Heard(arrivals, window)).packets), address)
  }

  lemma ProbeReads(address: int, id: int, window: real, arrivals: seq<Arrival>)
    ensures IdRead(FeedAll(IDLE, Heard(arrivals, window)).packets, address, id, Probe(address, id, window, arrivals))
  {
    IdReadOf(Packet(CONTROL_REQUEST, address, id, 2, []), FeedAll(IDLE, Heard(arrivals, window)).packets);
  }

  datatype Attempt = Attempt(writeOk: bool, drainOk: bool, arrivals: seq<Arrival>)
  {
    predicate UartOk() {
      writeOk && drainOk
    }
  }

  datatype Inventory = Inventory(found: seq<int>, noResponse: seq<int>, errors: seq<int>)

  /** The address is in the list for what its probe found, and in no other. */
  predicate Listed(i: Inventory, a: int, read: PanelRead) {
    (a in i.found <==> read.Id?) && (a in i.noResponse <==> read.NoResponse?) && (a in i.errors <==> read.Problem?)
  }

  /** The inventory of the addresses from `start` to before `end`: request `at[a - start]` is the probe of `a`. */
  ghost predicate Lists(i: Inventory, attempts: int -> Attempt, requests: seq<Packet>, at: seq<nat>, start: int, end: int) {
    start <= end && |at| == end - start &&
    (forall a :: a in i.found || a in i.noResponse || a in i.errors ==> start <= a < end) &&
    (forall k :: 0 <= k < |at| ==> at[k] < |requests|) &&
    (forall k, l :: 0 <= k < l < |at| ==> at[k] < at[l]) &&
    forall k :: 0 <= k < |at| ==> Probed(i, start + k, attempts(start + k), requests[at[k]])
  }

  predicate Probed(i: Inventory, a: int, attempt: Attempt, request: Packet) {
    attempt.UartOk() && request == Packet(CONTROL_REQUEST, a, request.transaction, 2, []) &&
    Listed(i, a, Probe(a, request.transaction, DISCOVERY_TIMEOUT, attempt.arrivals))
  }

  function Add(i: Inventory, a: int, read: PanelRead): Inventory {
    match read
    case Id(_) => i.(found := i.found + [a])
    case NoResponse => i.(noResponse := i.noResponse + [a])
    case _ => i.(errors := i.errors + [a])
  }

  /** None of the probes is a request from before the scan. */
  predicate AllFrom(at: seq<nat>, first: nat) {
    forall k :: 0 <= k < |at| ==> first <= at[k]
  }

  lemma NoneBefore(at: seq<nat>, first: nat, next: nat)
    requires AllFrom(at, first) && first <= next
    ensures AllFrom(at + [next], first)
  {}

  lemma ListsStay(i: Inventory, attempts: int -> Attempt, before: seq<Packet>, requests: seq<Packet>, at: seq<nat>,
                  start: int, end: int)
    requires Lists(i, attempts, before, at, start, end) && before <= requests
    ensures Lists(i, attempts, requests, at, start, end)
  {
    hide Probed;
    forall k | 0 <= k < |at| ensures at[k] < |requests| && requests[at[k]] == before[at[k]] {}
  }

  lemma ListOneMore(i: Inventory, attempts: int -> Attempt, before: seq<Packet>, request: Packet, at: seq<nat>,
                    start: int, a: int)
    requires Lists(i, attempts, before, at, start, a) && attempts(a).UartOk()
    requires request == Packet(CONTROL_REQUEST, a, request.transaction, 2, [])
    ensures var read := Probe(a, request.transaction, DISCOVERY_TIMEOUT, attempts(a).arrivals);
            Lists(Add(i, a, read), attempts, before + [request], at + [|before|], start, a + 1)
  {
    var read := Probe(a, request.transaction, DISCOVERY_TIMEOUT, attempts(a).arrivals);
    ProbesEnd(a, request.transaction, attempts(a).arrivals);
    hide Probe;
    var requests', at' := before + [request], at + [|before|];
    assert Probed(Add(i, a, read), a, attempts(a), request);
    forall k | 0 <= k < |at'| ensures Probed(Add(i, a, read), start + k, attempts(start + k), requests'[at'[k]]) {
      if k < |at| {
        assert Probed(i, start + k, attempts(start + k), before[at[k]]);
      }
    }
  }

  lemma NothingListed(attempts: int -> Attempt, requests: seq<Packet>, start: int)
    ensures Lists(Inventory([], [], []), attempts, requests, [], start, start)
  {}

  lemma AllUartOk(i: Inventory, attempts: int -> Attempt, requests: seq<Packet>, at: seq<nat>, start: int, end: int)
    requires Lists(i, attempts, requests, at, start, end)
    ensures forall a :: start <= a < end ==> attempts(a).UartOk()
  {
    forall a | start <= a < end ensures attempts(a).UartOk() {
      var k := a - start;
      assert Probed(i, start + k, attempts(start + k), requests[at[k]]);
    }
  }

  lemma ProbesEnd(address: int, id: int, arrivals: seq<Arrival>)
    ensures Probe(address, id, DISCOVERY_TIMEOUT, arrivals) != Aborted
  {}

  // ---------- What an exchange does to a run ----------

  /** The exchange of the last reservation, over: whether it was sent and answered, and the holdoff it leaves in
      memory, on disk and in the log. */
  predicate Exchanged(before: Run, after: Run, outcome: Outcome, discovery: bool) {
    Awaited(before, after, outcome, discovery) && Settled(before.bus.now, after.bus.now, after.Current(), outcome)
  }

  /** Only the last reservation has changed, in all but its ID; an answer ends the holdoff, a missing answer to a
      discovery shortens it. */
  predicate Awaited(before: Run, after: Run, outcome: Outcome, discovery: bool) {
    before.bus.now <= after.bus.now && before.bus.mem.Some? && after.bus.mem.Some? &&
    before.log != [] && after.log != [] && after.log == before.WithCurrent(after.Current()) &&
    after.Current().id == before.Current().id && (after.Current().answered <==> IsAnswer(outcome)) &&
    if IsAnswer(outcome) then
      after.bus.mem.value == before.bus.mem.value.(notBefore := 0.0) && after.bus.disk == Json(after.bus.mem.value)
    else if discovery && outcome == Silence then
      after.bus.mem.value == before.bus.mem.value.(notBefore := after.Current().holdoff) &&
      after.bus.disk == Json(after.bus.mem.value) &&
      before.bus.now <= after.Current().holdoff - (DISCOVERY_TIMEOUT + DISCOVERY_GUARD) <= after.bus.now
    else
      after.bus.mem == before.bus.mem && after.bus.disk == before.bus.disk &&
      after.Current().holdoff == before.Current().holdoff
  }

  /** What was put on the wire for a reservation between `from` and `to`, and what came of it. */
  predicate Settled(from: real, to: real, r: Reservation, outcome: Outcome) {
    (r.answered <==> IsAnswer(outcome)) && (r.sent.Some? <==> outcome != Invalid) &&
    (r.sent.Some? ==> from <= r.sent.value <= to)
  }

  /** A whole reservation and exchange: one entry more in the log, under the next ID, and a holdoff that only an
      answer ends. */
  predicate Asked(before: Run, after: Run, outcome: Outcome, timeout: real, discovery: bool) {
    before.bus.mem.Some? && after.bus.mem.Some? && after.log != [] &&
    after.log == before.log + [after.Current()] &&
    after.Current().id == before.bus.mem.value.nextId &&
    after.bus.mem.value.nextId == (after.Current().id + 1) % ID_SPACE && after.bus.disk == Json(after.bus.mem.value) &&
    Settled(before.bus.now, after.bus.now, after.Current(), outcome) &&
    if after.Current().answered then after.bus.mem.value.notBefore == 0.0
    else
      var window := if discovery && outcome == Silence then DISCOVERY_TIMEOUT + DISCOVERY_GUARD
                    else timeout + WRITE_ALLOWANCE;
      after.bus.mem.value.notBefore == after.Current().holdoff &&
      before.bus.now <= after.Current().holdoff - window <= after.bus.now
  }

  /** The last reservation is now on the wire; nothing else has changed but the time. */
  predicate SentNow(before: Run, after: Run) {
    before.log != [] && after.log != [] && after.Current().sent.Some? &&
    before.bus.now <= after.Current().sent.value <= after.bus.now && after.bus == before.bus.(now := after.bus.now) &&
    after.log == before.WithCurrent(before.Current().(sent := after.Current().sent))
  }

  /** Its holdoff is now `window` from a time between. */
  predicate ShortenedBy(before: Run, after: Run, window: real) {
    before.bus.mem.Some? && before.log != [] && ShortenStep(before.bus, after.bus, window) &&
    after.log == before.WithCurrent(before.Current().(holdoff := after.bus.mem.value.notBefore)) &&
    after.bus.mem.value == before.bus.mem.value.(notBefore := after.bus.mem.value.notBefore)
  }

  /** It is over, the bus as `CompleteStep` leaves it when it is answered. */
  predicate OverNow(before: Run, after: Run, answered: bool) {
    before.bus.mem.Some? && before.log != [] && before.bus.now <= after.bus.now &&
    if answered then
      after.bus.mem == Some(before.bus.mem.value.(notBefore := 0.0)) && after.bus.disk == Json(after.bus.mem.value) &&
      after.log == before.WithCurrent(before.Current().(answered := true))
    else after.bus == before.bus.(now := after.bus.now) && after.log == before.log
  }

  lemma AwaitedFrom(before: Run, mid: Run, after: Run, outcome: Outcome, discovery: bool)
    requires if discovery then ShortenedBy(before, mid, DISCOVERY_TIMEOUT + DISCOVERY_GUARD) else mid == before
    requires OverNow(mid, after, IsAnswer(outcome)) && before.log != [] && !before.Current().answered
    requires IsAnswer(outcome) || outcome == Silence
    ensures Awaited(before, after, outcome, discovery) && after.Current().sent == before.Current().sent
  {
    LastPutBack(before.log);
  }

  lemma SentThenAwaited(before: Run, mid: Run, after: Run, outcome: Outcome, discovery: bool)
    requires SentNow(before, mid) && Awaited(mid, after, outcome, discovery) && outcome != Invalid
    requires after.Current().sent == mid.Current().sent
    ensures Exchanged(before, after, outcome, discovery)
  {}

  lemma NotAwaited(before: Run, after: Run, outcome: Outcome, discovery: bool)
    requires OverNow(before, after, false) && !before.Current().answered
    requires outcome == Invalid || outcome == UartFailure
    ensures Awaited(before, after, outcome, discovery) && after.Current().sent == before.Current().sent
    ensures outcome == Invalid && before.Current().sent.None? ==> Exchanged(before, after, outcome, discovery)
  {
    LastPutBack(before.log);
  }

  lemma LastPutBack(log: seq<Reservation>)
    requires log != []
    ensures log[..|log| - 1] + [log[|log| - 1]] == log
  {}

  lemma CarriesStill(log: seq<Reservation>, log': seq<Reservation>, requests: seq<Packet>)
    requires Carries(log, requests) && |log'| == |log| && log != [] && log'[..|log| - 1] == log[..|log| - 1]
    requires log'[|log| - 1].id == log[|log| - 1].id
    ensures Carries(log', requests)
  {
    forall i | 0 <= i < |log| - 1 ensures log'[i] == log[i] {
      assert log'[..|log| - 1][i] == log[..|log| - 1][i];
    }
  }

  /** The run before a reservation, after it, and after its exchange. */
  lemma ReserveThenExchange(a: Run, b: Run, c: Run, id: int, outcome: Outcome, timeout: real, discovery: bool)
    requires a.bus.mem.Some? && ReserveStep(a.bus, b.bus, timeout + WRITE_ALLOWANCE, id)
    requires b.log == a.log + [Reservation(id, b.bus.mem.value.notBefore, None, false)]
    requires Exchanged(b, c, outcome, discovery)
    ensures Asked(a, c, outcome, timeout, discovery)
  {
    assert b.log[..|b.log| - 1] == a.log;
  }

  class PiBus {
    const session: BusSession
    const timeout: real
    var transmitting: bool  // the DE line
    /** Everything that happened to this bus, in this process and earlier ones, and the request of each reservation. */
    ghost var runs: seq<Run>
    ghost var events: seq<Event>
    ghost var requests: seq<Packet>

    /** The history is a run that ends here; `owned` says whether an exchange is in progress. */
    ghost predicate Follows(owned: bool)
      reads this, session, session.file, session.clock
    {
      runs != [] && IsRun(runs, events) &&
      var r := runs[|runs| - 1];
      r.owned == owned && r.bus.now <= session.clock.now && r.bus.(now := session.clock.now) == session.View() &&
      Carries(r.log, requests)
    }

    ghost predicate Valid()
      reads this, session, session.file, session.clock
    {
      Follows(false)
    }

    /** The history so far, at the present time. */
    ghost function Now(): Run
      requires runs != []
      reads this, session, session.file, session.clock
    {
      runs[|runs| - 1].(bus := session.View())
    }

    constructor (session: BusSession, timeout: real, ghost runs: seq<Run>, ghost events: seq<Event>,
                 ghost requests: seq<Packet>)
      ensures this.session == session && this.timeout == timeout && !transmitting
      ensures this.runs == runs && this.events == events && this.requests == requests
    {
      this.session, this.timeout, transmitting := session, timeout, false;
      this.runs, this.events, this.requests := runs, events, requests;
    }

    /** A process that opens the bus: whatever happened before, it takes the run up where the file was left. */
    static method Start(file: StateFile, clock: Clock, lockFree: bool, drawn: int, timeout: real,
                        ghost runs: seq<Run>, ghost events: seq<Event>, ghost requests: seq<Packet>)
      returns (bus: PiBus?)
      requires 0 <= drawn < ID_SPACE && IsRun(runs, events) && Carries(runs[|runs| - 1].log, requests)
      requires var r := runs[|runs| - 1]; r.bus.now <= clock.now && r.bus.disk == file.content
      modifies clock
      ensures bus == null <==> !lockFree || !file.content.Usable()
      ensures bus != null ==> fresh(bus) && bus.Valid() && bus.session.file == file && bus.session.clock == clock
      ensures bus != null ==> bus.requests == requests && bus.timeout == timeout
      ensures bus != null ==> bus.Now().log == runs[|runs| - 1].log && bus.events == events + [Crash, Open]
    {
      hide Next, Carries;
      ghost var r := runs[|runs| - 1];
      ghost var now := clock.now;
      var session := BusSession.Open(file, clock, lockFree, drawn);
      if session == null {
        return null;
      }
      ghost var down := Run(Bus(now, file.content, None), r.log, false);
      ghost var up := Run(session.View(), r.log, false);
      Reopened(r, down, up);
      RunOn(runs, events, r.bus.now, Crash, down);
      RunOn(runs + [down], events + [Crash], now, Open, up);
      assert events + [Crash] + [Open] == events + [Crash, Open];
      bus := new PiBus(session, timeout, runs + [down] + [up], events + [Crash, Open], requests);
    }

    /** One more event in the history. */
    ghost method Log(e: Event, log: seq<Reservation>, owned: bool)
      requires runs != [] && IsRun(runs, events) && Carries(log, requests)
      requires var r := runs[|runs| - 1];
               r.bus.now <= session.clock.now && Next(r, e, Run(session.View(), log, owned))
      modifies `runs, `events
      ensures Follows(owned) && Now() == Run(session.View(), log, owned)
      ensures events == old(events) + [e] && runs == old(runs) + [Now()]
    {
      hide Next, Carries;
      ghost var r' := Run(session.View(), log, owned);
      RunOn(runs, events, runs[|runs| - 1].bus.now, e, r');
      runs, events := runs + [r'], events + [e];
    }

    /** The request of a read, under the ID it reserves. */
    method Reserve(kind: int, address: int, command: int) returns (request: Packet)
      requires Valid()
      modifies session, session.file, session.clock, `runs, `events, `requests
      ensures Follows(true)
      ensures request == Packet(kind, address, old(session.state.nextId), command, [])
      ensures requests == old(requests) + [request]
      ensures ReserveStep(old(session.View()), session.View(), timeout + WRITE_ALLOWANCE, request.transaction)
      ensures Now().log == old(Now().log) + [Reservation(request.transaction, session.state.notBefore, None, false)]
    {
      RunInvariant(runs, events, |runs| - 1);
      hide IsRun;
      ghost var log := Now().log;
      var transaction := session.Reserve(timeout + WRITE_ALLOWANCE);
      request := Packet(kind, address, transaction, command, []);
      requests := requests + [request];
      Log(Event.Reserve(timeout + WRITE_ALLOWANCE, transaction),
          log + [Reservation(transaction, session.state.notBefore, None, false)], true);
    }

    /** The transmission, between taking the driver and releasing it. */
    method Send(writeOk: bool, drainOk: bool) returns (sent: bool)
      requires Follows(true) && requests != [] && Now().Current().sent.None?
      modifies this`transmitting, session.clock, `runs, `events
      ensures Follows(true) && !transmitting && sent == (writeOk && drainOk)
      ensures SentNow(old(Now()), Now())
    {
      transmitting := false;
      transmitting := true;
      ghost var at := session.clock.now;
      session.clock.Pass();
      sent := writeOk && drainOk;
      transmitting := false;  // the `finally` of the source
      ghost var log := Now().WithCurrent(Now().Current().(sent := Some(at)));
      CarriesStill(Now().log, log, requests);
      hide IsRun, Carries;
      Log(Transmit(at), log, true);
    }

    /** The shorter holdoff of a discovery. */
    method Shorten(window: real)
      requires Follows(true) && requests != [] && Now().Current().sent.Some?
      modifies session, session.file, session.clock, `runs, `events
      ensures Follows(true) && ShortenedBy(old(Now()), Now(), window)
    {
      ghost var log := Now().log;
      session.ResponseWindow(window);
      ghost var log' := log[..|log| - 1] + [log[|log| - 1].(holdoff := session.state.notBefore)];
      CarriesStill(log, log', requests);
      hide IsRun, Carries;
      Log(Event.Shorten(window), log', true);
    }

    /** An exchange left, its session completed or not. */
    ghost method Ended(before: Run, answered: bool)
      requires runs != [] && IsRun(runs, events) && Carries(runs[|runs| - 1].log, requests)
      requires runs[|runs| - 1].owned && before == runs[|runs| - 1].(bus := before.bus)
      requires runs[|runs| - 1].bus.now <= before.bus.now
      requires runs[|runs| - 1].bus.(now := before.bus.now) == before.bus
      requires before.log != [] && before.bus.mem.Some?
      requires answered ==> before.Current().sent.Some?
      requires
        if answered then
          session.state == before.bus.mem.value.(notBefore := 0.0) && session.file.content == Json(session.state)
        else Some(session.state) == before.bus.mem && session.file.content == before.bus.disk
      requires before.bus.now <= session.clock.now
      modifies `runs, `events
      ensures Valid() && OverNow(before, Now(), answered)
    {
      if answered {
        ghost var log := before.WithCurrent(before.Current().(answered := true));
        CarriesStill(before.log, log, requests);
        hide IsRun, Carries;
        Log(Event.Complete, log, false);
      } else {
        hide IsRun, Carries;
        Log(GiveUp, before.log, false);
      }
    }

    /** An exchange left without an answer. */
    ghost method GivenUp()
      requires Follows(true) && Now().log != []
      modifies `runs, `events
      ensures Valid() && OverNow(old(Now()), Now(), false)
    {
      Ended(Now(), false);
    }

    /** The rest of `_exchange`, once the request is on the wire. */
    method Await(request: Packet, responseKind: int, discovery: bool, arrivals: seq<Arrival>)
      returns (outcome: Outcome)
      requires Follows(true) && requests != [] && request == requests[|requests| - 1]
      requires Now().Current().sent.Some? && !Now().Current().answered
      modifies session, session.file, session.clock, `runs, `events
      ensures Valid()
      ensures outcome == Silence || IsAnswer(outcome)
      ensures
        var window := if discovery then DISCOVERY_TIMEOUT else timeout;
        outcome == Judgement(request, responseKind, FeedAll(IDLE, Heard(arrivals, window)).packets)
      ensures Awaited(old(Now()), Now(), outcome, discovery) && Now().Current().sent == old(Now()).Current().sent
    {
      ghost var before := Now();
      assert before.log != [];
      hide IsRun, Next, Judgement, FeedAll, Heard, Carries, Awaited;
      var window := if discovery then DISCOVERY_TIMEOUT else timeout;
      if discovery {
        Shorten(window + DISCOVERY_GUARD);
      }
      ghost var mid := Now();
      outcome := Listen(request, responseKind, window, arrivals);
      Ended(mid, IsAnswer(outcome));
      AwaitedFrom(before, mid, Now(), outcome, discovery);
    }

    /** `_exchange`. The driver is released on every exit, and only an answer completes the session. */
    method Exchange(request: Packet, responseKind: int, discovery: bool,
                    writeOk: bool, drainOk: bool, arrivals: seq<Arrival>)
      returns (outcome: Outcome)
      requires Follows(true) && requests != [] && request == requests[|requests| - 1]
      requires Now().Current().sent.None? && !Now().Current().answered
      modifies this`transmitting, session, session.file, session.clock, `runs, `events
      ensures Valid()
      ensures transmitting ==> outcome == Invalid && old(transmitting)
      ensures outcome == Invalid <==> !request.Valid() || (discovery && !DiscoveryRequest(request, responseKind))
      ensures outcome == UartFailure <==> outcome != Invalid && !(writeOk && drainOk)
      ensures outcome != Invalid && outcome != UartFailure ==>
        var window := if discovery then DISCOVERY_TIMEOUT else timeout;
        outcome == Judgement(request, responseKind, FeedAll(IDLE, Heard(arrivals, window)).packets)
      ensures Exchanged(old(Now()), Now(), outcome, discovery)
    {
      ghost var before := Now();
      assert before.log != [];
      hide IsRun, Next, Judgement, FeedAll, FeedByte, Heard, Carries, Awaited, Exchanged, OverNow, Packets.Wire;
      if discovery && !DiscoveryRequest(request, responseKind) {
        GivenUp();
        NotAwaited(before, Now(), Invalid, discovery);
        return Invalid;
      }
      var wire := EncodePacket(request);
      if wire.None? {
        GivenUp();
        NotAwaited(before, Now(), Invalid, discovery);
        return Invalid;
      }
      var sent := Send(writeOk, drainOk);
      ghost var mid := Now();
      if !sent {
        GivenUp();
        NotAwaited(mid, Now(), UartFailure, discovery);
        SentThenAwaited(before, mid, Now(), UartFailure, discovery);
        return UartFailure;
      }
      outcome := Await(request, responseKind, discovery, arrivals);
      SentThenAwaited(before, mid, Now(), outcome, discovery);
    }

    /** What every read does: reserve an ID, and exchange the request under it. `sources[i]` is the request the i-th
        packet heard replies to. */
    method Ask(kind: int, address: int, command: int, discovery: bool,
               writeOk: bool, drainOk: bool, arrivals: seq<Arrival>, ghost sources: seq<nat>)
      returns (outcome: Outcome)
      requires Valid() && (discovery ==> kind == CONTROL_REQUEST && command == 2)
      modifies this`transmitting, session, session.file, session.clock, `runs, `events, `requests
      ensures Valid()
      ensures
        var request := Packet(kind, address, old(session.state.nextId), command, []);
        requests == old(requests) + [request] && outcome == Answered(request, discovery, writeOk && drainOk, timeout, arrivals)
      ensures Asked(old(Now()), Now(), outcome, timeout, discovery)
      ensures
        var heard := Heard(arrivals, if discovery then DISCOVERY_TIMEOUT else timeout);
        IsAnswer(outcome) && Honest(requests, |old(requests)|, heard, sources) ==>
          OwnAnswer(outcome, heard, sources, |old(requests)|)
    {
      hide IsRun, Next, Judgement, FeedAll, FeedByte, Heard, Carries, Honest, OwnAnswer, Asked, Exchanged;
      ghost var before := Now();
      var request := Reserve(kind, address, command);
      ghost var reserved := Now();
      outcome := Exchange(request, ResponseKind(kind), discovery, writeOk, drainOk, arrivals);
      ReserveThenExchange(before, reserved, Now(), request.transaction, outcome, timeout, discovery);
      ghost var heard := Heard(arrivals, if discovery then DISCOVERY_TIMEOUT else timeout);
      if Honest(requests, |requests| - 1, heard, sources) {
        EveryAnswerIsItsOwn(runs, events, requests, ResponseKind(kind), heard, sources);
      }
    }

    /** `read_scalar`: expose the 16-bit value of a reply with status 0. On an honest line a value returned is the reply
        to its own request. */
    method ReadScalar(address: int, command: int, writeOk: bool, drainOk: bool, arrivals: seq<Arrival>,
                      ghost sources: seq<nat>)
      returns (outcome: Outcome, value: Option<nat>)
      requires Valid()
      modifies this`transmitting, session, session.file, session.clock, `runs, `events, `requests
      ensures Valid()
      ensures
        var request := Packet(REQUEST, address, old(session.state.nextId), command, []);
        requests == old(requests) + [request] && outcome == Answered(request, false, writeOk && drainOk, timeout, arrivals)
      ensures value == ScalarOf(outcome)
      ensures
        if 0 <= address <= 511 && 0 <= command <= 255 && writeOk && drainOk then
          ScalarRead(FeedAll(IDLE, Heard(arrivals, timeout)).packets, address, old(session.state.nextId), command, value)
        else value.None?
      ensures Asked(old(Now()), Now(), outcome, timeout, false)
      ensures value.Some? && Honest(requests, |old(requests)|, Heard(arrivals, timeout), sources) ==>
        OwnAnswer(outcome, Heard(arrivals, timeout), sources, |old(requests)|)
    {
      RunInvariant(runs, events, |runs| - 1);
      hide IsRun, FeedAll, FeedByte, Heard, Carries, Honest, OwnAnswer, Asked, Follows, Judgement, ScalarRead, IdRead;
      ghost var request := Packet(REQUEST, address, session.state.nextId, command, []);
      outcome := Ask(REQUEST, address, command, false, writeOk, drainOk, arrivals, sources);
      ScalarReadOf(request, FeedAll(IDLE, Heard(arrivals, timeout)).packets);
      if outcome.Reply? {
        var r := outcome.packet;
        value := Some(FromLittleEndian(r.payload[1], r.payload[2]));
      } else {
        value := None;
      }
    }

    /** `read_panel_id`: a reply naming another panel than the one addressed is an error. */
    method ReadPanelId(address: int, discovery: bool, writeOk: bool, drainOk: bool, arrivals: seq<Arrival>,
                       ghost sources: seq<nat>)
      returns (r: PanelRead, ghost outcome: Outcome)
      requires Valid()
      modifies this`transmitting, session, session.file, session.clock, `runs, `events, `requests
      ensures Valid()
      ensures !(0 <= address <= 511) ==> r == Aborted && session.View() == old(session.View()) && requests == old(requests)
      ensures 0 <= address <= 511 ==>
        var request := Packet(CONTROL_REQUEST, address, old(session.state.nextId), 2, []);
        requests == old(requests) + [request] && r == ReadOf(outcome, address) &&
        outcome == Answered(request, discovery, writeOk && drainOk, timeout, arrivals) && outcome != Invalid
      ensures 0 <= address <= 511 ==>
        if writeOk && drainOk then
          IdRead(FeedAll(IDLE, Heard(arrivals, if discovery then DISCOVERY_TIMEOUT else timeout)).packets,
                 address, old(session.state.nextId), r)
        else r == Aborted
      ensures 0 <= address <= 511 ==> Asked(old(Now()), Now(), outcome, timeout, discovery)
      ensures
        var heard := Heard(arrivals, if discovery then DISCOVERY_TIMEOUT else timeout);
        r.Id? && Honest(requests, |old(requests)|, heard, sources) ==>
          OwnAnswer(outcome, heard, sources, |old(requests)|)
    {
      if !(0 <= address <= 511) {
        return Aborted, Invalid;
      }
      RunInvariant(runs, events, |runs| - 1);
      hide IsRun, FeedAll, FeedByte, Heard, Carries, Honest, OwnAnswer, Asked, Follows, Judgement, ScalarRead, IdRead;
      ghost var request := Packet(CONTROL_REQUEST, address, session.state.nextId, 2, []);
      var result := Ask(CONTROL_REQUEST, address, 2, discovery, writeOk, drainOk, arrivals, sources);
      outcome := result;
      match result {
        case Reply(packet) =>
          r := if FromLittleEndian(packet.payload[1], packet.payload[2]) == address then Id(address) else Problem;
        case RocStatus(_) => r := Problem;
        case Silence => r := NoResponse;
        case _ => r := Aborted;
      }
      IdReadOf(request, FeedAll(IDLE, Heard(arrivals, if discovery then DISCOVERY_TIMEOUT else timeout)).packets);
    }

    /** Other clients of the bus between two probes of a scan, reading what they like. */
    method Elsewhere()
      requires Valid()
      modifies this`transmitting, session, session.file, session.clock, `runs, `events, `requests
      ensures Valid() && old(requests) <= requests
    {
      var n: int := *;
      for i := 0 to if n < 0 then 0 else n
        invariant Valid() && old(requests) <= requests
      {
        var address, command, writeOk, drainOk, arrivals: seq<Arrival> := *, *, *, *, *;
        var _, _ := ReadScalar(address, command, writeOk, drainOk, arrivals, []);
      }
    }

    /** One probe of a scan, after its turn on the bus has come. */
    method ProbeNext(address: int, attempt: Attempt) returns (read: PanelRead)
      requires Valid() && 0 <= address <= 511
      modifies this`transmitting, session, session.file, session.clock, `runs, `events, `requests
      ensures Valid() && requests != [] && old(requests) <= requests[..|requests| - 1]
      ensures read.Aborted? <==> !attempt.UartOk()
      ensures !read.Aborted? ==>
        var request := requests[|requests| - 1];
        requests == requests[..|requests| - 1] + [request] &&
        request == Packet(CONTROL_REQUEST, address, request.transaction, 2, []) &&
        read == Probe(address, request.transaction, DISCOVERY_TIMEOUT, attempt.arrivals)
    {
      hide IsRun, Judgement, FeedAll, FeedByte, Heard, Carries, Honest, OwnAnswer, Asked;
      Elsewhere();
      ghost var before := requests;
      ghost var outcome;
      read, outcome := ReadPanelId(address, true, attempt.writeOk, attempt.drainOk, attempt.arrivals, []);
      assert requests[..|requests| - 1] == before;
    }

    /** `RS485.discover`: every address probed once, in order, the bus given up between probes; a failing UART abandons
        the scan. `attempts` is what the UART does at each address, `at` where its request went. */
    method Discover(start: int, end: int, attempts: int -> Attempt) returns (r: Option<Inventory>, ghost at: seq<nat>)
      requires Valid()
      modifies this`transmitting, session, session.file, session.clock, `runs, `events, `requests
      ensures Valid()
      ensures r.Some? <==> 0 <= start <= end <= 511 && forall a :: start <= a <= end ==> attempts(a).UartOk()
      ensures r.Some? ==> Lists(r.value, attempts, requests, at, start, end + 1)
      ensures old(requests) <= requests && AllFrom(at, |old(requests)|)
    {
      at := [];
      assert AllFrom(at, |requests|);
      if !(0 <= start <= end <= 511) {
        return None, at;
      }
      hide *;
      var inventory := Inventory([], [], []);
      NothingListed(attempts, requests, start);
      for address := start to end + 1
        invariant Valid() && old(requests) <= requests
        invariant Lists(inventory, attempts, requests, at, start, address)
        invariant AllFrom(at, |old(requests)|)
      {
        ghost var before := requests;
        var read := ProbeNext(address, attempts(address));
        if read == Aborted {
          return None, at;
        }
        ghost var others := requests[..|requests| - 1];
        ListsStay(inventory, attempts, before, others, at, start, address);
        ListOneMore(inventory, attempts, others, requests[|requests| - 1], at, start, address);
        NoneBefore(at, |old(requests)|, |others|);
        inventory, at := Add(inventory, address, read), at + [|others|];
      }
      AllUartOk(inventory, attempts, requests, at, start, end + 1);
      return Some(inventory), at;
    }

    /** The receive loop of `_exchange`: feed every chunk to a fresh parser until an answer or the deadline. */
    method Listen(request: Packet, responseKind: int, window: real, arrivals: seq<Arrival>)
      returns (outcome: Outcome)
      modifies session, session.file, session.clock
      ensures outcome == Judgement(request, responseKind, FeedAll(IDLE, Heard(arrivals, window)).packets)
      ensures outcome == Silence || IsAnswer(outcome)
      ensures session.clock.now >= old(session.clock.now)
      ensures session.state == if outcome == Silence then old(session.state) else old(session.state).(notBefore := 0.0)
      ensures session.file.content == if outcome == Silence then old(session.file.content) else Json(session.state)
    {
      var stream := new FrameStream();
      ghost var heard := Heard(arrivals, window);
      ghost var consumed: seq<byte>, packets: seq<Packet> := [], [];
      assert FeedAll(IDLE, consumed) == Fed(IDLE, []);
      assert arrivals[0..] == arrivals;
      hide FeedByte, FeedAll, Heard, FirstAnswer, Answers, Judgement;
      for i := 0 to |arrivals|
        invariant stream.State() == FeedAll(IDLE, consumed).parser
        invariant packets == FeedAll(IDLE, consumed).packets
        invariant heard == consumed + Heard(arrivals[i..], window)
        invariant FirstAnswer(request, responseKind, packets) == |packets|
        invariant fresh(stream) && session.clock.now >= old(session.clock.now)
        invariant session.state == old(session.state) && session.file.content == old(session.file.content)
      {
        if arrivals[i].tested >= window {
          HeardNoMore(arrivals[i..], window);
          assert heard == consumed;
          JudgedByFirst(request, responseKind, packets);
          return Silence;
        }
        session.clock.Pass();
        var responses := stream.Feed(arrivals[i].data);
        var j := FindAnswer(request, responseKind, responses);
        HeardOneMore(arrivals, i, window, consumed, heard);
        if j < |responses| {
          JudgedInChunk(request, responseKind, packets, responses, FeedAll(IDLE, heard).packets);
          session.Complete();
          var answer := responses[j];
          return if answer.payload[0] != 0 then RocStatus(answer.payload[0]) else Reply(answer);
        }
        FirstAnswerAppend(request, responseKind, packets, responses);
        consumed, packets := consumed + arrivals[i].data, packets + responses;
      }
      HeardNoMore(arrivals[|arrivals|..], window);
      assert heard == consumed;
      JudgedByFirst(request, responseKind, packets);
      return Silence;
    }
  }

  lemma HeardNoMore(arrivals: seq<Arrival>, window: real)
    requires arrivals == [] || arrivals[0].tested >= window
    ensures Heard(arrivals, window) == []
  {}

  lemma JudgedInChunk(request: Packet, responseKind: int, before: seq<Packet>, chunk: seq<Packet>, whole: seq<Packet>)
    requires FirstAnswer(request, responseKind, before) == |before| && before + chunk <= whole
    requires FirstAnswer(request, responseKind, chunk) < |chunk|
    ensures var answer := chunk[FirstAnswer(request, responseKind, chunk)];
            |answer.payload| == 3 && Judgement(request, responseKind, whole) ==
              if answer.payload[0] != 0 then RocStatus(answer.payload[0]) else Reply(answer)
  {
    FirstAnswerAppend(request, responseKind, before, chunk);
    FirstAnswerPrefix(request, responseKind, before + chunk, whole);
    JudgedByFirst(request, responseKind, whole);
    hide FirstAnswer, Judgement;
    var j := FirstAnswer(request, responseKind, chunk);
    assert whole[|before| + j] == (before + chunk)[|before| + j] == chunk[j];
  }

  lemma JudgedByFirst(request: Packet, responseKind: int, packets: seq<Packet>)
    ensures var i, outcome := FirstAnswer(request, responseKind, packets), Judgement(request, responseKind, packets);
            if i == |packets| then outcome == Silence
            else |packets[i].payload| == 3 &&
                 outcome == if packets[i].payload[0] != 0 then RocStatus(packets[i].payload[0]) else Reply(packets[i])
  {}

  lemma HeardOneMore(arrivals: seq<Arrival>, i: nat, window: real, consumed: seq<byte>, heard: seq<byte>)
    requires i < |arrivals| && arrivals[i].tested < window
    requires heard == consumed + Heard(arrivals[i..], window)
    ensures var next := consumed + arrivals[i].data;
            var before, after := FeedAll(IDLE, consumed), FeedAll(IDLE, next);
            && heard == next + Heard(arrivals[i + 1..], window)
            && after.parser == FeedAll(before.parser, arrivals[i].data).parser
            && after.packets == before.packets + FeedAll(before.parser, arrivals[i].data).packets
            && after.packets <= FeedAll(IDLE, heard).packets
  {
    hide FeedByte;
    assert arrivals[i..][1..] == arrivals[i + 1..];
    FeedAllAppend(IDLE, consumed, arrivals[i].data);
    var later := Heard(arrivals[i + 1..], window);
    assert heard == (consumed + arrivals[i].data) + later;
    FeedAllAppend(IDLE, consumed + arrivals[i].data, later);
  }

  /** The loop over one chunk's responses: skip what does not match, and what has the wrong length. */
  method FindAnswer(request: Packet, responseKind: int, responses: seq<Packet>) returns (j: nat)
    ensures j == FirstAnswer(request, responseKind, responses)
  {
    j := 0;
    while j < |responses|
      invariant j <= |responses|
      invariant j + FirstAnswer(request, responseKind, responses[j..])
             == FirstAnswer(request, responseKind, responses)
    {
      var response := responses[j];
      assert responses[j..][1..] == responses[j + 1..];
      if response.kind == responseKind && response.roc == request.roc &&
         response.transaction == request.transaction && response.command == request.command {
        if |response.payload| == 3 {
          return;
        }
      }
      j := j + 1;
    }
  }

  lemma FirstAnswerUnique(request: Packet, responseKind: int, packets: seq<Packet>, i: nat)
    requires i <= |packets| && (i < |packets| ==> Answers(request, responseKind, packets[i]))
    requires forall j :: 0 <= j < i ==> !Answers(request, responseKind, packets[j])
    ensures FirstAnswer(request, responseKind, packets) == i
  {}

  lemma FirstAnswerAppend(request: Packet, responseKind: int, a: seq<Packet>, b: seq<Packet>)
    requires FirstAnswer(request, responseKind, a) == |a|
    ensures FirstAnswer(request, responseKind, a + b) == |a| + FirstAnswer(request, responseKind, b)
  {
    FirstAnswerUnique(request, responseKind, a + b, |a| + FirstAnswer(request, responseKind, b));
  }

  lemma FirstAnswerPrefix(request: Packet, responseKind: int, a: seq<Packet>, whole: seq<Packet>)
    requires |a| <= |whole| && whole[..|a|] == a && FirstAnswer(request, responseKind, a) < |a|
    ensures FirstAnswer(request, responseKind, whole) == FirstAnswer(request, responseKind, a)
  {
    var i := FirstAnswer(request, responseKind, a);
    hide FirstAnswer, Answers;
    forall j | 0 <= j <= i ensures whole[j] == a[j] {
      assert whole[..|a|][j] == whole[j];
    }
    FirstAnswerUnique(request, responseKind, whole, i);
  }

  // ---------- Late replies ----------

  function ResponseKind(requestKind: int): int {
    if requestKind == REQUEST then RESPONSE else CONTROL_RESPONSE
  }

  predicate IsResponse(r: Packet) {
    r.kind == RESPONSE || r.kind == CONTROL_RESPONSE
  }

  /** A panel's reply repeats the address, transaction and command of the request it answers. */
  predicate Echoes(request: Packet, r: Packet) {
    r.kind == ResponseKind(request.kind) && r.roc == request.roc &&
    r.transaction == request.transaction && r.command == request.command
  }

  /** The requests of a run, one per reservation. */
  predicate Carries(log: seq<Reservation>, requests: seq<Packet>) {
    |requests| == |log| && forall i :: 0 <= i < |log| ==> requests[i].transaction == log[i].id
  }

  /** A reply to request `m` is taken for a reply to request `n` exactly when both ask the same
      command of the same panel in the same way and a multiple of 65,536 reservations lies between. */
  lemma LateReplyMatchesIff(runs: seq<Run>, events: seq<Event>, k: nat, requests: seq<Packet>, m: nat, n: nat, r: Packet)
    requires IsRun(runs, events) && k < |runs| && Carries(runs[k].log, requests)
    requires m <= n < |requests| && Echoes(requests[m], r)
    ensures Matches(requests[n], ResponseKind(requests[n].kind), r) <==>
      && ResponseKind(requests[m].kind) == ResponseKind(requests[n].kind)
      && requests[m].roc == requests[n].roc && requests[m].command == requests[n].command
      && (n - m) % ID_SPACE == 0
  {
    IdsRepeatEvery65536(runs, events, k, m, n);
  }

  /** `sources[i]` is the request the i-th packet heard during exchange `n` replies to: panels echo the identity, and
      no reply is 65,536 or more reservations late. */
  predicate Honest(requests: seq<Packet>, n: nat, heard: seq<byte>, sources: seq<nat>) {
    var packets := FeedAll(IDLE, heard).packets;
    |sources| == |packets| &&
    forall i :: 0 <= i < |packets| && IsResponse(packets[i]) ==>
      sources[i] <= n < |requests| && n - sources[i] < ID_SPACE && Echoes(requests[sources[i]], packets[i])
  }

  predicate IsAnswer(outcome: Outcome) {
    outcome.Reply? || outcome.RocStatus?
  }

  /** A packet that was heard, whole and valid, as a reply to request `n`, is what the outcome comes from. */
  ghost predicate OwnAnswer(outcome: Outcome, heard: seq<byte>, sources: seq<nat>, n: nat) {
    var packets := FeedAll(IDLE, heard).packets;
    |sources| == |packets| &&
    exists i :: 0 <= i < |packets| && AnswerAt(outcome, packets[i], heard) && sources[i] == n
  }

  ghost predicate AnswerAt(outcome: Outcome, p: Packet, heard: seq<byte>) {
    p.Valid() && Occurs(Wire(p), heard) && |p.payload| == 3 &&
    outcome == if p.payload[0] != 0 then RocStatus(p.payload[0]) else Reply(p)
  }

  /** Late-reply safety. If the line is honest, whatever ends an exchange, a value or a status error, is the reply to
      its own request: across timeouts, duplicates, stray frames, crashes and restarts. */
  lemma EveryAnswerIsItsOwn(runs: seq<Run>, events: seq<Event>, requests: seq<Packet>, responseKind: int,
                            heard: seq<byte>, sources: seq<nat>)
    requires runs != [] && IsRun(runs, events) && Carries(runs[|runs| - 1].log, requests) && requests != []
    requires responseKind == ResponseKind(requests[|requests| - 1].kind)
    requires Honest(requests, |requests| - 1, heard, sources)
    ensures var outcome := Judgement(requests[|requests| - 1], responseKind, FeedAll(IDLE, heard).packets);
            IsAnswer(outcome) ==> OwnAnswer(outcome, heard, sources, |requests| - 1)
  {
    hide FeedAll, Packets.Wire, IsRun, Carries;
    var n := |requests| - 1;
    var packets := FeedAll(IDLE, heard).packets;
    var i := FirstAnswer(requests[n], responseKind, packets);
    if i < |packets| {
      LateReplyMatchesIff(runs, events, |runs| - 1, requests, sources[i], n, packets[i]);
      EmittedIffPresent(heard, packets[i]);
      assert AnswerAt(Judgement(requests[n], responseKind, packets), packets[i], heard);
    }
  }

  /** A clean end or a crash, and the next process that opens the bus. */
  lemma Reopened(r: Run, down: Run, up: Run)
    requires down == Run(Bus(down.bus.now, r.bus.disk, None), r.log, false) && r.bus.now <= down.bus.now
    requires OpenStep(down.bus, up.bus) && up.log == r.log && !up.owned
    ensures Next(r, Crash, down) && Next(down, Open, up)
  {}

  /** What the history of a bus object tells: it never sent anything before the holdoff of an earlier request without
      an answer, in this process or an earlier one. */
  lemma NothingSentEarly(bus: PiBus, i: nat, j: nat)
    requires bus.Valid() && i < j < |bus.Now().log|
    ensures
      var log := bus.Now().log;
      log[i].sent.Some? && !log[i].answered && log[j].sent.Some? ==> log[j].sent.value >= log[i].holdoff
  {
    RunInvariant(bus.runs, bus.events, |bus.runs| - 1);
  }
}
