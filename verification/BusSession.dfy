/** The persistent bus session of rs485.py: transaction IDs and reply holdoff that survive a crash.

    Time is the wall clock of `time.time()`, assumed never to go back. The saved file is replaced
    atomically. A crash is the loss of the session object at any moment. */
module BusSessions {
  import opened Options
  import opened Packets

  const ID_SPACE: nat := 65536

  /** The JSON object kept in memory as `state` and on disk. */
  datatype Saved = Saved(nextId: int, notBefore: real)
  {
    predicate Valid() {
      0 <= nextId < ID_SPACE
    }
  }

  /** The file: empty, the state last saved, or anything that is not an integer and a finite time. */
  datatype Content = Blank | Malformed | Json(saved: Saved)
  {
    predicate Usable() {
      Blank? || (Json? && saved.Valid())
    }
  }

  /** Everything a session touches. `mem` is `None` while no process owns the bus. */
  datatype Bus = Bus(now: real, disk: Content, mem: Option<Saved>)

  // ---------- The four operations, as relations between the bus before and after ----------

  predicate Later(b: Bus, b': Bus) {
    b.now <= b'.now && b'.mem.Some?
  }

  predicate OpenStep(b: Bus, b': Bus) {
    Later(b, b') && b'.disk == b.disk && b.disk.Usable() &&
    b'.mem.value.Valid() && b'.mem.value.notBefore == 0.0 &&
    (b.disk.Json? ==> b.disk.saved.notBefore <= b'.now && b'.mem.value.nextId == b.disk.saved.nextId)
  }

  predicate ReserveStep(b: Bus, b': Bus, window: real, id: int)
    requires b.mem.Some?
  {
    Later(b, b') && b'.disk == Json(b'.mem.value) && id == b.mem.value.nextId &&
    b'.mem.value.nextId == (id + 1) % ID_SPACE &&
    var at := b'.mem.value.notBefore - window;
    b.now <= at <= b'.now && b.mem.value.notBefore <= at
  }

  predicate ShortenStep(b: Bus, b': Bus, window: real)
    requires b.mem.Some?
  {
    Later(b, b') && b'.disk == Json(b'.mem.value) && b'.mem.value.nextId == b.mem.value.nextId &&
    b.now <= b'.mem.value.notBefore - window <= b'.now
  }

  predicate CompleteStep(b: Bus, b': Bus)
    requires b.mem.Some?
  {
    Later(b, b') && b'.disk == Json(b'.mem.value) && b'.mem.value == b.mem.value.(notBefore := 0.0)
  }

  // ---------- The source's objects ----------

  /** `time.time()` and `time.sleep()`: how far the clock moves is up to the environment. */
  class Clock {
    var now: real

    method Time() returns (t: real)
      modifies this
      ensures t == now >= old(now)
    {
      var passed: real := *;
      if passed > 0.0 {
        now := now + passed;
      }
      t := now;
    }

    /** Time goes by, as it does while the UART is used. */
    method Pass()
      modifies this
      ensures now >= old(now)
    {
      var _ := Time();
    }

    method Sleep(delay: real)
      modifies this
      ensures now >= old(now) + delay && now >= old(now)
    {
      if delay > 0.0 {
        now := now + delay;
      }
      var _ := Time();
    }
  }

  class StateFile {
    var content: Content
  }

  class BusSession {
    const file: StateFile
    const clock: Clock
    var state: Saved

    function View(): Bus
      reads this, file, clock
    {
      Bus(clock.now, file.content, Some(state))
    }

    constructor (file: StateFile, clock: Clock, loaded: Saved)
      ensures this.file == file && this.clock == clock && state == loaded
    {
      this.file, this.clock, state := file, clock, loaded;
    }

    /** `__enter__`: with the lock held, load the saved state or draw a first ID, and wait the holdoff out. Null for an
        error, which leaves everything as it was. */
    static method Open(file: StateFile, clock: Clock, lockFree: bool, drawn: int) returns (session: BusSession?)
      requires 0 <= drawn < ID_SPACE
      modifies clock
      ensures session == null <==> !lockFree || file.content.Malformed? ||
                                   (file.content.Json? && !(0 <= file.content.saved.nextId <= 65535))
      ensures session == null ==> clock.now == old(clock.now)
      ensures session != null ==> fresh(session) && session.file == file && session.clock == clock
      ensures session != null ==> OpenStep(Bus(old(clock.now), file.content, None), session.View())
      ensures session != null && file.content.Blank? ==> session.state.nextId == drawn
    {
      if !lockFree || !file.content.Usable() {
        return null;
      }
      session := new BusSession(file, clock, if file.content.Json? then file.content.saved else Saved(drawn, 0.0));
      session.WaitReady();
    }

    method WaitReady()
      modifies this, clock
      ensures state == old(state).(notBefore := 0.0)
      ensures clock.now >= old(clock.now) && clock.now >= old(state.notBefore)
    {
      var t := clock.Time();
      var delay := state.notBefore - t;
      if delay > 0.0 {
        clock.Sleep(delay);
      }
      state := state.(notBefore := 0.0);
    }

    method Reserve(window: real) returns (transaction: int)
      requires state.Valid()
      modifies this, file, clock
      ensures ReserveStep(old(View()), View(), window, transaction)
    {
      WaitReady();
      transaction := state.nextId;
      state := state.(nextId := (transaction + 1) % ID_SPACE);
      var t := clock.Time();
      state := state.(notBefore := t + window);
      file.content := Json(state);
    }

    method Complete()
      modifies this, file
      ensures CompleteStep(old(View()), View()) && clock.now == old(clock.now)
    {
      state := state.(notBefore := 0.0);
      file.content := Json(state);
    }

    method ResponseWindow(window: real)
      modifies this, file, clock
      ensures ShortenStep(old(View()), View(), window)
    {
      var t := clock.Time();
      state := state.(notBefore := t + window);
      file.content := Json(state);
    }
  }

  // ---------- Whole runs, with crashes and restarts ----------

  /** One reservation: its ID, the `not_before` last saved for it, when its request was put on the
      wire, and whether its reply ended it. */
  datatype Reservation = Reservation(id: int, holdoff: real, sent: Option<real>, answered: bool)

  datatype Run = Run(bus: Bus, log: seq<Reservation>, owned: bool)
  {
    predicate HasCurrent() {
      owned && log != [] && bus.mem.Some?
    }

    function Current(): Reservation
      requires log != []
    {
      log[|log| - 1]
    }

    function WithCurrent(r: Reservation): seq<Reservation>
      requires log != []
    {
      log[..|log| - 1] + [r]
    }
  }

  /** `owned` marks that the last reservation belongs to an exchange still in progress. */
  datatype Event =
    | Open
    | Reserve(window: real, id: int)
    | Transmit(at: real)
    | Shorten(window: real)
    | Complete
    | GiveUp
    | Crash

  predicate Initial(r: Run) {
    r.bus.mem.None? && r.log == [] && !r.owned
  }

  predicate Next(r: Run, e: Event, r': Run) {
    match e
    case Open =>
      r.bus.mem.None? && OpenStep(r.bus, r'.bus) && r'.log == r.log && !r'.owned
    case Reserve(window, id) =>
      r.bus.mem.Some? && !r.owned && ReserveStep(r.bus, r'.bus, window, id) && r'.owned &&
      r'.log == r.log + [Reservation(id, r'.bus.mem.value.notBefore, None, false)]
    case Transmit(at) =>
      r.HasCurrent() && r.Current().sent.None? && r'.owned &&
      r.bus.now <= at <= r'.bus.now && r'.bus == r.bus.(now := r'.bus.now) &&
      r'.log == r.WithCurrent(r.Current().(sent := Some(at)))
    case Shorten(window) =>
      r.HasCurrent() && r.Current().sent.Some? && ShortenStep(r.bus, r'.bus, window) && r'.owned &&
      r'.log == r.WithCurrent(r.Current().(holdoff := r'.bus.mem.value.notBefore))
    case Complete =>
      r.HasCurrent() && r.Current().sent.Some? && CompleteStep(r.bus, r'.bus) && !r'.owned &&
      r'.log == r.WithCurrent(r.Current().(answered := true))
    case GiveUp =>
      // timeout, failed write or any other exception that leaves the session open
      r.bus.now <= r'.bus.now && r'.bus == r.bus.(now := r'.bus.now) && r'.log == r.log && !r'.owned
    case Crash =>
      r.bus.now <= r'.bus.now && r'.bus == Bus(r'.bus.now, r.bus.disk, None) && r'.log == r.log && !r'.owned
  }

  predicate IsRun(runs: seq<Run>, events: seq<Event>) {
    |runs| == |events| + 1 && Initial(runs[0]) &&
    forall i :: 0 <= i < |events| ==> Next(runs[i], events[i], runs[i + 1])
  }

  /** A step that is right after some waiting is right without it, and continues any run. */
  lemma RunOn(runs: seq<Run>, events: seq<Event>, now: real, e: Event, r': Run)
    requires IsRun(runs, events)
    requires var r := runs[|runs| - 1]; r.bus.now <= now && Next(r.(bus := r.bus.(now := now)), e, r')
    ensures IsRun(runs + [r'], events + [e])
  {
    assert Next(runs[|runs| - 1], e, r');
    hide Next, Initial;
    var runs', events' := runs + [r'], events + [e];
    forall i | 0 <= i < |events'| ensures Next(runs'[i], events'[i], runs'[i + 1]) {
      if i < |events| {
        assert runs'[i] == runs[i] && runs'[i + 1] == runs[i + 1] && events'[i] == events[i];
      }
    }
  }

  /** The bus was kept quiet until the holdoff of every unanswered transmission. */
  predicate Quiet(log: seq<Reservation>) {
    forall i, j :: 0 <= i < j < |log| && log[i].sent.Some? && !log[i].answered && log[j].sent.Some? ==>
      log[j].sent.value >= log[i].holdoff
  }

  /** Every reservation takes the ID after the one before, also across restarts. */
  predicate Consecutive(log: seq<Reservation>) {
    forall i :: 0 <= i < |log| - 1 ==> log[i + 1].id == (log[i].id + 1) % ID_SPACE
  }

  predicate IdInvariant(r: Run) {
    && (r.bus.mem.Some? ==> r.bus.mem.value.Valid() && r.bus.disk.Usable())
    && (r.bus.mem.Some? && r.bus.disk.Json? ==> r.bus.mem.value.nextId == r.bus.disk.saved.nextId)
    && (forall i :: 0 <= i < |r.log| ==> 0 <= r.log[i].id < ID_SPACE)
    && (r.log != [] ==> r.bus.disk.Json? && r.bus.disk.saved.nextId == (r.Current().id + 1) % ID_SPACE)
    && Consecutive(r.log)
  }

  predicate Over(x: Reservation, now: real) {
    x.answered || x.holdoff <= now
  }

  predicate HoldoffInvariant(r: Run) {
    && Quiet(r.log)
    && (r.owned ==> r.log != [] && r.bus.mem.Some?)
    // every reservation but the last is answered or its holdoff has passed
    && (forall i :: 0 <= i < |r.log| - 1 ==> Over(r.log[i], r.bus.now))
    // the last one is, or it still holds the bus back: on disk for a restart, in memory for this process
    && (r.log != [] && !Over(r.Current(), r.bus.now) ==>
          r.bus.disk.Json? && r.bus.disk.saved.notBefore == r.Current().holdoff &&
          (r.bus.mem.Some? ==> r.bus.mem.value.notBefore == r.Current().holdoff))
  }

  lemma NextKeepsIds(r: Run, e: Event, r': Run)
    requires IdInvariant(r) && Next(r, e, r')
    ensures IdInvariant(r')
  {
    hide Consecutive;
    match e
    case Open =>
    case Reserve(_, _) => ConsecutiveOne(r.log, r'.Current());
    case Transmit(_) => SameIds(r.log, r'.log);
    case Shorten(_) => SameIds(r.log, r'.log);
    case Complete => SameIds(r.log, r'.log);
    case GiveUp =>
    case Crash =>
  }

  lemma ConsecutiveOne(log: seq<Reservation>, x: Reservation)
    requires Consecutive(log) && (log != [] ==> x.id == (log[|log| - 1].id + 1) % ID_SPACE)
    ensures Consecutive(log + [x])
  {}

  lemma SameIds(log: seq<Reservation>, log': seq<Reservation>)
    requires |log'| == |log| != 0 && log'[..|log| - 1] == log[..|log| - 1] && log'[|log| - 1].id == log[|log| - 1].id
    ensures forall i :: 0 <= i < |log| ==> log'[i].id == log[i].id
    ensures Consecutive(log) ==> Consecutive(log')
  {
    forall i | 0 <= i < |log| - 1 ensures log'[i] == log[i] {
      assert log'[..|log| - 1][i] == log[..|log| - 1][i];
    }
  }

  /** Replacing the last entry by one that was sent no earlier than allowed keeps the bus quiet. */
  lemma QuietReplaced(log: seq<Reservation>, x: Reservation, now: real)
    requires Quiet(log) && log != []
    requires forall i :: 0 <= i < |log| - 1 ==> Over(log[i], now)
    requires x.sent == log[|log| - 1].sent || (x.sent.Some? && x.sent.value >= now)
    ensures Quiet(log[..|log| - 1] + [x])
  {
    var log' := log[..|log| - 1] + [x];
    forall i, j | 0 <= i < j < |log'| && log'[i].sent.Some? && !log'[i].answered && log'[j].sent.Some?
      ensures log'[j].sent.value >= log'[i].holdoff
    {
      assert log'[i] == log[i];
    }
  }

  lemma NextKeepsHoldoff(r: Run, e: Event, r': Run)
    requires HoldoffInvariant(r) && Next(r, e, r')
    ensures HoldoffInvariant(r')
  {
    forall i | 0 <= i < |r.log| && Over(r.log[i], r.bus.now) ensures Over(r.log[i], r'.bus.now) {}
    match e {
      case Open =>
      case Reserve(window, id) =>
        if r.log != [] {
          assert Over(r.Current(), r'.bus.now);
        }
      case Transmit(at) =>
        QuietReplaced(r.log, r'.Current(), r.bus.now);
      case Shorten(window) =>
        QuietReplaced(r.log, r'.Current(), r.bus.now);
      case Complete =>
        QuietReplaced(r.log, r'.Current(), r.bus.now);
      case GiveUp =>
      case Crash =>
    }
  }

  lemma {:induction false} RunInvariant(runs: seq<Run>, events: seq<Event>, k: nat)
    requires IsRun(runs, events) && k < |runs|
    ensures IdInvariant(runs[k]) && HoldoffInvariant(runs[k])
  {
    if k > 0 {
      RunInvariant(runs, events, k - 1);
      NextKeepsIds(runs[k - 1], events[k - 1], runs[k]);
      NextKeepsHoldoff(runs[k - 1], events[k - 1], runs[k]);
    }
  }

  /** In every run, through timeouts, failed writes, shortened windows, crashes and restarts, no
      request is put on the wire before the `not_before` of any earlier one that was not answered. */
  lemma HoldoffAcrossCrashes(runs: seq<Run>, events: seq<Event>, k: nat, i: nat, j: nat)
    requires IsRun(runs, events) && k < |runs|
    requires var log := runs[k].log;
             i < j < |log| && log[i].sent.Some? && !log[i].answered && log[j].sent.Some?
    ensures runs[k].log[j].sent.value >= runs[k].log[i].holdoff
  {
    RunInvariant(runs, events, k);
  }

  lemma {:induction false} IdsFromFirst(log: seq<Reservation>, i: nat, j: nat)
    requires Consecutive(log) && i <= j < |log| && forall n :: 0 <= n < |log| ==> 0 <= log[n].id < ID_SPACE
    ensures log[j].id == (log[i].id + (j - i)) % ID_SPACE
    decreases j - i
  {
    if i < j {
      IdsFromFirst(log, i, j - 1);
    }
  }

  /** Two reservations share an ID exactly when a multiple of 65,536 lies between them. */
  lemma IdsRepeatEvery65536(runs: seq<Run>, events: seq<Event>, k: nat, i: nat, j: nat)
    requires IsRun(runs, events) && k < |runs| && i <= j < |runs[k].log|
    ensures runs[k].log[i].id == runs[k].log[j].id <==> (j - i) % ID_SPACE == 0
  {
    RunInvariant(runs, events, k);
    IdsFromFirst(runs[k].log, i, j);
  }
}
