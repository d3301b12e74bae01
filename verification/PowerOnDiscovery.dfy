/** Discovery after a power-on (rs485-server/power_on_discovery.py): a request waits for its delay and is retried
    within a window. */
module PowerOnDiscoveries {
  import opened Options

  /** What becomes of an attempt: stopped before the scan, the supply seen off, the bus busy, another failure, or done. */
  datatype Outcome = Stopping | SupplyOff | Busy | Failed | Completed

  datatype Event = Received(valid: bool, now: real) | Stepped(now: real, stopped: bool, outcome: Outcome)

  /** `due` and `expires`; and, for the request they belong to, when it first fell due and the attempts made since. */
  datatype State = State(due: Option<real>, expires: Option<real>, firstDue: real, attempts: nat)

  const IDLE: State := State(None, None, 0.0, 0)

  function Receive(s: State, valid: bool, now: real, delay: real, window: real): State {
    if !valid then s else State(Some(now + delay), Some(now + delay + window), now + delay, 0)
  }

  function Attempt(s: State, now: real, outcome: Outcome): State
    requires s.due.Some?
  {
    var tried := s.(attempts := s.attempts + 1);
    match outcome
    case Stopping => tried
    case Busy => tried.(due := Some(now + 0.25))
    case Failed => tried.(due := Some(now + 2.0))
    case _ => tried.(due := None, expires := None)
  }

  function Step(s: State, now: real, stopped: bool, outcome: Outcome): State {
    if s.due.None? || now < s.due.value || stopped then s
    else if s.expires.Some? && now > s.expires.value then s.(due := None, expires := None)
    else Attempt(s, now, outcome)
  }

  function Next(s: State, e: Event, delay: real, window: real): State {
    match e
    case Received(valid, now) => Receive(s, valid, now, delay, window)
    case Stepped(now, stopped, outcome) => Step(s, now, stopped, outcome)
  }

  function Run(events: seq<Event>, delay: real, window: real): State {
    if events == [] then IDLE
    else Next(Run(events[..|events| - 1], delay, window), events[|events| - 1], delay, window)
  }

  /** No step is taken once one of them was asked to stop on the way: the stop flag is never cleared. */
  predicate StopsForGood(events: seq<Event>) {
    forall i, j :: 0 <= i < j < |events| && events[i].Stepped? && events[i].outcome == Stopping && events[j].Stepped? ==>
      events[j].stopped
  }

  predicate Sound(s: State, window: real, stopping: bool) {
    (s.due.Some? <==> s.expires.Some?) &&
    (s.expires.Some? ==> s.expires.value == s.firstDue + window) &&
    (s.attempts > 0 ==> (s.attempts - 1) as real * 0.25 <= window) &&
    (s.due.Some? ==> s.due.value >= s.firstDue + s.attempts as real * 0.25 || (stopping && s.attempts > 0))
  }

  predicate Stopped(events: seq<Event>) {
    exists i :: 0 <= i < |events| && events[i].Stepped? && events[i].outcome == Stopping
  }

  lemma {:induction false} EveryRunIsSound(events: seq<Event>, delay: real, window: real)
    requires window >= 0.0 && StopsForGood(events)
    ensures Sound(Run(events, delay, window), window, Stopped(events))
  {
    if events != [] {
      var front, last := events[..|events| - 1], events[|events| - 1];
      EveryRunIsSound(front, delay, window);
      assert Stopped(front) ==> Stopped(events);
      if last.Stepped? && last.outcome == Stopping {
        assert events[|front|] == last;
      }
      SoundStep(Run(front, delay, window), last, delay, window, Stopped(front), Stopped(events));
    }
  }

  lemma SoundStep(s: State, e: Event, delay: real, window: real, before: bool, after: bool)
    requires window >= 0.0 && Sound(s, window, before) && (before ==> after)
    requires e.Stepped? && before ==> e.stopped
    requires e.Stepped? && e.outcome == Stopping ==> after
    ensures Sound(Next(s, e, delay, window), window, after)
  {
    if e.Stepped? && s.due.Some? && e.now >= s.due.value && !e.stopped && e.now <= s.expires.value {
      assert (s.attempts + 1) as real * 0.25 == s.attempts as real * 0.25 + 0.25;
    }
  }

  /** A request and its expiry come and go together, and with the default window of a minute no request is attempted
      more than 241 times, whatever the steps find. */
  lemma AtMost241Attempts(events: seq<Event>, delay: real)
    requires StopsForGood(events)
    ensures var s := Run(events, delay, 60.0); (s.due.Some? <==> s.expires.Some?) && s.attempts <= 241
  {
    EveryRunIsSound(events, delay, 60.0);
  }

  /** When the latest valid power-on came. */
  function LatestPowerOn(events: seq<Event>): Option<real> {
    if events == [] then None
    else
      var last := events[|events| - 1];
      if last.Received? && last.valid then Some(last.now) else LatestPowerOn(events[..|events| - 1])
  }

  /** A pending request is that of the latest power-on: it fell due its delay later, and expires its window after that. */
  lemma {:induction false} PendingIsLatest(events: seq<Event>, delay: real, window: real)
    ensures var s := Run(events, delay, window);
      s.due.Some? ==>
        LatestPowerOn(events).Some? && s.firstDue == LatestPowerOn(events).value + delay &&
        s.expires == Some(s.firstDue + window)
  {
    if events != [] {
      PendingIsLatest(events[..|events| - 1], delay, window);
    }
  }

  /** So no attempt is made until the delay after the latest power-on is over, nor after the window that follows it. */
  lemma AttemptsKeepToWindow(events: seq<Event>, now: real, stopped: bool, outcome: Outcome, delay: real, window: real)
    requires window >= 0.0 && StopsForGood(events) && (Stopped(events) ==> stopped)
    requires Step(Run(events, delay, window), now, stopped, outcome).attempts > Run(events, delay, window).attempts
    ensures LatestPowerOn(events).Some?
    ensures LatestPowerOn(events).value + delay <= now <= LatestPowerOn(events).value + delay + window
  {
    var s := Run(events, delay, window);
    PendingIsLatest(events, delay, window);
    EveryRunIsSound(events, delay, window);
    hide Run;
    assert s.attempts as real * 0.25 >= 0.0;
  }

  // ---------- The class ----------

  class PowerOnDiscovery {
    const delay: real
    const retrySeconds: real
    var due: Option<real>
    var expires: Option<real>
    var stop: bool
    ghost var events: seq<Event>

    ghost predicate Valid()
      reads this
    {
      retrySeconds >= 0.0 && StopsForGood(events) && (Stopped(events) ==> stop) &&
      due == Run(events, delay, retrySeconds).due && expires == Run(events, delay, retrySeconds).expires
    }

    constructor (delay: real, retrySeconds: real)
      requires retrySeconds >= 0.0
      ensures Valid() && events == [] && this.delay == delay && this.retrySeconds == retrySeconds
    {
      this.delay, this.retrySeconds := delay, retrySeconds;
      due, expires, stop, events := None, None, false, [];
    }

    ghost method Log(e: Event)
      requires retrySeconds >= 0.0 && StopsForGood(events) && (Stopped(events) ==> stop)
      requires e.Stepped? && Stopped(events) ==> e.stopped
      requires e.Stepped? && e.outcome == Stopping ==> stop
      requires var s := Next(Run(events, delay, retrySeconds), e, delay, retrySeconds); due == s.due && expires == s.expires
      modifies `events
      ensures Valid() && events == old(events) + [e]
    {
      hide Next;
      assert (events + [e])[..|events|] == events;
      events := events + [e];
    }

    /** `receive`: another power-on restarts the delay and the window. */
    method Receive(valid: bool, now: real)
      requires Valid()
      modifies this
      ensures Valid() && events == old(events) + [Received(valid, now)] && stop == old(stop)
      ensures due == (if valid then Some(now + delay) else old(due))
      ensures expires == (if valid then Some(now + delay + retrySeconds) else old(expires))
    {
      if valid {
        due := Some(now + delay);
        expires := Some(due.value + retrySeconds);
      }
      Log(Received(valid, now));
    }

    /** `step`. `outcome` is what the power reader and the scan make of an attempt; `stop` can be set meanwhile. */
    method Step(now: real, outcome: Outcome) returns (attempted: bool)
      requires Valid()
      modifies this
      ensures Valid() && events == old(events) + [Stepped(now, old(stop), if attempted then outcome else Completed)]
      ensures attempted <==>
        old(due).Some? && now >= old(due).value && !old(stop) && (old(expires).Some? ==> now <= old(expires).value)
      ensures attempted ==> due == match outcome
        case Stopping => old(due)
        case Busy => Some(now + 0.25)
        case Failed => Some(now + 2.0)
        case _ => None
      ensures !attempted ==>
        due == if old(due).Some? && now >= old(due).value && !old(stop) then None else old(due)
    {
      attempted := false;
      if due.None? || now < due.value || stop {
        Log(Stepped(now, stop, Completed));
        return;
      }
      if expires.Some? && now > expires.value {
        due, expires := None, None;
        Log(Stepped(now, false, Completed));
        return;
      }
      attempted := true;
      match outcome {
        case Stopping =>
          stop := true;
        case Busy =>
          due := Some(now + 0.25);
        case Failed =>
          due := Some(now + 2.0);
        case _ =>
          due, expires := None, None;
      }
      Log(Stepped(now, false, outcome));
    }
  }
}
