/** Ramping a wire to a voltage (Client/PowerSupplyServerConnection.py): what the client may send to the
    DAC, whatever the supply, its trip status and the operator's lock report along the way. */
module HvRamp {
  import opened Options

  const MAX_DAC: int := 15000
  const MAX_STEP: nat := 50

  // ---------- The supply, its operator and the connection ----------

  /** What the next question finds: each question uses up one tick and reads the field it asks about. */
  datatype Tick = Tick(locked: bool, tripped: bool, volts: real, acked: bool)

  /** The voltage to stop at, the DAC counts of a step and the steps between two readings. */
  datatype Plan = Plan(target: real, step: int, burst: nat)

  datatype Event =
    | Lock(locked: bool)
    | Trip(tripped: bool)
    | Volts(volts: real)
    | Cached(dac: nat)
    | Leg(plan: Plan)  // a walk settled on how to go on
    | Write(dac: nat, acked: bool)

  /** The script ends where the connection fails. `ack` is the DAC value the supply last acknowledged, which
      is what its cache holds. */
  datatype World = World(script: seq<Tick>, ack: nat, trace: seq<Event>)
  {
    function Saw(e: Event): World
      requires script != []
    {
      World(script[1..], ack, trace + [e])
    }
  }

  /** `Lost` is an exception: a broken connection or a DAC write that was not acknowledged. */
  datatype Reply<T> = Got(value: T) | Lost
  {
    predicate IsFailure() { Lost? }

    function PropagateFailure<U>(): Reply<U>
      requires Lost?
    {
      Reply<U>.Lost
    }

    function Extract(): T
      requires Got?
    {
      value
    }
  }

  datatype Ran<T> = Ran(world: World, reply: Reply<T>)
  {
    predicate IsFailure() { reply.Lost? }

    function PropagateFailure<U>(): Ran<U>
      requires IsFailure()
    {
      Ran(world, Reply<U>.Lost)
    }

    function Extract(): (T, World)
      requires !IsFailure()
    {
      (reply.value, world)
    }
  }

  // ---------- What a ramp does ----------

  function AskLock(w: World): (r: Ran<bool>)
    ensures r.reply.Got? ==> |r.world.script| < |w.script|
  {
    if w.script == [] then Ran(w, Lost) else Ran(w.Saw(Lock(w.script[0].locked)), Got(w.script[0].locked))
  }

  function AskTrip(w: World): (r: Ran<bool>)
    ensures r.reply.Got? ==> |r.world.script| < |w.script|
  {
    if w.script == [] then Ran(w, Lost) else Ran(w.Saw(Trip(w.script[0].tripped)), Got(w.script[0].tripped))
  }

  function AskVolts(w: World): (r: Ran<real>)
    ensures r.reply.Got? ==> |r.world.script| < |w.script|
  {
    if w.script == [] then Ran(w, Lost) else Ran(w.Saw(Volts(w.script[0].volts)), Got(w.script[0].volts))
  }

  function AskCached(w: World): (r: Ran<nat>)
    ensures r.reply.Got? ==> |r.world.script| < |w.script|
  {
    if w.script == [] then Ran(w, Lost) else Ran(w.Saw(Cached(w.ack)), Got(w.ack))
  }

  /** `_set_hv_by_dac`: nothing is sent for a value out of range. */
  function SetDac(w: World, dac: int): (r: Ran<()>)
    ensures |r.world.script| <= |w.script|
  {
    if !(0 <= dac <= MAX_DAC) then Ran(w, Got(()))
    else if w.script == [] then Ran(w.(trace := w.trace + [Write(dac, false)]), Lost)
    else if !w.script[0].acked then Ran(w.Saw(Write(dac, false)), Lost)
    else Ran(w.Saw(Write(dac, true)).(ack := dac), Got(()))
  }

  /** `_timed_dac_set`: a set lock silently skips the write. */
  function TimedSet(w: World, dac: int): (r: Ran<()>)
    ensures |r.world.script| <= |w.script|
  {
    var (locked, w1) :- AskLock(w);
    if locked then Ran(w1, Got(())) else SetDac(w1, dac)
  }

  /** A reading to go on with, or None to stop the ramp. */
  function ReadBack(w: World): (r: Ran<Option<real>>)
    ensures |r.world.script| <= |w.script|
  {
    var (volts, w1) :- AskVolts(w);
    Ran(w1, Got(Some(volts)))
  }

  function ZeroAndRead(w: World): (r: Ran<Option<real>>)
    ensures |r.world.script| <= |w.script|
  {
    var (_, w1) :- TimedSet(w, 0);
    ReadBack(w1)
  }

  function AfterTrip(w: World, tripZero: bool): (r: Ran<Option<real>>)
    ensures |r.world.script| <= |w.script|
  {
    if tripZero then ZeroAndRead(w) else Ran(w, Got(None))
  }

  /** The loop of `_take_dac_steps`. */
  function Burst(w: World, current: int, step: int, n: nat, tripZero: bool): (r: Ran<Option<real>>)
    ensures |r.world.script| <= |w.script|
    decreases n
  {
    if n == 0 then ReadBack(w)
    else
      var (locked, w1) :- AskLock(w);
      if locked then ReadBack(w1)
      else
        var (tripped, w2) :- AskTrip(w1);
        if tripped then AfterTrip(w2, tripZero)
        else if current + step < 0 then ZeroAndRead(w2)
        else if current + step > MAX_DAC then Ran(w2, Got(None))
        else
          var (_, w3) :- TimedSet(w2, current + step);
          Burst(w3, current + step, step, n - 1, tripZero)
  }

  function TakeSteps(w: World, step: int, n: nat, tripZero: bool): (r: Ran<Option<real>>)
    ensures |r.world.script| <= |w.script|
  {
    var (current, w1) :- AskCached(w);
    Burst(w1, current, step, n, tripZero)
  }

  predicate Passed(now: real, target: real, down: bool) {
    if down then now < target else target < now
  }

  /** The loop of `_walk_dac_steps`. */
  function WalkOn(w: World, target: real, down: bool, step: int, n: nat, tripZero: bool): (r: Ran<Option<real>>)
    ensures |r.world.script| <= |w.script|
    decreases |w.script|
  {
    var (locked, w1) :- AskLock(w);
    if locked then ReadBack(w1)
    else
      var (tripped, w2) :- AskTrip(w1);
      if tripped then AfterTrip(w2, tripZero)
      else
        var (now, w3) :- TakeSteps(w2, step, n, tripZero);
        if now.None? || Passed(now.value, target, down) then Ran(w3, Got(now))
        else WalkOn(w3, target, down, step, n, tripZero)
  }

  function Signed(step: int, down: bool): int {
    if down then -step else step
  }

  function Settle(w: World, plan: Plan): World {
    w.(trace := w.trace + [Leg(plan)])
  }

  function Walk(w: World, target: real, step: int, n: nat, tripZero: bool): (r: Ran<Option<real>>)
    ensures |r.world.script| <= |w.script|
  {
    var (current, w1) :- AskVolts(w);
    var down := target < current;
    var signed := Signed(step, down);
    WalkOn(Settle(w1, Plan(target, signed, n)), target, down, signed, n, tripZero)
  }

  /** `_take_macro_step`. */
  function MacroStep(w: World, target: real, step: int, n: nat, tripZero: bool): (r: Ran<Option<real>>)
    ensures |r.world.script| <= |w.script|
  {
    var (locked, w1) :- AskLock(w);
    if locked then ReadBack(w1) else Walk(w1, target, step, n, tripZero)
  }

  datatype Finish = AtZero | LockSet | TripStop | Reached | LimitExceeded

  function Abs(x: real): real {
    if x < 0.0 then -x else x
  }

  /** DAC counts per step, steps per reading and how far short of the voltage to stop, by distance. */
  function StepFor(remaining: real): int {
    if remaining < 20.0 then 2 else if remaining < 100.0 then 10 else MAX_STEP
  }

  function BurstFor(remaining: real): nat {
    if remaining < 20.0 then 1 else 10
  }

  function TargetFor(voltage: real, current: real): real {
    var remaining := Abs(voltage - current);
    var short := if remaining < 20.0 then 0.0 else if remaining < 100.0 then 10.0 else 50.0;
    if voltage < current then voltage + short else voltage - short
  }

  /** The loop of `_set_wire_voltage`. */
  function Ramp(w: World, voltage: real): (r: Ran<Finish>)
    decreases |w.script|, 1
  {
    if voltage <= 0.0 then
      var (dac, w1) :- AskCached(w);
      if dac <= 0 then Ran(w1, Got(AtZero)) else Approach(w1, voltage)
    else Approach(w, voltage)
  }

  function Approach(w: World, voltage: real): (r: Ran<Finish>)
    decreases |w.script|, 0
  {
    var (current, w1) :- AskVolts(w);
    var remaining := Abs(voltage - current);
    var (locked, w2) :- AskLock(w1);
    if locked then Ran(w2, Got(LockSet))
    else
      var (tripped, w3) :- AskTrip(w2);
      if tripped && voltage <= 0.0 then
        var (_, w4) :- SetDac(w3, 0);
        Ran(w4, Got(TripStop))
      else if tripped then Ran(w3, Got(TripStop))
      else if voltage > 0.0 && remaining < 1.0 then Ran(w3, Got(Reached))
      else
        var (now, w4) :- MacroStep(w3, TargetFor(voltage, current), StepFor(remaining), BurstFor(remaining),
                                   voltage <= 0.0);
        if now.None? then Ran(w4, Got(LimitExceeded)) else Ramp(w4, voltage)
  }

  /** `SetWireVoltage`. */
  function SetVoltage(w: World, voltage: real): Ran<Finish> {
    var (_, w1) :- AskVolts(w);
    Ramp(w1, voltage)
  }

  // ---------- The client's methods ----------

  /** The connection to a supply. */
  class Supply {
    var script: seq<Tick>
    var ack: nat
    ghost var trace: seq<Event>

    ghost function State(): World
      reads this
    {
      World(script, ack, trace)
    }

    method GetHVLock() returns (r: Reply<bool>)
      modifies this
      ensures Ran(State(), r) == AskLock(old(State()))
    {
      if script == [] {
        return Lost;
      }
      r := Got(script[0].locked);
      trace := trace + [Lock(script[0].locked)];
      script := script[1..];
    }

    method QueryTripStatus() returns (r: Reply<bool>)
      modifies this
      ensures Ran(State(), r) == AskTrip(old(State()))
    {
      if script == [] {
        return Lost;
      }
      r := Got(script[0].tripped);
      trace := trace + [Trip(script[0].tripped)];
      script := script[1..];
    }

    method QueryWireVoltage() returns (r: Reply<real>)
      modifies this
      ensures Ran(State(), r) == AskVolts(old(State()))
    {
      if script == [] {
        return Lost;
      }
      r := Got(script[0].volts);
      trace := trace + [Volts(script[0].volts)];
      script := script[1..];
    }

    method QueryLastHVSetting() returns (r: Reply<nat>)
      modifies this
      ensures Ran(State(), r) == AskCached(old(State()))
    {
      if script == [] {
        return Lost;
      }
      r := Got(ack);
      trace := trace + [Cached(ack)];
      script := script[1..];
    }

    method SetHvByDac(dac: int) returns (r: Reply<()>)
      modifies this
      ensures Ran(State(), r) == SetDac(old(State()), dac)
    {
      if !(0 <= dac <= MAX_DAC) {
        return Got(());
      }
      var acked := script != [] && script[0].acked;
      trace := trace + [Write(dac, acked)];
      if script != [] {
        script := script[1..];
      }
      if !acked {
        return Lost;
      }
      ack := dac;
      return Got(());
    }

    method TimedDacSet(dac: int) returns (r: Reply<()>)
      modifies this
      ensures Ran(State(), r) == TimedSet(old(State()), dac)
    {
      var locked :- GetHVLock();
      if locked {
        return Got(());
      }
      r := SetHvByDac(dac);
    }

    /** A reading to go on with. */
    method Reading() returns (r: Reply<Option<real>>)
      modifies this
      ensures Ran(State(), r) == ReadBack(old(State()))
    {
      var volts :- QueryWireVoltage();
      return Got(Some(volts));
    }

    method ZeroThenRead() returns (r: Reply<Option<real>>)
      modifies this
      ensures Ran(State(), r) == ZeroAndRead(old(State()))
    {
      var _ :- TimedDacSet(0);
      r := Reading();
    }

    method TakeDacSteps(step: int, steps: nat, tripZero: bool) returns (r: Reply<Option<real>>)
      modifies this
      ensures Ran(State(), r) == TakeSteps(old(State()), step, steps, tripZero)
    {
      hide AskLock, AskTrip, AskCached, TimedSet, ZeroAndRead, ReadBack;
      var current: int :- QueryLastHVSetting();
      for i := 0 to steps
        invariant Burst(State(), current, step, steps - i, tripZero) == TakeSteps(old(State()), step, steps, tripZero)
      {
        var locked :- GetHVLock();
        if locked {
          r := Reading();
          return;
        }
        var tripped :- QueryTripStatus();
        if tripped {
          if tripZero {
            r := ZeroThenRead();
            return;
          }
          return Got(None);
        }
        var target := current + step;
        if target < 0 {
          r := ZeroThenRead();
          return;
        }
        if target > MAX_DAC {
          return Got(None);
        }
        var _ :- TimedDacSet(target);
        current := target;
      }
      r := Reading();
    }

    method WalkDacSteps(target: real, step: int, steps: nat, tripZero: bool)
      returns (r: Reply<Option<real>>)
      modifies this
      ensures Ran(State(), r) == Walk(old(State()), target, step, steps, tripZero)
    {
      hide AskLock, AskTrip, AskVolts, TakeSteps, ZeroAndRead, ReadBack;
      var first :- QueryWireVoltage();
      var down := target < first;
      var signed := if down then -step else step;
      trace := trace + [Leg(Plan(target, signed, steps))];
      while true
        invariant WalkOn(State(), target, down, signed, steps, tripZero)
               == Walk(old(State()), target, step, steps, tripZero)
        decreases |script|
      {
        var locked :- GetHVLock();
        if locked {
          r := Reading();
          return;
        }
        var tripped :- QueryTripStatus();
        if tripped {
          if tripZero {
            r := ZeroThenRead();
            return;
          }
          return Got(None);
        }
        var current :- TakeDacSteps(signed, steps, tripZero);
        if current.None? || Passed(current.value, target, down) {
          return Got(current);
        }
      }
    }

    method TakeMacroStep(target: real, step: int, steps: nat, tripZero: bool)
      returns (r: Reply<Option<real>>)
      modifies this
      ensures Ran(State(), r) == MacroStep(old(State()), target, step, steps, tripZero)
    {
      var locked :- GetHVLock();
      if locked {
        r := Reading();
        return;
      }
      r := WalkDacSteps(target, step, steps, tripZero);
    }

    method SetWireVoltage(voltage: real) returns (r: Reply<Finish>)
      modifies this
      ensures Ran(State(), r) == SetVoltage(old(State()), voltage)
    {
      hide AskLock, AskTrip, AskVolts, AskCached, MacroStep, SetDac;
      var _ :- QueryWireVoltage();
      while true
        invariant Ramp(State(), voltage) == SetVoltage(old(State()), voltage)
        decreases |script|
      {
        if voltage <= 0.0 {
          var dac :- QueryLastHVSetting();
          if dac <= 0 {
            return Got(AtZero);
          }
        }
        var current :- QueryWireVoltage();
        var remaining := if voltage < current then current - voltage else voltage - current;
        var locked :- GetHVLock();
        if locked {
          return Got(LockSet);
        }
        var tripped :- QueryTripStatus();
        if tripped {
          if voltage <= 0.0 {
            var _ :- SetHvByDac(0);
          }
          return Got(TripStop);
        }
        if 0.0 < voltage && remaining < 1.0 {
          return Got(Reached);
        }
        var now: Option<real>;
        if remaining < 20.0 {
          now :- TakeMacroStep(voltage, 2, 1, voltage <= 0.0);
        } else if remaining < 100.0 {
          var target := if voltage < current then voltage + 10.0 else voltage - 10.0;
          now :- TakeMacroStep(target, 10, 10, voltage <= 0.0);
        } else {
          var target := if voltage < current then voltage + 50.0 else voltage - 50.0;
          now :- TakeMacroStep(target, 50, 10, voltage <= 0.0);
        }
        if now.None? {
          return Got(LimitExceeded);
        }
      }
    }
  }

  // ---------- What may be written, given what was seen ----------

  /** `ack`: the last acknowledged value. `skips`: times the lock was seen set since the base of the current
      steps, the later of the last cache query and the last write, was taken. `plan`: what the walk last settled on.
      `last` and `before`: the latest two readings, and `since` the writes after them. */
  datatype Seen = Seen(ack: nat, skips: nat, clear: bool, tripped: bool, everTripped: bool, failed: bool,
                       plan: Plan, since: nat, last: Option<real>, before: Option<real>)

  function Observe(s: Seen, e: Event): Seen {
    match e
    case Lock(locked) => s.(clear := !locked, skips := if locked then s.skips + 1 else s.skips)
    case Trip(tripped) => s.(tripped := tripped, everTripped := s.everTripped || tripped)
    case Volts(volts) => s.(last := Some(volts), before := s.last, since := 0)
    case Cached(_) => s.(skips := 0)
    case Leg(plan) => s.(plan := plan)
    case Write(dac, acked) =>
      s.(ack := if acked then dac else s.ack, skips := 0, failed := s.failed || !acked, since := s.since + 1)
  }

  function Watch(ack: nat, trace: seq<Event>): Seen {
    if trace == [] then Seen(ack, 0, false, false, false, false, Plan(0.0, 0, 0), 0, None, None)
    else Observe(Watch(ack, trace[..|trace| - 1]), trace[|trace| - 1])
  }

  function AbsInt(x: int): nat {
    if x < 0 then -x else x
  }

  /** How to go on from a reading `from`, `now` being the one after it: steps of 2, one at a time, within 20 volts; of
      10, ten at a time, within 100, to stop 10 volts short; and of 50 to stop 50 short. Down if the reading is above. */
  predicate Planned(plan: Plan, voltage: real, from: real, now: real) {
    var away := Abs(voltage - from);
    (away < 20.0 ==> AbsInt(plan.step) == 2 && plan.burst == 1 && plan.target == voltage) &&
    (20.0 <= away < 100.0 ==> AbsInt(plan.step) == 10 && plan.burst == 10 && Abs(plan.target - voltage) == 10.0) &&
    (100.0 <= away ==> AbsInt(plan.step) == 50 && plan.burst == 10 && Abs(plan.target - voltage) == 50.0) &&
    (voltage <= plan.target <= from || from <= plan.target <= voltage) &&
    (plan.step < 0 <==> plan.target < now)
  }

  /** The step goes the way that leads from the reading to the target, not beyond. */
  predicate Toward(plan: Plan, reading: Option<real>) {
    reading.Some? && if plan.step < 0 then plan.target <= reading.value else reading.value <= plan.target
  }

  /** A write must follow a clear reading of the lock and no failed write, and no trip at all while ramping to a
      positive voltage. Its value is 0 after a trip on the way down, or else the last acknowledged value plus the
      step, plus the step again for every write the lock made the client skip, and at least 0; such a step leads from the
      latest reading to the target, and there are no more than planned before the next reading. */
  predicate MayFollow(s: Seen, e: Event, voltage: real) {
    match e
    case Write(dac, _) =>
      dac <= MAX_DAC && s.clear && !s.failed && (voltage > 0.0 ==> !s.everTripped) &&
      ((dac == 0 && voltage <= 0.0 && s.tripped) ||
       (dac == Stepped(s) && s.since < s.plan.burst && Toward(s.plan, s.last)))
    case Leg(plan) => s.last.Some? && s.before.Some? && Planned(plan, voltage, s.before.value, s.last.value)
    case _ => true
  }

  function Stepped(s: Seen): int {
    if s.ack + s.plan.step * (1 + s.skips) < 0 then 0 else s.ack + s.plan.step * (1 + s.skips)
  }

  predicate Safe(ack: nat, voltage: real, trace: seq<Event>) {
    forall i :: 0 <= i < |trace| ==> MayFollow(Watch(ack, trace[..i]), trace[i], voltage)
  }

  lemma OneMore(ack: nat, voltage: real, trace: seq<Event>, e: Event)
    ensures Watch(ack, trace + [e]) == Observe(Watch(ack, trace), e)
    ensures Safe(ack, voltage, trace) && MayFollow(Watch(ack, trace), e, voltage) ==> Safe(ack, voltage, trace + [e])
  {
    assert (trace + [e])[..|trace|] == trace;
    if Safe(ack, voltage, trace) && MayFollow(Watch(ack, trace), e, voltage) {
      forall i | 0 <= i <= |trace| ensures MayFollow(Watch(ack, (trace + [e])[..i]), (trace + [e])[i], voltage) {
        assert i < |trace| ==> (trace + [e])[..i] == trace[..i];
      }
    }
  }

  // ---------- Every run is safe ----------

  /** Safe so far, and fit to go on with this plan. */
  predicate Good(w: World, ack: nat, voltage: real, plan: Plan) {
    var s := Watch(ack, w.trace);
    Safe(ack, voltage, w.trace) && s.ack == w.ack && !s.failed && (s.everTripped ==> voltage <= 0.0) && s.plan == plan
  }

  /** The supply holds the last value seen acknowledged. */
  predicate Level(w: World, ack: nat) {
    Watch(ack, w.trace).ack == w.ack
  }

  /** The connection has failed, or a write was not acknowledged. */
  predicate Cut(w: World, ack: nat) {
    w.script == [] || Watch(ack, w.trace).failed
  }

  /** Safe to the end, and fit to go on unless the connection was lost. */
  predicate Kept<T>(r: Ran<T>, ack: nat, voltage: real, plan: Plan) {
    Safe(ack, voltage, r.world.trace) && Level(r.world, ack) && (r.reply.Lost? ==> Cut(r.world, ack)) && (r.reply.Got? ==> Good(r.world, ack, voltage, plan))
  }

  lemma SawLock(w: World, ack: nat, voltage: real, plan: Plan)
    requires w.script != [] && Good(w, ack, voltage, plan)
    ensures var locked, s := w.script[0].locked, Watch(ack, w.trace);
            Good(w.Saw(Lock(locked)), ack, voltage, plan) &&
            Watch(ack, w.Saw(Lock(locked)).trace) == s.(clear := !locked, skips := if locked then s.skips + 1 else s.skips)
  {
    OneMore(ack, voltage, w.trace, Lock(w.script[0].locked));
  }

  /** A trip seen on the way up leaves the trace safe but unfit to go on. */
  lemma SawTrip(w: World, ack: nat, voltage: real, plan: Plan)
    requires w.script != [] && Good(w, ack, voltage, plan)
    ensures var w1, s := w.Saw(Trip(w.script[0].tripped)), Watch(ack, w.trace);
            Safe(ack, voltage, w1.trace) &&
            (!w.script[0].tripped || voltage <= 0.0 ==> Good(w1, ack, voltage, plan)) &&
            Watch(ack, w1.trace) ==
              s.(tripped := w.script[0].tripped, everTripped := s.everTripped || w.script[0].tripped)
  {
    OneMore(ack, voltage, w.trace, Trip(w.script[0].tripped));
  }

  lemma SawCached(w: World, ack: nat, voltage: real, plan: Plan)
    requires w.script != [] && Good(w, ack, voltage, plan)
    ensures var w1 := w.Saw(Cached(w.ack));
            Good(w1, ack, voltage, plan) && Watch(ack, w1.trace) == Watch(ack, w.trace).(skips := 0)
  {
    OneMore(ack, voltage, w.trace, Cached(w.ack));
  }

  lemma SawVolts(w: World, ack: nat, voltage: real, plan: Plan)
    requires w.script != [] && Good(w, ack, voltage, plan)
    ensures var volts, s := w.script[0].volts, Watch(ack, w.trace);
            Good(w.Saw(Volts(volts)), ack, voltage, plan) &&
            Watch(ack, w.Saw(Volts(volts)).trace) == s.(last := Some(volts), before := s.last, since := 0)
  {
    OneMore(ack, voltage, w.trace, Volts(w.script[0].volts));
  }

  /** Safe to the end; fit to go on from the reading that ended it, when there is one, and stopped for a reason when there
      is none. */
  predicate Continues(r: Ran<Option<real>>, ack: nat, voltage: real, plan: Plan) {
    Safe(ack, voltage, r.world.trace) && Level(r.world, ack) && (r.reply.Lost? ==> Cut(r.world, ack)) &&
    (r.reply.Got? && r.reply.value.Some? ==> Good(r.world, ack, voltage, plan) && JustRead(r.world, ack, r.reply.value)) &&
    (r.reply.Got? && r.reply.value.None? ==> Halted(Watch(ack, r.world.trace), voltage))
  }

  /** A trip on the way up, or a next step beyond the largest DAC value. */
  predicate Halted(s: Seen, voltage: real) {
    (s.tripped && voltage > 0.0) || Stepped(s) > MAX_DAC
  }

  /** The latest event that counts is this reading. */
  predicate JustRead(w: World, ack: nat, reading: Option<real>) {
    Watch(ack, w.trace).last == reading && Watch(ack, w.trace).since == 0
  }

  lemma ReadBackContinues(w: World, ack: nat, voltage: real, plan: Plan)
    requires Good(w, ack, voltage, plan)
    ensures Continues(ReadBack(w), ack, voltage, plan)
  {
    if w.script != [] {
      SawVolts(w, ack, voltage, plan);
    }
  }

  lemma WriteIsSafe(w: World, dac: nat, ack: nat, voltage: real, plan: Plan)
    requires dac <= MAX_DAC && Good(w, ack, voltage, plan)
    requires MayFollow(Watch(ack, w.trace), Write(dac, true), voltage)
    ensures Kept(SetDac(w, dac), ack, voltage, plan)
    ensures var r, s := SetDac(w, dac), Watch(ack, w.trace);
            r.reply.Got? ==> r.world.ack == dac && Watch(ack, r.world.trace) == s.(ack := dac, skips := 0, since := s.since + 1)
  {
    OneMore(ack, voltage, w.trace, Write(dac, true));
    OneMore(ack, voltage, w.trace, Write(dac, false));
  }

  /** A step, or the zero after a trip, through `_timed_dac_set`. */
  lemma TimedSetIsSafe(w: World, dac: nat, ack: nat, voltage: real, plan: Plan)
    requires dac <= MAX_DAC && Good(w, ack, voltage, plan)
    requires MayFollow(Watch(ack, w.trace).(clear := true), Write(dac, true), voltage)
    ensures Kept(TimedSet(w, dac), ack, voltage, plan)
    ensures var r, s := TimedSet(w, dac), Watch(ack, w.trace);
            r.reply.Got? ==>
              var after := Watch(ack, r.world.trace);
              after.last == s.last && after.since <= s.since + 1 &&
              ((after.skips == s.skips + 1 && r.world.ack == w.ack) || (after.skips == 0 && r.world.ack == dac))
  {
    if w.script != [] {
      SawLock(w, ack, voltage, plan);
      if !w.script[0].locked {
        WriteIsSafe(w.Saw(Lock(false)), dac, ack, voltage, plan);
      }
    }
  }

  lemma ZeroAndReadIsSafe(w: World, ack: nat, voltage: real, plan: Plan)
    requires Good(w, ack, voltage, plan)
    requires MayFollow(Watch(ack, w.trace).(clear := true), Write(0, true), voltage)
    ensures Continues(ZeroAndRead(w), ack, voltage, plan)
  {
    hide Watch, Safe, TimedSet;
    TimedSetIsSafe(w, 0, ack, voltage, plan);
    var r := TimedSet(w, 0);
    if r.reply.Got? {
      ReadBackContinues(r.world, ack, voltage, plan);
    }
  }

  lemma AfterTripIsSafe(w: World, ack: nat, voltage: real, plan: Plan)
    requires Safe(ack, voltage, w.trace) && Level(w, ack) && Watch(ack, w.trace).tripped
    requires voltage <= 0.0 ==> Good(w, ack, voltage, plan)
    ensures Continues(AfterTrip(w, voltage <= 0.0), ack, voltage, plan)
  {
    if voltage <= 0.0 {
      ZeroAndReadIsSafe(w, ack, voltage, plan);
    }
  }

  /** Going on stepping: the cached value is right but for the steps skipped, `n` more steps keep to the plan, and they
      lead from the latest reading towards the target. */
  predicate Stepping(w: World, current: int, n: nat, ack: nat, voltage: real, plan: Plan) {
    var s := Watch(ack, w.trace);
    Good(w, ack, voltage, plan) && current == w.ack + plan.step * s.skips && s.since + n <= plan.burst && Toward(plan, s.last)
  }

  lemma {:induction false} BurstIsSafe(w: World, current: nat, n: nat, ack: nat, voltage: real, plan: Plan)
    requires Stepping(w, current, n, ack, voltage, plan)
    ensures Continues(Burst(w, current, plan.step, n, voltage <= 0.0), ack, voltage, plan)
    decreases n
  {
    hide Watch, Safe, TimedSet, ZeroAndRead, ReadBack, AfterTrip, Toward, Continues;
    if n == 0 {
      ReadBackContinues(w, ack, voltage, plan);
    } else if w.script == [] {
      NothingToRead(w, ack, voltage, plan);
    } else {
      SawLock(w, ack, voltage, plan);
      var w1 := w.Saw(Lock(w.script[0].locked));
      if w.script[0].locked {
        ReadBackContinues(w1, ack, voltage, plan);
      } else if w1.script == [] {
        NothingToRead(w1, ack, voltage, plan);
      } else {
        SawTrip(w1, ack, voltage, plan);
        var w2 := w1.Saw(Trip(w1.script[0].tripped));
        if w1.script[0].tripped {
          AfterTripIsSafe(w2, ack, voltage, plan);
        } else {
          UntrippedIsSafe(w2, current, n, ack, voltage, plan);
          if current + plan.step > MAX_DAC {
            StopsSafely(w2, current, n, ack, voltage, plan);
          }
        }
      }
    }
  }

  lemma NothingToRead(w: World, ack: nat, voltage: real, plan: Plan)
    requires Good(w, ack, voltage, plan) && w.script == []
    ensures Continues(Ran(w, Lost), ack, voltage, plan)
  {}

  lemma StopsSafely(w: World, current: int, n: nat, ack: nat, voltage: real, plan: Plan)
    requires Stepping(w, current, n, ack, voltage, plan) && current + plan.step > MAX_DAC
    ensures Continues(Ran(w, Got(None)), ack, voltage, plan)
  {
    var s := Watch(ack, w.trace);
    hide Watch, Safe;
    assert plan.step * (1 + s.skips) == plan.step * s.skips + plan.step;
  }

  lemma {:induction false} UntrippedIsSafe(w: World, current: nat, n: nat, ack: nat, voltage: real, plan: Plan)
    requires n > 0 && Stepping(w, current, n, ack, voltage, plan)
    ensures current + plan.step < 0 ==> Continues(ZeroAndRead(w), ack, voltage, plan)
    ensures 0 <= current + plan.step <= MAX_DAC ==>
      var done := TimedSet(w, current + plan.step);
      if done.reply.Lost? then Continues(Ran(done.world, Lost), ack, voltage, plan)
      else Continues(Burst(done.world, current + plan.step, plan.step, n - 1, voltage <= 0.0), ack, voltage, plan)
    decreases n, 0
  {
    hide Watch, Safe, TimedSet, ZeroAndRead, ReadBack, AfterTrip, Burst, Toward;
    var s := Watch(ack, w.trace);
    assert plan.step * (1 + s.skips) == plan.step * s.skips + plan.step;
    if current + plan.step < 0 {
      ZeroAndReadIsSafe(w, ack, voltage, plan);
    } else if current + plan.step <= MAX_DAC {
      TimedSetIsSafe(w, current + plan.step, ack, voltage, plan);
      var done := TimedSet(w, current + plan.step);
      if done.reply.Got? {
        BurstIsSafe(done.world, current + plan.step, n - 1, ack, voltage, plan);
      }
    }
  }

  lemma TakeStepsIsSafe(w: World, ack: nat, voltage: real, plan: Plan)
    requires Good(w, ack, voltage, plan) && Watch(ack, w.trace).since == 0 && Toward(plan, Watch(ack, w.trace).last)
    ensures Continues(TakeSteps(w, plan.step, plan.burst, voltage <= 0.0), ack, voltage, plan)
  {
    hide Watch, Safe, Burst, Toward;
    if w.script != [] {
      SawCached(w, ack, voltage, plan);
      BurstIsSafe(w.Saw(Cached(w.ack)), w.ack, plan.burst, ack, voltage, plan);
    }
  }

  lemma {:induction false} WalkOnIsSafe(w: World, ack: nat, voltage: real, plan: Plan)
    requires Good(w, ack, voltage, plan) && Watch(ack, w.trace).since == 0 && Toward(plan, Watch(ack, w.trace).last)
    ensures Continues(WalkOn(w, plan.target, plan.step < 0, plan.step, plan.burst, voltage <= 0.0), ack, voltage, plan)
    decreases |w.script|
  {
    hide Watch, Safe, ReadBack, AfterTrip, TakeSteps, Toward, Passed;
    if w.script != [] {
      SawLock(w, ack, voltage, plan);
      var w1 := w.Saw(Lock(w.script[0].locked));
      if w.script[0].locked {
        ReadBackContinues(w1, ack, voltage, plan);
      } else if w1.script != [] {
        SawTrip(w1, ack, voltage, plan);
        var w2 := w1.Saw(Trip(w1.script[0].tripped));
        if w1.script[0].tripped {
          AfterTripIsSafe(w2, ack, voltage, plan);
        } else {
          TakeStepsIsSafe(w2, ack, voltage, plan);
          var r := TakeSteps(w2, plan.step, plan.burst, voltage <= 0.0);
          if r.reply.Got? && r.reply.value.Some? {
            NotPassedIsToward(plan, r.reply.value.value);
            if !Passed(r.reply.value.value, plan.target, plan.step < 0) {
              WalkOnIsSafe(r.world, ack, voltage, plan);
            }
          }
        }
      }
    }
  }

  lemma NotPassedIsToward(plan: Plan, now: real)
    ensures Passed(now, plan.target, plan.step < 0) <==> !Toward(plan, Some(now))
  {}

  lemma SettleIsSafe(w: World, plan: Plan, ack: nat, voltage: real, was: Plan)
    requires Good(w, ack, voltage, was) && MayFollow(Watch(ack, w.trace), Leg(plan), voltage)
    ensures var w1 := Settle(w, plan); Good(w1, ack, voltage, plan) && Watch(ack, w1.trace) == Watch(ack, w.trace).(plan := plan)
  {
    OneMore(ack, voltage, w.trace, Leg(plan));
  }

  /** Whichever plan the walk settled on. */
  predicate Goes(r: Ran<Option<real>>, ack: nat, voltage: real) {
    Continues(r, ack, voltage, Watch(ack, r.world.trace).plan)
  }

  lemma ContinuesGoes(r: Ran<Option<real>>, ack: nat, voltage: real, plan: Plan)
    requires Continues(r, ack, voltage, plan)
    ensures Goes(r, ack, voltage)
  {}

  /** What the ramp computes from a reading is a plan from it. */
  lemma PlanFits(voltage: real, from: real, now: real)
    ensures var remaining, target := Abs(voltage - from), TargetFor(voltage, from);
            var plan := Plan(target, Signed(StepFor(remaining), target < now), BurstFor(remaining));
            Planned(plan, voltage, from, now) && Toward(plan, Some(now))
  {}

  lemma WalkIsSafe(w: World, from: real, ack: nat, voltage: real, was: Plan)
    requires Good(w, ack, voltage, was) && Watch(ack, w.trace).last == Some(from)
    ensures var remaining := Abs(voltage - from);
            Goes(Walk(w, TargetFor(voltage, from), StepFor(remaining), BurstFor(remaining), voltage <= 0.0), ack, voltage)
  {
    var remaining, target := Abs(voltage - from), TargetFor(voltage, from);
    if w.script != [] {
      SawVolts(w, ack, voltage, was);
      var now := w.script[0].volts;
      var w1 := w.Saw(Volts(now));
      var plan := Plan(target, Signed(StepFor(remaining), target < now), BurstFor(remaining));
      PlanFits(voltage, from, now);
      assert plan.step < 0 <==> target < now;
      hide Watch, Safe, WalkOn, Settle, StepFor, BurstFor, TargetFor, Abs, Signed, Planned, Toward, Good, Continues, Goes;
      SettleIsSafe(w1, plan, ack, voltage, was);
      var w2 := Settle(w1, plan);
      WalkOnIsSafe(w2, ack, voltage, plan);
      ContinuesGoes(WalkOn(w2, target, plan.step < 0, plan.step, plan.burst, voltage <= 0.0), ack, voltage, plan);
    }
  }

  lemma MacroStepIsSafe(w: World, from: real, ack: nat, voltage: real, was: Plan)
    requires Good(w, ack, voltage, was) && Watch(ack, w.trace).last == Some(from)
    ensures var remaining := Abs(voltage - from);
            Goes(MacroStep(w, TargetFor(voltage, from), StepFor(remaining), BurstFor(remaining), voltage <= 0.0),
                 ack, voltage)
  {
    hide Watch, Safe, Walk, BurstFor, StepFor, TargetFor, Abs, ReadBack;
    if w.script != [] {
      SawLock(w, ack, voltage, was);
      var w1 := w.Saw(Lock(w.script[0].locked));
      ReadBackContinues(w1, ack, voltage, was);
      WalkIsSafe(w1, from, ack, voltage, was);
    }
  }

  /** What the end a ramp reports says of the supply. */
  predicate EndsAs(r: Ran<Finish>, ack: nat, voltage: real) {
    var s := Watch(ack, r.world.trace);
    s.ack == r.world.ack && (r.reply.Lost? ==> Cut(r.world, ack)) &&
    (r.reply == Got(AtZero) ==> voltage <= 0.0 && r.world.ack == 0) &&
    (r.reply == Got(LockSet) ==> !s.clear) &&
    (r.reply == Got(TripStop) ==> s.tripped && (voltage <= 0.0 ==> r.world.ack == 0)) &&
    (r.reply == Got(LimitExceeded) ==> Halted(s, voltage)) &&
    (r.reply == Got(Reached) ==>
      voltage > 0.0 && !s.tripped && s.clear && s.last.Some? && voltage - 1.0 < s.last.value < voltage + 1.0)
  }

  lemma {:induction false} RampIsSafe(w: World, ack: nat, voltage: real, was: Plan)
    requires Good(w, ack, voltage, was)
    ensures var r := Ramp(w, voltage); Safe(ack, voltage, r.world.trace) && EndsAs(r, ack, voltage)
    decreases |w.script|, 1
  {
    hide Watch, Safe, Approach;
    if voltage > 0.0 {
      ApproachIsSafe(w, ack, voltage, was);
    } else if w.script != [] {
      SawCached(w, ack, voltage, was);
      if w.ack > 0 {
        ApproachIsSafe(w.Saw(Cached(w.ack)), ack, voltage, was);
      }
    }
  }

  lemma {:induction false} ApproachIsSafe(w: World, ack: nat, voltage: real, was: Plan)
    requires Good(w, ack, voltage, was)
    ensures var r := Approach(w, voltage); Safe(ack, voltage, r.world.trace) && EndsAs(r, ack, voltage)
    decreases |w.script|, 0
  {
    hide Watch, Safe, Ramp, MacroStep, TargetFor, StepFor, BurstFor, SetDac, EndsAs, MayFollow, Continues;
    if w.script == [] {
      LostEnds(w, ack, voltage);
    } else {
      SawVolts(w, ack, voltage, was);
      var from := w.script[0].volts;
      var w1 := w.Saw(Volts(from));
      if w1.script == [] {
        LostEnds(w1, ack, voltage);
      } else {
        SawLock(w1, ack, voltage, was);
        var w2 := w1.Saw(Lock(w1.script[0].locked));
        if w1.script[0].locked {
          StopEnds(w2, ack, voltage, LockSet);
        } else if w2.script == [] {
          LostEnds(w2, ack, voltage);
        } else {
          SawTrip(w2, ack, voltage, was);
          var w3 := w2.Saw(Trip(w2.script[0].tripped));
          if w2.script[0].tripped && voltage <= 0.0 {
            TripEnds(w3, ack, voltage, was);
          } else if w2.script[0].tripped {
            StopEnds(w3, ack, voltage, TripStop);
          } else if voltage > 0.0 && Abs(voltage - from) < 1.0 {
            StopEnds(w3, ack, voltage, Reached);
          } else {
            GoesOnSafely(w, w3, from, ack, voltage, was);
          }
        }
      }
    }
  }

  lemma LostEnds(w: World, ack: nat, voltage: real)
    requires Level(w, ack) && Cut(w, ack)
    ensures EndsAs(Ran(w, Lost), ack, voltage)
  {}

  lemma StopEnds(w: World, ack: nat, voltage: real, finish: Finish)
    requires Level(w, ack)
    requires var s := Watch(ack, w.trace);
      match finish
      case LockSet => !s.clear
      case TripStop => s.tripped && voltage > 0.0
      case Reached => voltage > 0.0 && !s.tripped && s.clear && s.last.Some? && Abs(voltage - s.last.value) < 1.0
      case LimitExceeded => Halted(s, voltage)
      case AtZero => false
    ensures EndsAs(Ran(w, Got(finish)), ack, voltage)
  {}

  lemma TripEnds(w: World, ack: nat, voltage: real, was: Plan)
    requires Good(w, ack, voltage, was) && voltage <= 0.0 && Watch(ack, w.trace).tripped && Watch(ack, w.trace).clear
    ensures var r := SetDac(w, 0);
            Safe(ack, voltage, r.world.trace) &&
            EndsAs(if r.reply.Lost? then Ran(r.world, Lost) else Ran(r.world, Got(TripStop)), ack, voltage)
  {
    WriteIsSafe(w, 0, ack, voltage, was);
  }

  lemma {:induction false} GoesOnSafely(w: World, w3: World, from: real, ack: nat, voltage: real, was: Plan)
    requires |w3.script| < |w.script| && Good(w3, ack, voltage, was) && Watch(ack, w3.trace).last == Some(from)
    ensures
      var remaining := Abs(voltage - from);
      var r := MacroStep(w3, TargetFor(voltage, from), StepFor(remaining), BurstFor(remaining), voltage <= 0.0);
      Safe(ack, voltage, r.world.trace) &&
      if r.reply.Lost? then EndsAs(Ran(r.world, Lost), ack, voltage)
      else if r.reply.value.None? then EndsAs(Ran(r.world, Got(LimitExceeded)), ack, voltage)
      else Safe(ack, voltage, Ramp(r.world, voltage).world.trace) && EndsAs(Ramp(r.world, voltage), ack, voltage)
    decreases |w.script|, 0, 0
  {
    hide Watch, Safe, Ramp, MacroStep, TargetFor, StepFor, BurstFor, MayFollow;
    MacroStepIsSafe(w3, from, ack, voltage, was);
    var remaining := Abs(voltage - from);
    var r := MacroStep(w3, TargetFor(voltage, from), StepFor(remaining), BurstFor(remaining), voltage <= 0.0);
    if r.reply.Got? && r.reply.value.Some? {
      RampIsSafe(r.world, ack, voltage, Watch(ack, r.world.trace).plan);
    }
  }

  /** Whatever the supply answers and whenever the connection breaks, every event of a ramp was allowed by what
      had been seen before it; the supply holds the last value acknowledged; and the end a ramp reports is so: at 0 the DAC was left at 0, at a set lock the lock was seen
      set, after a trip on the way down the DAC was set to 0, at the limit there was a trip on the way up or the next step
      was beyond the largest value, and at its voltage the last reading was within 1 volt. */
  lemma EveryRampIsSafe(script: seq<Tick>, ack: nat, voltage: real)
    ensures var r := SetVoltage(World(script, ack, []), voltage);
            Safe(ack, voltage, r.world.trace) && EndsAs(r, ack, voltage)
  {
    var w := World(script, ack, []);
    if script == [] {
      LostEnds(w, ack, voltage);
    } else {
      SawVolts(w, ack, voltage, Plan(0.0, 0, 0));
      RampIsSafe(w.Saw(Volts(script[0].volts)), ack, voltage, Plan(0.0, 0, 0));
    }
  }

  // ---------- Steps are taken ----------

  predicate Healthy(script: seq<Tick>, n: nat) {
    n <= |script| && forall i :: 0 <= i < n ==> !script[i].locked && !script[i].tripped && script[i].acked
  }

  /** The next `n` steps stay within what the DAC may be set to. */
  predicate StepsFit(current: int, step: int, n: nat)
    decreases n
  {
    n == 0 || (0 <= current + step <= MAX_DAC && StepsFit(current + step, step, n - 1))
  }

  function Next4(w: World, dac: nat): World
    requires |w.script| >= 4
  {
    World(w.script[4..], dac, w.trace + [Lock(false)] + [Trip(false)] + [Lock(false)] + [Write(dac, true)])
  }

  lemma HealthyStep(w: World, current: int, step: int, n: nat, tripZero: bool)
    requires n > 0 && Healthy(w.script, 4) && 0 <= current + step <= MAX_DAC
    ensures Burst(w, current, step, n, tripZero) == Burst(Next4(w, current + step), current + step, step, n - 1, tripZero)
  {
    var w1 := w.Saw(Lock(false));
    var w2 := w1.Saw(Trip(false));
    var w3 := w2.Saw(Lock(false));
    var w4 := w3.Saw(Write(current + step, true)).(ack := current + step);
    assert w4.script == w.script[4..];
    assert TimedSet(w2, current + step) == Ran(w4, Got(()));
    hide TimedSet, ReadBack, AfterTrip, ZeroAndRead;
  }

  lemma DropDrop<T>(s: seq<T>, m: nat)
    requires 4 <= m < |s|
    ensures s[4..][m - 4] == s[m] && s[4..][m - 4 + 1..] == s[m + 1..]
  {}

  lemma HealthyNext(w: World, current: int, step: int, n: nat, m: nat)
    requires n > 0 && m == 4 * n && Healthy(w.script, m) && |w.script| > m && StepsFit(current, step, n)
    ensures Healthy(w.script, 4) && 0 <= current + step <= MAX_DAC && StepsFit(current + step, step, n - 1)
    ensures var w4 := Next4(w, current + step);
            w4.ack == current + step && Healthy(w4.script, m - 4) && |w4.script| == |w.script| - 4 > m - 4 &&
            w4.script[m - 4] == w.script[m] && w4.script[m - 4 + 1..] == w.script[m + 1..]
    ensures current + step + (n - 1) * step == current + n * step
  {
    DropDrop(w.script, m);
  }

  lemma HealthyReading(w: World, current: int, step: int, n: nat, tripZero: bool)
    requires w.script != [] && n == 0
    ensures var r := Burst(w, current, step, n, tripZero);
            r.world.ack == w.ack && r.world.script == w.script[1..] && r.reply == Got(Some(w.script[0].volts))
    ensures n * step == 0
  {}

  /** With nothing in the way, every step of a burst is taken and acknowledged, and a reading follows. */
  lemma {:induction false} HealthyBurst(w: World, current: int, step: int, n: nat, m: nat, tripZero: bool)
    requires m == 4 * n && Healthy(w.script, m) && |w.script| > m && w.ack == current && StepsFit(current, step, n)
    ensures var r := Burst(w, current, step, n, tripZero);
            r.world.ack == current + n * step && r.reply == Got(Some(w.script[m].volts)) && r.world.script == w.script[m + 1..]
    decreases n
  {
    hide *;
    if n == 0 {
      HealthyReading(w, current, step, n, tripZero);
    } else {
      HealthyNext(w, current, step, n, m);
      HealthyStep(w, current, step, n, tripZero);
      HealthyBurst(Next4(w, current + step), current + step, step, n - 1, m - 4, tripZero);
    }
  }

  // ---------- What that means for the trace itself ----------

  lemma {:induction false} WatchMeans(ack: nat, trace: seq<Event>, j: nat)
    requires j < |trace|
    ensures trace[j].Write? && !trace[j].acked ==> Watch(ack, trace).failed
    ensures trace[j] == Trip(true) ==> Watch(ack, trace).everTripped
    ensures trace[j] == Lock(true) && Latched(trace) ==> !Watch(ack, trace).clear
  {
    if j < |trace| - 1 {
      WatchMeans(ack, trace[..|trace| - 1], j);
    }
  }

  lemma {:induction false} NothingSkipped(ack: nat, trace: seq<Event>)
    requires forall j :: 0 <= j < |trace| ==> trace[j] != Lock(true)
    ensures Watch(ack, trace).skips == 0
  {
    if trace != [] {
      NothingSkipped(ack, trace[..|trace| - 1]);
    }
  }

  lemma {:induction false} StepBound(ack: nat, voltage: real, trace: seq<Event>)
    requires Safe(ack, voltage, trace)
    ensures AbsInt(Watch(ack, trace).plan.step) <= MAX_STEP
  {
    if trace != [] {
      var front := trace[..|trace| - 1];
      assert Safe(ack, voltage, front) by {
        assert forall i :: 0 <= i < |front| ==> front[..i] == trace[..i];
      }
      StepBound(ack, voltage, front);
    }
  }

  /** Once set, the lock is never seen clear again: nothing in the repository ever clears it. */
  predicate Latched(trace: seq<Event>) {
    forall i, j :: 0 <= i < j < |trace| && trace[i] == Lock(true) ==> trace[j] != Lock(false)
  }

  /** After a write that was not acknowledged, or a trip seen on the way to a positive voltage, nothing more is
      written; nor after the lock is seen set, if it stays set. */
  lemma NothingMoreIsWritten(script: seq<Tick>, ack: nat, voltage: real, j: nat, i: nat)
    requires var trace := SetVoltage(World(script, ack, []), voltage).world.trace;
             j < i < |trace| && trace[i].Write?
    ensures var trace := SetVoltage(World(script, ack, []), voltage).world.trace;
            !(trace[j].Write? && !trace[j].acked) && !(trace[j] == Trip(true) && voltage > 0.0) &&
            !(trace[j] == Lock(true) && Latched(trace))
  {
    var trace := SetVoltage(World(script, ack, []), voltage).world.trace;
    EveryRampIsSafe(script, ack, voltage);
    hide SetVoltage;
    WatchMeans(ack, trace[..i], j);
  }

  lemma StepSizes(ack: nat, step: int, skips: nat, dac: nat)
    requires dac == (if ack + step * (1 + skips) < 0 then 0 else ack + step * (1 + skips))
    ensures AbsInt(dac - ack) <= MAX_STEP <==>
      AbsInt(step) * (1 + skips) <= MAX_STEP || (step < 0 && ack <= MAX_STEP)
  {
    assert step < 0 ==> step * (1 + skips) == -(AbsInt(step) * (1 + skips));
  }

  /** The size of every write of every ramp, but for a zero after a trip on the way down: it stays within 50 counts of
      the last acknowledged value exactly when the step in force, taken once and once more for each write the lock made
      the client skip since, does; or the value was small and is stepped down. */
  lemma RampStepWithinBoundIff(script: seq<Tick>, ack: nat, voltage: real, i: nat)
    requires var trace := SetVoltage(World(script, ack, []), voltage).world.trace;
             i < |trace| && trace[i].Write? &&
             !(trace[i].dac == 0 && voltage <= 0.0 && Watch(ack, trace[..i]).tripped)
    ensures var trace := SetVoltage(World(script, ack, []), voltage).world.trace;
            var s := Watch(ack, trace[..i]);
            AbsInt(trace[i].dac - s.ack) <= MAX_STEP <==>
              AbsInt(s.plan.step) * (1 + s.skips) <= MAX_STEP || (s.plan.step < 0 && s.ack <= MAX_STEP)
  {
    var trace := SetVoltage(World(script, ack, []), voltage).world.trace;
    EveryRampIsSafe(script, ack, voltage);
    hide SetVoltage, Watch;
    SafeSoFar(ack, voltage, trace, i);
    var s := Watch(ack, trace[..i]);
    StepSizes(s.ack, s.plan.step, s.skips, trace[i].dac);
  }

  /** The latest reading before a moment, as watched, is the last there is in the trace. */
  lemma {:induction false} LastIsLatest(ack: nat, trace: seq<Event>)
    ensures match Watch(ack, trace).last
            case None => forall j :: 0 <= j < |trace| ==> !trace[j].Volts?
            case Some(v) => exists j :: 0 <= j < |trace| && trace[j] == Volts(v) && NoReading(trace[j + 1..])
  {
    if trace != [] {
      var front, last := trace[..|trace| - 1], trace[|trace| - 1];
      LastIsLatest(ack, front);
      if last.Volts? {
        assert trace[|front|] == last && NoReading(trace[|front| + 1..]);
      } else if Watch(ack, front).last.Some? {
        var j :| 0 <= j < |front| && front[j] == Volts(Watch(ack, front).last.value) && NoReading(front[j + 1..]);
        assert trace[j] == front[j] && trace[j + 1..] == front[j + 1..] + [last];
      }
    }
  }

  predicate NoReading(trace: seq<Event>) {
    forall j :: 0 <= j < |trace| ==> !trace[j].Volts?
  }

  /** Until a walk has settled on a plan nothing is planned; after that, the target is within 50 volts of the voltage. */
  lemma {:induction false} PlanIsNear(ack: nat, voltage: real, trace: seq<Event>)
    requires Safe(ack, voltage, trace)
    ensures var plan := Watch(ack, trace).plan;
            plan.burst == 0 || (voltage - 50.0 <= plan.target <= voltage + 50.0 && plan.step != 0 && plan.burst <= 10)
  {
    if trace != [] {
      SafeSoFar(ack, voltage, trace, |trace| - 1);
      PlanIsNear(ack, voltage, trace[..|trace| - 1]);
      NearNext(Watch(ack, trace[..|trace| - 1]), trace[|trace| - 1], voltage);
      hide Safe, MayFollow, Observe;
    }
  }

  lemma NearNext(s: Seen, e: Event, voltage: real)
    requires MayFollow(s, e, voltage)
    requires s.plan.burst == 0 ||
      (voltage - 50.0 <= s.plan.target <= voltage + 50.0 && s.plan.step != 0 && s.plan.burst <= 10)
    ensures var plan := Observe(s, e).plan;
      plan.burst == 0 || (voltage - 50.0 <= plan.target <= voltage + 50.0 && plan.step != 0 && plan.burst <= 10)
  {}

  /** Which way a ramp goes: after a reading more than 50 volts above the voltage every write is at most the last
      acknowledged value, and after one more than 50 volts below it at least that, but for a 0 after a trip. */
  lemma WritesFollowReadings(script: seq<Tick>, ack: nat, voltage: real, i: nat)
    requires var trace := SetVoltage(World(script, ack, []), voltage).world.trace; i < |trace| && trace[i].Write?
    ensures var trace := SetVoltage(World(script, ack, []), voltage).world.trace;
            var s := Watch(ack, trace[..i]);
            (trace[i].dac == 0 && voltage <= 0.0 && s.tripped) ||
            (s.last.Some? &&
             (s.last.value > voltage + 50.0 ==> trace[i].dac <= s.ack) &&
             (s.last.value < voltage - 50.0 ==> trace[i].dac >= s.ack))
  {
    var trace := SetVoltage(World(script, ack, []), voltage).world.trace;
    EveryRampIsSafe(script, ack, voltage);
    hide SetVoltage, Watch;
    SafeSoFar(ack, voltage, trace, i);
    PlanIsNear(ack, voltage, trace[..i]);
    hide Safe, Planned;
    var s := Watch(ack, trace[..i]);
    SignOfSteps(s.plan.step, 1 + s.skips);
  }

  lemma SignOfSteps(step: int, n: nat)
    ensures (step <= 0 ==> step * n <= 0) && (step >= 0 ==> step * n >= 0)
  {}

  /** So if every reading is above that, the ramp only ever goes down; and if every reading is below that, only ever up,
      but for a 0 after a trip on the way to a voltage of 0 or less. */
  lemma FarRampsGoOneWay(script: seq<Tick>, ack: nat, voltage: real, i: nat)
    requires var trace := SetVoltage(World(script, ack, []), voltage).world.trace; i < |trace| && trace[i].Write?
    ensures var trace := SetVoltage(World(script, ack, []), voltage).world.trace;
            var s := Watch(ack, trace[..i]);
            ((forall j :: 0 <= j < i && trace[j].Volts? ==> trace[j].volts > voltage + 50.0) ==> trace[i].dac <= s.ack) &&
            ((forall j :: 0 <= j < i && trace[j].Volts? ==> trace[j].volts < voltage - 50.0) ==>
               trace[i].dac >= s.ack || (trace[i].dac == 0 && voltage <= 0.0 && s.tripped))
  {
    var trace := SetVoltage(World(script, ack, []), voltage).world.trace;
    WritesFollowReadings(script, ack, voltage, i);
    hide SetVoltage, Watch;
    LastIsLatest(ack, trace[..i]);
    var last := Watch(ack, trace[..i]).last;
    if last.Some? {
      var j :| 0 <= j < i && trace[..i][j] == Volts(last.value);
      assert trace[j] == Volts(last.value);
    }
  }

  /** No more than ten writes come between two readings, and only one within 20 volts of the voltage: the plan says how
      many, and a step is taken only while fewer were. */
  lemma ReadingsAreFrequent(script: seq<Tick>, ack: nat, voltage: real, i: nat)
    requires var trace := SetVoltage(World(script, ack, []), voltage).world.trace; i < |trace| && trace[i].Write?
    ensures var trace := SetVoltage(World(script, ack, []), voltage).world.trace;
            var s := Watch(ack, trace[..i]);
            (trace[i].dac == 0 && voltage <= 0.0 && s.tripped) || s.since < 10
  {
    var trace := SetVoltage(World(script, ack, []), voltage).world.trace;
    EveryRampIsSafe(script, ack, voltage);
    hide SetVoltage, Watch;
    SafeSoFar(ack, voltage, trace, i);
    PlanIsNear(ack, voltage, trace[..i]);
    hide Safe, Planned;
  }

  /** With a lock that stays set once set, no write moves the DAC more than 50 counts from the last acknowledged
      value, except to 0 after a trip on the way down. */
  lemma LatchedRampStepsAreSmall(script: seq<Tick>, ack: nat, voltage: real, i: nat)
    requires var trace := SetVoltage(World(script, ack, []), voltage).world.trace;
             i < |trace| && trace[i].Write? && Latched(trace)
    ensures var trace := SetVoltage(World(script, ack, []), voltage).world.trace;
            var s := Watch(ack, trace[..i]);
            trace[i].dac <= MAX_DAC &&
            (AbsInt(trace[i].dac - s.ack) <= MAX_STEP || (trace[i].dac == 0 && voltage <= 0.0 && s.tripped))
  {
    var trace := SetVoltage(World(script, ack, []), voltage).world.trace;
    EveryRampIsSafe(script, ack, voltage);
    forall j | 0 <= j < i ensures trace[j] != Lock(true) {
      NothingMoreIsWritten(script, ack, voltage, j, i);
    }
    hide SetVoltage, Latched;
    SafeSoFar(ack, voltage, trace, i);
    hide Safe, Watch, Planned, Toward, Stepped;
    NothingSkipped(ack, trace[..i]);
    StepBound(ack, voltage, trace[..i]);
    if !(trace[i].dac == 0 && voltage <= 0.0 && Watch(ack, trace[..i]).tripped) {
      RampStepWithinBoundIff(script, ack, voltage, i);
    }
  }

  lemma SafeSoFar(ack: nat, voltage: real, trace: seq<Event>, i: nat)
    requires Safe(ack, voltage, trace) && i < |trace|
    ensures Safe(ack, voltage, trace[..i]) && MayFollow(Watch(ack, trace[..i]), trace[i], voltage)
  {
    hide Watch, MayFollow;
    assert forall k :: 0 <= k < i ==> trace[..i][..k] == trace[..k];
  }

  /** Sixteen answers of a healthy supply at 0 V, with the lock seen set in the twelfth only. */
  predicate Blip(script: seq<Tick>) {
    |script| == 16 && forall i :: 0 <= i < 16 ==> script[i] == Tick(i == 11, false, 0.0, true)
  }

  lemma BlipNext(script: seq<Tick>, k: nat)
    requires Blip(script) && k < 16
    ensures script[k..] != [] && script[k..][0] == Tick(k == 11, false, 0.0, true) && script[k..][1..] == script[k + 1..]
  {}

  lemma AbsOfPositive(voltage: real)
    requires voltage >= 0.0
    ensures Abs(voltage - 0.0) == voltage
  {}

  lemma BlipAnswers(script: seq<Tick>, ack: nat, k: nat, t: seq<Event>)
    requires Blip(script) && k < 16 && k != 11
    ensures var w := World(script[k..], ack, t);
            AskVolts(w) == Ran(World(script[k + 1..], ack, t + [Volts(0.0)]), Got(0.0)) &&
            AskLock(w) == Ran(World(script[k + 1..], ack, t + [Lock(false)]), Got(false)) &&
            AskTrip(w) == Ran(World(script[k + 1..], ack, t + [Trip(false)]), Got(false))
  {
    BlipNext(script, k);
    hide Blip;
  }

  lemma BlipStart(script: seq<Tick>, ack: nat, voltage: real)
    requires Blip(script) && voltage >= 100.0
    ensures SetVoltage(World(script, ack, []), voltage) == Approach(World(script[1..], ack, [] + [Volts(0.0)]), voltage)
  {
    BlipNext(script, 0);
    hide Blip, Approach;
  }

  lemma BlipApproach(script: seq<Tick>, ack: nat, voltage: real, t: seq<Event>, remaining: real)
    requires Blip(script) && voltage >= 100.0 && remaining == Abs(voltage - 0.0)
    ensures var w := World(script[4..], ack, t + [Volts(0.0)] + [Lock(false)] + [Trip(false)]);
            var r := MacroStep(w, TargetFor(voltage, 0.0), StepFor(remaining), BurstFor(remaining), false);
            r.reply.Lost? ==> Approach(World(script[1..], ack, t), voltage) == Ran(r.world, Lost)
  {
    var w1 := World(script[1..], ack, t);
    var w2 := World(script[2..], ack, t + [Volts(0.0)]);
    var w3 := World(script[3..], ack, t + [Volts(0.0)] + [Lock(false)]);
    BlipAnswers(script, ack, 1, t);
    BlipAnswers(script, ack, 2, w2.trace);
    BlipAnswers(script, ack, 3, w3.trace);
    assert remaining >= 1.0;
    hide Blip, MacroStep, TargetFor, StepFor, BurstFor, Ramp, SetDac, Abs, AskVolts, AskLock, AskTrip;
    assert AskVolts(w1).Extract() == (0.0, w2) && AskLock(w2).Extract() == (false, w3);
  }

  lemma BlipMacroStep(script: seq<Tick>, ack: nat, voltage: real, t: seq<Event>)
    requires Blip(script) && voltage >= 100.0
    ensures MacroStep(World(script[4..], ack, t), TargetFor(voltage, 0.0), StepFor(voltage), BurstFor(voltage), false)
         == WalkOn(World(script[6..], ack, t + [Lock(false)] + [Volts(0.0)] + [Leg(Plan(TargetFor(voltage, 0.0), 50, 10))]),
                   TargetFor(voltage, 0.0), false, 50, 10, false)
  {
    BlipNext(script, 4);
    BlipNext(script, 5);
    hide Blip, WalkOn;
  }

  lemma BlipWalkOn(script: seq<Tick>, ack: nat, target: real, t: seq<Event>, n: nat)
    requires Blip(script)
    ensures var r := Burst(World(script[9..], ack, t + [Lock(false)] + [Trip(false)] + [Cached(ack)]), ack, 50, n, false);
            r.reply.Lost? ==> WalkOn(World(script[6..], ack, t), target, false, 50, n, false) == r
  {
    BlipNext(script, 6);
    BlipNext(script, 7);
    BlipNext(script, 8);
    hide Blip, Burst;
  }

  lemma BlipBurst(script: seq<Tick>, ack: nat, t: seq<Event>, n: nat)
    requires Blip(script) && ack + 100 <= MAX_DAC && n > 1
    ensures Burst(World(script[9..], ack, t), ack, 50, n, false)
         == Burst(World(script[12..], ack, t + [Lock(false)] + [Trip(false)] + [Lock(true)]), ack + 50, 50, n - 1, false)
  {
    BlipNext(script, 9);
    BlipNext(script, 10);
    BlipNext(script, 11);
    hide Blip, ReadBack, AfterTrip, ZeroAndRead;
  }

  lemma BlipWrite(script: seq<Tick>, ack: nat, t: seq<Event>, n: nat)
    requires Blip(script) && ack + 100 <= MAX_DAC && n > 1
    ensures var r := Burst(World(script[12..], ack, t), ack + 50, 50, n, false);
            r.reply.Lost? &&
            r.world.trace == t + [Lock(false)] + [Trip(false)] + [Lock(false)] + [Write(ack + 100, true)]
  {
    BlipNext(script, 12);
    BlipNext(script, 13);
    BlipNext(script, 14);
    BlipNext(script, 15);
    assert script[16..] == [];
    hide Blip, ReadBack, AfterTrip, ZeroAndRead;
  }

  predicate NoWrite(t: seq<Event>) {
    forall j :: 0 <= j < |t| ==> !t[j].Write?
  }

  lemma StillNoWrite(t: seq<Event>, a: Event, b: Event, c: Event)
    requires NoWrite(t) && !a.Write? && !b.Write? && !c.Write?
    ensures NoWrite(t + [a] + [b] + [c])
  {}

  // ---------- A lock that is never cleared ----------

  /** In what the supply and its operator answer, the lock once set stays set. */
  predicate NeverClears(script: seq<Tick>) {
    forall i, j :: 0 <= i < j < |script| && script[i].locked ==> script[j].locked
  }

  /** What has been seen of the lock so far, and what is still to come, agree with that. */
  predicate Held(w: World) {
    NeverClears(w.script) && Latched(w.trace) && (Lock(true) in w.trace ==> AllLocked(w.script))
  }

  predicate AllLocked(script: seq<Tick>) {
    forall i :: 0 <= i < |script| ==> script[i].locked
  }

  lemma SawHeld(w: World, e: Event)
    requires Held(w) && w.script != [] && (e.Lock? ==> e.locked == w.script[0].locked)
    ensures Held(w.Saw(e))
  {
    LatchedNext(w.trace, e);
    assert forall i :: 0 <= i < |w.script[1..]| ==> w.script[1..][i] == w.script[i + 1];
  }

  lemma LatchedNext(trace: seq<Event>, e: Event)
    requires Latched(trace) && (Lock(true) in trace ==> e != Lock(false))
    ensures Latched(trace + [e])
  {
    forall i, j | 0 <= i < j < |trace + [e]| && (trace + [e])[i] == Lock(true) ensures (trace + [e])[j] != Lock(false) {
      assert trace[i] in trace;
    }
  }

  lemma AsksHold(w: World)
    requires Held(w)
    ensures Held(AskLock(w).world) && Held(AskTrip(w).world) && Held(AskVolts(w).world) && Held(AskCached(w).world)
  {
    if w.script != [] {
      SawHeld(w, Lock(w.script[0].locked));
      SawHeld(w, Trip(w.script[0].tripped));
      SawHeld(w, Volts(w.script[0].volts));
      SawHeld(w, Cached(w.ack));
    }
  }

  lemma SetDacHolds(w: World, dac: int)
    requires Held(w)
    ensures Held(SetDac(w, dac).world)
  {
    if 0 <= dac <= MAX_DAC {
      LatchedNext(w.trace, Write(dac, false));
      if w.script != [] {
        SawHeld(w, Write(dac, w.script[0].acked));
      }
    }
  }

  lemma TimedSetHolds(w: World, dac: int)
    requires Held(w)
    ensures Held(TimedSet(w, dac).world)
  {
    AsksHold(w);
    SetDacHolds(AskLock(w).world, dac);
    hide Held, AskLock, SetDac;
  }

  lemma ReadBackHolds(w: World)
    requires Held(w)
    ensures Held(ReadBack(w).world)
  {
    AsksHold(w);
    hide Held, AskVolts;
  }

  lemma AfterTripHolds(w: World, tripZero: bool)
    requires Held(w)
    ensures Held(AfterTrip(w, tripZero).world) && Held(ZeroAndRead(w).world)
  {
    TimedSetHolds(w, 0);
    ReadBackHolds(TimedSet(w, 0).world);
    hide Held, TimedSet, ReadBack;
  }

  lemma {:induction false} BurstHolds(w: World, current: int, step: int, n: nat, tripZero: bool)
    requires Held(w)
    ensures Held(Burst(w, current, step, n, tripZero).world)
    decreases n
  {
    hide Held, AskLock, AskTrip, ReadBack, AfterTrip, ZeroAndRead, TimedSet;
    AsksHold(w);
    ReadBackHolds(w);
    var w1 := AskLock(w).world;
    AsksHold(w1);
    ReadBackHolds(w1);
    var w2 := AskTrip(w1).world;
    AfterTripHolds(w2, tripZero);
    TimedSetHolds(w2, current + step);
    if n > 0 {
      BurstHolds(TimedSet(w2, current + step).world, current + step, step, n - 1, tripZero);
    }
  }

  lemma {:induction false} WalkOnHolds(w: World, target: real, down: bool, step: int, n: nat, tripZero: bool)
    requires Held(w)
    ensures Held(WalkOn(w, target, down, step, n, tripZero).world)
    decreases |w.script|
  {
    hide Held, ReadBack, AfterTrip, Burst, Passed;
    AsksHold(w);
    if w.script != [] {
      var w1 := AskLock(w).world;
      ReadBackHolds(w1);
      AsksHold(w1);
      if w1.script != [] {
        var w2 := AskTrip(w1).world;
        AfterTripHolds(w2, tripZero);
        AsksHold(w2);
        BurstHolds(AskCached(w2).world, w2.ack, step, n, tripZero);
        var r := TakeSteps(w2, step, n, tripZero);
        if r.reply.Got? && r.reply.value.Some? && !Passed(r.reply.value.value, target, down) {
          WalkOnHolds(r.world, target, down, step, n, tripZero);
        }
      }
    }
  }

  lemma MacroStepHolds(w: World, target: real, step: int, n: nat, tripZero: bool)
    requires Held(w)
    ensures Held(MacroStep(w, target, step, n, tripZero).world)
  {
    AsksHold(w);
    var w1 := AskLock(w).world;
    ReadBackHolds(w1);
    AsksHold(w1);
    var first := AskVolts(w1);
    if first.reply.Got? {
      var down := target < first.reply.value;
      LatchedNext(first.world.trace, Leg(Plan(target, Signed(step, down), n)));
      assert Held(Settle(first.world, Plan(target, Signed(step, down), n)));
      WalkOnHolds(Settle(first.world, Plan(target, Signed(step, down), n)), target, down, Signed(step, down), n, tripZero);
    }
    hide Held, AskLock, AskVolts, ReadBack, WalkOn, Settle, Signed;
  }

  lemma {:induction false} RampHolds(w: World, voltage: real)
    requires Held(w)
    ensures Held(Ramp(w, voltage).world)
    decreases |w.script|, 1
  {
    hide Held, Approach;
    AsksHold(w);
    if voltage > 0.0 {
      ApproachHolds(w, voltage);
    } else if w.script != [] {
      ApproachHolds(AskCached(w).world, voltage);
    }
  }

  lemma {:induction false} ApproachHolds(w: World, voltage: real)
    requires Held(w)
    ensures Held(Approach(w, voltage).world)
    decreases |w.script|, 0
  {
    hide Held, Ramp, MacroStep, TargetFor, StepFor, BurstFor, SetDac, Abs;
    AsksHold(w);
    if w.script != [] {
      var w1 := AskVolts(w).world;
      AsksHold(w1);
      var w2 := AskLock(w1).world;
      AsksHold(w2);
      var w3 := AskTrip(w2).world;
      SetDacHolds(w3, 0);
      var volts := w.script[0].volts;
      var remaining := Abs(voltage - volts);
      MacroStepHolds(w3, TargetFor(voltage, volts), StepFor(remaining), BurstFor(remaining), voltage <= 0.0);
      var r := MacroStep(w3, TargetFor(voltage, volts), StepFor(remaining), BurstFor(remaining), voltage <= 0.0);
      if |r.world.script| < |w.script| {
        RampHolds(r.world, voltage);
      }
    }
  }

  /** So what a ramp sees of such a lock never clears either. */
  lemma NeverClearedIsLatched(script: seq<Tick>, ack: nat, voltage: real)
    requires NeverClears(script)
    ensures Latched(SetVoltage(World(script, ack, []), voltage).world.trace)
  {
    var w := World(script, ack, []);
    AsksHold(w);
    hide AskVolts, Ramp;
    RampHolds(AskVolts(w).world, voltage);
  }

  /** With a lock that is never cleared once set, which nothing in the repository does, no write of a ramp moves the DAC
      more than 50 counts from the last acknowledged value, except to 0 after a trip on the way down. */
  lemma NeverClearedStepsAreSmall(script: seq<Tick>, ack: nat, voltage: real, i: nat)
    requires NeverClears(script)
    requires var trace := SetVoltage(World(script, ack, []), voltage).world.trace; i < |trace| && trace[i].Write?
    ensures var trace := SetVoltage(World(script, ack, []), voltage).world.trace;
            var s := Watch(ack, trace[..i]);
            trace[i].dac <= MAX_DAC &&
            (AbsInt(trace[i].dac - s.ack) <= MAX_STEP || (trace[i].dac == 0 && voltage <= 0.0 && s.tripped))
  {
    NeverClearedIsLatched(script, ack, voltage);
    hide SetVoltage, Watch;
    LatchedRampStepsAreSmall(script, ack, voltage, i);
  }

  /** Without that, a lock seen set for one write and clear for the next makes the client jump two steps: here the
      very first write of a ramp is 100 above what the supply holds. */
  lemma LockBlipDoublesTheStep(script: seq<Tick>, ack: nat, voltage: real)
    requires Blip(script) && ack + 100 <= MAX_DAC && voltage >= 100.0
    ensures var trace := SetVoltage(World(script, ack, []), voltage).world.trace;
            |trace| > 0 && trace[|trace| - 1] == Write(ack + 100, true) && NoWrite(trace[..|trace| - 1])
  {
    hide *;
    var t1 := [] + [Volts(0.0)];
    var t4 := t1 + [Volts(0.0)] + [Lock(false)] + [Trip(false)];
    var t6 := t4 + [Lock(false)] + [Volts(0.0)] + [Leg(Plan(TargetFor(voltage, 0.0), 50, 10))];
    var t9 := t6 + [Lock(false)] + [Trip(false)] + [Cached(ack)];
    var t12 := t9 + [Lock(false)] + [Trip(false)] + [Lock(true)];
    var t15 := t12 + [Lock(false)] + [Trip(false)] + [Lock(false)];
    BlipStart(script, ack, voltage);
    AbsOfPositive(voltage);
    BlipApproach(script, ack, voltage, t1, voltage);
    BlipMacroStep(script, ack, voltage, t4);
    BlipWalkOn(script, ack, TargetFor(voltage, 0.0), t6, 10);
    BlipBurst(script, ack, t9, 10);
    BlipWrite(script, ack, t12, 9);
    NoWriteYet(t1, t4, t6, t9, t12, t15, ack, voltage);
    assert (t15 + [Write(ack + 100, true)])[..|t15|] == t15;
  }

  lemma NoWriteYet(t1: seq<Event>, t4: seq<Event>, t6: seq<Event>, t9: seq<Event>, t12: seq<Event>, t15: seq<Event>,
                   ack: nat, voltage: real)
    requires t1 == [] + [Volts(0.0)]
    requires t4 == t1 + [Volts(0.0)] + [Lock(false)] + [Trip(false)]
    requires t6 == t4 + [Lock(false)] + [Volts(0.0)] + [Leg(Plan(TargetFor(voltage, 0.0), 50, 10))]
    requires t9 == t6 + [Lock(false)] + [Trip(false)] + [Cached(ack)]
    requires t12 == t9 + [Lock(false)] + [Trip(false)] + [Lock(true)]
    requires t15 == t12 + [Lock(false)] + [Trip(false)] + [Lock(false)]
    ensures NoWrite(t15)
  {
    assert NoWrite(t1);
    hide NoWrite;
    StillNoWrite(t1, Volts(0.0), Lock(false), Trip(false));
    StillNoWrite(t4, Lock(false), Volts(0.0), Leg(Plan(TargetFor(voltage, 0.0), 50, 10)));
    StillNoWrite(t6, Lock(false), Trip(false), Cached(ack));
    StillNoWrite(t9, Lock(false), Trip(false), Lock(true));
    StillNoWrite(t12, Lock(false), Trip(false), Lock(false));
  }
}
