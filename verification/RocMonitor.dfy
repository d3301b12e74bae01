/** The ROC temperature monitor (roc-temperature-monitor/roc_temperature_monitor.py): streaks of hot readings, the
    power gate, what is alarmed and turned off, and who is told. */
module RocMonitors {
  import opened Options
  import opened Sequences

  type Panel = nat

  datatype Key = Hot(panel: Panel) | Missing(panel: Panel) | PsuMissing

  datatype PanelState =
    PanelState(poweredSince: Option<int>, lastGood: Option<int>, highCount: nat, temperature: Option<real>)

  const UNSEEN: PanelState := PanelState(None, None, 0, None)

  /** What the monitor has been told so far. */
  datatype Event =
    | Panels(panels: set<Panel>)
    | Power(on: bool, now: int)
    | PowerUnknown
    | Sample(panel: Panel, value: Option<real>)
    | Quorum(now: int)

  // ---------- What the history says ----------

  /** How an event bears on a panel's streak: a hot reading, a reset, or not at all. */
  datatype Mark = HotReading | Reset | NoBearing

  function MarkOf(e: Event, n: Panel, threshold: real): Mark {
    match e
    case Panels(panels) => if n in panels then NoBearing else Reset
    case Power(on, _) => if on then NoBearing else Reset
    case PowerUnknown => Reset
    case Sample(panel, value) =>
      if panel != n then NoBearing
      else if value.Some? && value.value > threshold then HotReading
      else Reset
    case Quorum(_) => NoBearing
  }

  /** The marks that bear on a panel, oldest first. */
  function Marks(history: seq<Event>, n: Panel, threshold: real): seq<Mark> {
    if history == [] then []
    else
      var m := MarkOf(history[|history| - 1], n, threshold);
      Marks(history[..|history| - 1], n, threshold) + if m.NoBearing? then [] else [m]
  }

  /** The panel is discovered and the supply was on when last looked at since it was. */
  predicate Watched(history: seq<Event>, n: Panel) {
    if history == [] then false
    else
      var before := Watched(history[..|history| - 1], n);
      match history[|history| - 1]
      case Panels(panels) => before && n in panels
      case Power(on, _) => on && n in Discovered(history)
      case _ => before
  }

  function Discovered(history: seq<Event>): set<Panel> {
    if history == [] then {}
    else if history[|history| - 1].Panels? then history[|history| - 1].panels
    else Discovered(history[..|history| - 1])
  }

  /** The last quorum of temperatures, or else the moment the supply came on. */
  function CoveredSince(history: seq<Event>): Option<int> {
    if history == [] then None
    else
      var before := CoveredSince(history[..|history| - 1]);
      match history[|history| - 1]
      case Power(on, now) => if !on then None else if before.None? then Some(now) else before
      case Quorum(now) => Some(now)
      case _ => before
  }

  /** Length of the run of hot readings at the end. */
  function Streak(history: seq<Event>, n: Panel, threshold: real): nat {
    if history == [] then 0
    else
      var before := Streak(history[..|history| - 1], n, threshold);
      match MarkOf(history[|history| - 1], n, threshold)
      case HotReading => before + 1
      case Reset => 0
      case NoBearing => before
  }

  predicate AllHot(marks: seq<Mark>, count: nat) {
    |marks| >= count && forall i :: |marks| - count <= i < |marks| ==> marks[i].HotReading?
  }

  lemma AllHotNext(marks: seq<Mark>, m: Mark, count: nat)
    ensures AllHot(marks + [m], count + 1) <==> m.HotReading? && AllHot(marks, count)
    ensures AllHot(marks, 0)
  {
    var longer := marks + [m];
    if AllHot(longer, count + 1) {
      assert longer[|marks|] == m;
      forall i | |marks| - count <= i < |marks| ensures marks[i].HotReading? {
        assert longer[i] == marks[i];
      }
    }
  }

  lemma {:induction false} StreakIsLatestRun(history: seq<Event>, n: Panel, threshold: real, count: nat)
    ensures Streak(history, n, threshold) >= count <==> AllHot(Marks(history, n, threshold), count)
  {
    hide AllHot;
    AllHotNext(Marks(history, n, threshold), Reset, 0);
    if history == [] {
      assert count > 0 ==> !AllHot([], count) by { NoMarks(count); }
    } else {
      var front := history[..|history| - 1];
      var before, m := Marks(front, n, threshold), MarkOf(history[|history| - 1], n, threshold);
      StreakIsLatestRun(front, n, threshold, count);
      if count > 0 {
        StreakIsLatestRun(front, n, threshold, count - 1);
        AllHotNext(before, m, count - 1);
      }
      assert m.NoBearing? ==> before + [] == before;
    }
  }

  lemma NoMarks(count: nat)
    ensures count > 0 ==> !AllHot([], count)
  {}

  /** Samples are taken of panels that are being watched only, as `cycle` does. */
  predicate Disciplined(history: seq<Event>) {
    forall i :: 0 <= i < |history| && history[i].Sample? ==> Watched(history[..i], history[i].panel)
  }

  lemma {:induction false} WatchedIsDiscovered(history: seq<Event>, n: Panel)
    requires Watched(history, n)
    ensures n in Discovered(history)
  {
    var front, e := history[..|history| - 1], history[|history| - 1];
    if !e.Power? {
      WatchedIsDiscovered(front, n);
    }
  }

  /** In a disciplined run a streak implies the panel is watched: power-off and removal end both. */
  lemma {:induction false} StreakIsWatched(history: seq<Event>, n: Panel, threshold: real)
    requires Disciplined(history) && Streak(history, n, threshold) > 0
    ensures Watched(history, n)
  {
    var front, e := history[..|history| - 1], history[|history| - 1];
    assert Disciplined(front) by {
      assert forall i :: 0 <= i < |front| ==> front[..i] == history[..i];
    }
    if MarkOf(e, n, threshold).NoBearing? {
      StreakIsWatched(front, n, threshold);
      WatchedIsDiscovered(front, n);
    }
  }

  // ---------- Who has been told what ----------

  /** `Sent`: a successful delivery. The rest forget deliveries, so that the incident may be told again. */
  datatype Notice = Sent(rid: nat, key: Key) | Rearmed(key: Key) | Dropped(kept: set<Panel>)
  {
    predicate Rearms(k: Key) {
      match this
      case Sent(_, _) => false
      case Rearmed(key) => key == k
      case Dropped(kept) => !k.PsuMissing? && k.panel !in kept
    }
  }

  function Outstanding(notices: seq<Notice>, k: Key): set<nat> {
    if notices == [] then {}
    else
      var before, last := Outstanding(notices[..|notices| - 1], k), notices[|notices| - 1];
      Update(before, last, k)
  }

  function Update(before: set<nat>, last: Notice, k: Key): set<nat> {
    if last.Rearms(k) then {} else if last.Sent? && last.key == k then before + {last.rid} else before
  }

  /** Nobody is sent an incident already delivered to them. */
  predicate OnceOnly(notices: seq<Notice>) {
    forall i :: 0 <= i < |notices| && notices[i].Sent? ==> notices[i].rid !in Outstanding(notices[..i], notices[i].key)
  }

  lemma {:induction false} StaysOutstanding(notices: seq<Notice>, i: nat)
    requires i < |notices| && notices[i].Sent?
    ensures notices[i].rid in Outstanding(notices, notices[i].key) ||
            exists m :: i < m < |notices| && notices[m].Rearms(notices[i].key)
  {
    var front := notices[..|notices| - 1];
    if i < |front| {
      StaysOutstanding(front, i);
      if m :| i < m < |front| && front[m].Rearms(front[i].key) {
        assert notices[m].Rearms(notices[i].key);
      } else if notices[|front|].Rearms(notices[i].key) {
      }
    }
  }

  /** So between two deliveries of the same incident to the same recipient it was rearmed. */
  lemma NoRepeatsUntilRearmed(notices: seq<Notice>, i: nat, j: nat)
    requires OnceOnly(notices) && i < j < |notices| && notices[i].Sent? && notices[i] == notices[j]
    ensures var key := notices[i].key;
            exists m :: i < m < j && (notices[m] == Rearmed(key) ||
                                      (notices[m].Dropped? && !key.PsuMissing? && key.panel !in notices[m].kept))
  {
    StaysOutstanding(notices[..j], i);
    if m :| i < m < j && notices[..j][m].Rearms(notices[i].key) {
      assert notices[m] == notices[..j][m];
    }
  }

  function Got(delivered: map<Key, set<nat>>, key: Key): set<nat> {
    if key in delivered then delivered[key] else {}
  }

  ghost predicate Told(notices: seq<Notice>, delivered: map<Key, set<nat>>) {
    OnceOnly(notices) && forall key :: Got(delivered, key) == Outstanding(notices, key)
  }

  lemma NextNotice(notices: seq<Notice>, last: Notice, k: Key)
    ensures Outstanding(notices + [last], k) == Update(Outstanding(notices, k), last, k)
    ensures OnceOnly(notices) && (last.Sent? ==> last.rid !in Outstanding(notices, last.key)) ==> OnceOnly(notices + [last])
  {
    assert (notices + [last])[..|notices|] == notices;
    assert forall i :: 0 <= i < |notices| ==> (notices + [last])[..i] == notices[..i];
  }

  lemma StillTold(notices: seq<Notice>, delivered: map<Key, set<nat>>, last: Notice, after: map<Key, set<nat>>)
    requires Told(notices, delivered) && (last.Sent? ==> last.rid !in Got(delivered, last.key))
    requires forall k :: Got(after, k) == Update(Got(delivered, k), last, k)
    ensures Told(notices + [last], after)
  {
    forall k ensures Got(after, k) == Outstanding(notices + [last], k) {
      NextNotice(notices, last, k);
    }
    NextNotice(notices, last, PsuMissing);
  }

  // ---------- The state keeps up with the history ----------

  function StateOf(states: map<Panel, PanelState>, n: Panel): PanelState {
    if n in states then states[n] else UNSEEN
  }

  function Since(poweredSince: Option<int>, lastQuorum: Option<int>): Option<int> {
    if lastQuorum.Some? then lastQuorum else poweredSince
  }

  ghost predicate Tracks(history: seq<Event>, threshold: real, states: map<Panel, PanelState>, since: Option<int>) {
    states.Keys == Discovered(history) && since == CoveredSince(history) &&
    forall n: Panel :: Reflects(StateOf(states, n), history, threshold, n)
  }

  predicate Reflects(s: PanelState, history: seq<Event>, threshold: real, n: Panel) {
    s.highCount == Streak(history, n, threshold) && (s.poweredSince.Some? <==> Watched(history, n))
  }

  lemma NextEvent(history: seq<Event>, e: Event, n: Panel, threshold: real)
    ensures var after := history + [e];
            Discovered(after) == (if e.Panels? then e.panels else Discovered(history)) &&
            Streak(after, n, threshold) == (match MarkOf(e, n, threshold)
              case HotReading => Streak(history, n, threshold) + 1
              case Reset => 0
              case NoBearing => Streak(history, n, threshold)) &&
            Watched(after, n) == (match e
              case Panels(panels) => Watched(history, n) && n in panels
              case Power(on, _) => on && n in Discovered(history)
              case _ => Watched(history, n))
  {
    assert (history + [e])[..|history|] == history;
  }

  lemma NextCovered(history: seq<Event>, e: Event)
    ensures CoveredSince(history + [e]) == match e
      case Power(on, now) =>
        if !on then None else if CoveredSince(history).None? then Some(now) else CoveredSince(history)
      case Quorum(now) => Some(now)
      case _ => CoveredSince(history)
  {
    assert (history + [e])[..|history|] == history;
  }

  /** What an event does to one panel's state, as far as alarms can tell. */
  predicate Steps(e: Event, n: Panel, threshold: real, discovered: bool, was: PanelState, now: PanelState) {
    now.highCount == (match MarkOf(e, n, threshold)
      case HotReading => was.highCount + 1
      case Reset => 0
      case NoBearing => was.highCount) &&
    (now.poweredSince.Some? <==> match e
      case Panels(panels) => was.poweredSince.Some? && n in panels
      case Power(on, _) => on && discovered
      case _ => was.poweredSince.Some?)
  }

  lemma StillTracks(history: seq<Event>, threshold: real, states: map<Panel, PanelState>, since: Option<int>,
                    e: Event, after: map<Panel, PanelState>, since': Option<int>)
    requires Tracks(history, threshold, states, since)
    requires forall n: Panel :: Steps(e, n, threshold, n in states, StateOf(states, n), StateOf(after, n))
    requires after.Keys == if e.Panels? then e.panels else states.Keys
    requires since' == match e
      case Power(on, now) => if !on then None else if since.None? then Some(now) else since
      case Quorum(now) => Some(now)
      case _ => since
    ensures Tracks(history + [e], threshold, after, since')
  {
    NextCovered(history, e);
    NextEvent(history, e, 0, threshold);
    forall n: Panel ensures Reflects(StateOf(after, n), history + [e], threshold, n) {
      NextEvent(history, e, n, threshold);
      assert Reflects(StateOf(states, n), history, threshold, n);
      assert Steps(e, n, threshold, n in states, StateOf(states, n), StateOf(after, n));
    }
  }

  // ---------- The monitor ----------

  function Retained(states: map<Panel, PanelState>, panels: seq<Panel>): map<Panel, PanelState> {
    map n | n in panels :: StateOf(states, n)
  }

  function Switched(s: PanelState, on: bool, now: int): PanelState {
    if !on then UNSEEN else if s.poweredSince.None? then s.(poweredSince := Some(now)) else s
  }

  function AllSwitched(states: map<Panel, PanelState>, panels: seq<Panel>, on: bool, now: int): map<Panel, PanelState> {
    map n | n in states :: if n in panels then Switched(states[n], on, now) else states[n]
  }

  function Sampled(s: PanelState, value: Option<real>, threshold: real, now: int): PanelState {
    match value
    case None => s.(highCount := 0)
    case Some(v) => PanelState(s.poweredSince, Some(now), if v > threshold then s.highCount + 1 else 0, Some(v))
  }

  function Unknown(states: map<Panel, PanelState>): map<Panel, PanelState> {
    map n | n in states :: states[n].(highCount := 0)
  }

  function Forgotten(panels: seq<Panel>): seq<Notice> {
    if panels == [] then []
    else Forgotten(panels[..|panels| - 1]) +
         [Rearmed(Hot(panels[|panels| - 1])), Rearmed(Missing(panels[|panels| - 1]))]
  }

  /** Power-off rearms both alerts of every panel, and no others. */
  lemma {:induction false} ForgottenAre(panels: seq<Panel>, k: Notice)
    ensures k in Forgotten(panels) <==>
      k.Rearmed? && !k.key.PsuMissing? && k.key.panel in panels
  {
    if panels != [] {
      ForgottenAre(panels[..|panels| - 1], k);
      assert panels == panels[..|panels| - 1] + [panels[|panels| - 1]];
    }
  }

  lemma SwitchNext(was: map<Panel, PanelState>, panels: seq<Panel>, i: nat, on: bool, now: int)
    requires i < |panels| && panels[i] in was
    ensures var n, states := panels[i], AllSwitched(was, panels[..i], on, now);
            n in states && states[n := Switched(states[n], on, now)] == AllSwitched(was, panels[..i + 1], on, now)
  {
    assert panels[..i + 1] == panels[..i] + [panels[i]];
  }

  lemma NoneYet(states: map<Panel, PanelState>, panels: seq<Panel>, on: bool, now: int)
    ensures AllSwitched(states, panels[..0], on, now) == states && Forgotten(panels[..0]) == []
    ensures AllSwitched(states, panels, on, now).Keys == states.Keys
  {}

  lemma ForgottenNext(panels: seq<Panel>, i: nat, told: seq<Notice>)
    requires i < |panels|
    ensures told + Forgotten(panels[..i]) + [Rearmed(Hot(panels[i]))] + [Rearmed(Missing(panels[i]))]
         == told + Forgotten(panels[..i + 1])
  {
    assert panels[..i + 1][..i] == panels[..i];
  }

  lemma PanelsTracks(history: seq<Event>, threshold: real, states: map<Panel, PanelState>, since: Option<int>,
                     found: seq<Panel>)
    requires Tracks(history, threshold, states, since)
    ensures Tracks(history + [Panels(SetOf(found))], threshold, Retained(states, found), since)
  {
    StillTracks(history, threshold, states, since, Panels(SetOf(found)), Retained(states, found), since);
  }

  lemma DroppedTold(notices: seq<Notice>, delivered: map<Key, set<nat>>, found: seq<Panel>, states: map<Panel, PanelState>)
    requires Told(notices, delivered) && states.Keys == SetOf(found)
    ensures Told(notices + [Dropped(SetOf(found))],
                 map k | k in delivered && (k.PsuMissing? || k.panel in states) :: delivered[k])
  {
    StillTold(notices, delivered, Dropped(SetOf(found)),
              map k | k in delivered && (k.PsuMissing? || k.panel in states) :: delivered[k]);
  }

  lemma PowerTracks(history: seq<Event>, threshold: real, states: map<Panel, PanelState>, since: Option<int>,
                    panels: seq<Panel>, on: bool, now: int)
    requires Tracks(history, threshold, states, since) && states.Keys == SetOf(panels)
    ensures Tracks(history + [Power(on, now)], threshold, AllSwitched(states, panels, on, now),
                   if !on then None else if since.None? then Some(now) else since)
  {
    StillTracks(history, threshold, states, since, Power(on, now), AllSwitched(states, panels, on, now),
                if !on then None else if since.None? then Some(now) else since);
  }

  datatype Policy = Policy(threshold: real, count: nat, missingSeconds: int, powerCutoff: real, minimumPanels: nat)

  class Monitor {
    const threshold: real
    const count: nat
    const missingSeconds: int
    const powerCutoff: real
    const minimumPanels: nat
    var panels: seq<Panel>
    var states: map<Panel, PanelState>
    var delivered: map<Key, set<nat>>
    var poweredSince: Option<int>
    var lastQuorum: Option<int>
    var cycleGood: set<Panel>
    ghost var history: seq<Event>
    ghost var notices: seq<Notice>

    ghost function Settings(): Policy {
      Policy(threshold, count, missingSeconds, powerCutoff, minimumPanels)
    }

    ghost predicate Valid()
      reads this
    {
      Tracks(history, threshold, states, Since(poweredSince, lastQuorum)) && Told(notices, delivered) &&
      states.Keys == SetOf(panels)
    }

    constructor (panels: seq<Panel>, threshold: real, count: nat, missingSeconds: int, powerCutoff: real,
                 minimumPanels: nat)
      ensures Valid() && history == [Panels(SetOf(panels))] && notices == []
      ensures this.threshold == threshold && this.count == count && this.missingSeconds == missingSeconds &&
              this.powerCutoff == powerCutoff && this.minimumPanels == minimumPanels
    {
      this.threshold, this.count, this.missingSeconds := threshold, count, missingSeconds;
      this.powerCutoff, this.minimumPanels, this.panels := powerCutoff, minimumPanels, panels;
      states := map n | n in panels :: UNSEEN;
      delivered := map[];
      poweredSince, lastQuorum, cycleGood := None, None, {};
      history, notices := [Panels(SetOf(panels))], [];
      new;
      assert Tracks([], threshold, map[], None);
      StillTracks([], threshold, map[], None, Panels(SetOf(panels)), states, None);
      assert [] + [Panels(SetOf(panels))] == history;
    }

    /** `delivered.pop(key, None)`. */
    method Rearm(key: Key)
      requires Told(notices, delivered)
      modifies `delivered, `notices
      ensures Told(notices, delivered) && notices == old(notices) + [Rearmed(key)]
    {
      StillTold(notices, delivered, Rearmed(key), delivered - {key});
      delivered := delivered - {key};
      notices := notices + [Rearmed(key)];
    }

    method SetPanels(found: seq<Panel>)
      requires Valid()
      modifies this
      ensures Valid() && history == old(history) + [Panels(SetOf(found))]
      ensures panels == found && states == Retained(old(states), found)
      ensures notices == old(notices) + [Dropped(SetOf(found))]
      ensures poweredSince == old(poweredSince) && lastQuorum == old(lastQuorum) && cycleGood == old(cycleGood)
    {
      hide Tracks, Told;
      PanelsTracks(history, threshold, states, Since(poweredSince, lastQuorum), found);
      DroppedTold(notices, delivered, found, Retained(states, found));
      panels := found;
      states := map n | n in found :: StateOf(states, n);
      delivered := map k | k in delivered && (k.PsuMissing? || k.panel in states) :: delivered[k];
      history := history + [Panels(SetOf(found))];
      notices := notices + [Dropped(SetOf(found))];
    }

    /** `apply_power`: the supply is on when any channel reaches the cutoff. */
    method ApplyPower(volts: seq<real>, now: int) returns (active: seq<Panel>)
      requires Valid()
      modifies this
      ensures Valid()
      ensures var on := On(volts, powerCutoff);
              history == old(history) + [Power(on, now)] &&
              active == (if on then panels else []) &&
              states == AllSwitched(old(states), panels, on, now) &&
              notices == (old(notices) + if on then [] else [Rearmed(PsuMissing)] + Forgotten(panels)) &&
              (poweredSince.Some? <==> on) && cycleGood == (if on then old(cycleGood) else {})
      ensures panels == old(panels) && (poweredSince.Some? <==> exists i :: 0 <= i < |volts| && volts[i] >= powerCutoff)
    {
      hide Tracks, Told, AllSwitched, Forgotten, Switched;
      var on := On(volts, powerCutoff);
      PowerTracks(history, threshold, states, Since(poweredSince, lastQuorum), panels, on, now);
      NoneYet(states, panels, on, now);
      if on {
        if poweredSince.None? {
          poweredSince := Some(now);
        }
      } else {
        poweredSince, lastQuorum, cycleGood := None, None, {};
        Rearm(PsuMissing);
      }
      ghost var told, since := notices, Since(poweredSince, lastQuorum);
      active := [];
      for i := 0 to |panels|
        invariant Told(notices, delivered) && panels == old(panels) && history == old(history)
        invariant Since(poweredSince, lastQuorum) == since && (poweredSince.Some? <==> on)
        invariant cycleGood == if on then old(cycleGood) else {}
        invariant states == AllSwitched(old(states), panels[..i], on, now)
        invariant active == if on then panels[..i] else []
        invariant notices == told + if on then [] else Forgotten(panels[..i])
      {
        var n := panels[i];
        assert n in SetOf(panels);
        SwitchNext(old(states), panels, i, on, now);
        ForgottenNext(panels, i, told);
        states := states[n := Switched(states[n], on, now)];
        if on {
          active := active + [n];
        } else {
          Rearm(Hot(n));
          Rearm(Missing(n));
        }
      }
      assert panels[..|panels|] == panels;
      history := history + [Power(on, now)];
    }

    /** `sample`: a failed reading breaks the streak, a cool one also rearms the hot alert. */
    method TakeSample(n: Panel, value: Option<real>, now: int)
      requires Valid() && n in states
      modifies this
      ensures Valid() && history == old(history) + [Sample(n, value)] && panels == old(panels)
      ensures states == old(states)[n := Sampled(old(states)[n], value, threshold, now)]
      ensures cycleGood == old(cycleGood) + if value.Some? then {n} else {}
      ensures notices == old(notices) + (if value.None? then [] else [Rearmed(Missing(n))]) +
                         (if value.Some? && value.value <= threshold then [Rearmed(Hot(n))] else [])
      ensures poweredSince == old(poweredSince) && lastQuorum == old(lastQuorum)
    {
      hide Tracks, Told, Sampled;
      SampleTracks(history, threshold, states, Since(poweredSince, lastQuorum), n, value, now);
      history := history + [Sample(n, value)];
      states := states[n := Sampled(states[n], value, threshold, now)];
      if value.Some? {
        cycleGood := cycleGood + {n};
        Rearm(Missing(n));
        if value.value <= threshold {
          Rearm(Hot(n));
        }
      }
    }

    /** `finish_cycle`. */
    method FinishCycle(now: int)
      requires Valid()
      modifies this
      ensures Valid() && panels == old(panels) && states == old(states) && cycleGood == old(cycleGood)
      ensures var enough := |cycleGood| >= minimumPanels;
              history == (if enough then old(history) + [Quorum(now)] else old(history)) &&
              notices == (if enough then old(notices) + [Rearmed(PsuMissing)] else old(notices))
      ensures poweredSince == old(poweredSince)
    {
      if |cycleGood| >= minimumPanels {
        lastQuorum := Some(now);
        StillTracks(history, threshold, states, old(Since(poweredSince, lastQuorum)), Quorum(now), states, Some(now));
        history := history + [Quorum(now)];
        Rearm(PsuMissing);
      }
    }

    /** The power cannot be read: every streak is broken and nothing else is concluded. */
    method PowerIsUnknown()
      requires Valid()
      modifies this
      ensures Valid() && history == old(history) + [PowerUnknown] && panels == old(panels)
      ensures states == Unknown(old(states)) && notices == old(notices)
    {
      StillTracks(history, threshold, states, Since(poweredSince, lastQuorum), PowerUnknown, Unknown(states),
                  Since(poweredSince, lastQuorum));
      history := history + [PowerUnknown];
      states := map n | n in states :: states[n].(highCount := 0);
    }

    /** `alarms`, as its keys. */
    method Alarms(now: int) returns (keys: set<Key>)
      requires Valid()
      ensures forall n :: Hot(n) in keys <==> Watched(history, n) && Streak(history, n, threshold) >= count
      ensures PsuMissing in keys <==> CoveredSince(history).Some? && now - CoveredSince(history).value > missingSeconds
      ensures forall n :: Missing(n) !in keys
    {
      keys := {};
      for i := 0 to |panels|
        invariant forall n :: Hot(n) in keys <==>
          n in panels[..i] && StateOf(states, n).poweredSince.Some? && StateOf(states, n).highCount >= count
        invariant PsuMissing !in keys && forall n :: Missing(n) !in keys
      {
        var n := panels[i];
        assert n in SetOf(panels);
        assert panels[..i + 1] == panels[..i] + [n];
        if states[n].poweredSince.Some? && states[n].highCount >= count {
          keys := keys + {Hot(n)};
        }
      }
      forall n ensures Hot(n) in keys <==> Watched(history, n) && Streak(history, n, threshold) >= count {
        assert Reflects(StateOf(states, n), history, threshold, n);
        assert n in SetOf(panels) <==> n in states;
      }
      var since := if lastQuorum.Some? then lastQuorum else poweredSince;
      if since.Some? && now - since.value > missingSeconds {
        keys := keys + {PsuMissing};
      }
    }

    /** A batch that got through. */
    method Deliver(rid: nat, batch: seq<Key>)
      requires Valid() && Distinct(batch) && forall k :: k in batch ==> rid !in Got(delivered, k)
      modifies `delivered, `notices
      ensures Valid() && forall k :: Got(delivered, k) == Plus(Got(old(delivered), k), rid, k in batch)
    {
      hide Tracks, Told;
      for i := 0 to |batch|
        invariant Told(notices, delivered)
        invariant forall k :: Got(delivered, k) == Plus(Got(old(delivered), k), rid, k in batch[..i])
      {
        var k := batch[i];
        assert batch[..i + 1] == batch[..i] + [k];
        var after := delivered[k := Got(delivered, k) + {rid}];
        StillTold(notices, delivered, Sent(rid, k), after);
        delivered := after;
        notices := notices + [Sent(rid, k)];
      }
      assert batch[..|batch|] == batch;
    }

    /** `notify` for one recipient: what is still pending goes out in batches, and a batch that fails stays pending. */
    method NotifyOne(rid: nat, alarms: seq<Key>, length: Key -> nat, action: nat, accepts: (nat, seq<Key>) -> bool)
      returns (failed: set<Key>)
      requires Valid() && Distinct(alarms)
      modifies `delivered, `notices
      ensures Valid() && forall k :: k in failed ==> k in alarms && rid !in Got(old(delivered), k)
      ensures forall k :: k in failed ==> Turned(k, rid, accepts)
      ensures forall k :: Got(delivered, k) == Plus(Got(old(delivered), k), rid, k in alarms && k !in failed)
    {
      hide Tracks, Told;
      var pending: seq<Key> := [];
      for i := 0 to |alarms|
        invariant Distinct(pending) && forall k :: k in pending <==> k in alarms[..i] && rid !in Got(delivered, k)
      {
        assert alarms[..i + 1] == alarms[..i] + [alarms[i]];
        if rid !in Got(delivered, alarms[i]) {
          pending := pending + [alarms[i]];
        }
      }
      assert alarms[..|alarms|] == alarms;
      var batches := Batches(pending, length, action);
      failed := {};
      ghost var done: seq<Key> := [];
      for j := 0 to |batches|
        invariant Valid() && done == Flat(batches[..j]) && forall k :: k in failed ==> k in done && Turned(k, rid, accepts)
        invariant forall k :: Got(delivered, k) == Plus(Got(old(delivered), k), rid, k in done && k !in failed)
      {
        FlatSplit(batches, j);
        assert Flat(batches[..j]) + batches[j] <= pending;
        DistinctParts(pending, done, batches[j]);
        if accepts(rid, batches[j]) {
          Deliver(rid, batches[j]);
        } else {
          failed := failed + set k | k in batches[j];
        }
        done := done + batches[j];
      }
      assert batches[..|batches|] == batches;
    }

    /** `notify`. Afterwards everyone has had every alarm but those whose sending to them just failed. */
    method Notify(users: seq<nat>, alarms: seq<Key>, length: Key -> nat, action: nat, accepts: (nat, seq<Key>) -> bool)
      returns (failed: seq<set<Key>>)
      requires Valid() && Distinct(alarms)
      modifies `delivered, `notices
      ensures Valid() && |failed| == |users|
      ensures forall i, k :: 0 <= i < |users| && k in alarms && k !in failed[i] ==> users[i] in Got(delivered, k)
      ensures forall i, k :: 0 <= i < |users| && k in failed[i] ==> k in alarms && users[i] !in Got(old(delivered), k)
      ensures forall i, k :: 0 <= i < |users| && k in failed[i] ==> Turned(k, users[i], accepts)
      ensures forall k :: Got(delivered, k) <= Got(old(delivered), k) + if k in alarms then SetOf(users) else {}
    {
      hide Tracks, Told;
      failed := [];
      for i := 0 to |users|
        invariant Valid() && |failed| == i
        invariant forall j, k :: 0 <= j < i && k in alarms && k !in failed[j] ==> users[j] in Got(delivered, k)
        invariant forall j, k :: 0 <= j < i && k in failed[j] ==> k in alarms && users[j] !in Got(old(delivered), k)
        invariant forall j, k :: 0 <= j < i && k in failed[j] ==> Turned(k, users[j], accepts)
        invariant forall k :: Got(old(delivered), k) <= Got(delivered, k)
        invariant forall k :: Got(delivered, k) <= Got(old(delivered), k) + if k in alarms then SetOf(users) else {}
      {
        assert users[i] in SetOf(users);
        var f := NotifyOne(users[i], alarms, length, action, accepts);
        failed := failed + [f];
      }
    }

    /** The reading loop of `cycle`, stopped after `stopAt` panels if there are more. */
    method ReadAll(active: seq<Panel>, offset: nat, stopAt: nat, read: Panel -> Option<real>, readAt: Panel -> int)
      returns (stopped: bool)
      requires Valid() && Disciplined(history) && active == panels && cycleGood == {}
      requires forall n :: n in panels ==> Watched(history, n)
      modifies this
      ensures Valid() && Disciplined(history) && panels == old(panels)
      ensures stopped <==> stopAt < |active|
      ensures history == old(history) + Samples(Order(active, offset), if stopped then stopAt else |active|, read)
      ensures !stopped ==> cycleGood == Readable(Order(active, offset), read)
      ensures !stopped ==> EachInTurn(old(history), panels, offset, read, history)
    {
      hide Tracks, Told, Disciplined, Watched;
      var order := Order(active, offset);
      assert history == history + Samples(order, 0, read);
      for i := 0 to |active|
        invariant i <= stopAt && Valid() && Disciplined(history) && panels == active == old(panels)
        invariant history == old(history) + Samples(order, i, read)
        invariant cycleGood == Readable(order[..i], read)
        invariant forall n :: n in panels ==> Watched(history, n)
      {
        if i == stopAt {
          return true;
        }
        var n := order[i];
        assert n in SetOf(panels);
        DisciplineKept(history, Sample(n, read(n)));
        WatchKept(history, Sample(n, read(n)));
        SamplesNext(old(history), order, i, read);
        TakeSample(n, read(n), readAt(n));
      }
      assert order[..|active|] == order;
      InTurn(old(history), panels, offset, read);
      return false;
    }

    /** Power looked at, and what is to be alarmed then. */
    method PowerAndAlarms(volts: seq<real>, now: int) returns (keys: set<Key>)
      requires Valid() && Disciplined(history)
      modifies this
      ensures Valid() && Disciplined(history) && panels == old(panels)
      ensures history == old(history) + [Power(On(volts, powerCutoff), now)]
      ensures keys != {} <==> Alarming(history, threshold, count, missingSeconds, now)
      ensures keys != {} ==> On(volts, powerCutoff)
      ensures forall n :: count > 0 ==> (Hot(n) in keys <==> AllHot(Marks(history, n, threshold), count))
      ensures PsuMissing in keys <==> CoveredSince(history).Some? && now - CoveredSince(history).value > missingSeconds
    {
      hide Tracks, Told, Disciplined, Watched, AllHot, Streak, CoveredSince;
      ghost var on := On(volts, powerCutoff);
      ghost var before := history;
      DisciplineKept(history, Power(on, now));
      var _ := ApplyPower(volts, now);
      keys := Alarms(now);
      if keys != {} {
        AlarmsNeedPower(before, on, now, keys, threshold, count);
      }
      KeysAlarm(history, threshold, count, missingSeconds, now, keys);
      forall n | count > 0 ensures Hot(n) in keys <==> AllHot(Marks(history, n, threshold), count) {
        HotAlarmIff(history, n, threshold, count);
      }
    }

    /** The first part of `cycle`: whether there is something to alarm. */
    method Sweep(s: Sight) returns (alarming: bool)
      requires Valid() && Disciplined(history)
      modifies this
      ensures Valid() && Disciplined(history)
      ensures history == Swept(old(history), old(panels), s, powerCutoff, minimumPanels).history
      ensures panels == Known(old(panels), s)
      ensures alarming <==> Swept(old(history), old(panels), s, powerCutoff, minimumPanels).complete && !s.stopAfterwards &&
                            Alarming(history, threshold, count, missingSeconds, s.alarmsAt)
    {
      hide Tracks, Told, Disciplined, Watched, Streak, CoveredSince, Alarming, On;
      hide Samples, Readable, Order, AllSwitched, Forgotten;
      cycleGood := {};
      if s.volts.None? {
        DisciplineKept(history, PowerUnknown);
        PowerIsUnknown();
        return false;
      }
      if s.found.Some? {
        DisciplineKept(history, Panels(SetOf(s.found.value)));
        SetPanels(s.found.value);
      }
      DisciplineKept(history, Power(On(s.volts.value, powerCutoff), s.powerAt));
      PanelsWatched(history, s.powerAt, states, panels, Since(poweredSince, lastQuorum), threshold);
      var active := ApplyPower(s.volts.value, s.powerAt);
      if poweredSince.None? {
        return false;
      }
      var stopped := ReadAll(active, s.offset, s.stopAt, s.read, s.readAt);
      if stopped {
        return false;
      }
      DisciplineKept(history, Quorum(s.finishedAt));
      FinishCycle(s.finishedAt);
      var keys := Alarms(s.alarmsAt);
      KeysAlarm(history, threshold, count, missingSeconds, s.alarmsAt, keys);
      return keys != {} && !s.stopAfterwards;
    }

    /** `cycle`, once over. Power-off is sent exactly in live mode, when the sweep ended with an alarm and the recheck
        of the power, which was readable, still leaves one; `acted` is what is alarmed then. */
    method Cycle(dryRun: bool, users: seq<nat>, length: Key -> nat, action: nat, accepts: (nat, seq<Key>) -> bool, s: Sight)
      returns (offSent: bool, ghost acted: set<Key>, failed: seq<set<Key>>)
      requires Valid() && Disciplined(history)
      modifies this
      ensures Valid() && Disciplined(history)
      ensures var looked := Looks(old(history), old(panels), s, Settings());
              history == Cycled(old(history), old(panels), s, Settings()) &&
              (acted != {} <==> looked && Alarming(history, threshold, count, missingSeconds, s.recheckAt)) &&
              (offSent <==> !dryRun && acted != {})
      ensures panels == Known(old(panels), s)
      ensures acted != {} ==> s.again.Some? && exists i :: 0 <= i < |s.again.value| && s.again.value[i] >= powerCutoff
      ensures acted != {} && count > 0 ==>
        forall n :: Hot(n) in acted <==> AllHot(Marks(history, n, threshold), count)
      ensures acted != {} ==> |failed| == |users|
      ensures acted != {} ==>
        forall i, k :: 0 <= i < |users| && k in acted && k !in failed[i] ==> users[i] in Got(delivered, k)
      ensures acted != {} ==>
        forall i, k :: 0 <= i < |users| && k in failed[i] ==> Turned(k, users[i], accepts)
    {
      hide Tracks, Told, Disciplined, AllHot, Marks, CoveredSince, Swept, Alarming, Turned;
      offSent, acted, failed := false, {}, [];
      var alarming := Sweep(s);
      if !alarming || !s.again.Some? {
        return;
      }
      var keys := PowerAndAlarms(s.again.value, s.recheckAt);
      acted := keys;
      if keys == {} {
        return;
      }
      offSent := !dryRun;
      var listed := Listed(keys);
      failed := Notify(users, listed, length, action, accepts);
    }
  }

  /** What one cycle meets: the two power readings, the discovered panels, the temperature of each panel, when a stop
      request cuts the reading short, and the times of it all. */
  datatype Sight = Sight(
    volts: Option<seq<real>>, found: Option<seq<Panel>>, offset: nat, read: Panel -> Option<real>, stopAt: nat,
    stopAfterwards: bool, again: Option<seq<real>>,
    powerAt: int, readAt: Panel -> int, finishedAt: int, alarmsAt: int, recheckAt: int)

  predicate On(volts: seq<real>, cutoff: real) {
    exists i :: 0 <= i < |volts| && volts[i] >= cutoff
  }

  /** The panels in turn, from the one whose turn it is. */
  function Order(active: seq<Panel>, offset: nat): (order: seq<Panel>)
    ensures |order| == |active| && forall i :: 0 <= i < |order| ==> order[i] in active
  {
    if active == [] then [] else active[offset % |active|..] + active[..offset % |active|]
  }

  /** Where in its cycle a panel is sampled: first come those from the `k`-th on, then the `k` before them. */
  function Place(j: nat, k: nat, n: nat): int {
    if j >= k then j - k else n - k + j
  }

  /** Every panel has been sampled, in turn, and nothing else has happened. */
  predicate EachInTurn(before: seq<Event>, panels: seq<Panel>, offset: nat, read: Panel -> Option<real>, after: seq<Event>) {
    |after| == |before| + |panels| && before <= after &&
    forall j :: 0 <= j < |panels| ==>
      after[|before| + Place(j, offset % |panels|, |panels|)] == Sample(panels[j], read(panels[j]))
  }

  lemma InTurn(before: seq<Event>, panels: seq<Panel>, offset: nat, read: Panel -> Option<real>)
    ensures EachInTurn(before, panels, offset, read, before + Samples(Order(panels, offset), |panels|, read))
  {}

  predicate IsSampleOf(e: Event, n: Panel) {
    e.Sample? && e.panel == n
  }

  /** So of panels without repeats each is sampled exactly once in a full reading, and no other is. */
  lemma SampledOnce(before: seq<Event>, panels: seq<Panel>, offset: nat, read: Panel -> Option<real>, after: seq<Event>,
                    n: Panel)
    requires Distinct(panels) && EachInTurn(before, panels, offset, read, after)
    ensures n in panels ==> exists i :: |before| <= i < |after| && after[i] == Sample(n, read(n)) &&
                                        forall j :: |before| <= j < |after| && IsSampleOf(after[j], n) ==> j == i
    ensures n !in panels ==> forall j :: |before| <= j < |after| ==> after[j].Sample? && after[j].panel != n
  {
    var k := if panels == [] then 0 else offset % |panels|;
    forall j | |before| <= j < |after| ensures after[j].Sample? && after[j].panel == PanelAt(panels, k, j - |before|) {
      var m := if j - |before| < |panels| - k then j - |before| + k else j - |before| - (|panels| - k);
      assert 0 <= m < |panels| && Place(m, k, |panels|) == j - |before|;
      assert after[|before| + Place(m, k, |panels|)] == Sample(panels[m], read(panels[m]));
    }
    if n in panels {
      var m :| 0 <= m < |panels| && panels[m] == n;
      var i := |before| + Place(m, k, |panels|);
      assert after[i] == Sample(n, read(n));
      forall j | |before| <= j < |after| && IsSampleOf(after[j], n) ensures j == i {
        assert PanelAt(panels, k, j - |before|) == n;
      }
    }
  }

  function PanelAt(panels: seq<Panel>, k: nat, i: nat): Panel
    requires k <= |panels| && i < |panels|
  {
    if i < |panels| - k then panels[i + k] else panels[i - (|panels| - k)]
  }

  function Samples(order: seq<Panel>, n: nat, read: Panel -> Option<real>): seq<Event>
    requires n <= |order|
  {
    seq(n, i requires 0 <= i < n => Sample(order[i], read(order[i])))
  }

  lemma SamplesNext(history: seq<Event>, order: seq<Panel>, i: nat, read: Panel -> Option<real>)
    requires i < |order|
    ensures history + Samples(order, i, read) + [Sample(order[i], read(order[i]))] == history + Samples(order, i + 1, read)
    ensures Readable(order[..i + 1], read) == Readable(order[..i], read) + if read(order[i]).Some? then {order[i]} else {}
  {
    assert order[..i + 1] == order[..i] + [order[i]];
  }

  function Readable(order: seq<Panel>, read: Panel -> Option<real>): set<Panel> {
    set n | n in order && read(n).Some?
  }

  datatype Sweeping = Sweeping(history: seq<Event>, complete: bool)

  /** The history after the first part of a cycle, and whether it came to its end. */
  function Swept(history: seq<Event>, panels: seq<Panel>, s: Sight, cutoff: real, minimum: nat): Sweeping {
    if s.volts.None? then Sweeping(history + [PowerUnknown], false)
    else
      var known := if s.found.Some? then s.found.value else panels;
      var found := if s.found.Some? then history + [Panels(SetOf(known))] else history;
      var powered := found + [Power(On(s.volts.value, cutoff), s.powerAt)];
      if !On(s.volts.value, cutoff) then Sweeping(powered, false)
      else
        var order := Order(known, s.offset);
        if s.stopAt < |order| then Sweeping(powered + Samples(order, s.stopAt, s.read), false)
        else
          var read := powered + Samples(order, |order|, s.read);
          Sweeping(if |Readable(order, s.read)| >= minimum then read + [Quorum(s.finishedAt)] else read, true)
  }

  /** The panels a cycle ends with: those discovered, if power and discovery could be read, or those of before. */
  function Known(panels: seq<Panel>, s: Sight): seq<Panel> {
    if s.volts.Some? && s.found.Some? then s.found.value else panels
  }

  /** The power is looked at again: there is an alarm, no stop request, and an answer. */
  ghost predicate Looks(history: seq<Event>, panels: seq<Panel>, s: Sight, p: Policy) {
    var sweep := Swept(history, panels, s, p.powerCutoff, p.minimumPanels);
    sweep.complete && !s.stopAfterwards && s.again.Some? &&
    Alarming(sweep.history, p.threshold, p.count, p.missingSeconds, s.alarmsAt)
  }

  /** The history after a whole cycle. */
  ghost function Cycled(history: seq<Event>, panels: seq<Panel>, s: Sight, p: Policy): seq<Event> {
    Swept(history, panels, s, p.powerCutoff, p.minimumPanels).history +
    if Looks(history, panels, s, p) then [Power(On(s.again.value, p.powerCutoff), s.recheckAt)] else []
  }

  lemma {:induction false} SamplesAddOne(history: seq<Event>, order: seq<Panel>, i: nat, read: Panel -> Option<real>,
                                         n: Panel, threshold: real)
    requires i <= |order| && Distinct(order)
    ensures Streak(history + Samples(order, i, read), n, threshold) <=
            Streak(history, n, threshold) + if n in order[..i] then 1 else 0
  {
    if i == 0 {
      assert history + Samples(order, 0, read) == history;
    } else {
      SamplesAddOne(history, order, i - 1, read, n, threshold);
      SamplesNext(history, order, i - 1, read);
      assert order[..i] == order[..i - 1] + [order[i - 1]];
      NextEvent(history + Samples(order, i - 1, read), Sample(order[i - 1], read(order[i - 1])), n, threshold);
      hide Streak, Samples;
    }
  }

  lemma OrderIsDistinct(panels: seq<Panel>, offset: nat)
    requires Distinct(panels)
    ensures Distinct(Order(panels, offset))
  {}

  lemma NoEventAdds(history: seq<Event>, e: Event, n: Panel, threshold: real)
    requires !e.Sample?
    ensures Streak(history + [e], n, threshold) <= Streak(history, n, threshold)
  {
    NextEvent(history, e, n, threshold);
  }

  lemma SweepAddsOne(history: seq<Event>, panels: seq<Panel>, s: Sight, cutoff: real, minimum: nat, n: Panel,
                     threshold: real)
    requires Distinct(Known(panels, s))
    ensures Streak(Swept(history, panels, s, cutoff, minimum).history, n, threshold) <= Streak(history, n, threshold) + 1
  {
    hide Streak, Samples, Order, Readable, On, Distinct;
    if s.volts.None? {
      NoEventAdds(history, PowerUnknown, n, threshold);
    } else {
      var known := Known(panels, s);
      NoEventAdds(history, Panels(SetOf(known)), n, threshold);
      var found := if s.found.Some? then history + [Panels(SetOf(known))] else history;
      var on := On(s.volts.value, cutoff);
      NoEventAdds(found, Power(on, s.powerAt), n, threshold);
      if on {
        var powered, order := found + [Power(on, s.powerAt)], Order(known, s.offset);
        OrderIsDistinct(known, s.offset);
        SamplesAddOne(powered, order, if s.stopAt < |order| then s.stopAt else |order|, s.read, n, threshold);
        NoEventAdds(powered + Samples(order, |order|, s.read), Quorum(s.finishedAt), n, threshold);
      }
    }
  }

  /** However a cycle goes, it makes a panel's run of hot readings longer by one at most. */
  lemma CycleAddsOne(history: seq<Event>, panels: seq<Panel>, s: Sight, p: Policy, n: Panel)
    requires Distinct(Known(panels, s))
    ensures Streak(Cycled(history, panels, s, p), n, p.threshold) <= Streak(history, n, p.threshold) + 1
  {
    hide Streak, Swept;
    var sweep := Swept(history, panels, s, p.powerCutoff, p.minimumPanels).history;
    SweepAddsOne(history, panels, s, p.powerCutoff, p.minimumPanels, n, p.threshold);
    if Looks(history, panels, s, p) {
      NoEventAdds(sweep, Power(On(s.again.value, p.powerCutoff), s.recheckAt), n, p.threshold);
    } else {
      assert sweep + [] == sweep;
    }
  }

  /** The power is looked at again, and acted on if an alarm is left, exactly after a cycle with the power readable and on
      and no stop request, in which every panel was read and something is to be alarmed. */
  lemma LooksIff(history: seq<Event>, panels: seq<Panel>, s: Sight, p: Policy)
    ensures Looks(history, panels, s, p) <==>
      s.volts.Some? && (exists i :: 0 <= i < |s.volts.value| && s.volts.value[i] >= p.powerCutoff) &&
      s.stopAt >= |Known(panels, s)| && !s.stopAfterwards && s.again.Some? &&
      Alarming(Swept(history, panels, s, p.powerCutoff, p.minimumPanels).history, p.threshold, p.count, p.missingSeconds,
               s.alarmsAt)
  {
    hide Alarming;
  }

  /** A whole cycle with the power on in which the panel was read hot. */
  predicate ReadsHot(panels: seq<Panel>, s: Sight, p: Policy, n: Panel) {
    Distinct(Known(panels, s)) && n in Known(panels, s) && s.volts.Some? && On(s.volts.value, p.powerCutoff) &&
    s.stopAt >= |Known(panels, s)| && s.read(n).Some? && s.read(n).value > p.threshold
  }

  lemma {:induction false} SamplesAddIt(history: seq<Event>, order: seq<Panel>, i: nat, read: Panel -> Option<real>,
                                        n: Panel, threshold: real)
    requires i <= |order| && Distinct(order) && read(n).Some? && read(n).value > threshold
    ensures var after := history + Samples(order, i, read);
            Streak(after, n, threshold) == Streak(history, n, threshold) + (if n in order[..i] then 1 else 0) &&
            Watched(after, n) == Watched(history, n)
  {
    if i == 0 {
      assert history + Samples(order, 0, read) == history;
    } else {
      SamplesAddIt(history, order, i - 1, read, n, threshold);
      SamplesNext(history, order, i - 1, read);
      assert order[..i] == order[..i - 1] + [order[i - 1]];
      NextEvent(history + Samples(order, i - 1, read), Sample(order[i - 1], read(order[i - 1])), n, threshold);
      hide Streak, Samples, Watched;
    }
  }

  lemma OrderHas(panels: seq<Panel>, offset: nat, n: Panel)
    requires n in panels
    ensures n in Order(panels, offset)
  {
    var i :| 0 <= i < |panels| && panels[i] == n;
    var k := offset % |panels|;
    assert i < k ==> Order(panels, offset)[|panels| - k + i] == n;
    assert i >= k ==> Order(panels, offset)[i - k] == n;
  }

  lemma SweepCounts(history: seq<Event>, panels: seq<Panel>, s: Sight, p: Policy, n: Panel)
    requires ReadsHot(panels, s, p, n) && n in Discovered(history)
    ensures var sweep := Swept(history, panels, s, p.powerCutoff, p.minimumPanels);
            sweep.complete && Watched(sweep.history, n) && n in Discovered(sweep.history) &&
            Streak(sweep.history, n, p.threshold) == Streak(history, n, p.threshold) + 1
  {
    var known := Known(panels, s);
    OrderIsDistinct(known, s.offset);
    OrderHas(known, s.offset, n);
    hide Streak, Samples, Order, Readable, Distinct, Watched, Discovered;
    NextEvent(history, Panels(SetOf(known)), n, p.threshold);
    assert n in SetOf(known);
    var found := if s.found.Some? then history + [Panels(SetOf(known))] else history;
    NextEvent(found, Power(true, s.powerAt), n, p.threshold);
    var powered, order := found + [Power(true, s.powerAt)], Order(known, s.offset);
    SamplesAddIt(powered, order, |order|, s.read, n, p.threshold);
    assert order[..|order|] == order;
    var read := powered + Samples(order, |order|, s.read);
    NextEvent(read, Quorum(s.finishedAt), n, p.threshold);
    WatchedIsDiscovered(read, n);
  }

  /** A panel read hot in a whole cycle has a run one longer, unless the power is then seen off; and once the run is
      `count` long the cycle ends with an alarm. */
  lemma HotCycleCounts(history: seq<Event>, panels: seq<Panel>, s: Sight, p: Policy, n: Panel)
    requires ReadsHot(panels, s, p, n) && n in Discovered(history)
    ensures Streak(history, n, p.threshold) + 1 >= p.count && !s.stopAfterwards && s.again.Some? ==>
      Looks(history, panels, s, p)
    ensures (s.again.Some? ==> On(s.again.value, p.powerCutoff)) ==>
      Streak(Cycled(history, panels, s, p), n, p.threshold) == Streak(history, n, p.threshold) + 1 &&
      Watched(Cycled(history, panels, s, p), n) && n in Discovered(Cycled(history, panels, s, p))
  {
    SweepCounts(history, panels, s, p, n);
    LooksIff(history, panels, s, p);
    var sweep := Swept(history, panels, s, p.powerCutoff, p.minimumPanels).history;
    hide Streak, Swept, Watched, Discovered;
    if s.again.Some? {
      NextEvent(sweep, Power(On(s.again.value, p.powerCutoff), s.recheckAt), n, p.threshold);
    }
    assert sweep + [] == sweep;
  }

  /** The history and the panels after each of a run of cycles, from the first of them on. */
  ghost predicate Cycles(histories: seq<seq<Event>>, panels: seq<seq<Panel>>, sights: seq<Sight>, p: Policy) {
    |histories| == |panels| == |sights| + 1 &&
    (forall i :: 0 <= i < |panels| ==> Distinct(panels[i])) &&
    forall i :: 0 <= i < |sights| ==>
      histories[i + 1] == Cycled(histories[i], panels[i], sights[i], p) && panels[i + 1] == Known(panels[i], sights[i])
  }

  /** So a panel is not alarmed as hot before `count` cycles have found it so: nothing that happens within fewer, since a
      reading that was not, can do it. */
  lemma {:induction false} HotNeedsCycles(histories: seq<seq<Event>>, panels: seq<seq<Panel>>, sights: seq<Sight>,
                                          p: Policy, n: Panel, m: nat)
    requires Cycles(histories, panels, sights, p) && m <= |sights|
    ensures Streak(histories[m], n, p.threshold) <= Streak(histories[0], n, p.threshold) + m
    ensures Streak(histories[0], n, p.threshold) == 0 && Streak(histories[m], n, p.threshold) >= p.count ==> m >= p.count
  {
    hide Streak, Cycled;
    if m > 0 {
      HotNeedsCycles(histories, panels, sights, p, n, m - 1);
      assert histories[m - 1 + 1] == histories[m] && Distinct(panels[m]);
      CycleAddsOne(histories[m - 1], panels[m - 1], sights[m - 1], p, n);
    }
  }

  /** And `count` cycles in a row that read it hot are enough: the last of them ends with its alarm, and its power-off if
      the power is then still on. */
  lemma {:induction false} HotCyclesAlarm(histories: seq<seq<Event>>, panels: seq<seq<Panel>>, sights: seq<Sight>,
                                          p: Policy, n: Panel, m: nat)
    requires Cycles(histories, panels, sights, p) && m <= |sights| && n in Discovered(histories[0])
    requires forall i :: 0 <= i < m ==>
      ReadsHot(panels[i], sights[i], p, n) && (sights[i].again.Some? ==> On(sights[i].again.value, p.powerCutoff))
    ensures Streak(histories[m], n, p.threshold) >= m && n in Discovered(histories[m])
    ensures m > 0 ==> Watched(histories[m], n)
    ensures m > 0 && m >= p.count && !sights[m - 1].stopAfterwards && sights[m - 1].again.Some? ==>
      Looks(histories[m - 1], panels[m - 1], sights[m - 1], p) &&
      Alarming(histories[m], p.threshold, p.count, p.missingSeconds, sights[m - 1].recheckAt)
  {
    hide Streak, Cycled, Watched, Discovered, Looks, ReadsHot;
    if m > 0 {
      HotCyclesAlarm(histories, panels, sights, p, n, m - 1);
      HotCycleCounts(histories[m - 1], panels[m - 1], sights[m - 1], p, n);
      assert histories[m - 1 + 1] == Cycled(histories[m - 1], panels[m - 1], sights[m - 1], p);
    }
  }

  /** How each event bears on a panel's run of hot readings. */
  lemma StreakRules(history: seq<Event>, n: Panel, other: Panel, v: real, panels: set<Panel>, now: int, threshold: real)
    requires other != n
    ensures var streak := Streak(history, n, threshold);
      Streak(history + [Sample(n, Some(v))], n, threshold) == (if v > threshold then streak + 1 else 0) &&
      Streak(history + [Sample(n, None)], n, threshold) == 0 &&
      Streak(history + [Sample(other, Some(v))], n, threshold) == streak &&
      Streak(history + [Sample(other, None)], n, threshold) == streak &&
      Streak(history + [Panels(panels)], n, threshold) == (if n in panels then streak else 0) &&
      Streak(history + [Power(true, now)], n, threshold) == streak &&
      Streak(history + [Power(false, now)], n, threshold) == 0 &&
      Streak(history + [PowerUnknown], n, threshold) == 0 &&
      Streak(history + [Quorum(now)], n, threshold) == streak &&
      Streak([], n, threshold) == 0
  {
    NextEvent(history, Sample(n, Some(v)), n, threshold);
    NextEvent(history, Sample(n, None), n, threshold);
    NextEvent(history, Sample(other, Some(v)), n, threshold);
    NextEvent(history, Sample(other, None), n, threshold);
    NextEvent(history, Panels(panels), n, threshold);
    NextEvent(history, Power(true, now), n, threshold);
    NextEvent(history, Power(false, now), n, threshold);
    NextEvent(history, PowerUnknown, n, threshold);
    NextEvent(history, Quorum(now), n, threshold);
  }

  /** Something is to be alarmed. */
  ghost predicate Alarming(history: seq<Event>, threshold: real, count: nat, missing: int, now: int) {
    (exists n :: Watched(history, n) && Streak(history, n, threshold) >= count) ||
    (CoveredSince(history).Some? && now - CoveredSince(history).value > missing)
  }

  lemma KeysAlarm(history: seq<Event>, threshold: real, count: nat, missing: int, now: int, keys: set<Key>)
    requires forall n :: Hot(n) in keys <==> Watched(history, n) && Streak(history, n, threshold) >= count
    requires PsuMissing in keys <==> CoveredSince(history).Some? && now - CoveredSince(history).value > missing
    requires forall n :: Missing(n) !in keys
    ensures keys != {} <==> Alarming(history, threshold, count, missing, now)
  {
    if keys != {} {
      var k :| k in keys;
      assert k.Hot? ==> Hot(k.panel) in keys;
    }
    if n :| Watched(history, n) && Streak(history, n, threshold) >= count {
      assert Hot(n) in keys;
    }
  }

  lemma PanelsWatched(history: seq<Event>, now: int, states: map<Panel, PanelState>, panels: seq<Panel>,
                      since: Option<int>, threshold: real)
    requires Tracks(history, threshold, states, since) && states.Keys == SetOf(panels)
    ensures forall n :: n in panels ==> Watched(history + [Power(true, now)], n)
  {
    forall n | n in panels ensures Watched(history + [Power(true, now)], n) {
      assert n in SetOf(panels);
      NextEvent(history, Power(true, now), n, threshold);
    }
  }

  /** The keys of a dictionary in some order. */
  method Listed(keys: set<Key>) returns (order: seq<Key>)
    ensures Distinct(order) && forall k :: k in order <==> k in keys
  {
    order := [];
    var rest := keys;
    while rest != {}
      invariant Distinct(order) && rest <= keys && forall k :: k in order <==> k in keys && k !in rest
      decreases |rest|
    {
      var k :| k in rest;
      order, rest := order + [k], rest - {k};
    }
  }

  lemma DisciplineKept(history: seq<Event>, e: Event)
    requires Disciplined(history) && (e.Sample? ==> Watched(history, e.panel))
    ensures Disciplined(history + [e])
  {
    hide Watched;
    assert forall i :: 0 <= i < |history| ==> (history + [e])[..i] == history[..i];
    assert (history + [e])[..|history|] == history;
  }

  lemma WatchKept(history: seq<Event>, e: Event)
    requires e.Sample?
    ensures forall n :: Watched(history, n) ==> Watched(history + [e], n)
  {
    forall n | Watched(history, n) ensures Watched(history + [e], n) {
      NextEvent(history, e, n, 0.0);
    }
  }

  /** With the supply just seen off there is nothing to alarm. */
  lemma AlarmsNeedPower(history: seq<Event>, on: bool, now: int, keys: set<Key>, threshold: real, count: nat)
    requires var after := history + [Power(on, now)];
             (forall n :: Hot(n) in keys ==> Watched(after, n)) && (PsuMissing in keys ==> CoveredSince(after).Some?) &&
             (forall n :: Missing(n) !in keys) && keys != {}
    ensures on
  {
    var k :| k in keys;
    NextCovered(history, Power(on, now));
    if k.Hot? {
      NextEvent(history, Power(on, now), k.panel, threshold);
    }
  }

  /** A message with this alarm was refused. */
  ghost predicate Turned(k: Key, rid: nat, accepts: (nat, seq<Key>) -> bool) {
    exists batch :: k in batch && !accepts(rid, batch)
  }

  function Plus(rids: set<nat>, rid: nat, when: bool): set<nat> {
    if when then rids + {rid} else rids
  }

  lemma DistinctParts(keys: seq<Key>, a: seq<Key>, b: seq<Key>)
    requires Distinct(keys) && a + b <= keys
    ensures Distinct(b) && forall k :: k in b ==> k in keys && k !in a
  {
    assert forall i :: 0 <= i < |b| ==> keys[|a| + i] == b[i];
    assert forall i :: 0 <= i < |a| ==> keys[i] == a[i];
  }

  lemma {:induction false} FlatSplit(batches: seq<seq<Key>>, j: nat)
    requires j < |batches|
    ensures Flat(batches[..j + 1]) == Flat(batches[..j]) + batches[j] <= Flat(batches)
    decreases |batches|
  {
    assert batches[..j + 1][..j] == batches[..j];
    if j == |batches| - 1 {
      assert batches[..j + 1] == batches;
    } else {
      var front := batches[..|batches| - 1];
      FlatSplit(front, j);
      assert front[..j + 1] == batches[..j + 1] && front[..j] == batches[..j];
    }
  }

  const MESSAGE_LIMIT: nat := 1000

  /** Length of the texts joined by newlines. */
  function Joined(batch: seq<Key>, length: Key -> nat): nat {
    if batch == [] then 0
    else if |batch| == 1 then length(batch[0])
    else Joined(batch[..|batch| - 1], length) + 1 + length(batch[|batch| - 1])
  }

  /** The lengths of all the texts together. */
  function Lengths(batch: seq<Key>, length: Key -> nat): nat {
    if batch == [] then 0 else length(batch[0]) + Lengths(batch[1..], length)
  }

  lemma {:induction false} LengthsLast(batch: seq<Key>, last: Key, length: Key -> nat)
    ensures Lengths(batch + [last], length) == Lengths(batch, length) + length(last)
  {
    if batch == [] {
      assert batch + [last] == [last] && [last][1..] == [];
    } else {
      assert (batch + [last])[1..] == batch[1..] + [last];
      LengthsLast(batch[1..], last, length);
    }
  }

  /** A message is as long as its texts and a newline between any two. */
  lemma {:induction false} JoinedIs(batch: seq<Key>, length: Key -> nat)
    ensures Joined(batch, length) == Lengths(batch, length) + if batch == [] then 0 else |batch| - 1
  {
    if |batch| == 1 {
      assert batch[1..] == [];
    } else if |batch| > 1 {
      JoinedIs(batch[..|batch| - 1], length);
      LengthsLast(batch[..|batch| - 1], batch[|batch| - 1], length);
      assert batch[..|batch| - 1] + [batch[|batch| - 1]] == batch;
    }
  }

  /** A message of several alarms fits the limit; one alarm alone may not. */
  predicate Fits(batch: seq<Key>, length: Key -> nat, action: nat) {
    |batch| == 1 || (batch != [] && Joined(batch, length) + action + 2 <= MESSAGE_LIMIT)
  }

  /** One more alarm would make the message too long. */
  predicate Full(batch: seq<Key>, next: Key, length: Key -> nat, action: nat) {
    Joined(batch + [next], length) + action + 2 > MESSAGE_LIMIT
  }

  /** No message is empty, each fits, and each but the last is full. */
  predicate Packed(batches: seq<seq<Key>>, length: Key -> nat, action: nat) {
    (forall j :: 0 <= j < |batches| ==> batches[j] != [] && Fits(batches[j], length, action)) &&
    forall j :: 0 < j < |batches| ==> Full(batches[j - 1], batches[j][0], length, action)
  }

  lemma NothingPacked(length: Key -> nat, action: nat)
    ensures Packed([], length, action)
  {}

  lemma PackedMore(batches: seq<seq<Key>>, batch: seq<Key>, length: Key -> nat, action: nat)
    requires Packed(batches, length, action) && batch != [] && Fits(batch, length, action)
    requires batches != [] ==> Full(batches[|batches| - 1], batch[0], length, action)
    ensures Packed(batches + [batch], length, action)
  {
    hide Fits, Full;
  }

  /** The batching of `notify`: everything pending, in order, in messages that fit, a new one only when the last is full. */
  method Batches(pending: seq<Key>, length: Key -> nat, action: nat) returns (batches: seq<seq<Key>>)
    ensures Flat(batches) == pending
    ensures Packed(batches, length, action)
  {
    hide Flat, Joined, Packed;
    batches := [];
    var batch: seq<Key> := [];
    ghost var flat: seq<Key> := [];
    FlatNothing();
    assert Packed(batches, length, action) by {
      NothingPacked(length, action);
    }
    for i := 0 to |pending|
      invariant flat == Flat(batches) && flat + batch == pending[..i]
      invariant Packed(batches, length, action)
      invariant batch != [] ==> Fits(batch, length, action)
      invariant batch != [] && batches != [] ==> Full(batches[|batches| - 1], batch[0], length, action)
      invariant batch == [] ==> i == 0 && batches == []
    {
      assert pending[..i + 1] == pending[..i] + [pending[i]];
      if batch != [] && Joined(batch + [pending[i]], length) + action + 2 > MESSAGE_LIMIT {
        FlatMore(batches, batch);
        PackedMore(batches, batch, length, action);
        batches, flat := batches + [batch], flat + batch;
        batch := [];
      }
      batch := batch + [pending[i]];
    }
    if batch != [] {
      FlatMore(batches, batch);
      PackedMore(batches, batch, length, action);
      batches := batches + [batch];
    }
    assert pending[..|pending|] == pending;
  }

  lemma FlatNothing()
    ensures Flat<Key>([]) == []
  {}

  lemma FlatMore(batches: seq<seq<Key>>, batch: seq<Key>)
    ensures Flat(batches + [batch]) == Flat(batches) + batch
  {
    assert (batches + [batch])[..|batches|] == batches;
  }

  lemma SampleTracks(history: seq<Event>, threshold: real, states: map<Panel, PanelState>, since: Option<int>,
                     n: Panel, value: Option<real>, now: int)
    requires Tracks(history, threshold, states, since) && n in states
    ensures Tracks(history + [Sample(n, value)], threshold, states[n := Sampled(states[n], value, threshold, now)], since)
  {
    StillTracks(history, threshold, states, since, Sample(n, value),
                states[n := Sampled(states[n], value, threshold, now)], since);
  }

  /** A hot alarm is raised exactly for a panel whose latest `count` readings that bear on it were all hot, in a run
      whose samples are of watched panels. */
  lemma HotAlarmIff(history: seq<Event>, n: Panel, threshold: real, count: nat)
    requires Disciplined(history) && count > 0
    ensures Watched(history, n) && Streak(history, n, threshold) >= count <==> AllHot(Marks(history, n, threshold), count)
  {
    StreakIsLatestRun(history, n, threshold, count);
    if Streak(history, n, threshold) >= count {
      StreakIsWatched(history, n, threshold);
    }
  }
}
