/** The persisted discovery history (rs485-server/discovery_history.py): the expected panels, and the queue of
    warnings that scans add to while deliveries mark and remove them. */
module DiscoveryHistories {
  import opened Options
  import opened Sequences

  const ADDRESSES: nat := 512
  const PART: nat := 100

  datatype Reason = Startup | PowerOn

  datatype Warning = Warning(id: nat, missing: seq<nat>, reason: Reason, delivered: set<nat>)

  /** What is saved: `last_discovered` and `pending`. */
  datatype Data = Data(known: seq<nat>, pending: seq<Warning>)

  datatype Scan =
    Scan(complete: bool, start: int, end: int, found: seq<nat>, powered: bool, startup: bool, powerOn: bool)

  // ---------- Address lists ----------

  /** What `addresses` accepts; it returns the list sorted. */
  predicate Addresses(s: seq<nat>) {
    |s| <= ADDRESSES && Distinct(s) && forall i :: 0 <= i < |s| ==> s[i] < ADDRESSES
  }

  /** The addresses of `s` from `from` on, in order: what sorting them gives. */
  function Ascending(s: set<nat>, from: nat): seq<nat>
    decreases ADDRESSES - from
  {
    if from >= ADDRESSES then [] else (if from in s then [from] else []) + Ascending(s, from + 1)
  }

  lemma {:induction false} AscendingHas(s: set<nat>, from: nat)
    ensures forall a :: a in Ascending(s, from) <==> a in s && from <= a < ADDRESSES
    decreases ADDRESSES - from
  {
    if from < ADDRESSES {
      AscendingHas(s, from + 1);
    }
  }

  lemma {:induction false} AscendingSorts(s: set<nat>, from: nat)
    ensures Increasing(Ascending(s, from))
    ensures forall a :: a in Ascending(s, from) <==> a in s && from <= a < ADDRESSES
    decreases ADDRESSES - from
  {
    AscendingHas(s, from);
    if from < ADDRESSES {
      AscendingSorts(s, from + 1);
      PutFirst(from, Ascending(s, from + 1));
    }
  }

  lemma PutFirst(a: nat, rest: seq<nat>)
    requires Increasing(rest) && forall b :: b in rest ==> a < b
    ensures Increasing([a] + rest)
  {
    forall i | 0 <= i < |rest| ensures a < rest[i] {
      assert rest[i] in rest;
    }
  }

  lemma FrontAndLast<T>(s: seq<T>)
    requires s != []
    ensures s[..|s| - 1] + [s[|s| - 1]] == s
  {}

  lemma Whole<T>(s: seq<T>)
    ensures s[..|s|] + s[|s|..] == s
  {}

  lemma Halves<T>(s: seq<T>, i: nat)
    requires i < |s|
    ensures s[..i] + s[i..] == s && s[..i + 1] == s[..i] + [s[i]]
  {}

  // ---------- Steps: each is one section under the lock, or a send outside it ----------

  datatype Step =
    | Recorded(scan: Scan, ids: seq<nat>)
    | Sent(id: nat, rid: nat)
    | Marked(id: nat, rid: nat)
    | Pruned(id: nat, wanted: set<nat>)

  predicate Acceptable(s: Scan) {
    s.complete && Addresses(s.found) && 0 <= s.start <= s.end <= 511 &&
    forall i :: 0 <= i < |s.found| ==> s.start <= s.found[i] <= s.end
  }

  function MissingFrom(known: seq<nat>, s: Scan): seq<nat> {
    Ascending(set a | a in known && s.start <= a <= s.end && a !in s.found, 0)
  }

  /** The missing list cut every hundred addresses. */
  function Parts(missing: seq<nat>): (parts: seq<seq<nat>>) {
    if missing == [] then []
    else if |missing| <= PART then [missing]
    else [missing[..PART]] + Parts(missing[PART..])
  }

  /** Nothing is lost, repeated or reordered by cutting, and every part but the last is full. */
  lemma {:induction false} PartsCutUp(missing: seq<nat>)
    ensures Flat(Parts(missing)) == missing
    ensures forall k :: 0 <= k < |Parts(missing)| ==> 1 <= |Parts(missing)[k]| <= PART
    ensures forall k :: 0 <= k < |Parts(missing)| - 1 ==> |Parts(missing)[k]| == PART
  {
    if |missing| > PART {
      PartsCutUp(missing[PART..]);
      FlatCons(missing[..PART], Parts(missing[PART..]));
      assert Parts(missing)[1..] == Parts(missing[PART..]);
    } else if missing != [] {
      FlatCons(missing, []);
    }
  }

  function Warnings(parts: seq<seq<nat>>, ids: seq<nat>, reason: Reason): (ws: seq<Warning>)
    requires |parts| <= |ids|
    ensures |ws| == |parts|
  {
    seq(|parts|, k requires 0 <= k < |parts| => Warning(ids[k], parts[k], reason, {}))
  }

  /** What a recorded scan adds to the queue. */
  function Added(known: seq<nat>, s: Scan, ids: seq<nat>): seq<Warning> {
    var parts := Parts(MissingFrom(known, s));
    if s.powered && (s.startup || s.powerOn) && |parts| <= |ids| then
      Warnings(parts, ids, if s.powerOn then PowerOn else Startup)
    else []
  }

  /** An expected panel in the range scanned is missing exactly when the scan did not find it. */
  lemma MissingIs(known: seq<nat>, s: Scan, a: nat)
    requires Addresses(known)
    ensures a in MissingFrom(known, s) <==> a in known && s.start <= a <= s.end && a !in s.found
    ensures Increasing(MissingFrom(known, s))
  {
    AscendingSorts(set a | a in known && s.start <= a <= s.end && a !in s.found, 0);
    hide Ascending, Increasing;
    assert a in known ==> a < ADDRESSES;
  }

  /** A scan asked for at startup or after a power-on, with the power verified on, and no other, warns of every panel it
      misses and of no other panel, nobody having been told yet. */
  lemma WarningsAre(known: seq<nat>, s: Scan, ids: seq<nat>, a: nat)
    requires Addresses(known) && |ids| == |Parts(MissingFrom(known, s))|
    ensures var added := Added(known, s, ids);
      (a in Flat(seq(|added|, k requires 0 <= k < |added| => added[k].missing)) <==>
        s.powered && (s.startup || s.powerOn) && a in known && s.start <= a <= s.end && a !in s.found) &&
      forall k :: 0 <= k < |added| ==>
        added[k].id == ids[k] && added[k].delivered == {} && added[k].reason == if s.powerOn then PowerOn else Startup
  {
    MissingIs(known, s, a);
    hide MissingFrom;
    var missing := MissingFrom(known, s);
    PartsCutUp(missing);
    hide Parts;
    var added := Added(known, s, ids);
    var parts := seq(|added|, k requires 0 <= k < |added| => added[k].missing);
    if s.powered && (s.startup || s.powerOn) {
      assert parts == Parts(missing);
    } else {
      assert parts == [];
    }
  }

  function MarkFirst(pending: seq<Warning>, id: nat, rid: nat): seq<Warning> {
    if pending == [] then []
    else if pending[0].id == id then [pending[0].(delivered := pending[0].delivered + {rid})] + pending[1..]
    else [pending[0]] + MarkFirst(pending[1..], id, rid)
  }

  function Prune(pending: seq<Warning>, id: nat, wanted: set<nat>): seq<Warning> {
    if pending == [] then []
    else (if pending[0].id != id || !(wanted <= pending[0].delivered) then [pending[0]] else []) +
         Prune(pending[1..], id, wanted)
  }

  function Apply(d: Data, step: Step): Data {
    match step
    case Recorded(scan, ids) =>
      Data(if scan.powered then Ascending(SetOf(d.known) + SetOf(scan.found), 0) else d.known,
           d.pending + Added(d.known, scan, ids))
    case Sent(_, _) => d
    case Marked(id, rid) => d.(pending := MarkFirst(d.pending, id, rid))
    case Pruned(id, wanted) => d.(pending := Prune(d.pending, id, wanted))
  }

  function Run(d: Data, steps: seq<Step>): Data {
    if steps == [] then d else Apply(Run(d, steps[..|steps| - 1]), steps[|steps| - 1])
  }

  lemma RunNext(d: Data, steps: seq<Step>, step: Step)
    ensures Run(d, steps + [step]) == Apply(Run(d, steps), step)
  {
    assert (steps + [step])[..|steps|] == steps;
  }

  lemma {:induction false} RunSplit(d: Data, a: seq<Step>, b: seq<Step>)
    ensures Run(d, a + b) == Run(Run(d, a), b)
    decreases |b|
  {
    if b == [] {
      assert a + b == a;
    } else {
      assert (a + b)[..|a + b| - 1] == a + b[..|b| - 1];
      RunSplit(d, a, b[..|b| - 1]);
    }
  }

  // ---------- The expected list ----------

  /** What the file holds, when it is well-formed JSON of the expected types. */
  datatype File = File(version: int, known: seq<nat>, pending: seq<Warning>)

  /** What opening the file accepts: every list of addresses is checked, none is sorted. */
  predicate Loadable(f: File) {
    f.version == 1 && Addresses(f.known) && forall i :: 0 <= i < |f.pending| ==> Addresses(f.pending[i].missing)
  }

  predicate PoweredScan(step: Step) {
    step.Recorded? && step.scan.powered
  }

  predicate Sane(d: Data, steps: seq<Step>) {
    Addresses(d.known) && forall i :: 0 <= i < |steps| && steps[i].Recorded? ==> Acceptable(steps[i].scan)
  }

  /** A list of addresses is accepted exactly with at most 512 entries, each from 0 to 511 and none twice. */
  lemma AddressesIff(s: seq<nat>)
    ensures Addresses(s) <==>
      |s| <= 512 && (forall i :: 0 <= i < |s| ==> s[i] <= 511) && forall i, j :: 0 <= i < j < |s| ==> s[i] != s[j]
  {}

  /** A scan is accepted exactly if it was complete, with a good list of addresses in a good range. */
  lemma AcceptableIff(s: Scan)
    ensures Acceptable(s) <==>
      s.complete && Addresses(s.found) && 0 <= s.start && s.start <= s.end && s.end <= 511 &&
      forall a :: a in s.found ==> s.start <= a && a <= s.end
  {
    assert forall i :: 0 <= i < |s.found| ==> s.found[i] in s.found;
    if Acceptable(s) {
      forall a | a in s.found ensures s.start <= a <= s.end {
        var i :| 0 <= i < |s.found| && s.found[i] == a;
      }
    }
  }

  /** A file is accepted exactly with version 1 and good lists of addresses, those of queued warnings included. */
  lemma LoadableIff(f: File)
    ensures Loadable(f) <==>
      f.version == 1 && Addresses(f.known) && forall w :: w in f.pending ==> Addresses(w.missing)
  {
    assert forall i :: 0 <= i < |f.pending| ==> f.pending[i] in f.pending;
    if Loadable(f) {
      forall w | w in f.pending ensures Addresses(w.missing) {
        var i :| 0 <= i < |f.pending| && f.pending[i] == w;
      }
    }
  }

  predicate InRange(s: seq<nat>) {
    forall i :: 0 <= i < |s| ==> s[i] < ADDRESSES
  }

  /** The expected panels are those loaded and all those found with the power verified on, never fewer. */
  lemma {:induction false} KnownIs(d: Data, steps: seq<Step>, a: nat)
    requires Sane(d, steps)
    ensures InRange(Run(d, steps).known)
    ensures a in Run(d, steps).known <==>
      a in d.known || exists i :: 0 <= i < |steps| && PoweredScan(steps[i]) && a in steps[i].scan.found
  {
    if steps != [] {
      var front, last := steps[..|steps| - 1], steps[|steps| - 1];
      KnownIs(d, front, a);
      if PoweredScan(last) {
        KnownIsStep(Run(d, front).known, last.scan.found, a);
      }
      FoundSplit(steps, a);
    }
  }

  lemma KnownIsStep(known: seq<nat>, found: seq<nat>, a: nat)
    requires InRange(known) && InRange(found)
    ensures InRange(Ascending(SetOf(known) + SetOf(found), 0))
    ensures a in Ascending(SetOf(known) + SetOf(found), 0) <==> a in known || a in found
  {
    var all := Ascending(SetOf(known) + SetOf(found), 0);
    AscendingSorts(SetOf(known) + SetOf(found), 0);
    hide Ascending, Increasing;
    forall i | 0 <= i < |all| ensures all[i] < ADDRESSES {
      assert all[i] in all;
    }
    assert a in SetOf(known) + SetOf(found) <==> a in known || a in found;
    assert a in known ==> a < ADDRESSES;
    assert a in found ==> a < ADDRESSES;
  }

  lemma FoundSplit(steps: seq<Step>, a: nat)
    requires steps != []
    ensures var front, last := steps[..|steps| - 1], steps[|steps| - 1];
            (exists i :: 0 <= i < |steps| && PoweredScan(steps[i]) && a in steps[i].scan.found) <==>
            (exists i :: 0 <= i < |front| && PoweredScan(front[i]) && a in front[i].scan.found) ||
            (PoweredScan(last) && a in last.scan.found)
  {
    var front := steps[..|steps| - 1];
    assert forall i :: 0 <= i < |front| ==> front[i] == steps[i];
  }

  /** It is in order exactly when it was loaded in order or a powered scan has been recorded since: loading checks
      the addresses but keeps the order of the file. */
  lemma {:induction false} KnownInOrderIff(d: Data, steps: seq<Step>)
    requires Sane(d, steps)
    ensures Increasing(Run(d, steps).known) <==>
      Increasing(d.known) || exists i :: 0 <= i < |steps| && PoweredScan(steps[i])
    ensures Distinct(Run(d, steps).known)
  {
    if steps != [] {
      var front, last := steps[..|steps| - 1], steps[|steps| - 1];
      assert Sane(d, front) by {
        hide Addresses, Acceptable;
      }
      hide Apply, Increasing, Distinct, PoweredScan, Sane;
      KnownInOrderIff(d, front);
      KnownInOrderStep(Run(d, front), last);
      PoweredSplit(steps);
    }
  }

  lemma PoweredSplit(steps: seq<Step>)
    requires steps != []
    ensures var front, last := steps[..|steps| - 1], steps[|steps| - 1];
            (exists i :: 0 <= i < |steps| && PoweredScan(steps[i])) <==>
            (exists i :: 0 <= i < |front| && PoweredScan(front[i])) || PoweredScan(last)
  {
    var front := steps[..|steps| - 1];
    assert forall i :: 0 <= i < |front| ==> front[i] == steps[i];
  }

  lemma KnownInOrderStep(d: Data, step: Step)
    ensures Increasing(Apply(d, step).known) <==> PoweredScan(step) || Increasing(d.known)
    ensures Distinct(d.known) ==> Distinct(Apply(d, step).known)
  {
    hide Ascending, Increasing, Distinct, Added, MarkFirst, Prune;
    if PoweredScan(step) {
      AscendingSorts(SetOf(d.known) + SetOf(step.scan.found), 0);
      IncreasingIsDistinct(Ascending(SetOf(d.known) + SetOf(step.scan.found), 0));
    }
  }

  /** So a file that lists panel 2 before panel 1 is opened, and the expected panels are out of order until a powered
      scan is recorded. */
  lemma LoadedOutOfOrder(d: Data, steps: seq<Step>)
    requires d.known == [2, 1]
    requires forall i :: 0 <= i < |steps| ==> steps[i].Recorded? && !steps[i].scan.powered && Acceptable(steps[i].scan)
    ensures Loadable(File(1, d.known, [])) && !Increasing(Run(d, steps).known)
  {
    hide Acceptable, Run;
    assert d.known[0] == 2 && d.known[1] == 1;
    KnownInOrderIff(d, steps);
  }

  lemma IncreasingIsDistinct(s: seq<nat>)
    requires Increasing(s)
    ensures Distinct(s)
  {}

  // ---------- No warning is lost ----------

  /** The same warning, whoever it has been delivered to since. */
  predicate Same(w: Warning, w': Warning) {
    w.id == w'.id && w.missing == w'.missing && w.reason == w'.reason && w.delivered <= w'.delivered
  }

  /** Still queued, with every delivery since marked by a step. */
  ghost predicate Waits(pending: seq<Warning>, steps: seq<Step>, w: Warning) {
    exists w' :: w' in pending && Same(w, w') &&
      forall rid :: rid in w'.delivered ==> rid in w.delivered || Marked(w.id, rid) in steps
  }

  /** Removed, and by then delivered to everyone that was wanted. */
  predicate Removed(steps: seq<Step>, w: Warning) {
    exists j :: 0 <= j < |steps| && steps[j].Pruned? && steps[j].id == w.id &&
      forall rid :: rid in steps[j].wanted ==> rid in w.delivered || Marked(w.id, rid) in steps[..j]
  }

  predicate MarkedAs(w: Warning, w': Warning, id: nat, rid: nat) {
    w' == w || (w.id == id && w' == w.(delivered := w.delivered + {rid}))
  }

  lemma {:induction false} MarkKeeps(pending: seq<Warning>, id: nat, rid: nat, w: Warning)
    requires w in pending
    ensures exists w' :: w' in MarkFirst(pending, id, rid) && MarkedAs(w, w', id, rid)
  {
    var after := MarkFirst(pending, id, rid);
    if w == pending[0] {
      assert after[0] in after && MarkedAs(w, after[0], id, rid);
    } else {
      assert w in pending[1..];
      if pending[0].id == id {
        assert w in after && MarkedAs(w, w, id, rid);
      } else {
        MarkKeeps(pending[1..], id, rid, w);
        var w' :| w' in MarkFirst(pending[1..], id, rid) && MarkedAs(w, w', id, rid);
        assert w' in after;
      }
    }
  }

  lemma {:induction false} PruneKeeps(pending: seq<Warning>, id: nat, wanted: set<nat>, w: Warning)
    ensures w in Prune(pending, id, wanted) <==> w in pending && (w.id != id || !(wanted <= w.delivered))
  {
    if pending != [] {
      PruneKeeps(pending[1..], id, wanted, w);
      assert w in pending <==> w == pending[0] || w in pending[1..];
    }
  }

  /** One more step leaves a waiting warning waiting, unless it removes it rightly. */
  lemma WaitsOneStep(d: Data, steps: seq<Step>, step: Step, w: Warning)
    requires Waits(d.pending, steps, w)
    ensures Waits(Apply(d, step).pending, steps + [step], w) || Removed(steps + [step], w)
  {
    var w' :| w' in d.pending && Same(w, w') &&
      forall rid :: rid in w'.delivered ==> rid in w.delivered || Marked(w.id, rid) in steps;
    var after, longer := Apply(d, step).pending, steps + [step];
    assert longer[|steps|] == step && longer[..|steps|] == steps;
    hide MarkFirst, Prune, Added;
    match step
    case Recorded(_, _) => assert w' in after && Same(w, w');
    case Sent(_, _) => assert w' in after && Same(w, w');
    case Marked(id, rid) =>
      MarkKeeps(d.pending, id, rid, w');
      var w'' :| w'' in after && MarkedAs(w', w'', id, rid);
      assert Same(w, w'');
    case Pruned(id, wanted) =>
      PruneKeeps(d.pending, id, wanted, w');
      if w' in after {
        assert Same(w, w');
      }
  }

  /** From any moment on, a queued warning waits until it is removed rightly, whatever scans, marks and removals
      other threads put in between. */
  lemma {:induction false} NoWarningLost(d: Data, steps: seq<Step>, w: Warning)
    requires w in d.pending
    ensures Waits(Run(d, steps).pending, steps, w) || Removed(steps, w)
  {
    if steps == [] {
      assert Same(w, w);
    } else {
      var front, last := steps[..|steps| - 1], steps[|steps| - 1];
      NoWarningLost(d, front, w);
      FrontAndLast(steps);
      hide Removed, Waits, Apply;
      if Removed(front, w) {
        RemovedStays(front, last, w);
      } else {
        WaitsOneStep(Run(d, front), front, last, w);
      }
    }
  }

  lemma RemovedStays(steps: seq<Step>, step: Step, w: Warning)
    requires Removed(steps, w)
    ensures Removed(steps + [step], w)
  {
    var j :| 0 <= j < |steps| && steps[j].Pruned? && steps[j].id == w.id &&
      forall rid :: rid in steps[j].wanted ==> rid in w.delivered || Marked(w.id, rid) in steps[..j];
    assert (steps + [step])[j] == steps[j] && (steps + [step])[..j] == steps[..j];
  }

  predicate Mentions(step: Step, id: nat) {
    match step
    case Recorded(_, ids) => id in ids
    case Sent(id', _) => id' == id
    case Marked(id', _) => id' == id
    case Pruned(id', _) => id' == id
  }

  /** Neither a loaded warning nor any of these steps knows the identifier. */
  predicate Unused(d: Data, steps: seq<Step>, id: nat) {
    (forall i :: 0 <= i < |d.pending| ==> d.pending[i].id != id) &&
    forall j :: 0 <= j < |steps| ==> !Mentions(steps[j], id)
  }

  /** How recording and deliveries go: the identifiers of new warnings are fresh, only a warning sent to a recipient is
      marked for them, and removing wants all recipients. */
  predicate Orderly(d: Data, steps: seq<Step>, users: set<nat>) {
    forall j :: 0 <= j < |steps| ==> InOrder(d, steps[..j], steps[j], users)
  }

  predicate InOrder(d: Data, before: seq<Step>, step: Step, users: set<nat>) {
    match step
    case Recorded(_, ids) => Distinct(ids) && forall k :: 0 <= k < |ids| ==> Unused(d, before, ids[k])
    case Sent(_, _) => true
    case Marked(id, rid) => Sent(id, rid) in before
    case Pruned(_, wanted) => wanted == users
  }

  lemma AddedIsQueued(d: Data, steps: seq<Step>, i: nat, w: Warning)
    requires i < |steps| && steps[i].Recorded? && w in Added(Run(d, steps[..i]).known, steps[i].scan, steps[i].ids)
    ensures w in Run(d, steps[..i + 1]).pending && w.delivered == {}
    ensures Run(d, steps) == Run(Run(d, steps[..i + 1]), steps[i + 1..])
  {
    var before := Run(d, steps[..i]);
    Halves(steps, i);
    RunNext(d, steps[..i], steps[i]);
    NewOnesAreUndelivered(before.known, steps[i].scan, steps[i].ids, w);
    assert w in Apply(before, steps[i]).pending by {
      hide Added, Run;
    }
    hide *;
    RunSplit(d, steps[..i + 1], steps[i + 1..]);
    if i + 1 < |steps| {
      Halves(steps, i + 1);
    } else {
      Whole(steps);
    }
  }

  lemma NewOnesAreUndelivered(known: seq<nat>, s: Scan, ids: seq<nat>, w: Warning)
    requires w in Added(known, s, ids)
    ensures w.delivered == {} && w.id in ids
  {
    hide Parts, MissingFrom;
  }

  lemma RemovedAfterAll(d: Data, steps: seq<Step>, users: set<nat>, i: nat, w: Warning)
    requires Orderly(d, steps, users) && i < |steps| && steps[i].Recorded? && w.id in steps[i].ids
    requires Removed(steps[i + 1..], w) && w.delivered == {}
    ensures forall rid :: rid in users ==> Sent(w.id, rid) in steps[i + 1..]
  {
    var rest := steps[i + 1..];
    var j :| 0 <= j < |rest| && rest[j].Pruned? && rest[j].id == w.id &&
      forall rid :: rid in rest[j].wanted ==> rid in w.delivered || Marked(w.id, rid) in rest[..j];
    assert steps[i + 1 + j] == rest[j];
    forall rid | rid in users ensures Sent(w.id, rid) in rest {
      assert InOrder(d, steps[..i + 1 + j], steps[i + 1 + j], users);
      assert Marked(w.id, rid) in rest[..j];
      var m :| 0 <= m < j && rest[m] == Marked(w.id, rid);
      SentSince(d, steps, users, i, i + 1 + m);
    }
  }

  /** A delivery marked for a warning recorded at `i` was sent after it was recorded. */
  lemma SentSince(d: Data, steps: seq<Step>, users: set<nat>, i: nat, m: nat)
    requires Orderly(d, steps, users) && i < m < |steps| && steps[m].Marked?
    requires steps[i].Recorded? && steps[m].id in steps[i].ids
    ensures Sent(steps[m].id, steps[m].rid) in steps[i + 1..]
  {
    var id, rid := steps[m].id, steps[m].rid;
    assert InOrder(d, steps[..m], steps[m], users) && InOrder(d, steps[..i], steps[i], users);
    var q :| 0 <= q < m && steps[q] == Sent(id, rid);
    var k :| 0 <= k < |steps[i].ids| && steps[i].ids[k] == id;
    assert Unused(d, steps[..i], id);
    assert q < i ==> !Mentions(steps[..i][q], id);
    assert steps[i + 1..][q - (i + 1)] == steps[q];
  }

  /** So a warning a scan added is still queued, or every configured recipient has been sent it since. */
  lemma AddedWarningsReachEveryone(d: Data, steps: seq<Step>, users: set<nat>, i: nat, w: Warning)
    requires Orderly(d, steps, users) && i < |steps| && steps[i].Recorded?
    requires w in Added(Run(d, steps[..i]).known, steps[i].scan, steps[i].ids)
    ensures (exists w' :: w' in Run(d, steps).pending && Same(w, w')) ||
            forall rid :: rid in users ==> Sent(w.id, rid) in steps[i + 1..]
  {
    AddedIsQueued(d, steps, i, w);
    NewOnesAreUndelivered(Run(d, steps[..i]).known, steps[i].scan, steps[i].ids, w);
    hide Run, Added, Orderly, Removed;
    NoWarningLost(Run(d, steps[..i + 1]), steps[i + 1..], w);
    if Removed(steps[i + 1..], w) {
      RemovedAfterAll(d, steps, users, i, w);
    }
  }

  // ---------- The class: sections under the lock, and delivery around them ----------

  predicate AllBelow(pending: seq<Warning>, limit: nat) {
    forall i :: 0 <= i < |pending| ==> pending[i].id < limit
  }

  ghost predicate NoneAbove(steps: seq<Step>, limit: nat) {
    forall j, id: nat :: 0 <= j < |steps| && Mentions(steps[j], id) ==> id < limit
  }

  function Above(pending: seq<Warning>): (limit: nat)
    ensures AllBelow(pending, limit)
  {
    if pending == [] then 0
    else
      var rest := Above(pending[1..]);
      assert forall i :: 0 < i < |pending| ==> pending[i] == pending[1..][i - 1];
      if pending[0].id < rest then rest else pending[0].id + 1
  }

  /** Identifiers are numbered as they are drawn; all that is used of them is that none is drawn twice. */
  class DiscoveryHistory {
    var data: Data
    var nextId: nat
    ghost const loaded: Data
    ghost var steps: seq<Step>
    ghost const users: set<nat>

    ghost predicate Valid()
      reads this
    {
      data == Run(loaded, steps) && Sane(loaded, steps) && Orderly(loaded, steps, users) &&
      AllBelow(data.pending, nextId) && AllBelow(loaded.pending, nextId) && NoneAbove(steps, nextId)
    }

    constructor (saved: Data, ghost users: set<nat>)
      requires Addresses(saved.known)
      ensures Valid() && loaded == saved && steps == [] && this.users == users
    {
      data, nextId, steps := saved, Above(saved.pending), [];
      this.loaded, this.users := saved, users;
    }

    /** Opening the file, or an empty history without one. Null for an error. */
    static method Open(saved: Option<File>, ghost users: set<nat>) returns (h: DiscoveryHistory?)
      ensures h == null <==> saved.Some? && !Loadable(saved.value)
      ensures h != null ==> h.Valid() && h.steps == [] && h.users == users
      ensures h != null ==>
        h.loaded == if saved.Some? then Data(saved.value.known, saved.value.pending) else Data([], [])
    {
      if saved.Some? && !Loadable(saved.value) {
        return null;
      }
      var d := if saved.Some? then Data(saved.value.known, saved.value.pending) else Data([], []);
      h := new DiscoveryHistory(d, users);
    }

    ghost method Log(step: Step)
      requires data == Apply(Run(loaded, steps), step) && Sane(loaded, steps) && Orderly(loaded, steps, users)
      requires step.Recorded? ==> Acceptable(step.scan)
      requires InOrder(loaded, steps, step, users)
      requires AllBelow(data.pending, nextId) && AllBelow(loaded.pending, nextId) && NoneAbove(steps + [step], nextId)
      modifies `steps
      ensures Valid() && steps == old(steps) + [step]
    {
      hide Apply, Acceptable, Run, InOrder, AllBelow, NoneAbove;
      RunNext(loaded, steps, step);
      OrderlyNext(loaded, steps, step, users);
      steps := steps + [step];
    }

    /** `record`, which draws an identifier for each part of a missing list it queues. */
    method Record(s: Scan) returns (ok: bool, ghost ids: seq<nat>)
      requires Valid()
      modifies this
      ensures Valid() && old(nextId) <= nextId && (ok <==> Acceptable(s))
      ensures steps == if ok then old(steps) + [Recorded(s, ids)] else old(steps)
      ensures ok && s.powered && (s.startup || s.powerOn) ==> |ids| == |Parts(MissingFrom(old(data.known), s))|
      ensures !ok ==> data == old(data)
    {
      hide Acceptable, MissingFrom, Ascending, Run, Parts, Orderly, Sane, Warnings, SetOf;
      ids := [];
      if !Acceptable(s) {
        return false, ids;
      }
      ok := true;
      var known := data.known;
      var missing := MissingFrom(known, s);
      var pending := data.pending;
      ghost var limit := nextId;
      if s.powered {
        known := Ascending(SetOf(known) + SetOf(s.found), 0);
        if s.startup || s.powerOn {
          var parts := Parts(missing);
          var drawn := Drawn(nextId, |parts|);
          ids := drawn;
          nextId := nextId + |parts|;
          var added := Warnings(parts, drawn, if s.powerOn then PowerOn else Startup);
          WarningIds(parts, drawn, if s.powerOn then PowerOn else Startup);
          pending := pending + added;
        }
      }
      DrawnAreFresh(loaded, steps, limit, ids, Recorded(s, ids), nextId);
      data := Data(known, pending);
      Log(Recorded(s, ids));
    }

    /** The section that marks a delivery: the first warning with this identifier, if it is still there. */
    method Mark(id: nat, rid: nat)
      requires Valid() && Sent(id, rid) in steps
      modifies this
      ensures Valid() && nextId == old(nextId) && steps == old(steps) + [Marked(id, rid)]
    {
      hide Run, Sane, Orderly, MarkFirst, NoneAbove;
      var i := 0;
      while i < |data.pending| && data.pending[i].id != id
        invariant i <= |data.pending| && data == old(data) && nextId == old(nextId) && steps == old(steps) && Valid()
        invariant forall j :: 0 <= j < i ==> data.pending[j].id != id
      {
        i := i + 1;
      }
      MarkFirstAt(data.pending, id, rid, i);
      if i < |data.pending| && rid !in data.pending[i].delivered {
        var w := data.pending[i];
        data := data.(pending := data.pending[i := w.(delivered := w.delivered + {rid})]);
      }
      KnownBelow(steps, Sent(id, rid), Marked(id, rid), nextId);
      Log(Marked(id, rid));
    }

    /** The section that removes a warning once everyone wanted has it. */
    method Remove(id: nat, wanted: set<nat>)
      requires Valid() && wanted == users && id < nextId
      modifies this
      ensures Valid() && nextId == old(nextId) && steps == old(steps) + [Pruned(id, wanted)]
    {
      hide Run, Sane, Orderly, Prune, NoneAbove;
      var kept: seq<Warning> := [];
      for i := 0 to |data.pending|
        invariant data == old(data) && nextId == old(nextId) && steps == old(steps) && Valid()
        invariant AllBelow(kept, nextId)
        invariant kept + Prune(data.pending[i..], id, wanted) == Prune(data.pending, id, wanted)
      {
        var w := data.pending[i];
        PruneNext(data.pending, id, wanted, i);
        if w.id != id || !(wanted <= w.delivered) {
          kept := kept + [w];
        }
      }
      PruneEnd(data.pending, id, wanted);
      AboveNext(steps, Pruned(id, wanted), nextId);
      data := data.(pending := kept);
      Log(Pruned(id, wanted));
    }

    /** Other threads between the sections of this one: all that is known of them is that they keep to the steps. */
    method Elsewhere()
      requires Valid()
      modifies this
      ensures Valid() && old(nextId) <= nextId && old(steps) <= steps
    {
      var s: Scan, scans: bool := *, *;
      if scans {
        var _, _ := Record(s);
      }
    }

    /** One warning to one recipient: the power is checked, the warning sent, and the delivery marked. */
    method DeliverOne(w: Warning, rid: nat, hasReader: bool, on: bool, accepted: bool) returns (stopped: bool)
      requires Valid() && w.id < nextId
      modifies this
      ensures Valid() && old(nextId) <= nextId && old(steps) <= steps
      ensures stopped <==> rid !in w.delivered && hasReader && !on
      ensures !stopped && rid !in w.delivered && accepted ==> Marked(w.id, rid) in steps
    {
      hide *;
      if rid in w.delivered {
        return false;
      }
      Elsewhere();
      if hasReader && !on {
        return true;
      }
      if accepted {
        Noted(Sent(w.id, rid));
        Elsewhere();
        ghost var before := steps;
        Mark(w.id, rid);
        assert steps[|before|] == Marked(w.id, rid);
      }
      return false;
    }

    /** A successful send, outside the lock. */
    ghost method Noted(step: Step)
      requires Valid() && step.Sent? && step.id < nextId
      modifies `steps
      ensures Valid() && steps == old(steps) + [step] && forall later :: steps <= later ==> step in later
    {
      Log(step);
      assert steps[|old(steps)|] == step;
    }

    /** `deliver`, over a copy of the queue; `hasReader` is whether a power reader was given. `on` and `accepts` are
        what it and the notifier say for each warning and recipient. It stops, keeping the rest of the queue, when the
        power is not verified on; otherwise whatever was accepted is marked, and every warning it copied has gone
        through the removal section. */
    method Deliver(recipients: seq<nat>, hasReader: bool, on: (nat, nat) -> bool, accepts: (nat, nat) -> bool)
      returns (stopped: bool)
      requires Valid() && users == set rid | rid in recipients
      modifies this
      ensures Valid() && old(steps) <= steps
      ensures stopped <==> hasReader && exists i, u ::
        0 <= i < |old(data.pending)| && 0 <= u < |recipients| && Wants(old(data.pending)[i], recipients[u]) && !on(i, u)
      ensures !stopped ==> forall i, u ::
        0 <= i < |old(data.pending)| && 0 <= u < |recipients| &&
        Wants(old(data.pending)[i], recipients[u]) && accepts(i, u) ==>
          Marked(old(data.pending)[i].id, recipients[u]) in steps
      ensures !stopped ==> forall w :: w in old(data.pending) ==> Pruned(w.id, users) in steps
    {
      hide Run, Sane, Orderly;
      var pending := data.pending;
      for i := 0 to |pending|
        invariant Valid() && AllBelow(pending, nextId) && old(steps) <= steps
        invariant forall j :: 0 <= j < i ==> Pruned(pending[j].id, users) in steps
        invariant forall j, u :: 0 <= j < i && 0 <= u < |recipients| && Wants(pending[j], recipients[u]) ==>
          (hasReader ==> on(j, u)) && (accepts(j, u) ==> Marked(pending[j].id, recipients[u]) in steps)
      {
        for u := 0 to |recipients|
          invariant Valid() && AllBelow(pending, nextId) && old(steps) <= steps
          invariant forall j :: 0 <= j < i ==> Pruned(pending[j].id, users) in steps
          invariant forall j, v :: 0 <= j < i && 0 <= v < |recipients| && Wants(pending[j], recipients[v]) ==>
            (hasReader ==> on(j, v)) && (accepts(j, v) ==> Marked(pending[j].id, recipients[v]) in steps)
          invariant forall v :: 0 <= v < u && Wants(pending[i], recipients[v]) ==>
            (hasReader ==> on(i, v)) && (accepts(i, v) ==> Marked(pending[i].id, recipients[v]) in steps)
        {
          ghost var before := steps;
          stopped := DeliverOne(pending[i], recipients[u], hasReader, on(i, u), accepts(i, u));
          if stopped {
            assert Wants(pending[i], recipients[u]);
            return;
          }
          Persist(before, steps);
        }
        ghost var before := steps;
        Elsewhere();
        Remove(pending[i].id, set rid | rid in recipients);
        Persist(before, steps);
        assert steps[|steps| - 1] == Pruned(pending[i].id, users);
      }
      stopped := false;
    }
  }

  /** The recipient has not had the warning. */
  predicate Wants(w: Warning, rid: nat) {
    rid !in w.delivered
  }

  lemma Persist(before: seq<Step>, after: seq<Step>)
    requires before <= after
    ensures forall step :: step in before ==> step in after
  {
    assert forall i :: 0 <= i < |before| ==> before[i] == after[i];
  }

  function Drawn(first: nat, n: nat): seq<nat> {
    seq(n, i requires 0 <= i => first + i)
  }

  lemma WarningIds(parts: seq<seq<nat>>, ids: seq<nat>, reason: Reason)
    requires |parts| <= |ids|
    ensures forall k :: 0 <= k < |parts| ==> Warnings(parts, ids, reason)[k].id == ids[k]
  {}

  lemma DrawnAreFresh(loaded: Data, steps: seq<Step>, limit: nat, ids: seq<nat>, step: Step, after: nat)
    requires AllBelow(loaded.pending, limit) && NoneAbove(steps, limit) && limit <= after
    requires ids == Drawn(limit, after - limit) && step.Recorded? && step.ids == ids
    ensures InOrder(loaded, steps, step, {}) && NoneAbove(steps + [step], after)
  {}

  lemma AboveNext(steps: seq<Step>, step: Step, limit: nat)
    requires NoneAbove(steps, limit) && !step.Recorded? && step.id < limit
    ensures NoneAbove(steps + [step], limit)
  {}

  lemma KnownBelow(steps: seq<Step>, sent: Step, marked: Step, limit: nat)
    requires NoneAbove(steps, limit) && sent in steps && sent.Sent? && marked.Marked? && marked.id == sent.id
    ensures NoneAbove(steps + [marked], limit)
  {
    assert Mentions(sent, sent.id);
    AboveNext(steps, marked, limit);
  }

  lemma OrderlyNext(d: Data, steps: seq<Step>, step: Step, users: set<nat>)
    requires Orderly(d, steps, users) && InOrder(d, steps, step, users)
    ensures Orderly(d, steps + [step], users)
  {
    hide InOrder;
    assert (steps + [step])[..|steps|] == steps;
    assert forall j :: 0 <= j < |steps| ==> (steps + [step])[..j] == steps[..j];
  }

  lemma {:induction false} MarkFirstAt(pending: seq<Warning>, id: nat, rid: nat, i: nat)
    requires i <= |pending| && (forall j :: 0 <= j < i ==> pending[j].id != id) && (i < |pending| ==> pending[i].id == id)
    ensures MarkFirst(pending, id, rid) ==
      if i == |pending| then pending
      else pending[i := pending[i].(delivered := pending[i].delivered + {rid})]
    ensures i < |pending| && rid in pending[i].delivered ==> MarkFirst(pending, id, rid) == pending
  {
    if i > 0 {
      MarkFirstAt(pending[1..], id, rid, i - 1);
      assert pending == [pending[0]] + pending[1..];
    }
    if i < |pending| && rid in pending[i].delivered {
      assert pending[i].delivered + {rid} == pending[i].delivered;
      assert pending[i := pending[i]] == pending;
    }
  }

  lemma PruneNext(pending: seq<Warning>, id: nat, wanted: set<nat>, i: nat)
    requires i < |pending|
    ensures Prune(pending[i..], id, wanted) ==
      (if pending[i].id != id || !(wanted <= pending[i].delivered) then [pending[i]] else []) +
      Prune(pending[i + 1..], id, wanted)
  {
    assert pending[i..][1..] == pending[i + 1..];
  }

  lemma PruneEnd(pending: seq<Warning>, id: nat, wanted: set<nat>)
    ensures Prune(pending[|pending|..], id, wanted) == []
  {}
}
