/** The firmware trip counters (SmartSwitch/daq.c): what they count, when a channel is tripped and which, and how
    long another trip is held off. */
module TripCounters {
  import opened Options

  const CHANNELS: nat := 6
  const SAMPLES: nat := 200
  const HOLD_OFF: nat := 20
  const WORD: nat := 0x1_0000
  const HISTORY: nat := 50
  const RECENT: nat := 25

  // ---------- Counting ----------

  /** One counted sample on a 16-bit counter. */
  function Bump(n: nat, over: bool): nat {
    if over then (n + 1) % WORD else if n > 0 then n - 1 else 0
  }

  function Counter(n: nat, samples: seq<bool>): nat {
    if samples == [] then n else Bump(Counter(n, samples[..|samples| - 1]), samples[|samples| - 1])
  }

  /** Over-threshold samples less the others, from sample `k` on. */
  function Excess(samples: seq<bool>, k: nat): int
    requires k <= |samples|
    decreases |samples| - k
  {
    if k == |samples| then 0 else (if samples[k] then 1 else -1) + Excess(samples, k + 1)
  }

  /** The counter as it would be without a word size. */
  function Unbounded(n: nat, samples: seq<bool>): nat {
    if samples == [] then n
    else
      var before := Unbounded(n, samples[..|samples| - 1]);
      if samples[|samples| - 1] then before + 1 else if before > 0 then before - 1 else 0
  }

  lemma {:induction false} ExcessNext(samples: seq<bool>, over: bool, k: nat)
    requires k <= |samples|
    ensures Excess(samples + [over], k) == Excess(samples, k) + if over then 1 else -1
    decreases |samples| - k
  {
    var longer := samples + [over];
    if k < |samples| {
      ExcessNext(samples, over, k + 1);
    } else {
      assert Excess(longer, k) == (if over then 1 else -1) + Excess(longer, k + 1);
    }
  }

  /** Counted from zero, it is the largest excess of any run of samples that reaches to the end. */
  lemma {:induction false} CountIsLargestExcess(samples: seq<bool>)
    ensures forall k :: 0 <= k <= |samples| ==> Excess(samples, k) <= Unbounded(0, samples)
    ensures exists k :: 0 <= k <= |samples| && Excess(samples, k) == Unbounded(0, samples)
  {
    if samples == [] {
      assert Excess(samples, 0) == Unbounded(0, samples);
    } else {
      var front, last := samples[..|samples| - 1], samples[|samples| - 1];
      assert front + [last] == samples;
      CountIsLargestExcess(front);
      forall k | 0 <= k <= |samples| ensures Excess(samples, k) <= Unbounded(0, samples) {
        if k <= |front| {
          ExcessNext(front, last, k);
        }
      }
      var k :| 0 <= k <= |front| && Excess(front, k) == Unbounded(0, front);
      ExcessNext(front, last, k);
      if !last && Unbounded(0, front) == 0 {
        assert Excess(samples, |samples|) == 0;
      }
    }
  }

  lemma {:induction false} CounterBound(n: nat, samples: seq<bool>)
    ensures Unbounded(n, samples) <= n + |samples|
    ensures n + |samples| < WORD ==> Counter(n, samples) == Unbounded(n, samples)
  {
    if samples != [] {
      CounterBound(n, samples[..|samples| - 1]);
    }
  }

  lemma {:induction false} AllOver(n: nat, samples: seq<bool>)
    requires forall i :: 0 <= i < |samples| ==> samples[i]
    ensures Unbounded(n, samples) == n + |samples|
    ensures n + |samples| == WORD ==> samples != [] ==> Counter(n, samples) == 0
  {
    if samples != [] {
      var front := samples[..|samples| - 1];
      AllOver(n, front);
      CounterBound(n, front);
    }
  }

  /** A counter that starts a call below its requirement can wrap during the call exactly when the requirement is
      above 65336. */
  lemma NoWrapIff(requirement: nat)
    ensures (forall n, samples :: 0 <= n < requirement && |samples| == SAMPLES ==>
               Counter(n, samples) == Unbounded(n, samples)) <==> requirement <= WORD - SAMPLES
  {
    if requirement <= WORD - SAMPLES {
      forall n, samples | 0 <= n < requirement && |samples| == SAMPLES
        ensures Counter(n, samples) == Unbounded(n, samples)
      {
        CounterBound(n, samples);
      }
    } else {
      var samples := seq(SAMPLES, i => true);
      AllOver(WORD - SAMPLES, samples);
      assert Counter(WORD - SAMPLES, samples) != Unbounded(WORD - SAMPLES, samples);
    }
  }

  lemma {:induction false} UnboundedAppend(n: nat, a: seq<bool>, b: seq<bool>)
    ensures Unbounded(n, a + b) == Unbounded(Unbounded(n, a), b)
    decreases |b|
  {
    if b == [] {
      assert a + b == a;
    } else {
      assert (a + b)[..|a + b| - 1] == a + b[..|b| - 1];
      UnboundedAppend(n, a, b[..|b| - 1]);
    }
  }

  // ---------- Holding off ----------

  datatype Entry = Called(tripped: Option<nat>) | Manual(channel: nat)
  {
    predicate Trips() {
      Manual? || tripped.Some?
    }
  }

  function HeldOff(log: seq<Entry>): nat {
    if log == [] then 0
    else
      var before := HeldOff(log[..|log| - 1]);
      if log[|log| - 1].Trips() then HOLD_OFF else if before > 0 then before - 1 else 0
  }

  function Calls(log: seq<Entry>): nat {
    if log == [] then 0 else Calls(log[..|log| - 1]) + if log[|log| - 1].Called? then 1 else 0
  }

  /** Every automatic trip found the hold-off run out, the call's own decrement included. */
  predicate Patient(log: seq<Entry>) {
    forall j :: 0 <= j < |log| && log[j].Called? && log[j].tripped.Some? ==> HeldOff(log[..j]) <= 1
  }

  lemma {:induction false} HeldOffAfter(log: seq<Entry>, i: nat)
    requires i < |log| && log[i].Trips()
    ensures HeldOff(log) + Calls(log[i + 1..]) >= HOLD_OFF
  {
    var front, last := log[..|log| - 1], log[|log| - 1];
    if i < |front| {
      HeldOffAfter(front, i);
      assert log[i + 1..] == front[i + 1..] + [last];
      assert (front[i + 1..] + [last])[..|front[i + 1..]|] == front[i + 1..];
    }
  }

  /** The hold-off is 20 calls from the latest trip, and then over; before the first trip there is none. */
  lemma {:induction false} HeldOffIs(log: seq<Entry>, i: int)
    requires -1 <= i < |log| && (i >= 0 ==> log[i].Trips()) && forall j :: i < j < |log| ==> !log[j].Trips()
    ensures var calls := |log| - i - 1;
            HeldOff(log) == if i < 0 || calls >= HOLD_OFF then 0 else HOLD_OFF - calls
  {
    if i < |log| - 1 {
      HeldOffIs(log[..|log| - 1], i);
    }
  }

  /** An automatic trip comes at least 20 calls after any trip before it, itself included. */
  lemma TripsAreApart(log: seq<Entry>, i: nat, j: nat)
    requires Patient(log) && i < j < |log| && log[i].Trips() && log[j].Called? && log[j].tripped.Some?
    ensures Calls(log[i + 1..j + 1]) >= HOLD_OFF
  {
    HeldOffAfter(log[..j], i);
    assert log[i + 1..j + 1][..j - i - 1] == log[..j][i + 1..];
  }

  // ---------- The short history ----------

  /** The last reading of a channel that was stored in a slot of the ring buffer; zero if there was none. */
  function Slot(history: seq<seq<real>>, ch: nat, k: nat): real
    requires ch < CHANNELS && forall n :: 0 <= n < |history| ==> |history[n]| == CHANNELS
  {
    if history == [] then 0.0
    else if (|history| - 1) % HISTORY == k then history[|history| - 1][ch]
    else Slot(history[..|history| - 1], ch, k)
  }

  lemma SlotNext(history: seq<seq<real>>, last: seq<real>, ch: nat, k: nat)
    requires |last| == CHANNELS && ch < CHANNELS && forall n :: 0 <= n < |history| ==> |history[n]| == CHANNELS
    ensures Slot(history + [last], ch, k) == if |history| % HISTORY == k then last[ch] else Slot(history, ch, k)
  {
    assert (history + [last])[..|history|] == history;
  }

  /** The reading of `j` calls ago, this one included. */
  function Ago(history: seq<seq<real>>, ch: nat, j: nat): real
    requires 1 <= j && ch < CHANNELS && forall n :: 0 <= n < |history| ==> |history[n]| == CHANNELS
  {
    if j <= |history| then history[|history| - j][ch] else 0.0
  }

  lemma {:induction false} SlotHolds(history: seq<seq<real>>, ch: nat, j: nat)
    requires 1 <= j <= HISTORY && ch < CHANNELS && forall n :: 0 <= n < |history| ==> |history[n]| == CHANNELS
    ensures Slot(history, ch, (|history| + HISTORY - j) % HISTORY) == Ago(history, ch, j)
  {
    if history != [] && j > 1 {
      SlotHolds(history[..|history| - 1], ch, j - 1);
      NotLastSlot(|history|, j);
    }
  }

  lemma NotLastSlot(n: nat, j: nat)
    requires n > 0 && 1 < j <= HISTORY
    ensures (n - 1) % HISTORY != (n + HISTORY - j) % HISTORY == (n - 1 + HISTORY - (j - 1)) % HISTORY
  {}

  /** What the choice adds up over a channel's threshold, after `n` rounds of its loop: the slot about to be written
      next comes first, then the latest readings backwards. */
  function Considered(history: seq<seq<real>>, ch: nat, limit: real, n: nat): real
    requires n <= RECENT && ch < CHANNELS && forall i :: 0 <= i < |history| ==> |history[i]| == CHANNELS
  {
    if n == 0 then 0.0
    else Considered(history, ch, limit, n - 1) + Ago(history, ch, if n == 1 then HISTORY else n - 1) - limit
  }

  /** The `n` latest readings over the threshold. */
  function Latest(history: seq<seq<real>>, ch: nat, limit: real, n: nat): real
    requires ch < CHANNELS && forall i :: 0 <= i < |history| ==> |history[i]| == CHANNELS
  {
    if n == 0 then 0.0 else Latest(history, ch, limit, n - 1) + Ago(history, ch, n) - limit
  }

  lemma {:induction false} ConsideredIs(history: seq<seq<real>>, ch: nat, limit: real, n: nat)
    requires 1 <= n <= RECENT && ch < CHANNELS && forall i :: 0 <= i < |history| ==> |history[i]| == CHANNELS
    ensures Considered(history, ch, limit, n) == Latest(history, ch, limit, n - 1) + Ago(history, ch, HISTORY) - limit
  {
    hide Ago;
    if n > 1 {
      ConsideredIs(history, ch, limit, n - 1);
    } else {
      assert Considered(history, ch, limit, 0) == 0.0;
    }
  }

  /** The sum meant to be that of the 25 latest readings has the reading of 50 calls ago in place of the one of 25
      calls ago, so it is right exactly when the two are equal. */
  lemma SumIsOfLatestIff(history: seq<seq<real>>, ch: nat, limit: real)
    requires ch < CHANNELS && forall i :: 0 <= i < |history| ==> |history[i]| == CHANNELS
    ensures Considered(history, ch, limit, RECENT) ==
      Latest(history, ch, limit, RECENT) + Ago(history, ch, HISTORY) - Ago(history, ch, RECENT)
    ensures Considered(history, ch, limit, RECENT) == Latest(history, ch, limit, RECENT) <==>
      Ago(history, ch, HISTORY) == Ago(history, ch, RECENT)
  {
    hide Ago;
    ConsideredIs(history, ch, limit, RECENT);
  }

  lemma {:induction false} SteadyLatest(history: seq<seq<real>>, ch: nat, limit: real, level: real, n: nat)
    requires ch < CHANNELS && n < |history| && forall i :: 0 <= i < |history| ==> |history[i]| == CHANNELS
    requires forall j :: 1 <= j <= n ==> Ago(history, ch, j) == level
    ensures Latest(history, ch, limit, n) == n as real * (level - limit)
  {
    if n > 0 {
      SteadyLatest(history, ch, limit, level, n - 1);
    }
  }

  /** 49 calls with channel 0 steadily over the threshold of 20 and channel 1 at it, after one with channel 1 high. */
  function Spike(): seq<seq<real>> {
    seq(HISTORY, n => if n == 0 then [0.0, 1000.0, 0.0, 0.0, 0.0, 0.0] else [21.0, 20.0, 0.0, 0.0, 0.0, 0.0])
  }

  /** Channel 0 is the one over its threshold in the 25 latest calls, and channel 1 has the larger sum. */
  lemma SpikeOutweighs()
    ensures Latest(Spike(), 0, 20.0, RECENT) == 25.0 && Latest(Spike(), 1, 20.0, RECENT) == 0.0
    ensures Considered(Spike(), 0, 20.0, RECENT) < Considered(Spike(), 1, 20.0, RECENT)
  {
    SteadyLatest(Spike(), 0, 20.0, 21.0, RECENT);
    SteadyLatest(Spike(), 1, 20.0, 20.0, RECENT);
    SumIsOfLatestIff(Spike(), 0, 20.0);
    SumIsOfLatestIff(Spike(), 1, 20.0);
  }

  // ---------- The firmware's state ----------

  function Column(over: seq<seq<bool>>, ch: nat): (c: seq<bool>)
    requires forall i :: 0 <= i < |over| ==> |over[i]| == CHANNELS
    requires ch < CHANNELS
    ensures |c| == |over|
  {
    seq(|over|, i requires 0 <= i < |over| => over[i][ch])
  }

  function Nothing(): seq<seq<bool>> {
    seq(CHANNELS, i => [])
  }

  /** Which samples are over their channel's threshold, the pedestal taken off. */
  function Over(samples: seq<seq<real>>, ped: seq<real>, limits: seq<real>): (over: seq<seq<bool>>)
    requires |ped| == |limits| == CHANNELS && forall i :: 0 <= i < |samples| ==> |samples[i]| == CHANNELS
    ensures |over| == |samples| && forall i :: 0 <= i < |over| ==> |over[i]| == CHANNELS
  {
    seq(|samples|, i requires 0 <= i < |samples| =>
      seq(CHANNELS, ch requires 0 <= ch < CHANNELS => samples[i][ch] - ped[ch] > limits[ch]))
  }

  /** How far each channel is over its threshold by the readings the choice adds up. */
  function Sums(history: seq<seq<real>>, limits: seq<real>): (sums: seq<real>)
    requires |limits| == CHANNELS && forall i :: 0 <= i < |history| ==> |history[i]| == CHANNELS
    ensures |sums| == CHANNELS
  {
    seq(CHANNELS, ch requires 0 <= ch < CHANNELS => Considered(history, ch, limits[ch], RECENT))
  }

  predicate Rows(history: seq<seq<real>>) {
    forall n :: 0 <= n < |history| ==> |history[n]| == CHANNELS
  }

  const ALL_BITS: set<nat> := {0, 1, 2, 3, 4, 5, 6, 7}

  class Daq {
    const numTrigger: array<nat>
    const requirement: array<nat>
    var tripMask: set<nat>
    var tripStatus: set<nat>
    var beforeTripAllowed: nat
    const short: array2<real>  // short_current_array
    var shortPosition: nat
    var ped: seq<real>         // ped_subtraction
    var limits: seq<real>      // trip_currents
    /** The last reading of every call. */
    ghost var history: seq<seq<real>>
    /** Samples counted since the counters were last cleared, by channel; all calls and manual trips; whether every
        requirement so far was small enough. */
    ghost var counted: seq<seq<bool>>
    ghost var log: seq<Entry>
    ghost var small: bool

    ghost predicate Valid()
      reads this, numTrigger, requirement, short
    {
      Remembers() && |ped| == |limits| == CHANNELS &&
      numTrigger.Length == requirement.Length == CHANNELS && numTrigger != requirement && |counted| == CHANNELS &&
      beforeTripAllowed == HeldOff(log) && Patient(log) &&
      Limited() && Fits() && Tracks()
    }

    /** Requirements are words, and not near the end of a word while `small`. */
    ghost predicate Limited()
      requires requirement.Length == CHANNELS
      reads `small, requirement
    {
      forall ch :: 0 <= ch < CHANNELS ==> requirement[ch] < WORD && (small ==> requirement[ch] <= WORD - SAMPLES)
    }

    /** The counters are words, and between calls leave room for another call while `small`. */
    ghost predicate Fits()
      requires numTrigger.Length == CHANNELS
      reads `small, numTrigger
    {
      forall ch :: 0 <= ch < CHANNELS ==> numTrigger[ch] < WORD && (small ==> numTrigger[ch] < WORD - SAMPLES)
    }

    /** While `small`, the counters are what was counted. */
    ghost predicate Tracks()
      requires numTrigger.Length == |counted| == CHANNELS
      reads `small, `counted, numTrigger
    {
      small ==> forall ch :: 0 <= ch < CHANNELS ==> numTrigger[ch] == Unbounded(0, counted[ch])
    }

    /** The ring buffer holds the last reading of each slot. */
    ghost predicate Remembers()
      reads `history, `shortPosition, short
    {
      Rows(history) && short.Length0 == CHANNELS && short.Length1 == HISTORY && shortPosition == |history| % HISTORY &&
      forall ch, k :: 0 <= ch < CHANNELS && 0 <= k < HISTORY ==> short[ch, k] == Slot(history, ch, k)
    }

    /** All channels enabled, and all of them tripped, to begin with. */
    constructor ()
      ensures Valid() && fresh(numTrigger) && fresh(requirement) && fresh(short)
      ensures history == [] && log == [] && small && tripStatus == ALL_BITS
    {
      numTrigger := new nat[CHANNELS](i => 0);
      requirement := new nat[CHANNELS](i => 100);
      tripMask, tripStatus, beforeTripAllowed := ALL_BITS, ALL_BITS, 0;
      short, shortPosition := new real[CHANNELS, HISTORY]((ch, k) => 0.0), 0;
      ped, limits := seq(CHANNELS, ch => 0.0), seq(CHANNELS, ch => 20.0);
      history, counted, log, small := [], Nothing(), [], true;
    }

    ghost predicate Counts(ch: nat)
      reads this
    {
      beforeTripAllowed == 0 && ch in tripMask && ch !in tripStatus
    }

    /** The counting of one sample of every channel: channels 0, 2, 4 first, then 1, 3, 5. */
    method CountSample(over: seq<bool>)
      requires |over| == CHANNELS == numTrigger.Length
      modifies numTrigger
      ensures forall ch :: 0 <= ch < CHANNELS ==>
        numTrigger[ch] == if Counts(ch) then Bump(old(numTrigger[ch]), over[ch]) else old(numTrigger[ch])
    {
      for ch := 0 to 4
        invariant forall k :: 0 <= k < CHANNELS ==>
          numTrigger[k] == if Counts(k) && k % 2 * 2 < ch then Bump(old(numTrigger[k]), over[k]) else old(numTrigger[k])
      {
        if ch % 2 == 0 && beforeTripAllowed == 0 {
          for j := 0 to 3
            invariant forall k :: 0 <= k < CHANNELS ==>
              numTrigger[k] == if Counts(k) && (k % 2 * 2 < ch || (k % 2 * 2 == ch && k / 2 < j))
                               then Bump(old(numTrigger[k]), over[k]) else old(numTrigger[k])
          {
            var index := j * 2 + ch / 2;
            if index in tripMask && index !in tripStatus {
              if over[index] {
                numTrigger[index] := (numTrigger[index] + 1) % WORD;
              } else if numTrigger[index] > 0 {
                numTrigger[index] := numTrigger[index] - 1;
              }
            }
          }
        }
      }
    }

    /** The counting loop of a call. */
    method CountAll(over: seq<seq<bool>>)
      requires numTrigger.Length == CHANNELS && forall i :: 0 <= i < |over| ==> |over[i]| == CHANNELS
      modifies numTrigger
      ensures forall ch :: 0 <= ch < CHANNELS ==>
        numTrigger[ch] == if Counts(ch) then Counter(old(numTrigger[ch]), Column(over, ch)) else old(numTrigger[ch])
    {
      for i := 0 to |over|
        invariant forall ch :: 0 <= ch < CHANNELS ==>
          numTrigger[ch] == if Counts(ch) then Counter(old(numTrigger[ch]), Column(over, ch)[..i]) else old(numTrigger[ch])
      {
        forall ch | 0 <= ch < CHANNELS
          ensures forall n: nat ::
            Counter(n, Column(over, ch)[..i + 1]) == Bump(Counter(n, Column(over, ch)[..i]), over[i][ch])
        {
          assert Column(over, ch)[..i + 1][..i] == Column(over, ch)[..i];
        }
        CountSample(over[i]);
      }
      forall ch | 0 <= ch < CHANNELS ensures Column(over, ch)[..|over|] == Column(over, ch) {
      }
    }

    /** The last reading of a call goes into the ring buffer, and the position moves on. */
    method Store(last: seq<real>)
      requires Remembers() && |last| == CHANNELS
      modifies `shortPosition, `history, short
      ensures Remembers() && Rows(history) && history == old(history) + [last]
    {
      for ch := 0 to CHANNELS
        invariant history == old(history) && shortPosition == old(shortPosition)
        invariant forall c, k :: 0 <= c < CHANNELS && 0 <= k < HISTORY ==>
          short[c, k] == if c < ch && k == shortPosition then last[c] else old(short[c, k])
      {
        short[ch, shortPosition] := last[ch];
      }
      forall c: nat, k: nat | c < CHANNELS && k < HISTORY
        ensures short[c, k] == Slot(history + [last], c, k)
      {
        SlotNext(history, last, c, k);
      }
      hide Slot;
      history := history + [last];
      shortPosition := (shortPosition + 1) % HISTORY;
    }

    /** The inner loop of the choice. */
    method Sum(ch: nat) returns (sum: real)
      requires Remembers() && |limits| == CHANNELS && ch < CHANNELS
      ensures sum == Considered(history, ch, limits[ch], RECENT)
    {
      hide Slot, Ago;
      sum := 0.0;
      for j := 0 to RECENT
        invariant sum == Considered(history, ch, limits[ch], j)
      {
        var index := (shortPosition + HISTORY - j) % HISTORY;
        SlotHolds(history, ch, if j == 0 then HISTORY else j);
        SameSlot(|history|, shortPosition, j);
        sum := sum + (short[ch, index] - limits[ch]);
      }
    }

    /** Which channel to trip: the largest positive sum over its threshold among those not tripped, the first of them. */
    method Largest() returns (maxCh: int)
      requires Remembers() && |limits| == CHANNELS
      ensures var sums := Sums(history, limits);
        -1 <= maxCh < CHANNELS &&
        (maxCh < 0 ==> forall i :: 0 <= i < CHANNELS ==> i in tripStatus || sums[i] <= 0.0) &&
        (maxCh >= 0 ==> maxCh !in tripStatus && sums[maxCh] > 0.0) &&
        (maxCh >= 0 ==> forall i :: 0 <= i < CHANNELS && i !in tripStatus ==>
           sums[i] <= sums[maxCh] && (i < maxCh ==> sums[i] < sums[maxCh]))
    {
      ghost var sums := Sums(history, limits);
      hide Considered;
      var maxVal: real;
      maxVal, maxCh := 0.0, -1;
      for i := 0 to CHANNELS
        invariant -1 <= maxCh < i && (maxCh < 0 ==> maxVal == 0.0) && (maxCh >= 0 ==> maxVal == sums[maxCh] > 0.0)
        invariant maxCh >= 0 ==> maxCh !in tripStatus
        invariant forall k :: 0 <= k < i && k !in tripStatus ==> sums[k] <= maxVal && (k < maxCh ==> sums[k] < maxVal)
      {
        var sum := Sum(i);
        if sum > maxVal && i !in tripStatus {
          maxVal, maxCh := sum, i;
        }
      }
    }

    /** The channels counted in a call. */
    ghost function Active(): set<nat>
      reads this
    {
      if beforeTripAllowed <= 1 then tripMask - tripStatus else {}
    }

    /** What a channel's counter comes to in a call. */
    ghost function Reached(ch: nat, over: seq<seq<bool>>): nat
      requires ch < CHANNELS == numTrigger.Length && forall i :: 0 <= i < |over| ==> |over[i]| == CHANNELS
      reads this, numTrigger
    {
      if beforeTripAllowed <= 1 && ch in tripMask && ch !in tripStatus then Counter(numTrigger[ch], Column(over, ch))
      else numTrigger[ch]
    }

    ghost predicate Trips(over: seq<seq<bool>>)
      requires numTrigger.Length == requirement.Length == CHANNELS && forall i :: 0 <= i < |over| ==> |over[i]| == CHANNELS
      reads this, numTrigger, requirement
    {
      beforeTripAllowed <= 1 && exists ch :: 0 <= ch < CHANNELS && Reached(ch, over) >= requirement[ch]
    }

    /** What a call chooses, given the sums over the thresholds. */
    predicate Chosen(tripped: Option<nat>, sums: seq<real>, status: set<nat>)
      requires |sums| == CHANNELS
    {
      match tripped
      case None => forall i :: 0 <= i < CHANNELS ==> i in status || sums[i] <= 0.0
      case Some(ch) =>
        ch < CHANNELS && ch !in status && sums[ch] > 0.0 &&
        forall i :: 0 <= i < CHANNELS && i !in status ==> sums[i] <= sums[ch] && (i < ch ==> sums[i] < sums[ch])
    }

    /** The first half of a call: the hold-off runs down, and the samples are counted. */
    method Count(over: seq<seq<bool>>)
      requires Valid() && |over| == SAMPLES && forall i :: 0 <= i < |over| ==> |over[i]| == CHANNELS
      modifies `beforeTripAllowed, `counted, numTrigger
      ensures Counted()
      ensures forall ch :: 0 <= ch < CHANNELS ==> numTrigger[ch] == old(Reached(ch, over))
      ensures counted == Marked(old(counted), over, old(Active()))
      ensures old(Trips(over)) <==> Reaches()
    {
      hide Counter, Unbounded, Column, HeldOff, Patient, Marked, Remembers;
      ghost var active := Active();
      if small {
        CountsTrack(numTrigger[..], counted, over, active);
      }
      if beforeTripAllowed > 0 {
        beforeTripAllowed := beforeTripAllowed - 1;
      }
      CountAll(over);
      counted := Marked(counted, over, active);
    }

    /** `get_all_averaged_currents`, over the readings of one call. */
    method GetAllAveragedCurrents(samples: seq<seq<real>>) returns (tripped: Option<nat>, ghost over: seq<seq<bool>>)
      requires Valid() && |samples| == SAMPLES && Rows(samples)
      modifies this, numTrigger, short
      ensures Valid() && log == old(log) + [Called(tripped)] && small == old(small) && tripMask == old(tripMask)
      ensures ped == old(ped) && limits == old(limits) && history == old(history) + [samples[SAMPLES - 1]]
      ensures over == Over(samples, ped, limits) && Rows(history)
      ensures forall i, ch :: 0 <= i < SAMPLES && 0 <= ch < CHANNELS ==>
        (over[i][ch] <==> samples[i][ch] - ped[ch] > limits[ch])
      ensures
        if old(Trips(over)) then Chosen(tripped, Sums(history, limits), old(tripStatus)) && counted == Nothing()
        else tripped.None? && counted == Marked(old(counted), over, old(Active()))
      ensures tripStatus == if tripped.Some? then old(tripStatus) + {tripped.value} else old(tripStatus)
      ensures forall ch :: 0 <= ch < CHANNELS ==> numTrigger[ch] == if old(Trips(over)) then 0 else old(Reached(ch, over))
      ensures forall ch :: 0 <= ch < CHANNELS ==>
        old(Reached(ch, over)) ==
          (if old(beforeTripAllowed) <= 1 && ch in old(tripMask) && ch !in old(tripStatus)
           then Counter(old(numTrigger[ch]), Column(over, ch)) else old(numTrigger[ch]))
      ensures old(Trips(over)) <==>
        old(beforeTripAllowed) <= 1 && exists ch :: 0 <= ch < CHANNELS && old(Reached(ch, over)) >= old(requirement[ch])
    {
      var exceeds := Over(samples, ped, limits);
      over := exceeds;
      hide Valid, Counted, Marked, Over, Chosen, Sums, Rows, Reached, Reaches, Trips, Active;
      Count(exceeds);
      tripped := Finish(samples[SAMPLES - 1]);
    }

    /** After the counting: the last reading is stored, and a channel tripped if one is to be. */
    method Finish(last: seq<real>) returns (tripped: Option<nat>)
      requires Counted() && |last| == CHANNELS
      modifies `shortPosition, `history, `beforeTripAllowed, `tripStatus, `counted, `log, numTrigger, short
      ensures Valid() && history == old(history) + [last] && log == old(log) + [Called(tripped)]
      ensures Rows(history)
      ensures if old(Reaches()) then Chosen(tripped, Sums(history, limits), old(tripStatus)) else tripped.None?
      ensures tripStatus == if tripped.Some? then old(tripStatus) + {tripped.value} else old(tripStatus)
      ensures counted == if old(Reaches()) then Nothing() else old(counted)
      ensures forall ch :: 0 <= ch < CHANNELS ==> numTrigger[ch] == if old(Reaches()) then 0 else old(numTrigger[ch])
    {
      hide Counter, Unbounded, Column, HeldOff, Patient, Slot, Chosen, Sums, Remembers, Rows, Reaches, Limited, Fits, Tracks;
      Store(last);
      var met: bool;
      met, tripped := Decide();
      Note(Called(tripped));
    }

    /** The state between counting and deciding. */
    ghost predicate Counted()
      reads this, numTrigger, requirement, short
    {
      Remembers() && |ped| == |limits| == CHANNELS && Patient(log) &&
      numTrigger.Length == requirement.Length == |counted| == CHANNELS && numTrigger != requirement &&
      beforeTripAllowed == (if HeldOff(log) > 0 then HeldOff(log) - 1 else 0) &&
      Limited() && Tracks() && (beforeTripAllowed > 0 ==> Fits())
    }

    /** One more entry in the log, the hold-off already set or run down. */
    ghost method Note(e: Entry)
      requires Patient(log) && (e.Called? && e.tripped.Some? ==> HeldOff(log) <= 1)
      requires beforeTripAllowed == if e.Trips() then HOLD_OFF else if HeldOff(log) > 0 then HeldOff(log) - 1 else 0
      modifies `log
      ensures log == old(log) + [e] && Patient(log) && beforeTripAllowed == HeldOff(log)
    {
      hide HeldOff, Patient;
      LogNext(log, e);
      log := log + [e];
    }

    /** The second half of a call: when a requirement is met, clear the counters and trip a channel if one is to be. */
    method Decide() returns (met: bool, tripped: Option<nat>)
      requires Remembers() && |limits| == CHANNELS
      requires CHANNELS == numTrigger.Length == requirement.Length == |counted| && numTrigger != requirement
      requires Limited() && Tracks() && (beforeTripAllowed > 0 ==> Fits())
      modifies `beforeTripAllowed, `tripStatus, `counted, numTrigger
      ensures (met <==> old(Reaches())) && (met ==> old(beforeTripAllowed) == 0)
      ensures counted == (if met then Nothing() else old(counted)) && Tracks() && Fits()
      ensures forall ch :: 0 <= ch < CHANNELS ==> numTrigger[ch] == if met then 0 else old(numTrigger[ch])
      ensures if met then Chosen(tripped, Sums(history, limits), old(tripStatus)) else tripped.None?
      ensures tripStatus == if tripped.Some? then old(tripStatus) + {tripped.value} else old(tripStatus)
      ensures beforeTripAllowed == if tripped.Some? then HOLD_OFF else old(beforeTripAllowed)
    {
      tripped := None;
      met := Met();
      if met {
        Clear();
        counted := Nothing();
        NothingCounted();
        var maxCh := Largest();
        if maxCh >= 0 {
          beforeTripAllowed := HOLD_OFF;
          tripStatus := tripStatus + {maxCh};
          tripped := Some(maxCh);
        }
      }
    }

    /** A channel has reached its requirement, and trips are allowed. */
    ghost predicate Reaches()
      requires numTrigger.Length == requirement.Length == CHANNELS
      reads `beforeTripAllowed, numTrigger, requirement
    {
      beforeTripAllowed == 0 && exists ch :: 0 <= ch < CHANNELS && numTrigger[ch] >= requirement[ch]
    }

    /** Whether a channel has reached its requirement and trips are allowed. */
    method Met() returns (met: bool)
      requires numTrigger.Length == requirement.Length == CHANNELS
      ensures met <==> Reaches()
    {
      for ch := 0 to CHANNELS
        invariant beforeTripAllowed == 0 ==> forall k :: 0 <= k < ch ==> numTrigger[k] < requirement[k]
      {
        if numTrigger[ch] >= requirement[ch] && beforeTripAllowed == 0 {
          return true;
        }
      }
      return false;
    }

    method Clear()
      requires numTrigger.Length == CHANNELS
      modifies numTrigger
      ensures forall ch :: 0 <= ch < CHANNELS ==> numTrigger[ch] == 0
    {
      for i := 0 to CHANNELS
        invariant forall k :: 0 <= k < i ==> numTrigger[k] == 0
      {
        numTrigger[i] := 0;
      }
    }

    /** `handle_trip_channel`. */
    method TripChannel(ch: nat)
      requires Valid()
      modifies this
      ensures Valid() && tripMask == old(tripMask) && small == old(small) && counted == old(counted)
      ensures var acts := ch < CHANNELS && ch in old(tripMask);
              log == (if acts then old(log) + [Manual(ch)] else old(log)) &&
              tripStatus == (if acts then old(tripStatus) + {ch} else old(tripStatus))
    {
      if ch < CHANNELS && ch in tripMask {
        beforeTripAllowed := HOLD_OFF;
        tripStatus := tripStatus + {ch};
        Note(Manual(ch));
      }
    }

    /** `handle_reset_trip`, with no call during its quarter second. */
    method ResetTrip(ch: nat)
      requires Valid()
      modifies this
      ensures Valid() && log == old(log) && small == old(small) && counted == old(counted)
      ensures tripStatus == if ch < CHANNELS then old(tripStatus) - {ch} else old(tripStatus)
      ensures tripMask == if ch < CHANNELS then old(tripMask) + {ch} else old(tripMask)
    {
      if ch < CHANNELS {
        tripMask := tripMask - {ch};
        tripStatus := tripStatus - {ch};
        tripMask := tripMask + {ch};
      }
    }

    /** `handle_trip_disable` and `handle_trip_enable`. */
    method Enable(ch: nat, on: bool)
      requires Valid()
      modifies this
      ensures Valid() && log == old(log) && small == old(small) && counted == old(counted) && tripStatus == old(tripStatus)
      ensures tripMask - {ch} == old(tripMask) - {ch} && (ch < CHANNELS ==> (ch in tripMask <==> on))
      ensures ch >= CHANNELS ==> tripMask == old(tripMask)
    {
      if ch < CHANNELS {
        tripMask := if on then tripMask + {ch} else tripMask - {ch};
      }
    }

    /** `handle_set_trip_requirement`. */
    method SetRequirement(ch: nat, req: nat)
      requires Valid() && req < WORD
      modifies `small, requirement
      ensures Valid() && (forall k :: 0 <= k < CHANNELS ==> requirement[k] == if k == ch then req else old(requirement[k]))
      ensures small <==> old(small) && (ch < CHANNELS ==> req <= WORD - SAMPLES)
    {
      if ch < CHANNELS {
        requirement[ch] := req;
        small := small && req <= WORD - SAMPLES;
      }
    }
  }

  function Marked(counted: seq<seq<bool>>, over: seq<seq<bool>>, active: set<nat>): (marks: seq<seq<bool>>)
    requires |counted| == CHANNELS && forall i :: 0 <= i < |over| ==> |over[i]| == CHANNELS
    ensures |marks| == CHANNELS
  {
    seq(CHANNELS, ch requires 0 <= ch < CHANNELS =>
      if ch in active then counted[ch] + Column(over, ch) else counted[ch])
  }

  lemma CountsTrack(numbers: seq<nat>, counted: seq<seq<bool>>, over: seq<seq<bool>>, active: set<nat>)
    requires |numbers| == |counted| == CHANNELS && |over| == SAMPLES
    requires forall i :: 0 <= i < |over| ==> |over[i]| == CHANNELS
    requires forall ch :: 0 <= ch < CHANNELS ==> numbers[ch] < WORD - SAMPLES && numbers[ch] == Unbounded(0, counted[ch])
    ensures forall ch :: 0 <= ch < CHANNELS ==>
      (Unbounded(0, Marked(counted, over, active)[ch]) ==
       if ch in active then Counter(numbers[ch], Column(over, ch)) else numbers[ch])
  {
    forall ch | 0 <= ch < CHANNELS
      ensures Unbounded(0, Marked(counted, over, active)[ch]) ==
        if ch in active then Counter(numbers[ch], Column(over, ch)) else numbers[ch]
    {
      CounterBound(numbers[ch], Column(over, ch));
      UnboundedAppend(0, counted[ch], Column(over, ch));
    }
  }

  lemma SameSlot(n: nat, position: nat, j: nat)
    requires position == n % HISTORY && j < RECENT
    ensures (position + HISTORY - j) % HISTORY == (n + HISTORY - if j == 0 then HISTORY else j) % HISTORY
  {}

  lemma NothingCounted()
    ensures Unbounded(0, []) == 0
  {}

  lemma LogNext(log: seq<Entry>, e: Entry)
    ensures HeldOff(log + [e]) == if e.Trips() then HOLD_OFF else if HeldOff(log) > 0 then HeldOff(log) - 1 else 0
    ensures Patient(log) && (e.Called? && e.tripped.Some? ==> HeldOff(log) <= 1) ==> Patient(log + [e])
  {
    assert (log + [e])[..|log|] == log;
    assert forall j :: 0 <= j < |log| ==> (log + [e])[..j] == log[..j];
  }
}
