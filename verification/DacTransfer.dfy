/** The bit-serial transfer of a DAC setting (lvhv-server/dac8164.c) over the pins of a port expander
    (lvhv-server/MCP23S08.c), and the cache of acknowledged settings (lvhv-server/i2c_routines.c). */
module DacTransfer {
  import opened Bits
  import opened Options

  const HV_CHANNELS: nat := 12
  const HV_DAC_MAX: nat := 15000
  const WORD_BITS: nat := 24

  // ---------- Pins ----------

  type Port = p: seq<bool> | |p| == 8 witness seq(8, i => false)

  /** One register write: what it asked for, and whether it was reported done. */
  datatype Attempt = Attempt(port: Port, done: bool)

  /** The output cache with one bit changed. A pin from 8 to 16 is outside the register's eight bits. */
  function Driven(cache: Port, pin: nat, value: bool): Port {
    if pin < 8 then cache[pin := value] else cache
  }

  class Expander {
    var cache: Port
    ghost var log: seq<Attempt>

    /** `MCP_pinWrite`. The cache changes even when the write fails. */
    method PinWrite(pin: nat, value: bool) returns (ok: bool)
      modifies this
      ensures pin > 16 ==> !ok && cache == old(cache) && log == old(log)
      ensures pin <= 16 ==> cache == Driven(old(cache), pin, value) && log == old(log) + [Attempt(cache, ok)]
    {
      if pin > 16 {
        return false;
      }
      cache := Driven(cache, pin, value);
      var done: bool := *;
      log := log + [Attempt(cache, done)];
      return done;
    }
  }

  datatype Pins = Pins(sync: nat, sclk: nat, sdi: nat)
  {
    predicate Valid() {
      sync < 8 && sclk < 8 && sdi < 8 && sync != sclk && sync != sdi && sclk != sdi
    }
  }

  // ---------- A transfer ----------

  /** The outputs after `j` bits. */
  function After(c: Port, pins: Pins, bits: seq<bool>, j: nat): (p: Port)
    requires pins.Valid() && j <= |bits|
    ensures !p[pins.sync] && !p[pins.sclk]
    decreases j
  {
    if j == 0 then c[pins.sclk := false][pins.sync := false]
    else After(c, pins, bits, j - 1)[pins.sdi := bits[j - 1]][pins.sclk := true][pins.sclk := false]
  }

  /** The outputs asked for up to the end of bit `j`, one register write after another. */
  function Sent(c: Port, pins: Pins, bits: seq<bool>, j: nat): (s: seq<Port>)
    requires pins.Valid() && j <= |bits|
    ensures |s| == 2 + 3 * j && s[|s| - 1] == After(c, pins, bits, j)
    decreases j
  {
    if j == 0 then [c[pins.sclk := false], After(c, pins, bits, 0)]
    else
      var b := After(c, pins, bits, j - 1)[pins.sdi := bits[j - 1]];
      Sent(c, pins, bits, j - 1) + [b, b[pins.sclk := true], b[pins.sclk := true][pins.sclk := false]]
  }

  function Transfer(c: Port, pins: Pins, bits: seq<bool>): (ports: seq<Port>)
    requires pins.Valid()
    ensures |ports| == 3 + 3 * |bits|
  {
    Sent(c, pins, bits, |bits|) + [After(c, pins, bits, |bits|)[pins.sync := true]]
  }

  /** The bits a converter on these pins takes in while the outputs go from `start` through `levels`: `sdi`
      at each fall of `sclk` with `sync` low. */
  function Heard(start: Port, levels: seq<Port>, pins: Pins): seq<bool>
    requires pins.Valid()
  {
    if levels == [] then []
    else
      var n := |levels|;
      var was, now := if n == 1 then start else levels[n - 2], levels[n - 1];
      Heard(start, levels[..n - 1], pins) +
        if !was[pins.sync] && !now[pins.sync] && was[pins.sclk] && !now[pins.sclk] then [now[pins.sdi]] else []
  }

  lemma HeardNext(start: Port, levels: seq<Port>, pins: Pins, now: Port)
    requires pins.Valid()
    ensures var was := if levels == [] then start else levels[|levels| - 1];
            Heard(start, levels + [now], pins) == Heard(start, levels, pins) +
              if !was[pins.sync] && !now[pins.sync] && was[pins.sclk] && !now[pins.sclk] then [now[pins.sdi]] else []
  {
    assert (levels + [now])[..|levels|] == levels;
  }

  lemma StartHeard(start: Port, c: Port, pins: Pins)
    requires pins.Valid() && c[pins.sync]
    ensures Heard(start, [c[pins.sclk := false], c[pins.sclk := false][pins.sync := false]], pins) == []
  {
    var first, second := c[pins.sclk := false], c[pins.sclk := false][pins.sync := false];
    assert Heard(start, [], pins) == [];
    hide Heard;
    HeardNext(start, [], pins, first);
    HeardNext(start, [first], pins, second);
    assert [] + [first] == [first] && [first] + [second] == [first, second];
  }

  lemma BitHeard(start: Port, before: seq<Port>, pins: Pins, bit: bool)
    requires pins.Valid() && before != [] && !before[|before| - 1][pins.sync] && !before[|before| - 1][pins.sclk]
    ensures var b := before[|before| - 1][pins.sdi := bit];
            var after := before + [b, b[pins.sclk := true], b[pins.sclk := true][pins.sclk := false]];
            Heard(start, after, pins) == Heard(start, before, pins) + [bit]
  {
    hide Heard;
    var b := before[|before| - 1][pins.sdi := bit];
    var high := b[pins.sclk := true];
    var low := high[pins.sclk := false];
    HeardNext(start, before, pins, b);
    HeardNext(start, before + [b], pins, high);
    HeardNext(start, before + [b] + [high], pins, low);
    assert before + [b] + [high] + [low] == before + [b, high, low];
  }

  lemma {:induction false} SentIsHeard(start: Port, c: Port, pins: Pins, bits: seq<bool>, j: nat)
    requires pins.Valid() && c[pins.sync] && j <= |bits|
    ensures Heard(start, Sent(c, pins, bits, j), pins) == bits[..j]
    decreases j
  {
    hide Heard;
    if j == 0 {
      StartHeard(start, c, pins);
    } else {
      SentIsHeard(start, c, pins, bits, j - 1);
      BitHeard(start, Sent(c, pins, bits, j - 1), pins, bits[j - 1]);
      assert bits[..j - 1] + [bits[j - 1]] == bits[..j];
    }
  }

  /** Whatever the outputs really were before, a complete transfer is heard as exactly its bits, so exactly one
      clock pulse a bit with `sync` low; provided the cache had `sync` high to begin with. */
  lemma TransferDelivers(start: Port, c: Port, pins: Pins, bits: seq<bool>)
    requires pins.Valid() && c[pins.sync]
    ensures Heard(start, Transfer(c, pins, bits), pins) == bits
  {
    hide Heard, Sent, After;
    SentIsHeard(start, c, pins, bits, |bits|);
    HeardNext(start, Sent(c, pins, bits, |bits|), pins, After(c, pins, bits, |bits|)[pins.sync := true]);
    assert bits[..|bits|] == bits;
  }

  /** `sync` goes low once, after the first write, and high once, with the last; no other converter's does. */
  lemma {:induction false} SentSelectsOne(c: Port, pins: Pins, bits: seq<bool>, j: nat, k: nat, other: nat)
    requires pins.Valid() && c[pins.sync] && j <= |bits| && k < 2 + 3 * j
    requires other < 8 && other != pins.sync && other != pins.sclk && other != pins.sdi
    ensures Sent(c, pins, bits, j)[k][pins.sync] <==> k == 0
    ensures Sent(c, pins, bits, j)[k][other] == c[other]
    decreases j
  {
    if j > 0 {
      SentSelectsOne(c, pins, bits, j - 1, if k < 2 + 3 * (j - 1) then k else 1, other);
      SentSelectsOne(c, pins, bits, j - 1, 2 + 3 * (j - 1) - 1, other);
    }
  }

  lemma TransferSelectsOne(c: Port, pins: Pins, bits: seq<bool>, k: nat, other: nat)
    requires pins.Valid() && c[pins.sync] && k < 3 + 3 * |bits|
    requires other < 8 && other != pins.sync && other != pins.sclk && other != pins.sdi
    ensures Transfer(c, pins, bits)[k][pins.sync] <==> k == 0 || k == 2 + 3 * |bits|
    ensures Transfer(c, pins, bits)[k][other] == c[other]
  {
    hide Sent;
    SentSelectsOne(c, pins, bits, |bits|, if k < 2 + 3 * |bits| then k else k - 1, other);
  }

  lemma {:induction false} DeselectedHearsNothing(start: Port, levels: seq<Port>, pins: Pins)
    requires pins.Valid() && forall k :: 0 <= k < |levels| ==> levels[k][pins.sync]
    ensures Heard(start, levels, pins) == []
  {
    if levels != [] {
      DeselectedHearsNothing(start, levels[..|levels| - 1], pins);
    }
  }

  /** A converter with its own `sync` pin hears nothing of another's transfer. */
  lemma OthersHearNothing(start: Port, c: Port, pins: Pins, bits: seq<bool>, other: Pins)
    requires pins.Valid() && other.Valid() && c[pins.sync] && c[other.sync]
    requires other.sync != pins.sync && other.sync != pins.sclk && other.sync != pins.sdi
    ensures Heard(start, Transfer(c, pins, bits), other) == []
  {
    var levels := Transfer(c, pins, bits);
    forall k | 0 <= k < |levels| ensures levels[k][other.sync] {
      TransferSelectsOne(c, pins, bits, k, other.sync);
    }
    hide Transfer;
    DeselectedHearsNothing(start, levels, other);
  }

  // ---------- The word ----------

  /** Bit by bit, the C operator on words. */
  function Or(a: nat, b: nat): nat {
    if a == 0 && b == 0 then 0
    else (if a % 2 == 1 || b % 2 == 1 then 1 else 0) + 2 * Or(a / 2, b / 2)
  }

  lemma {:induction false} OrZero(a: nat)
    ensures Or(a, 0) == a
  {
    if a > 0 {
      OrZero(a / 2);
    }
  }

  lemma {:induction false} OrOfDisjoint(high: nat, low: nat, k: nat)
    requires low < Pow2(k)
    ensures Or(Pow2(k) * high, low) == Pow2(k) * high + low
    decreases k
  {
    if k == 0 {
      OrZero(high);
    } else {
      var a := Pow2(k) * high;
      assert a == 2 * (Pow2(k - 1) * high);
      assert a % 2 == 0 && a / 2 == Pow2(k - 1) * high;
      OrOfDisjoint(high, low / 2, k - 1);
    }
  }

  const UPDATE: nat := 0x100000   // DAC_MASK_LD0
  const DACSEL1: nat := 0x040000
  const DACSEL0: nat := 0x020000

  /** The converter's address. */
  function Mask(channel: nat): nat {
    var base := channel - channel % 4;
    if base == 8 then 0x800000 else if base == 4 then 0x400000 else 0
  }

  /** An update of one of its four outputs. */
  function Select(mod: nat): nat {
    if mod == 0 then UPDATE
    else if mod == 1 then Or(UPDATE, DACSEL0)
    else if mod == 2 then Or(UPDATE, DACSEL1)
    else Or(Or(UPDATE, DACSEL1), DACSEL0)
  }

  /** The word `DAC8164_writeChannel` puts together. */
  function Word(channel: nat, value: nat): nat {
    Or(Or(Select(channel % 4), Mask(channel)), value * 4)
  }

  lemma {:induction false} OrCommutes(a: nat, b: nat)
    ensures Or(a, b) == Or(b, a)
  {
    if a > 0 || b > 0 {
      OrCommutes(a / 2, b / 2);
    }
  }

  lemma {:induction false} OrAdds(high: nat, low: nat, k: nat, unit: nat, times: nat)
    requires unit == Pow2(k) && high == unit * times && low < unit
    ensures Or(high, low) == Or(low, high) == high + low
  {
    OrOfDisjoint(times, low, k);
    OrCommutes(high, low);
  }

  lemma Units()
    ensures Pow2(16) == 0x10000 && Pow2(17) == 0x20000 && Pow2(18) == 0x40000 && Pow2(19) == 0x80000 && Pow2(22) == 0x400000
    ensures Pow2(24) == 0x1000000
  {
    Powers();
    assert Pow2(18) == 2 * Pow2(17) && Pow2(20) == 2 * Pow2(19) && Pow2(22) == 2 * (2 * Pow2(20));
  }

  lemma SelectIsSum(mod: nat)
    requires mod < 4
    ensures Select(mod) == UPDATE + 0x20000 * mod
  {
    Units();
    hide Or, Pow2;
    OrAdds(UPDATE, DACSEL0, 18, 0x40000, 4);
    OrAdds(UPDATE, DACSEL1, 19, 0x80000, 2);
    OrAdds(UPDATE + DACSEL1, DACSEL0, 18, 0x40000, 5);
  }

  lemma FieldsAdd(chip: nat, mod: nat, value: nat)
    requires chip < 3 && mod < 4 && value <= HV_DAC_MAX
    ensures var high, low := 0x400000 * chip, UPDATE + 0x20000 * mod;
            Or(Or(low, high), value * 4) == high + low + 4 * value
  {
    Units();
    hide Or, Pow2;
    var high, low := 0x400000 * chip, UPDATE + 0x20000 * mod;
    OrAdds(high, low, 22, 0x400000, chip);
    OrAdds(high + low, value * 4, 16, 0x10000, 64 * chip + 16 + 2 * mod);
  }

  /** The fields of the word do not overlap: converter, update code, output and 14-bit value. */
  lemma WordIsSum(channel: nat, value: nat)
    requires channel < HV_CHANNELS && value <= HV_DAC_MAX
    ensures Word(channel, value) == 0x400000 * (channel / 4) + UPDATE + 0x20000 * (channel % 4) + 4 * value
  {
    var mod, chip := channel % 4, channel / 4;
    hide Or, Select;
    assert channel == 4 * chip + mod;
    assert Mask(channel) == 0x400000 * chip;
    SelectIsSum(mod);
    FieldsAdd(chip, mod, value);
  }

  /** The order the bits go out in: bit 23 first. */
  function Msb(data: nat): (bits: seq<bool>)
    ensures |bits| == WORD_BITS
  {
    seq(WORD_BITS, i requires 0 <= i < WORD_BITS => Bit(data, WORD_BITS - 1 - i))
  }

  lemma MsbIdentifies(a: nat, b: nat)
    requires a < Pow2(WORD_BITS) && b < Pow2(WORD_BITS) && Msb(a) == Msb(b)
    ensures a == b
  {
    var n := WORD_BITS;
    forall i | 0 <= i < n ensures ToBits(a, n)[i] == ToBits(b, n)[i] {
      BitAt(a, i, n);
      BitAt(b, i, n);
      assert Msb(a)[n - 1 - i] == Msb(b)[n - 1 - i];
    }
    hide ToBits, Msb;
    assert ToBits(a, n) == ToBits(b, n);
    ValueOfToBits(a, n);
    ValueOfToBits(b, n);
  }

  lemma FieldsIdentify(chip: nat, mod: nat, value: nat, chip': nat, mod': nat, value': nat)
    requires mod < 4 && value <= HV_DAC_MAX && mod' < 4 && value' <= HV_DAC_MAX
    requires 0x400000 * chip + 0x20000 * mod + 4 * value == 0x400000 * chip' + 0x20000 * mod' + 4 * value'
    ensures chip == chip' && mod == mod' && value == value'
  {}

  /** What a converter hears says which setting was meant. */
  lemma WordIdentifies(channel: nat, value: nat, channel': nat, value': nat)
    requires channel < HV_CHANNELS && value <= HV_DAC_MAX && channel' < HV_CHANNELS && value' <= HV_DAC_MAX
    ensures Msb(Word(channel, value)) == Msb(Word(channel', value')) <==> channel == channel' && value == value'
  {
    if Msb(Word(channel, value)) == Msb(Word(channel', value')) {
      var chip, mod, chip', mod' := channel / 4, channel % 4, channel' / 4, channel' % 4;
      assert channel == 4 * chip + mod && channel' == 4 * chip' + mod' && chip < 3 && chip' < 3;
      WordIsSum(channel, value);
      WordIsSum(channel', value');
      Units();
      hide *;
      MsbIdentifies(Word(channel, value), Word(channel', value'));
      FieldsIdentify(chip, mod, value, chip', mod', value');
    }
  }

  // ---------- Writing a word ----------

  function Done(ports: seq<Port>): (log: seq<Attempt>)
    ensures |log| == |ports|
  {
    seq(|ports|, i requires 0 <= i < |ports| => Attempt(ports[i], true))
  }

  lemma DoneMore(a: seq<Port>, p: Port)
    ensures Done(a + [p]) == Done(a) + [Attempt(p, true)]
  {}

  /** What a transfer that fails at write `n` leaves in the log: the writes before it, the one that failed, and two
      best-effort writes to go back to idle. */
  predicate StoppedAt(log: seq<Attempt>, ports: seq<Port>, n: nat, pins: Pins)
    requires pins.Valid()
  {
    1 <= n <= |ports| && |log| == n + 2 &&
    log[..n - 1] == Done(ports[..n - 1]) && log[n - 1] == Attempt(ports[n - 1], false) &&
    log[n].port == ports[n - 1][pins.sclk := false] && log[n + 1].port == ports[n - 1][pins.sclk := false][pins.sync := true]
  }

  /** The log after a failed transfer, and the cache back at idle. */
  predicate Failed(log: seq<Attempt>, cache: Port, before: seq<Attempt>, ports: seq<Port>, n: nat, pins: Pins)
    requires pins.Valid()
  {
    before <= log && StoppedAt(log[|before|..], ports, n, pins) &&
    cache == ports[n - 1][pins.sclk := false][pins.sync := true]
  }

  predicate AllDone(log: seq<Attempt>) {
    forall i :: 0 <= i < |log| ==> log[i].done
  }

  /** A transfer fails exactly when one of its register writes does. */
  lemma NothingElseFails(log: seq<Attempt>, cache: Port, before: seq<Attempt>, ports: seq<Port>, n: nat, pins: Pins,
                         ok: bool)
    requires pins.Valid() && if ok then log == before + Done(ports) else Failed(log, cache, before, ports, n, pins)
    ensures before <= log && (ok <==> AllDone(log[|before|..]))
  {
    if ok {
      assert log[|before|..] == Done(ports);
    } else {
      assert !log[|before|..][n - 1].done;
    }
  }

  lemma PrefixOfSent(c: Port, pins: Pins, bits: seq<bool>, j: nat)
    requires pins.Valid() && j <= |bits|
    ensures Sent(c, pins, bits, j) <= Sent(c, pins, bits, |bits|)
    decreases |bits| - j
  {
    if j < |bits| {
      PrefixOfSent(c, pins, bits, j + 1);
    }
  }

  lemma NextPorts(c: Port, pins: Pins, bits: seq<bool>, j: nat)
    requires pins.Valid() && j < |bits|
    ensures var done, ports := Sent(c, pins, bits, j), Transfer(c, pins, bits);
            var b := After(c, pins, bits, j)[pins.sdi := bits[j]];
            var high := b[pins.sclk := true];
            var low := high[pins.sclk := false];
            done + [b] <= ports && done + [b] + [high] <= ports && done + [b] + [high] + [low] <= ports &&
            Sent(c, pins, bits, j + 1) == done + [b] + [high] + [low] && After(c, pins, bits, j + 1) == low
  {
    PrefixOfSent(c, pins, bits, j + 1);
  }

  lemma FirstPorts(c: Port, pins: Pins, bits: seq<bool>)
    requires pins.Valid()
    ensures var first := c[pins.sclk := false];
            [first] <= Transfer(c, pins, bits) && [first] + [first[pins.sync := false]] <= Transfer(c, pins, bits) &&
            Sent(c, pins, bits, 0) == [first] + [first[pins.sync := false]] &&
            After(c, pins, bits, 0) == first[pins.sync := false]
  {
    PrefixOfSent(c, pins, bits, 0);
  }

  // ---------- What a failed transfer delivers ----------

  /** The outputs that reached the pins, going by a flag for each write. */
  function Landed(log: seq<Attempt>, landed: seq<bool>): seq<Port>
    requires |landed| == |log|
  {
    if log == [] then []
    else
      var n := |log| - 1;
      Landed(log[..n], landed[..n]) + if landed[n] then [log[n].port] else []
  }

  /** A write reported done reached the pins; one reported failed may have, too. */
  predicate Plausible(log: seq<Attempt>, landed: seq<bool>) {
    |landed| == |log| && forall i :: 0 <= i < |log| && log[i].done ==> landed[i]
  }

  lemma {:induction false} AllLanded(ports: seq<Port>, landed: seq<bool>)
    requires |landed| == |ports| && forall i :: 0 <= i < |landed| ==> landed[i]
    ensures Landed(Done(ports), landed) == ports
  {
    if ports != [] {
      var n := |ports| - 1;
      assert Done(ports)[..n] == Done(ports[..n]);
      AllLanded(ports[..n], landed[..n]);
      assert ports[..n] + [ports[n]] == ports;
    }
  }

  /** The writes of a stopped transfer that reached the pins: those before the failed one, then that one and the two
      recovery writes as their flags say. */
  function Stopped(done: seq<Port>, failed: Port, pins: Pins, itself: bool, clock: bool, sync: bool): seq<Port>
    requires pins.Valid()
  {
    done + (if itself then [failed] else []) + (if clock then [failed[pins.sclk := false]] else []) +
    (if sync then [failed[pins.sclk := false][pins.sync := true]] else [])
  }

  lemma LandedThrice(log: seq<Attempt>, landed: seq<bool>, n: nat)
    requires |log| == |landed| == n + 2 && n >= 1
    ensures Landed(log, landed) ==
      Landed(log[..n - 1], landed[..n - 1]) + (if landed[n - 1] then [log[n - 1].port] else []) +
      (if landed[n] then [log[n].port] else []) + (if landed[n + 1] then [log[n + 1].port] else [])
  {
    LandedLast(log, landed);
    LandedLast(log[..n + 1], landed[..n + 1]);
    LandedLast(log[..n], landed[..n]);
    hide Landed;
    assert log[..n + 1][..n] == log[..n] && landed[..n + 1][..n] == landed[..n];
    assert log[..n][..n - 1] == log[..n - 1] && landed[..n][..n - 1] == landed[..n - 1];
  }

  lemma LandedLast(log: seq<Attempt>, landed: seq<bool>)
    requires |landed| == |log| && log != []
    ensures var n := |log| - 1;
            Landed(log, landed) == Landed(log[..n], landed[..n]) + if landed[n] then [log[n].port] else []
  {}

  lemma StoppedLands(log: seq<Attempt>, landed: seq<bool>, ports: seq<Port>, n: nat, pins: Pins)
    requires pins.Valid() && StoppedAt(log, ports, n, pins) && Plausible(log, landed)
    ensures Landed(log, landed) ==
      Stopped(ports[..n - 1], ports[n - 1], pins, landed[n - 1], landed[n], landed[n + 1])
  {
    LandedThrice(log, landed, n);
    forall i | 0 <= i < n - 1 ensures landed[i] {
      assert log[i] == log[..n - 1][i];
    }
    AllLanded(ports[..n - 1], landed[..n - 1]);
  }

  predicate Falls(was: Port, now: Port, pins: Pins)
    requires pins.Valid()
  {
    !was[pins.sync] && !now[pins.sync] && was[pins.sclk] && !now[pins.sclk]
  }

  /** How many bits the failed write and the recovery add to what was heard: a fall of the clock that either of them
      completes. */
  function Extra(last: Port, failed: Port, pins: Pins, itself: bool, clock: bool): nat
    requires pins.Valid()
  {
    (if itself && Falls(last, failed, pins) then 1 else 0) +
    (if clock && Falls(if itself then failed else last, failed[pins.sclk := false], pins) then 1 else 0)
  }

  lemma StoppedIsHeard(start: Port, done: seq<Port>, failed: Port, pins: Pins, itself: bool, clock: bool, sync: bool)
    requires pins.Valid()
    ensures var last := if done == [] then start else done[|done| - 1];
            Heard(start, Stopped(done, failed, pins, itself, clock, sync), pins) ==
              Heard(start, done, pins) + seq(Extra(last, failed, pins, itself, clock), _ => failed[pins.sdi])
  {
    hide Heard;
    var last := if done == [] then start else done[|done| - 1];
    var low := failed[pins.sclk := false];
    var one := if itself then done + [failed] else done;
    var two := if clock then one + [low] else one;
    HeardNext(start, done, pins, failed);
    HeardNext(start, one, pins, low);
    HeardNext(start, two, pins, low[pins.sync := true]);
    assert Stopped(done, failed, pins, itself, clock, sync) == if sync then two + [low[pins.sync := true]] else two;
  }

  /** Bits heard of a transfer that failed at write `n`, when the failed write and the recovery's clock-low did or did
      not reach the pins. Writes 3j+4 and 3j+5 raise and lower the clock for bit j. */
  function BitsHeard(n: nat, itself: bool, clock: bool): nat {
    if n < 3 then 0
    else (n - 3) / 3 + if (n % 3 == 1 && itself && clock) || (n % 3 == 2 && (itself || clock)) then 1 else 0
  }

  lemma HalfBitHeard(start: Port, done: seq<Port>, pins: Pins, bit: bool)
    requires pins.Valid() && done != [] && !done[|done| - 1][pins.sync] && !done[|done| - 1][pins.sclk]
    ensures var b := done[|done| - 1][pins.sdi := bit];
            Heard(start, done + [b], pins) == Heard(start, done + [b] + [b[pins.sclk := true]], pins)
                                           == Heard(start, done, pins)
  {
    hide Heard;
    var b := done[|done| - 1][pins.sdi := bit];
    HeardNext(start, done, pins, b);
    HeardNext(start, done + [b], pins, b[pins.sclk := true]);
  }

  /** The bit is added by a clock that both rose and fell at the pins. */
  lemma ExtraInBit(a: Port, pins: Pins, bit: bool, phase: nat, itself: bool, clock: bool)
    requires pins.Valid() && !a[pins.sync] && !a[pins.sclk] && phase < 3
    ensures var b := a[pins.sdi := bit];
            var high := b[pins.sclk := true];
            var last := if phase == 0 then a else if phase == 1 then b else high;
            var failed := if phase == 0 then b else if phase == 1 then high else high[pins.sclk := false];
            failed[pins.sdi] == bit && Extra(last, failed, pins, itself, clock) ==
              if (phase == 1 && itself && clock) || (phase == 2 && (itself || clock)) then 1 else 0
  {}

  function Adds(phase: nat, bit: bool, itself: bool, clock: bool): seq<bool> {
    if (phase == 1 && itself && clock) || (phase == 2 && (itself || clock)) then [bit] else []
  }

  /** The writes before, and the one at, a phase of a bit: its data, its clock-high, its clock-low. */
  function Before(done: seq<Port>, pins: Pins, bit: bool, phase: nat): seq<Port>
    requires pins.Valid() && done != []
  {
    var b := done[|done| - 1][pins.sdi := bit];
    if phase == 0 then done else if phase == 1 then done + [b] else done + [b] + [b[pins.sclk := true]]
  }

  function Failing(done: seq<Port>, pins: Pins, bit: bool, phase: nat): Port
    requires pins.Valid() && done != []
  {
    var b := done[|done| - 1][pins.sdi := bit];
    if phase == 0 then b else if phase == 1 then b[pins.sclk := true] else b[pins.sclk := true][pins.sclk := false]
  }

  lemma PhaseIsHeard(start: Port, done: seq<Port>, pins: Pins, bit: bool, phase: nat, itself: bool, clock: bool, sync: bool)
    requires pins.Valid() && done != [] && !done[|done| - 1][pins.sync] && !done[|done| - 1][pins.sclk] && phase < 3
    ensures Heard(start, Stopped(Before(done, pins, bit, phase), Failing(done, pins, bit, phase), pins, itself, clock, sync), pins)
         == Heard(start, done, pins) + Adds(phase, bit, itself, clock)
  {
    HalfBitHeard(start, done, pins, bit);
    ExtraInBit(done[|done| - 1], pins, bit, phase, itself, clock);
    hide Heard, Stopped, Extra, Falls;
    StoppedIsHeard(start, Before(done, pins, bit, phase), Failing(done, pins, bit, phase), pins, itself, clock, sync);
    assert seq(1, _ => bit) == [bit] && seq(0, _ => bit) == [];
  }

  lemma PhasesInOrder(done: seq<Port>, pins: Pins, bit: bool, phase: nat)
    requires pins.Valid() && done != [] && phase < 3
    ensures var b := done[|done| - 1][pins.sdi := bit];
            var all := done + [b] + [b[pins.sclk := true]] + [b[pins.sclk := true][pins.sclk := false]];
            all[..|done| + phase] == Before(done, pins, bit, phase) && all[|done| + phase] == Failing(done, pins, bit, phase)
  {}

  lemma PrefixIndex(part: seq<Port>, whole: seq<Port>, k: nat)
    requires part <= whole && k < |part|
    ensures whole[..k] == part[..k] && whole[k] == part[k]
  {}

  lemma PortsOfPhase(c: Port, pins: Pins, bits: seq<bool>, j: nat, phase: nat)
    requires pins.Valid() && j < |bits| && phase < 3
    ensures var done, ports, k := Sent(c, pins, bits, j), Transfer(c, pins, bits), 2 + 3 * j + phase;
            ports[..k] == Before(done, pins, bits[j], phase) && ports[k] == Failing(done, pins, bits[j], phase)
  {
    NextPorts(c, pins, bits, j);
    hide *;
    var done := Sent(c, pins, bits, j);
    PhasesInOrder(done, pins, bits[j], phase);
    PrefixIndex(Sent(c, pins, bits, j + 1), Transfer(c, pins, bits), 2 + 3 * j + phase);
  }

  /** A failure while bit `j` goes out. */
  lemma FailedInBit(start: Port, c: Port, pins: Pins, bits: seq<bool>, j: nat, phase: nat,
                    itself: bool, clock: bool, sync: bool)
    requires pins.Valid() && c[pins.sync] && j < |bits| && phase < 3
    ensures var ports, k := Transfer(c, pins, bits), 2 + 3 * j + phase;
            Heard(start, Stopped(ports[..k], ports[k], pins, itself, clock, sync), pins) ==
              bits[..j] + Adds(phase, bits[j], itself, clock)
  {
    var done := Sent(c, pins, bits, j);
    assert !done[|done| - 1][pins.sync] && !done[|done| - 1][pins.sclk];
    hide *;
    SentIsHeard(start, c, pins, bits, j);
    PortsOfPhase(c, pins, bits, j, phase);
    PhaseIsHeard(start, done, pins, bits[j], phase, itself, clock, sync);
  }

  lemma FailedBeforeBits(start: Port, c: Port, pins: Pins, bits: seq<bool>, k: nat, itself: bool, clock: bool, sync: bool)
    requires pins.Valid() && c[pins.sync] && k < 2
    ensures var ports := Transfer(c, pins, bits);
            Heard(start, Stopped(ports[..k], ports[k], pins, itself, clock, sync), pins) == []
  {
    var ports := Transfer(c, pins, bits);
    FirstPorts(c, pins, bits);
    assert ports[..0] == [] && ports[..1] == [c[pins.sclk := false]];
    assert Heard(start, [], pins) == [];
    hide Heard, Transfer, Stopped;
    HeardNext(start, [], pins, c[pins.sclk := false]);
    assert [] + [c[pins.sclk := false]] == [c[pins.sclk := false]];
    StoppedIsHeard(start, ports[..k], ports[k], pins, itself, clock, sync);
  }

  lemma FailedAtEnd(start: Port, c: Port, pins: Pins, bits: seq<bool>, itself: bool, clock: bool, sync: bool)
    requires pins.Valid() && c[pins.sync]
    ensures var ports, k := Transfer(c, pins, bits), 2 + 3 * |bits|;
            Heard(start, Stopped(ports[..k], ports[k], pins, itself, clock, sync), pins) == bits
  {
    var ports, k := Transfer(c, pins, bits), 2 + 3 * |bits|;
    SentIsHeard(start, c, pins, bits, |bits|);
    assert ports[..k] == Sent(c, pins, bits, |bits|);
    assert bits[..|bits|] == bits;
    hide Heard, Sent, Stopped;
    StoppedIsHeard(start, ports[..k], ports[k], pins, itself, clock, sync);
  }

  lemma FailedIsHeard(start: Port, c: Port, pins: Pins, bits: seq<bool>, n: nat, itself: bool, clock: bool, sync: bool)
    requires pins.Valid() && c[pins.sync] && 1 <= n <= 3 + 3 * |bits|
    ensures var ports := Transfer(c, pins, bits);
            BitsHeard(n, itself, clock) <= |bits| &&
            Heard(start, Stopped(ports[..n - 1], ports[n - 1], pins, itself, clock, sync), pins) ==
              bits[..BitsHeard(n, itself, clock)]
  {
    hide Heard, Stopped, Transfer;
    if n < 3 {
      FailedBeforeBits(start, c, pins, bits, n - 1, itself, clock, sync);
    } else if n == 3 + 3 * |bits| {
      FailedAtEnd(start, c, pins, bits, itself, clock, sync);
    } else {
      FailedInBit(start, c, pins, bits, (n - 3) / 3, (n - 3) % 3, itself, clock, sync);
    }
  }

  /** Not acknowledged does not mean not applied. What a failed transfer delivers is always the front of the word; and
      it is the whole word exactly when the last write failed, or the last clock-low did and that write or the
      recovery's clock-low reached the pins, or the last clock-high did and both of those writes reached them. */
  lemma FailedTransferDelivers(start: Port, c: Port, pins: Pins, bits: seq<bool>, log: seq<Attempt>, n: nat,
                               landed: seq<bool>)
    requires pins.Valid() && c[pins.sync] && bits != []
    requires StoppedAt(log, Transfer(c, pins, bits), n, pins) && Plausible(log, landed)
    ensures Heard(start, Landed(log, landed), pins) <= bits
    ensures Heard(start, Landed(log, landed), pins) == bits <==>
      n == 3 + 3 * |bits| || (n == 2 + 3 * |bits| && (landed[n - 1] || landed[n])) ||
      (n == 1 + 3 * |bits| && landed[n - 1] && landed[n])
  {
    hide Heard, Landed, Transfer, Stopped;
    StoppedLands(log, landed, Transfer(c, pins, bits), n, pins);
    FailedIsHeard(start, c, pins, bits, n, landed[n - 1], landed[n], landed[n + 1]);
    var heard := BitsHeard(n, landed[n - 1], landed[n]);
    assert bits[..heard] == bits <==> heard == |bits|;
  }

  /** For a 24-bit word: writes 75, 74 and 73. */
  lemma FailedWordDelivers(start: Port, c: Port, pins: Pins, data: nat, log: seq<Attempt>, n: nat, landed: seq<bool>)
    requires pins.Valid() && c[pins.sync]
    requires StoppedAt(log, Transfer(c, pins, Msb(data)), n, pins) && Plausible(log, landed)
    ensures Heard(start, Landed(log, landed), pins) <= Msb(data)
    ensures Heard(start, Landed(log, landed), pins) == Msb(data) <==>
      n == 75 || (n == 74 && (landed[73] || landed[74])) || (n == 73 && landed[72] && landed[73])
  {
    hide Heard, Landed, Transfer, StoppedAt, Plausible, Msb;
    FailedTransferDelivers(start, c, pins, Msb(data), log, n, landed);
  }

  class Dac {
    const mcp: Expander
    const pins: Pins

    constructor (mcp: Expander, pins: Pins)
      ensures this.mcp == mcp && this.pins == pins
    {
      this.mcp, this.pins := mcp, pins;
    }

    /** One more pin write of a transfer; if it fails, idle again if possible. */
    method Put(pin: nat, value: bool, ghost before: seq<Attempt>, ghost ports: seq<Port>, ghost done: seq<Port>)
      returns (ok: bool)
      requires pins.Valid() && pin < 8 && mcp.log == before + Done(done) && done + [mcp.cache[pin := value]] <= ports
      modifies mcp
      ensures ok ==> mcp.cache == old(mcp.cache)[pin := value] && mcp.log == before + Done(done + [mcp.cache])
      ensures !ok ==> Failed(mcp.log, mcp.cache, before, ports, |done| + 1, pins)
    {
      ok := mcp.PinWrite(pin, value);
      ghost var port := mcp.cache;
      if ok {
        DoneMore(done, port);
        return;
      }
      var _ := mcp.PinWrite(pins.sclk, false);
      var _ := mcp.PinWrite(pins.sync, true);
      ghost var n := |done| + 1;
      assert ports[..n - 1] == done && ports[n - 1] == port;
      assert mcp.log[|before|..][..n - 1] == Done(done);
    }

    /** One round of the shifting loop. */
    method PutBit(bit: bool, ghost before: seq<Attempt>, ghost c: Port, ghost bits: seq<bool>, ghost j: nat)
      returns (ok: bool, ghost n: nat)
      requires pins.Valid() && j < |bits| && bits[j] == bit
      requires mcp.log == before + Done(Sent(c, pins, bits, j)) && mcp.cache == After(c, pins, bits, j)
      modifies mcp
      ensures ok ==> mcp.log == before + Done(Sent(c, pins, bits, j + 1)) && mcp.cache == After(c, pins, bits, j + 1)
      ensures !ok ==> Failed(mcp.log, mcp.cache, before, Transfer(c, pins, bits), n, pins)
    {
      ghost var done, ports := Sent(c, pins, bits, j), Transfer(c, pins, bits);
      NextPorts(c, pins, bits, j);
      hide Transfer, Sent, After, Failed, Done;
      n := |done| + 1;
      ok := Put(pins.sdi, bit, before, ports, done);
      if !ok {
        return;
      }
      done, n := done + [mcp.cache], n + 1;
      ok := Put(pins.sclk, true, before, ports, done);
      if !ok {
        return;
      }
      done, n := done + [mcp.cache], n + 1;
      ok := Put(pins.sclk, false, before, ports, done);
    }

    /** The shifting loop and the end of the transfer. */
    method Shift(data: nat, ghost before: seq<Attempt>, ghost c: Port) returns (ok: bool, ghost n: nat)
      requires pins.Valid()
      requires mcp.log == before + Done(Sent(c, pins, Msb(data), 0)) && mcp.cache == After(c, pins, Msb(data), 0)
      modifies mcp
      ensures ok ==> mcp.log == before + Done(Transfer(c, pins, Msb(data)))
      ensures ok ==> mcp.cache == After(c, pins, Msb(data), WORD_BITS)[pins.sync := true]
      ensures !ok ==> Failed(mcp.log, mcp.cache, before, Transfer(c, pins, Msb(data)), n, pins)
    {
      ghost var bits := Msb(data);
      hide Sent, After, Failed, Done, Msb;
      var i := WORD_BITS - 1;
      ghost var j := 0;
      while i >= 0
        invariant -1 <= i < WORD_BITS && j == WORD_BITS - 1 - i
        invariant mcp.cache == After(c, pins, bits, j)
        invariant mcp.log == before + Done(Sent(c, pins, bits, j))
      {
        MsbAt(data, j);
        ok, n := PutBit(Bit(data, i), before, c, bits, j);
        if !ok {
          return;
        }
        i, j := i - 1, j + 1;
      }
      n := |Sent(c, pins, bits, WORD_BITS)| + 1;
      ok := Put(pins.sync, true, before, Transfer(c, pins, bits), Sent(c, pins, bits, WORD_BITS));
    }

    /** The start of a transfer: the clock low, then `sync`. */
    method Begin(ghost bits: seq<bool>) returns (ok: bool, ghost n: nat)
      requires pins.Valid()
      modifies mcp
      ensures ok ==> mcp.log == old(mcp.log) + Done(Sent(old(mcp.cache), pins, bits, 0))
      ensures ok ==> mcp.cache == After(old(mcp.cache), pins, bits, 0)
      ensures !ok ==> Failed(mcp.log, mcp.cache, old(mcp.log), Transfer(old(mcp.cache), pins, bits), n, pins)
    {
      ghost var before, c := mcp.log, mcp.cache;
      ghost var ports := Transfer(c, pins, bits);
      FirstPorts(c, pins, bits);
      assert before == before + Done([]);
      hide Transfer, Sent, After, Failed, Done;
      n := 1;
      ok := Put(pins.sclk, false, before, ports, []);
      if ok {
        n := 2;
        ok := Put(pins.sync, false, before, ports, [mcp.cache]);
      }
    }

    /** `DAC8164_write`: 0 after all the writes of the transfer, and only then; `n` is the write that failed. */
    method Write(data: nat) returns (ok: bool, ghost n: nat)
      requires pins.Valid()
      modifies mcp
      ensures data > 0xFFFFFF ==> !ok && mcp.log == old(mcp.log) && mcp.cache == old(mcp.cache)
      ensures ok ==> mcp.log == old(mcp.log) + Done(Transfer(old(mcp.cache), pins, Msb(data)))
      ensures ok ==> mcp.cache == After(old(mcp.cache), pins, Msb(data), WORD_BITS)[pins.sync := true]
      ensures !ok && data <= 0xFFFFFF ==>
        Failed(mcp.log, mcp.cache, old(mcp.log), Transfer(old(mcp.cache), pins, Msb(data)), n, pins)
    {
      n := 0;
      if data > 0xFFFFFF {
        return false, n;
      }
      ghost var before, c := mcp.log, mcp.cache;
      ok, n := Begin(Msb(data));
      if !ok {
        return;
      }
      hide *;
      ok, n := Shift(data, before, c);
    }

    /** `DAC8164_writeChannel`. */
    method WriteChannel(channel: nat, value: nat) returns (ok: bool, ghost n: nat)
      requires pins.Valid()
      modifies mcp
      ensures channel >= HV_CHANNELS || value > HV_DAC_MAX ==>
        !ok && mcp.log == old(mcp.log) && mcp.cache == old(mcp.cache)
      ensures ok ==> mcp.log == old(mcp.log) + Done(Transfer(old(mcp.cache), pins, Msb(Word(channel, value))))
      ensures ok ==> mcp.cache == After(old(mcp.cache), pins, Msb(Word(channel, value)), WORD_BITS)[pins.sync := true]
      ensures !ok && channel < HV_CHANNELS && value <= HV_DAC_MAX ==>
        Failed(mcp.log, mcp.cache, old(mcp.log), Transfer(old(mcp.cache), pins, Msb(Word(channel, value))), n, pins)
    {
      n := 0;
      if channel >= HV_CHANNELS || value > HV_DAC_MAX {
        return false, n;
      }
      var mod := channel % 4;
      var mask := if channel - mod == 8 then 0x800000 else if channel - mod == 4 then 0x400000 else 0;
      mod := mod + 1;
      var data: nat;
      if mod == 1 {
        data := Or(UPDATE, mask);
      } else if mod == 2 {
        data := Or(Or(UPDATE, DACSEL0), mask);
      } else if mod == 3 {
        data := Or(Or(UPDATE, DACSEL1), mask);
      } else {
        data := Or(Or(Or(UPDATE, DACSEL1), DACSEL0), mask);
      }
      data := Or(data, value * 4);
      assert data == Word(channel, value);
      WordIsSum(channel, value);
      hide *;
      ok, n := Write(data);
    }
  }

  lemma MsbAt(data: nat, k: nat)
    requires k < WORD_BITS
    ensures Msb(data)[k] == Bit(data, WORD_BITS - 1 - k)
  {}

  // ---------- The acknowledged settings ----------

  /** The three converters share clock and data and have a `sync` pin each. */
  function PinsOf(chip: nat): (pins: Pins)
    ensures pins.Valid()
  {
    Pins(if chip == 0 then 6 else if chip == 1 then 3 else 5, 7, 0)
  }

  predicate Idle(cache: Port) {
    cache[6] && cache[3] && cache[5]
  }

  /** What an acknowledged write did: its own converter heard the word and the others nothing, whatever the pins
      really were before. */
  lemma AcknowledgedIsHeard(start: Port, c: Port, channel: nat, value: nat, chip: nat)
    requires Idle(c) && channel < HV_CHANNELS && chip < 3
    ensures var heard := Heard(start, Transfer(c, PinsOf(channel / 4), Msb(Word(channel, value))), PinsOf(chip));
            heard == if chip == channel / 4 then Msb(Word(channel, value)) else []
    ensures PinsOf(chip).sync == (if chip == 0 then 6 else if chip == 1 then 3 else 5)
    ensures PinsOf(chip).sclk == 7 && PinsOf(chip).sdi == 0
  {
    hide Heard, Transfer, Msb, Word;
    TransferDelivers(start, c, PinsOf(channel / 4), Msb(Word(channel, value)));
    if chip != channel / 4 {
      OthersHearNothing(start, c, PinsOf(channel / 4), Msb(Word(channel, value)), PinsOf(chip));
    }
  }

  lemma StillIdle(c: Port, pins: Pins, bits: seq<bool>, k: nat)
    requires Idle(c) && pins.sync in {3, 5, 6} && pins.sclk == 7 && pins.sdi == 0 && k < 3 + 3 * |bits|
    ensures Idle(Transfer(c, pins, bits)[k][pins.sclk := false][pins.sync := true])
    ensures k == 2 + 3 * |bits| ==> Idle(Transfer(c, pins, bits)[k])
  {
    hide Transfer;
    if pins.sync != 3 {
      TransferSelectsOne(c, pins, bits, k, 3);
    }
    if pins.sync != 5 {
      TransferSelectsOne(c, pins, bits, k, 5);
    }
    if pins.sync != 6 {
      TransferSelectsOne(c, pins, bits, k, 6);
    }
  }

  datatype Request = Request(channel: nat, value: nat, acknowledged: bool)

  /** The last acknowledged value of a channel, or the 0 it started with. */
  function LastAcknowledged(history: seq<Request>, channel: nat): nat {
    if history == [] then 0
    else
      var last := history[|history| - 1];
      if last.channel == channel && last.acknowledged then last.value
      else LastAcknowledged(history[..|history| - 1], channel)
  }

  lemma OneRequestMore(history: seq<Request>, r: Request, channel: nat)
    ensures LastAcknowledged(history + [r], channel) ==
      if r.channel == channel && r.acknowledged then r.value else LastAcknowledged(history, channel)
  {
    assert (history + [r])[..|history|] == history;
  }

  class HvDacs {
    const mcp: Expander
    const dac0: Dac
    const dac1: Dac
    const dac2: Dac
    const hvDac: array<nat>
    ghost var history: seq<Request>

    ghost predicate Wired()
      reads this, mcp
    {
      dac0.mcp == dac1.mcp == dac2.mcp == mcp &&
      dac0.pins == PinsOf(0) && dac1.pins == PinsOf(1) && dac2.pins == PinsOf(2) && Idle(mcp.cache)
    }

    ghost predicate Valid()
      reads this, mcp, hvDac
    {
      Wired() && Agrees(hvDac[..], history)
    }

    /** The start of the queue thread, with the pins set up. */
    constructor (mcp: Expander)
      requires Idle(mcp.cache)
      ensures Valid() && this.mcp == mcp && history == [] && fresh(hvDac)
    {
      this.mcp := mcp;
      dac0 := new Dac(mcp, PinsOf(0));
      dac1 := new Dac(mcp, PinsOf(1));
      dac2 := new Dac(mcp, PinsOf(2));
      hvDac := new nat[HV_CHANNELS](i => 0);
      history := [];
    }

    /** The transfer itself, on the pins of the channel's converter. */
    method Transmit(channel: nat, value: nat) returns (ok: bool, ghost n: nat)
      requires Wired() && channel < HV_CHANNELS && value <= HV_DAC_MAX
      modifies mcp
      ensures Wired()
      ensures ok ==> mcp.log == old(mcp.log) + Done(Transfer(old(mcp.cache), PinsOf(channel / 4), Msb(Word(channel, value))))
      ensures !ok ==> Failed(mcp.log, mcp.cache, old(mcp.log),
                             Transfer(old(mcp.cache), PinsOf(channel / 4), Msb(Word(channel, value))), n,
                             PinsOf(channel / 4))
    {
      hide Transfer, After, Msb, Word, Done, StoppedAt, Idle;
      var dac := if channel / 4 == 0 then dac0 else if channel / 4 == 1 then dac1 else dac2;
      assert dac.mcp == mcp && dac.pins == PinsOf(channel / 4);
      ok, n := dac.WriteChannel(channel, value);
      IdleAfterwards(old(mcp.cache), channel / 4, Msb(Word(channel, value)), mcp.cache, mcp.log, old(mcp.log), ok, n);
    }

    /** `i2c_dac_write`: only an acknowledged transfer changes a cached setting. */
    method DacWrite(channel: nat, value: nat) returns (ok: bool, ghost n: nat)
      requires Valid()
      modifies this, mcp, hvDac
      ensures Valid() && history == old(history) + [Request(channel, value, ok)]
      ensures ok ==> channel < HV_CHANNELS && value <= HV_DAC_MAX
      ensures ok ==> mcp.log == old(mcp.log) + Done(Transfer(old(mcp.cache), PinsOf(channel / 4), Msb(Word(channel, value))))
      ensures channel >= HV_CHANNELS || value > HV_DAC_MAX ==> !ok && mcp.log == old(mcp.log)
      ensures channel < HV_CHANNELS && value <= HV_DAC_MAX ==>
        old(mcp.log) <= mcp.log && (ok <==> AllDone(mcp.log[|old(mcp.log)|..])) &&
        (!ok ==> Failed(mcp.log, mcp.cache, old(mcp.log),
                        Transfer(old(mcp.cache), PinsOf(channel / 4), Msb(Word(channel, value))), n, PinsOf(channel / 4)))
    {
      n := 0;
      hide Transfer, Msb, Word, Done, Failed, Idle, Agrees, LastAcknowledged;
      Recorded(hvDac[..], history, Request(channel, value, false));
      if channel >= HV_CHANNELS || value > HV_DAC_MAX {
        history := history + [Request(channel, value, false)];
        return false, n;
      }
      ghost var before, ports := mcp.log, Transfer(mcp.cache, PinsOf(channel / 4), Msb(Word(channel, value)));
      ok, n := Transmit(channel, value);
      NothingElseFails(mcp.log, mcp.cache, before, ports, n, PinsOf(channel / 4), ok);
      if ok {
        Recorded(hvDac[..], history, Request(channel, value, true));
        hvDac[channel] := value;
      }
      history := history + [Request(channel, value, ok)];
    }

    /** `i2c_query_hv_dac_cache`: what the client gets to know. */
    method Query(channel: nat) returns (r: Option<nat>)
      requires Valid()
      ensures r == if channel < HV_CHANNELS then Some(LastAcknowledged(history, channel)) else None
    {
      return if channel < HV_CHANNELS then Some(hvDac[channel]) else None;
    }
  }

  predicate Agrees(settings: seq<nat>, history: seq<Request>) {
    |settings| == HV_CHANNELS && forall c :: 0 <= c < HV_CHANNELS ==> settings[c] == LastAcknowledged(history, c)
  }

  lemma Recorded(settings: seq<nat>, history: seq<Request>, r: Request)
    requires Agrees(settings, history)
    ensures |settings| == HV_CHANNELS
    ensures !r.acknowledged ==> Agrees(settings, history + [r])
    ensures r.acknowledged && r.channel < HV_CHANNELS ==> Agrees(settings[r.channel := r.value], history + [r])
  {
    var after := if r.acknowledged && r.channel < HV_CHANNELS then settings[r.channel := r.value] else settings;
    forall c: nat | c < HV_CHANNELS && (r.acknowledged ==> r.channel < HV_CHANNELS)
      ensures after[c] == LastAcknowledged(history + [r], c)
    {
      OneRequestMore(history, r, c);
    }
  }

  lemma IdleAfterwards(c: Port, chip: nat, bits: seq<bool>, cache: Port, log: seq<Attempt>, before: seq<Attempt>,
                       ok: bool, n: nat)
    requires Idle(c) && chip < 3
    requires ok ==> cache == After(c, PinsOf(chip), bits, |bits|)[PinsOf(chip).sync := true]
    requires !ok ==> Failed(log, cache, before, Transfer(c, PinsOf(chip), bits), n, PinsOf(chip))
    ensures Idle(cache)
  {
    var k := if ok then 2 + 3 * |bits| else n - 1;
    assert Transfer(c, PinsOf(chip), bits)[2 + 3 * |bits|]
        == After(c, PinsOf(chip), bits, |bits|)[PinsOf(chip).sync := true];
    hide Transfer;
    StillIdle(c, PinsOf(chip), bits, k);
  }
}
