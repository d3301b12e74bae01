/** The frame check sequence of rs485.py: FCS-16 of RFC 1662, appendix C.2.

    The main results are the residue law (a body followed by its own FCS leaves one constant in the
    register, and nothing else does) and what corruption the check is certain to notice. */
module Fcs {
  import opened Bits

  /** The 16 bits of the register `crc`, least significant first. */
  type Register = r: seq<bool> | |r| == 16 witness ToBits(0xFFFF, 16)

  // ---------- The definition: a 16-bit register fed one message bit at a time ----------

  /** The bits set in the polynomial 0x8408. */
  predicate Tap(i: int) {
    i == 3 || i == 10 || i == 15
  }

  /** 0xFFFF. */
  function Ones(): (r: Register)
    ensures forall i :: 0 <= i < 16 ==> r[i]
  {
    seq(16, _ => true)
  }


  /** One place to the right, folding the polynomial in when `fold`. */
  function Shift(crc: Register, fold: bool): (r: Register)
    ensures forall i :: 0 <= i < 16 ==> r[i] == ((i < 15 && crc[i + 1]) != (fold && Tap(i)))
  {
    seq(16, i requires 0 <= i < 16 => (i < 15 && crc[i + 1]) != (fold && Tap(i)))
  }

  function Feed(crc: Register, bit: bool): Register {
    Shift(crc, crc[0] != bit)
  }

  function Feeds(crc: Register, bits: seq<bool>): Register
    decreases bits
  {
    if bits == [] then crc else Feeds(Feed(crc, bits[0]), bits[1..])
  }

  function MessageBits(data: seq<byte>): (bits: seq<bool>)
    ensures |bits| == 8 * |data|
  {
    if data == [] then [] else ToBits(data[0], 8) + MessageBits(data[1..])
  }

  function Fcs16(data: seq<byte>): (fcs: nat)
    ensures fcs < 0x10000
  {
    Pow2Of16();
    Value(Not(Feeds(Ones(), MessageBits(data))))
  }

  /** What a receiver checks over a body and the two FCS bytes after it. */
  predicate Checks(frame: seq<byte>) {
    |frame| >= 2 &&
    Fcs16(frame[..|frame| - 2]) == FromLittleEndian(frame[|frame| - 2], frame[|frame| - 1])
  }

  lemma Pow2Of16()
    ensures Pow2(16) == 0x1_0000
  {
    assert Pow2(8) == 0x100;
  }

  // ---------- The source's computation, a byte at a time ----------

  /** `(crc >> 1) ^ (0x8408 if crc & 1 else 0)`. */
  function BitStep(crc: Register): Register {
    Shift(crc, crc[0])
  }

  function BitSteps(crc: Register, n: nat): Register
    decreases n, crc
  {
    if n == 0 then crc else BitSteps(BitStep(crc), n - 1)
  }

  function ByteStep(crc: Register, b: byte): Register {
    BitSteps(Xor(crc, ToBits(b, 16)), 8)
  }

  lemma {:induction false} FeedsAppend(crc: Register, a: seq<bool>, b: seq<bool>)
    ensures Feeds(crc, a + b) == Feeds(Feeds(crc, a), b)
    decreases a
  {
    if a == [] {
      assert a + b == b;
    } else {
      assert (a + b)[1..] == a[1..] + b;
      FeedsAppend(Feed(crc, a[0]), a[1..], b);
    }
  }

  /** Exclusive-oring `n` message bits in at once equals feeding them one by one. */
  lemma {:induction false} StepsAreFeeds(crc: Register, y: Register, n: nat)
    requires n <= 16 && forall i :: n <= i < 16 ==> !y[i]
    ensures BitSteps(Xor(crc, y), n) == Feeds(crc, y[..n])
    decreases n
  {
    if n == 0 {
      assert Xor(crc, y) == crc;
    } else {
      var fed := Feed(crc, y[0]);
      assert BitStep(Xor(crc, y)) == Xor(fed, ShiftRight(y));
      StepsAreFeeds(fed, ShiftRight(y), n - 1);
      assert ShiftRight(y)[..n - 1] == y[..n][1..];
    }
  }

  lemma {:induction false} ZeroBits(width: nat)
    ensures ToBits(0, width) == seq(width, _ => false)
  {
    if width > 0 {
      ZeroBits(width - 1);
    }
  }

  lemma {:induction false} ByteStepIsFeeds(crc: Register, b: byte)
    ensures ByteStep(crc, b) == Feeds(crc, ToBits(b, 8))
  {
    Powers();
    ToBitsAppend(b, 0, 8, 8);
    ZeroBits(8);
    StepsAreFeeds(crc, ToBits(b, 16), 8);
    assert ToBits(b, 16)[..8] == ToBits(b, 8);
  }

  lemma MessageBitsSplit(data: seq<byte>, i: nat)
    requires i < |data|
    ensures MessageBits(data[i..]) == ToBits(data[i], 8) + MessageBits(data[i + 1..])
  {
    assert data[i..][1..] == data[i + 1..];
  }

  /** `fcs16`: the register takes in one byte after the other. */
  method ComputeFcs16(data: seq<byte>) returns (fcs: nat)
    ensures fcs == Fcs16(data)
  {
    var crc: Register := Ones();
    assert data[0..] == data;
    for i := 0 to |data|
      invariant Feeds(crc, MessageBits(data[i..])) == Feeds(Ones(), MessageBits(data))
    {
      MessageBitsSplit(data, i);
      ByteStepIsFeeds(crc, data[i]);
      FeedsAppend(crc, ToBits(data[i], 8), MessageBits(data[i + 1..]));
      crc := ShiftByte(crc, data[i]);
    }
    fcs := Value(Not(crc));
  }

  /** Its inner loop: eight shifts, each folding the polynomial in when a one falls out. */
  method ShiftByte(register: Register, b: byte) returns (crc: Register)
    ensures crc == ByteStep(register, b)
  {
    crc := Xor(register, ToBits(b, 16));
    for n := 0 to 8
      invariant BitSteps(crc, 8 - n) == ByteStep(register, b)
    {
      crc := Shift(crc, crc[0]);
    }
  }

  // ---------- Feeding is injective, in the register and in up to sixteen bits ----------

  /** Undoing a feed: the top bit tells whether the polynomial was folded in. */
  lemma FeedUndone(s: Register, a: bool, t: Register, b: bool, n: nat)
    requires n <= 15 && forall i :: n <= i < 16 ==> Feed(s, a)[i] == Feed(t, b)[i]
    ensures (s[0] != a) == (t[0] != b)
    ensures forall i :: n < i < 16 ==> s[i] == t[i]
  {
    assert Feed(s, a)[15] == Feed(t, b)[15];
    forall i | n < i < 16 ensures s[i] == t[i] {
      assert Feed(s, a)[i - 1] == Feed(t, b)[i - 1];
    }
  }

  lemma {:induction false} FeedsUndone(s: Register, a: seq<bool>, t: Register, b: seq<bool>)
    requires |a| == |b| <= 15 && Feeds(s, a) == Feeds(t, b)
    ensures forall i :: |a| <= i < 16 ==> s[i] == t[i]
    decreases |a|
  {
    if a != [] {
      FeedsUndone(Feed(s, a[0]), a[1..], Feed(t, b[0]), b[1..]);
      FeedUndone(s, a[0], t, b[0], |a| - 1);
    }
  }

  lemma {:induction false} FeedsInjectiveInBits(s: Register, a: seq<bool>, b: seq<bool>)
    requires |a| == |b| <= 16 && Feeds(s, a) == Feeds(s, b)
    ensures a == b
    decreases |a|
  {
    if a != [] {
      FeedsUndone(Feed(s, a[0]), a[1..], Feed(s, b[0]), b[1..]);
      FeedUndone(s, a[0], s, b[0], |a| - 1);
      FeedsInjectiveInBits(Feed(s, a[0]), a[1..], b[1..]);
      assert a == [a[0]] + a[1..] && b == [b[0]] + b[1..];
    }
  }

  lemma {:induction false} FeedsInjectiveInRegister(s: Register, t: Register, bits: seq<bool>)
    requires Feeds(s, bits) == Feeds(t, bits)
    ensures s == t
    decreases bits
  {
    if bits != [] {
      FeedsInjectiveInRegister(Feed(s, bits[0]), Feed(t, bits[0]), bits[1..]);
      FeedUndone(s, bits[0], t, bits[0], 0);
    }
  }

  // ---------- The residue ----------

  /** The bits of 0xF0B8, the good final FCS of RFC 1662. */
  function Residue(): Register {
    Where((i: int) => 3 <= i <= 5 || i == 7 || 12 <= i <= 15)
  }

  lemma StepShows(c: Register, d: Register)
    requires forall i :: 0 <= i < 16 ==> (d[i] <==> ((i < 15 && c[i + 1]) != (c[0] && Tap(i))))
    ensures BitStep(c) == d
  {}

  function Where(on: int -> bool): (r: Register)
    ensures forall i :: 0 <= i < 16 ==> r[i] == on(i)
  {
    seq(16, i => on(i))
  }

  lemma Quarter1(n: nat, r0: Register, r4: Register)
    requires n == 4
    requires r0 == Where((i: int) => 0 <= i <= 15)
    requires r4 == Where((i: int) => 4 <= i <= 6 || 11 <= i <= 15)
    ensures BitSteps(r0, n) == r4
  {
    var r1 := Where((i: int) => 0 <= i <= 2 || 4 <= i <= 9 || 11 <= i <= 15);
    var r2 := Where((i: int) => 0 <= i <= 1 || 4 <= i <= 8 || 11 <= i <= 15);
    var r3 := Where((i: int) => i == 0 || 4 <= i <= 7 || 11 <= i <= 15);
    StepShows(r0, r1);
    StepShows(r1, r2);
    StepShows(r2, r3);
    StepShows(r3, r4);
  }

  lemma Quarter2(n: nat, r0: Register, r4: Register)
    requires n == 4
    requires r0 == Where((i: int) => 4 <= i <= 6 || 11 <= i <= 15)
    requires r4 == Where((i: int) => 0 <= i <= 2 || 7 <= i <= 11)
    ensures BitSteps(r0, n) == r4
  {
    var r1 := Where((i: int) => 3 <= i <= 5 || 10 <= i <= 14);
    var r2 := Where((i: int) => 2 <= i <= 4 || 9 <= i <= 13);
    var r3 := Where((i: int) => 1 <= i <= 3 || 8 <= i <= 12);
    StepShows(r0, r1);
    StepShows(r1, r2);
    StepShows(r2, r3);
    StepShows(r3, r4);
  }

  lemma Quarter3(n: nat, r0: Register, r4: Register)
    requires n == 4
    requires r0 == Where((i: int) => 0 <= i <= 2 || 7 <= i <= 11)
    requires r4 == Where((i: int) => 0 <= i <= 6 || 8 <= i <= 9 || 12 <= i <= 14)
    ensures BitSteps(r0, n) == r4
  {
    var r1 := Where((i: int) => 0 <= i <= 1 || i == 3 || 6 <= i <= 9 || i == 15);
    var r2 := Where((i: int) => i == 0 || 2 <= i <= 3 || 5 <= i <= 8 || i == 10 || 14 <= i <= 15);
    var r3 := Where((i: int) => 1 <= i <= 7 || 9 <= i <= 10 || 13 <= i <= 15);
    StepShows(r0, r1);
    StepShows(r1, r2);
    StepShows(r2, r3);
    StepShows(r3, r4);
  }

  lemma Quarter4(n: nat, r0: Register, r4: Register)
    requires n == 4
    requires r0 == Where((i: int) => 0 <= i <= 6 || 8 <= i <= 9 || 12 <= i <= 14)
    requires r4 == Where((i: int) => 3 <= i <= 5 || i == 7 || 12 <= i <= 15)
    ensures BitSteps(r0, n) == r4
  {
    var r1 := Where((i: int) => 0 <= i <= 2 || 4 <= i <= 5 || 7 <= i <= 8 || 10 <= i <= 13 || i == 15);
    var r2 := Where((i: int) => 0 <= i <= 1 || i == 4 || 6 <= i <= 7 || i == 9 || 11 <= i <= 12 || 14 <= i <= 15);
    var r3 := Where((i: int) => i == 0 || 5 <= i <= 6 || i == 8 || i == 11 || 13 <= i <= 15);
    StepShows(r0, r1);
    StepShows(r1, r2);
    StepShows(r2, r3);
    StepShows(r3, r4);
  }

  lemma FourQuarters(n: nat, a: Register, b: Register, c: Register, d: Register, e: Register)
    requires BitSteps(a, n) == b && BitSteps(b, n) == c && BitSteps(c, n) == d && BitSteps(d, n) == e
    ensures BitSteps(a, 4 * n) == e
  {
    StepsSplit(a, n, 3 * n);
    StepsSplit(b, n, 2 * n);
    StepsSplit(c, n, n);
  }

  lemma {:induction false} StepsSplit(crc: Register, m: nat, n: nat)
    ensures BitSteps(crc, m + n) == BitSteps(BitSteps(crc, m), n)
    decreases m
  {
    if m > 0 {
      StepsSplit(BitStep(crc), m - 1, n);
    }
  }

  lemma OnesBecomeResidue(n: nat)
    requires n == 4
    ensures BitSteps(Ones(), 4 * n) == Residue()
  {
    var four := Where((i: int) => 4 <= i <= 6 || 11 <= i <= 15);
    var eight := Where((i: int) => 0 <= i <= 2 || 7 <= i <= 11);
    var twelve := Where((i: int) => 0 <= i <= 6 || 8 <= i <= 9 || 12 <= i <= 14);
    Quarter1(n, Ones(), four);
    Quarter2(n, four, eight);
    Quarter3(n, eight, twelve);
    Quarter4(n, twelve, Residue());
    FourQuarters(n, Ones(), four, eight, twelve, Residue());
  }

  lemma LowResidueBits()
    ensures forall i :: 0 <= i < 8 ==> (ToBits(0xB8, 8)[i] <==> 3 <= i <= 5 || i == 7)
  {
    assert ToBits(0xB8, 8) == [false, false, false, true, true, true, false, true];
  }

  lemma HighResidueBits()
    ensures forall i :: 0 <= i < 8 ==> (ToBits(0xF0, 8)[i] <==> 4 <= i)
  {
    assert ToBits(0xF0, 8) == [false, false, false, false, true, true, true, true];
  }

  lemma ResidueIsF0B8()
    ensures Value(Residue()) == 0xF0B8
  {
    LittleEndianBits(0xB8, 0xF0);
    LowResidueBits();
    HighResidueBits();
    assert ToBits(0xF0B8, 16) == Residue();
    Pow2Of16();
    ValueOfToBits(0xF0B8, 16);
  }

  lemma ComplementIsOnes(s: Register, n: nat)
    requires n == 16
    ensures Feeds(s, Not(s)) == BitSteps(Ones(), n)
  {
    assert Xor(s, Not(s)) == Ones();
    StepsAreFeeds(s, Not(s), n);
    assert Not(s)[..n] == Not(s);
  }

  /** Feeding a register its own complement always leaves the residue, and nothing else does. */
  lemma ComplementLeavesResidue(s: Register, bits: Register, n: nat)
    requires n == 4
    ensures Feeds(s, bits) == Residue() <==> bits == Not(s)
  {
    OnesBecomeResidue(n);
    ComplementIsOnes(s, 4 * n);
    if Feeds(s, bits) == Residue() {
      FeedsInjectiveInBits(s, bits, Not(s));
    }
  }

  lemma {:induction false} MessageBitsAppend(a: seq<byte>, b: seq<byte>)
    ensures MessageBits(a + b) == MessageBits(a) + MessageBits(b)
    decreases a
  {
    if a == [] {
      assert a + b == b;
    } else {
      assert (a + b)[1..] == a[1..] + b;
      MessageBitsAppend(a[1..], b);
    }
  }

  lemma TrailerBits(low: byte, high: byte)
    ensures MessageBits([low, high]) == ToBits(FromLittleEndian(low, high), 16)
  {
    LittleEndianBits(low, high);
    assert [low, high][1..] == [high] && [high][1..] == [];
    assert MessageBits([high]) == ToBits(high, 8) + MessageBits([]);
  }

  lemma ValueInjective(r: Register, t: Register)
    requires Value(r) == Value(t)
    ensures r == t
  {
    ToBitsOfValue(r);
    ToBitsOfValue(t);
  }

  /** A received FCS is the right one exactly when feeding it leaves the residue. */
  lemma TrailerLeavesResidue(s: Register, bits: Register)
    ensures Value(Not(s)) == Value(bits) <==> Value(Feeds(s, bits)) == 0xF0B8
  {
    ComplementLeavesResidue(s, bits, 4);
    ResidueIsF0B8();
    if Value(Not(s)) == Value(bits) {
      ValueInjective(Not(s), bits);
    }
    if Value(Feeds(s, bits)) == 0xF0B8 {
      ValueInjective(Feeds(s, bits), Residue());
    }
  }

  lemma FrameRegister(body: seq<byte>, low: byte, high: byte, bits: Register)
    requires bits == ToBits(FromLittleEndian(low, high), 16)
    ensures Feeds(Ones(), MessageBits(body + [low, high])) == Feeds(Feeds(Ones(), MessageBits(body)), bits)
  {
    MessageBitsAppend(body, [low, high]);
    TrailerBits(low, high);
    FeedsAppend(Ones(), MessageBits(body), bits);
  }

  /** RFC 1662, appendix C.2: the check succeeds exactly when the register ends as 0xF0B8. */
  lemma ChecksIffResidue(frame: seq<byte>)
    requires |frame| >= 2
    ensures Checks(frame) <==> Value(Feeds(Ones(), MessageBits(frame))) == 0xF0B8
  {
    var body, low, high := frame[..|frame| - 2], frame[|frame| - 2], frame[|frame| - 1];
    var bits: Register := ToBits(FromLittleEndian(low, high), 16);
    assert frame == body + [low, high];
    FrameRegister(body, low, high, bits);
    Pow2Of16();
    ValueOfToBits(FromLittleEndian(low, high), 16);
    TrailerLeavesResidue(Feeds(Ones(), MessageBits(body)), bits);
  }

  lemma SameCheckSameRegister(frame: seq<byte>, frame': seq<byte>)
    requires Checks(frame) && Checks(frame')
    ensures Feeds(Ones(), MessageBits(frame)) == Feeds(Ones(), MessageBits(frame'))
  {
    ChecksIffResidue(frame);
    ChecksIffResidue(frame');
    ToBitsOfValue(Feeds(Ones(), MessageBits(frame)));
    ToBitsOfValue(Feeds(Ones(), MessageBits(frame')));
  }

  // ---------- Corruption the check cannot miss ----------

  /** All differences lie within sixteen consecutive message bits, at any bit offset. */
  predicate Burst(m: seq<bool>, m': seq<bool>, start: nat)
    requires |m| == |m'|
  {
    forall i :: 0 <= i < |m| && m[i] != m'[i] ==> start <= i < start + 16
  }

  lemma BurstChangesRegister(s: Register, m: seq<bool>, m': seq<bool>, start: nat)
    requires |m| == |m'| && m != m' && Burst(m, m', start)
    ensures Feeds(s, m) != Feeds(s, m')
  {
    var from := if start <= |m| then start else |m|;
    var to := if start + 16 <= |m| then start + 16 else |m|;
    assert m == m[..from] + (m[from..to] + m[to..]);
    assert m' == m'[..from] + (m'[from..to] + m'[to..]);
    assert m[..from] == m'[..from] && m[to..] == m'[to..];
    var t := Feeds(s, m[..from]);
    FeedsAppend(s, m[..from], m[from..to] + m[to..]);
    FeedsAppend(s, m'[..from], m'[from..to] + m'[to..]);
    FeedsAppend(t, m[from..to], m[to..]);
    FeedsAppend(t, m'[from..to], m'[to..]);
    if Feeds(s, m) == Feeds(s, m') {
      FeedsInjectiveInRegister(Feeds(t, m[from..to]), Feeds(t, m'[from..to]), m[to..]);
      FeedsInjectiveInBits(t, m[from..to], m'[from..to]);
    }
  }

  lemma {:induction false} MessageBitsInjective(a: seq<byte>, b: seq<byte>)
    requires |a| == |b| && MessageBits(a) == MessageBits(b)
    ensures a == b
    decreases |a|
  {
    if a != [] {
      assert MessageBits(a)[..8] == ToBits(a[0], 8) && MessageBits(a)[8..] == MessageBits(a[1..]);
      assert MessageBits(b)[..8] == ToBits(b[0], 8) && MessageBits(b)[8..] == MessageBits(b[1..]);
      assert Pow2(8) == 256;
      ValueOfToBits(a[0], 8);
      ValueOfToBits(b[0], 8);
      MessageBitsInjective(a[1..], b[1..]);
      assert a == [a[0]] + a[1..] && b == [b[0]] + b[1..];
    }
  }

  /** No corruption confined to sixteen consecutive bits of a checked frame passes the check. */
  lemma BurstDetected(frame: seq<byte>, frame': seq<byte>, start: nat)
    requires Checks(frame) && |frame'| == |frame| && frame' != frame
    requires Burst(MessageBits(frame), MessageBits(frame'), start)
    ensures !Checks(frame')
  {
    if Checks(frame') {
      SameCheckSameRegister(frame, frame');
      if MessageBits(frame) == MessageBits(frame') {
        MessageBitsInjective(frame, frame');
      }
      BurstChangesRegister(Ones(), MessageBits(frame), MessageBits(frame'), start);
    }
  }

  lemma {:induction false} MessageBitAt(data: seq<byte>, k: nat, j: nat)
    requires k < |data| && j < 8
    ensures MessageBits(data)[8 * k + j] == ToBits(data[k], 8)[j]
    decreases k
  {
    if k > 0 {
      MessageBitAt(data[1..], k - 1, j);
    }
  }

  /** In particular none that changes only two neighbouring bytes, FCS bytes included. */
  lemma TwoByteCorruptionDetected(frame: seq<byte>, frame': seq<byte>, k: nat)
    requires Checks(frame) && |frame'| == |frame| && frame' != frame
    requires forall i :: 0 <= i < |frame| && frame[i] != frame'[i] ==> i == k || i == k + 1
    ensures !Checks(frame')
  {
    forall i | 0 <= i < 8 * |frame| && MessageBits(frame)[i] != MessageBits(frame')[i]
      ensures 8 * k <= i < 8 * k + 16
    {
      MessageBitAt(frame, i / 8, i % 8);
      MessageBitAt(frame', i / 8, i % 8);
      assert frame[i / 8] != frame'[i / 8];
    }
    BurstDetected(frame, frame', 8 * k);
  }

  // ---------- Parity: the polynomial has an even number of terms ----------

  predicate Odd(bits: seq<bool>) {
    if bits == [] then false else bits[0] != Odd(bits[1..])
  }

  lemma {:induction false} OddAppend(a: seq<bool>, b: seq<bool>)
    ensures Odd(a + b) == (Odd(a) != Odd(b))
  {
    if a == [] {
      assert a + b == b;
    } else {
      assert (a + b)[1..] == a[1..] + b;
      OddAppend(a[1..], b);
    }
  }

  lemma OddOfFlip(s: seq<bool>, k: nat)
    requires k < |s|
    ensures Odd(s[k := !s[k]]) == !Odd(s)
  {
    assert s == s[..k] + ([s[k]] + s[k + 1..]);
    assert s[k := !s[k]] == s[..k] + ([!s[k]] + s[k + 1..]);
    OddAppend(s[..k], [s[k]] + s[k + 1..]);
    OddAppend(s[..k], [!s[k]] + s[k + 1..]);
  }

  /** Each feed changes the parity of the register by the bit fed, whether or not it folds. */
  lemma FeedParity(crc: Register, bit: bool)
    ensures Odd(Feed(crc, bit)) == (Odd(crc) != bit)
  {
    var plain := crc[1..] + [false];
    OddAppend(crc[1..], [false]);
    assert Odd(plain) == (Odd(crc) != crc[0]);
    if crc[0] != bit {
      var p3 := plain[3 := !plain[3]];
      var p10 := p3[10 := !p3[10]];
      var p15 := p10[15 := !p10[15]];
      OddOfFlip(plain, 3);
      OddOfFlip(p3, 10);
      OddOfFlip(p10, 15);
      assert Feed(crc, bit) == p15;
    } else {
      assert Feed(crc, bit) == plain;
    }
  }

  lemma {:induction false} FeedsParity(crc: Register, bits: seq<bool>)
    ensures Odd(Feeds(crc, bits)) == (Odd(crc) != Odd(bits))
    decreases bits
  {
    if bits != [] {
      FeedParity(crc, bits[0]);
      FeedsParity(Feed(crc, bits[0]), bits[1..]);
    }
  }

  lemma {:induction false} OddXor(a: seq<bool>, b: seq<bool>)
    requires |a| == |b|
    ensures Odd(Xor(a, b)) == (Odd(a) != Odd(b))
  {
    if a != [] {
      assert Xor(a, b)[1..] == Xor(a[1..], b[1..]);
      OddXor(a[1..], b[1..]);
    }
  }

  /** No corruption of an odd number of bits passes the check, however far apart they are. */
  lemma OddCorruptionDetected(frame: seq<byte>, frame': seq<byte>)
    requires Checks(frame) && |frame'| == |frame|
    requires Odd(Xor(MessageBits(frame), MessageBits(frame')))
    ensures !Checks(frame')
  {
    if Checks(frame') {
      SameCheckSameRegister(frame, frame');
      OddXor(MessageBits(frame), MessageBits(frame'));
      FeedsParity(Ones(), MessageBits(frame));
      FeedsParity(Ones(), MessageBits(frame'));
    }
  }
}
