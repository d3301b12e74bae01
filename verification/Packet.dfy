/** The packet codec of rs485.py: header, payload and FCS, byte-stuffed between two flags
    (RFC 1662, sections 3.1 and 4.2). Every ValueError of the source is `None` here. */
module Packets {
  import opened Options
  import opened Bits
  import opened Fcs

  const FLAG: byte := 0x7E
  const ESC: byte := 0x7D
  const VERSION: byte := 2
  const REQUEST: int := 1
  const RESPONSE: int := 2
  const CONTROL_REQUEST: int := 3
  const CONTROL_RESPONSE: int := 4
  const HEADER_SIZE: nat := 8
  const MAX_PAYLOAD: nat := 32
  const MAX_BODY: nat := HEADER_SIZE + MAX_PAYLOAD + 2
  const MAX_WIRE: nat := 2 + 2 * MAX_BODY

  datatype Packet = Packet(kind: int, roc: int, transaction: int, command: int, payload: seq<byte>)
  {
    /** What `encode` insists on. */
    predicate Valid() {
      KnownKind(kind) && 0 <= roc <= 511 && 0 <= transaction <= 65535 && 0 <= command <= 255 &&
      |payload| <= MAX_PAYLOAD
    }
  }

  predicate KnownKind(kind: int) {
    kind == REQUEST || kind == RESPONSE || kind == CONTROL_REQUEST || kind == CONTROL_RESPONSE
  }

  // ---------- Stuffing ----------

  function ToggleSixthBit(b: byte): byte {
    if b / 0x20 % 2 == 1 then b - 0x20 else b + 0x20
  }

  function Stuff(data: seq<byte>): seq<byte> {
    if data == [] then []
    else (if data[0] == FLAG || data[0] == ESC then [ESC, ToggleSixthBit(data[0])] else [data[0]])
         + Stuff(data[1..])
  }

  function Framed(data: seq<byte>): seq<byte> {
    [FLAG] + Stuff(data) + [FLAG]
  }

  function Cons(b: byte, rest: Option<seq<byte>>): Option<seq<byte>> {
    if rest.None? then None else Some([b] + rest.value)
  }

  /** What lies between two flags, unstuffed; `escaped` says whether an escape was read last. */
  function Unstuff(escaped: bool, inner: seq<byte>): Option<seq<byte>>
    decreases inner
  {
    if inner == [] then (if escaped then None else Some([]))
    else if inner[0] == FLAG then None
    else if escaped then
      if inner[0] == 0x5D || inner[0] == 0x5E then Cons(ToggleSixthBit(inner[0]), Unstuff(false, inner[1..]))
      else None
    else if inner[0] == ESC then Unstuff(true, inner[1..])
    else Cons(inner[0], Unstuff(false, inner[1..]))
  }

  // ---------- Header, payload and FCS ----------

  function Body(p: Packet): (body: seq<byte>)
    requires p.Valid()
    ensures |body| == HEADER_SIZE + |p.payload|
  {
    [VERSION, p.kind, p.roc % 256, p.roc / 256, p.transaction % 256, p.transaction / 256, p.command, |p.payload|]
    + p.payload
  }

  function WithTrailer(body: seq<byte>, fcs: nat): (frame: seq<byte>)
    requires fcs < 0x1_0000
    ensures |frame| == |body| + 2
  {
    body + [fcs % 256, fcs / 256]
  }

  function WithFcs(body: seq<byte>): seq<byte> {
    WithTrailer(body, Fcs16(body))
  }

  function Wire(p: Packet): seq<byte>
    requires p.Valid()
  {
    Framed(WithFcs(Body(p)))
  }

  function Encode(p: Packet): Option<seq<byte>> {
    if p.Valid() then Some(Wire(p)) else None
  }

  /** `HEADER.unpack` and the payload between header and FCS. */
  function Fields(frame: seq<byte>): Packet
    requires |frame| >= HEADER_SIZE + 2
  {
    Packet(frame[1], FromLittleEndian(frame[2], frame[3]), FromLittleEndian(frame[4], frame[5]),
           frame[6], frame[HEADER_SIZE..|frame| - 2])
  }

  function Parse(frame: seq<byte>): Option<Packet> {
    if |frame| < HEADER_SIZE + 2 then None
    else
      var p := Fields(frame);
      if frame[0] != VERSION || !KnownKind(p.kind) || p.roc > 511 then None
      else if frame[7] > MAX_PAYLOAD || |frame| != HEADER_SIZE + frame[7] + 2 then None
      else if !Checks(frame) then None
      else Some(p)
  }

  function Decode(wire: seq<byte>): Option<Packet> {
    if |wire| < 2 || wire[0] != FLAG || wire[|wire| - 1] != FLAG then None
    else
      var frame := Unstuff(false, wire[1..|wire| - 1]);
      if frame.None? then None else Parse(frame.value)
  }

  // ---------- The source's loops ----------

  /** `frame_bytes`. */
  method FrameBytes(bodyWithFcs: seq<byte>) returns (out: seq<byte>)
    ensures out == Framed(bodyWithFcs)
  {
    out := [FLAG];
    for i := 0 to |bodyWithFcs|
      invariant out + Stuff(bodyWithFcs[i..]) == [FLAG] + Stuff(bodyWithFcs)
    {
      var b := bodyWithFcs[i];
      assert bodyWithFcs[i..][0] == b && bodyWithFcs[i..][1..] == bodyWithFcs[i + 1..];
      if b == FLAG || b == ESC {
        out := out + [ESC, ToggleSixthBit(b)];
      } else {
        out := out + [b];
      }
    }
    assert bodyWithFcs[|bodyWithFcs|..] == [];
    out := out + [FLAG];
  }

  /** `Packet.encode`. */
  method EncodePacket(p: Packet) returns (wire: Option<seq<byte>>)
    ensures wire == Encode(p)
  {
    if !p.Valid() {
      return None;
    }
    var body := Body(p);
    var fcs := ComputeFcs16(body);
    var framed := FrameBytes(WithTrailer(body, fcs));
    return Some(framed);
  }

  function Prepend(body: seq<byte>, rest: Option<seq<byte>>): Option<seq<byte>> {
    if rest.None? then None else Some(body + rest.value)
  }

  lemma PrependCons(body: seq<byte>, b: byte, rest: Option<seq<byte>>)
    ensures Prepend(body, Cons(b, rest)) == Prepend(body + [b], rest)
  {
    if rest.Some? {
      assert body + ([b] + rest.value) == (body + [b]) + rest.value;
    }
  }

  lemma PrependNothing(rest: Option<seq<byte>>)
    ensures Prepend([], rest) == rest
  {
    if rest.Some? {
      assert [] + rest.value == rest.value;
    }
  }

  /** The byte loop of `decode`. It gives up as soon as the body is longer than any packet. */
  method UnstuffBytes(inner: seq<byte>) returns (r: Option<seq<byte>>)
    ensures r.Some? ==> r == Unstuff(false, inner)
    ensures r.None? ==> Unstuff(false, inner).Some? ==> |Unstuff(false, inner).value| > MAX_BODY
  {
    var body: seq<byte>, escaped := [], false;
    assert inner[0..] == inner;
    PrependNothing(Unstuff(false, inner));
    for i := 0 to |inner|
      invariant Unstuff(false, inner) == Prepend(body, Unstuff(escaped, inner[i..]))
    {
      var b := inner[i];
      ghost var rest := inner[i..];
      assert rest[0] == b && rest[1..] == inner[i + 1..];
      if b == FLAG {
        return None;
      }
      if escaped {
        if b != 0x5D && b != 0x5E {
          return None;
        }
        PrependCons(body, ToggleSixthBit(b), Unstuff(false, rest[1..]));
        body := body + [ToggleSixthBit(b)];
        escaped := false;
      } else if b == ESC {
        escaped := true;
      } else {
        PrependCons(body, b, Unstuff(false, rest[1..]));
        body := body + [b];
      }
      if |body| > MAX_BODY {
        return None;
      }
    }
    assert inner[|inner|..] == [] && body + [] == body;
    r := if escaped then None else Some(body);
  }

  lemma OversizedNeverParses(frame: seq<byte>)
    requires |frame| > MAX_BODY
    ensures Parse(frame) == None
  {}

  /** `Packet.decode`. Giving up early on a long body rejects nothing that could have been accepted. */
  method DecodePacket(wire: seq<byte>) returns (packet: Option<Packet>)
    ensures packet == Decode(wire)
  {
    if |wire| < 2 || wire[0] != FLAG || wire[|wire| - 1] != FLAG {
      return None;
    }
    ghost var unstuffed := Unstuff(false, wire[1..|wire| - 1]);
    var body := UnstuffBytes(wire[1..|wire| - 1]);
    if body.None? {
      if unstuffed.Some? {
        OversizedNeverParses(unstuffed.value);
      }
      return None;
    }
    packet := ParseFrame(body.value);
  }

  /** What `decode` does after its byte loop. */
  method ParseFrame(body: seq<byte>) returns (packet: Option<Packet>)
    ensures packet == Parse(body)
  {
    if |body| < HEADER_SIZE + 2 {
      return None;
    }
    var p := Fields(body);
    if body[0] != VERSION || !KnownKind(p.kind) || p.roc > 511 {
      return None;
    }
    if body[7] > MAX_PAYLOAD || |body| != HEADER_SIZE + body[7] + 2 {
      return None;
    }
    var good := FcsMatches(body);
    return if good then Some(p) else None;
  }

  method FcsMatches(frame: seq<byte>) returns (good: bool)
    requires |frame| >= 2
    ensures good == Checks(frame)
  {
    var fcs := ComputeFcs16(frame[..|frame| - 2]);
    good := fcs == FromLittleEndian(frame[|frame| - 2], frame[|frame| - 1]);
  }

  // ---------- Stuffing is a bijection onto the flag-free, properly escaped strings ----------

  lemma {:induction false} UnstuffStuff(data: seq<byte>)
    ensures Unstuff(false, Stuff(data)) == Some(data)
  {
    if data != [] {
      var b, rest := data[0], Stuff(data[1..]);
      UnstuffStuff(data[1..]);
      assert data == [b] + data[1..];
      if b == FLAG || b == ESC {
        var t := ToggleSixthBit(b);
        assert Stuff(data)[1..] == [t] + rest;
        assert ([t] + rest)[1..] == rest;
      } else {
        assert Stuff(data)[1..] == rest;
      }
    }
  }

  lemma {:induction false} StuffUnstuff(escaped: bool, inner: seq<byte>)
    requires Unstuff(escaped, inner).Some?
    ensures Stuff(Unstuff(escaped, inner).value) == (if escaped then [ESC] else []) + inner
    decreases inner
  {
    if inner != [] {
      var tail := inner[1..];
      assert inner == [inner[0]] + tail;
      if escaped {
        StuffUnstuff(false, tail);
        var data := Unstuff(false, tail).value;
        assert ([ToggleSixthBit(inner[0])] + data)[1..] == data;
      } else if inner[0] == ESC {
        StuffUnstuff(true, tail);
      } else {
        StuffUnstuff(false, tail);
        var data := Unstuff(false, tail).value;
        assert ([inner[0]] + data)[1..] == data;
      }
    }
  }

  lemma {:induction false} StuffHasNoFlag(data: seq<byte>)
    ensures FLAG !in Stuff(data)
    ensures |data| <= |Stuff(data)| <= 2 * |data|
  {
    if data != [] {
      StuffHasNoFlag(data[1..]);
    }
  }

  // ---------- The frame between the flags ----------

  lemma TrailerChecks(body: seq<byte>)
    ensures Checks(WithFcs(body))
  {
    var frame := WithFcs(body);
    assert frame[..|frame| - 2] == body;
  }

  lemma CheckedIsTrailed(frame: seq<byte>)
    requires Checks(frame)
    ensures frame == WithFcs(frame[..|frame| - 2])
  {
    var low, high := frame[|frame| - 2], frame[|frame| - 1];
    assert FromLittleEndian(low, high) % 256 == low && FromLittleEndian(low, high) / 256 == high;
  }

  lemma ParseOfBody(p: Packet)
    requires p.Valid()
    ensures Parse(WithFcs(Body(p))) == Some(p)
  {
    var frame := WithFcs(Body(p));
    TrailerChecks(Body(p));
    assert frame[HEADER_SIZE..|frame| - 2] == p.payload;
    assert Fields(frame) == p;
  }

  lemma BodyOfParse(frame: seq<byte>)
    requires Parse(frame).Some?
    ensures Parse(frame).value.Valid() && WithFcs(Body(Parse(frame).value)) == frame
  {
    CheckedIsTrailed(frame);
    BodyOfFields(frame);
  }

  lemma BodyOfFields(frame: seq<byte>)
    requires |frame| >= HEADER_SIZE + 2 && Fields(frame).Valid()
    requires frame[0] == VERSION && |frame| == HEADER_SIZE + frame[7] + 2
    ensures Body(Fields(frame)) == frame[..|frame| - 2]
  {
    var p, body := Fields(frame), frame[..|frame| - 2];
    assert body == body[..HEADER_SIZE] + p.payload;
  }

  // ---------- The codec ----------

  lemma DecodeEncode(p: Packet)
    requires p.Valid()
    ensures Decode(Wire(p)) == Some(p)
  {
    var frame, wire := WithFcs(Body(p)), Wire(p);
    assert wire[1..|wire| - 1] == Stuff(frame);
    UnstuffStuff(frame);
    ParseOfBody(p);
  }

  /** What is on the wire for a packet, unstuffed: version 2, the kind, the panel, the transaction and the command, the
      two wider ones low byte first, the length and the payload; then the checksum, so that the whole checks. */
  lemma WireLayout(p: Packet)
    requires p.Valid()
    ensures var wire := Wire(p);
      |wire| >= 2 && wire[0] == 0x7E && wire[|wire| - 1] == 0x7E &&
      var frame := Unstuff(false, wire[1..|wire| - 1]);
      frame.Some? &&
      var f := frame.value;
      |f| == 10 + |p.payload| && f[0] == 2 && f[1] == p.kind && f[2] + 0x100 * f[3] as int == p.roc &&
      f[4] + 0x100 * f[5] as int == p.transaction && f[6] == p.command && f[7] == |p.payload| &&
      f[8..|f| - 2] == p.payload && Checks(f)
  {
    var body := Body(p);
    var frame := WithFcs(body);
    assert Wire(p)[1..|Wire(p)| - 1] == Stuff(frame);
    UnstuffStuff(frame);
    TrailerChecks(body);
    hide Fcs16, Stuff, Unstuff, Checks;
  }

  lemma EncodeDecode(wire: seq<byte>)
    requires Decode(wire).Some?
    ensures Encode(Decode(wire).value) == Some(wire)
  {
    hide Fcs16;
    var inner := wire[1..|wire| - 1];
    var frame := Unstuff(false, inner).value;
    StuffUnstuff(false, inner);
    BodyOfParse(frame);
    assert Stuff(frame) == inner;
    assert wire == [FLAG] + inner + [FLAG];
  }

  /** Decoding and encoding undo each other: every packet has one wire form, and only that one is accepted. */
  lemma CodecBijection(p: Packet, wire: seq<byte>)
    ensures Decode(wire) == Some(p) <==> Encode(p) == Some(wire)
  {
    if p.Valid() {
      DecodeEncode(p);
    }
    if Decode(wire).Some? {
      EncodeDecode(wire);
    }
  }

  /** No legal frame reaches the length at which the stream parser gives up on one. */
  lemma WireLength(p: Packet)
    requires p.Valid()
    ensures 2 + HEADER_SIZE + 2 <= |Wire(p)| <= MAX_WIRE
  {
    StuffHasNoFlag(WithFcs(Body(p)));
  }

  /** Corruption of a legal frame, under the stuffing, that the receiver always rejects. */
  lemma CorruptionRejected(p: Packet, frame': seq<byte>, start: nat)
    requires p.Valid() && |frame'| == |WithFcs(Body(p))| && frame' != WithFcs(Body(p))
    requires var m, m' := MessageBits(WithFcs(Body(p))), MessageBits(frame');
             Burst(m, m', start) || Odd(Xor(m, m'))
    ensures Decode(Framed(frame')) == None
  {
    hide Fcs16;
    var frame := WithFcs(Body(p));
    TrailerChecks(Body(p));
    if Burst(MessageBits(frame), MessageBits(frame'), start) {
      BurstDetected(frame, frame', start);
    } else {
      OddCorruptionDetected(frame, frame');
    }
    UnstuffStuff(frame');
    assert Framed(frame')[1..|Framed(frame')| - 1] == Stuff(frame');
  }
}
