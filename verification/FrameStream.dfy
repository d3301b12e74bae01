/** The incremental delimiter parser of rs485.py, and what it makes of any byte stream. */
module FrameStreams {
  import opened Options
  import opened Bits
  import opened Packets

  /** `frame` holds the opening flag and what followed it; `None` while waiting for a flag. */
  datatype Parser = Parser(frame: Option<seq<byte>>, bad: nat)

  const IDLE := Parser(None, 0)

  datatype Fed = Fed(parser: Parser, packets: seq<Packet>)

  function FeedByte(st: Parser, b: byte): Fed {
    if b == FLAG then
      var next := Parser(Some([FLAG]), st.bad);
      if st.frame.None? || |st.frame.value| <= 1 then Fed(next, [])
      else match Decode(st.frame.value + [FLAG])
        case Some(p) => Fed(next, [p])
        case None => Fed(next.(bad := st.bad + 1), [])
    else if st.frame.None? then Fed(st, [])
    else if |st.frame.value| + 1 >= MAX_WIRE then Fed(Parser(None, st.bad + 1), [])
    else Fed(Parser(Some(st.frame.value + [b]), st.bad), [])
  }

  function FeedAll(st: Parser, data: seq<byte>): Fed
    decreases data
  {
    if data == [] then Fed(st, [])
    else
      var one := FeedByte(st, data[0]);
      var rest := FeedAll(one.parser, data[1..]);
      Fed(rest.parser, one.packets + rest.packets)
  }

  class FrameStream {
    var frame: Option<seq<byte>>
    var badFrames: nat

    function State(): Parser
      reads this
    {
      Parser(frame, badFrames)
    }

    constructor ()
      ensures State() == IDLE
    {
      frame := None;
      badFrames := 0;
    }

    /** `feed`: the packets completed by `data`, whatever was fed before. */
    method Feed(data: seq<byte>) returns (packets: seq<Packet>)
      modifies this
      ensures Fed(State(), packets) == FeedAll(old(State()), data)
    {
      hide Packets.Decode;
      packets := [];
      ghost var whole := FeedAll(State(), data);
      assert data[0..] == data;
      for i := 0 to |data|
        invariant whole == Continued(packets, FeedAll(State(), data[i..]))
      {
        var byte := data[i];
        ghost var before, sofar := State(), packets;
        FeedOneMore(before, data, i, sofar);
        if byte == FLAG {
          if frame.Some? && |frame.value| > 1 {
            var decoded := DecodePacket(frame.value + [FLAG]);
            if decoded.Some? {
              packets := packets + [decoded.value];
            } else {
              badFrames := badFrames + 1;
            }
          }
          frame := Some([FLAG]);
        } else if frame.Some? {
          frame := Some(frame.value + [byte]);
          if |frame.value| >= MAX_WIRE {
            badFrames := badFrames + 1;
            frame := None;
          }
        }
        assert State() == FeedByte(before, byte).parser && packets == sofar + FeedByte(before, byte).packets;
      }
      assert packets + [] == packets;
    }
  }

  function Continued(packets: seq<Packet>, rest: Fed): Fed {
    Fed(rest.parser, packets + rest.packets)
  }

  lemma FeedOneMore(st: Parser, data: seq<byte>, i: nat, packets: seq<Packet>)
    requires i < |data|
    ensures var one := FeedByte(st, data[i]);
            Continued(packets, FeedAll(st, data[i..]))
            == Continued(packets + one.packets, FeedAll(one.parser, data[i + 1..]))
  {
    hide Packets.Decode;
    var one := FeedByte(st, data[i]);
    assert data[i..][1..] == data[i + 1..];
    assert packets + (one.packets + FeedAll(one.parser, data[i + 1..]).packets)
        == packets + one.packets + FeedAll(one.parser, data[i + 1..]).packets;
  }

  /** Chunking is invisible. */
  lemma {:induction false} FeedAllAppend(st: Parser, a: seq<byte>, b: seq<byte>)
    ensures FeedAll(st, a + b).parser == FeedAll(FeedAll(st, a).parser, b).parser
    ensures FeedAll(st, a + b).packets == FeedAll(st, a).packets + FeedAll(FeedAll(st, a).parser, b).packets
    decreases a
  {
    hide FeedByte;
    if a == [] {
      assert a + b == b;
    } else {
      assert (a + b)[1..] == a[1..] + b;
      FeedAllAppend(FeedByte(st, a[0]).parser, a[1..], b);
    }
  }

  // ---------- The specification: cut the whole stream at the flags ----------

  /** The stretches between flags; the first and the last are not enclosed by two flags. */
  function Segments(data: seq<byte>): (segments: seq<seq<byte>>)
    ensures segments != []
  {
    if data == [] then [[]]
    else
      var rest := Segments(data[1..]);
      if data[0] == FLAG then [[]] + rest else [[data[0]] + rest[0]] + rest[1..]
  }

  predicate TooLong(segment: seq<byte>) {
    |segment| + 1 >= MAX_WIRE
  }

  function Verdict(segment: seq<byte>): seq<Packet> {
    if segment == [] || TooLong(segment) then []
    else match Decode([FLAG] + segment + [FLAG])
      case Some(p) => [p]
      case None => []
  }

  /** The packets in all segments but the last, which no flag has closed. */
  function Closed(segments: seq<seq<byte>>): seq<Packet> {
    if |segments| <= 1 then [] else Verdict(segments[0]) + Closed(segments[1..])
  }

  /** Bad frames: closed segments that are neither empty nor a packet, and an unclosed one grown too long. */
  function Rejected(segments: seq<seq<byte>>): nat {
    if segments == [] then 0
    else if |segments| == 1 then (if TooLong(segments[0]) then 1 else 0)
    else (if segments[0] != [] && Verdict(segments[0]) == [] then 1 else 0) + Rejected(segments[1..])
  }

  function Attach(pre: seq<byte>, segments: seq<seq<byte>>): seq<seq<byte>>
    requires segments != []
  {
    [pre + segments[0]] + segments[1..]
  }

  lemma AttachNothing(segments: seq<seq<byte>>)
    requires segments != []
    ensures Attach([], segments) == segments
  {
    assert [] + segments[0] == segments[0];
  }

  lemma {:induction false} InsideFrame(pre: seq<byte>, bad: nat, data: seq<byte>)
    requires FLAG !in pre && !TooLong(pre)
    ensures var fed, segments := FeedAll(Parser(Some([FLAG] + pre), bad), data), Attach(pre, Segments(data));
            fed.packets == Closed(segments) && fed.parser.bad == bad + Rejected(segments)
    decreases data
  {
    hide Packets.Decode;
    if data != [] {
      var b, rest := data[0], Segments(data[1..]);
      var st := Parser(Some([FLAG] + pre), bad);
      if b == FLAG {
        var next := FeedByte(st, b).parser;
        assert pre + [] == pre && [FLAG] + [] == [FLAG];
        AttachNothing(rest);
        assert Attach(pre, Segments(data))[1..] == rest;
        InsideFrame([], next.bad, data[1..]);
      } else {
        var longer := pre + [b];
        assert [FLAG] + longer == [FLAG] + pre + [b];
        assert pre + ([b] + rest[0]) == longer + rest[0];
        assert Attach(pre, Segments(data)) == Attach(longer, rest);
        if TooLong(longer) {
          OutsideFrame(bad + 1, data[1..]);
          assert Attach(longer, rest)[1..] == rest[1..];
        } else {
          InsideFrame(longer, bad, data[1..]);
        }
      }
    } else {
      assert pre + [] == pre;
    }
  }

  lemma {:induction false} OutsideFrame(bad: nat, data: seq<byte>)
    ensures var fed := FeedAll(Parser(None, bad), data);
            fed.packets == Closed(Segments(data)[1..]) && fed.parser.bad == bad + Rejected(Segments(data)[1..])
    decreases data
  {
    if data != [] {
      var rest := Segments(data[1..]);
      if data[0] == FLAG {
        AttachNothing(rest);
        assert [FLAG] + [] == [FLAG];
        assert Segments(data)[1..] == rest;
        InsideFrame([], bad, data[1..]);
      } else {
        assert Segments(data)[1..] == rest[1..];
        OutsideFrame(bad, data[1..]);
      }
    }
  }

  /** However the stream is chunked, the parser emits what the split of the whole stream dictates. */
  lemma StreamMeetsSpecification(data: seq<byte>)
    ensures FeedAll(IDLE, data).packets == Closed(Segments(data)[1..])
    ensures FeedAll(IDLE, data).parser.bad == Rejected(Segments(data)[1..])
  {
    OutsideFrame(0, data);
  }

  // ---------- Resynchronisation ----------

  lemma {:induction false} CollectInner(pre: seq<byte>, bad: nat, inner: seq<byte>)
    requires FLAG !in inner && !TooLong(pre + inner)
    ensures FeedAll(Parser(Some([FLAG] + pre), bad), inner) == Fed(Parser(Some([FLAG] + (pre + inner)), bad), [])
    decreases inner
  {
    if inner == [] {
      assert pre + inner == pre;
    } else {
      assert [FLAG] + pre + [inner[0]] == [FLAG] + (pre + [inner[0]]);
      assert pre + [inner[0]] + inner[1..] == pre + inner;
      CollectInner(pre + [inner[0]], bad, inner[1..]);
    }
  }

  /** From every state, after any noise, a legal frame is the last packet emitted and at most one comes before it. */
  lemma Resynchronises(st: Parser, p: Packet)
    requires p.Valid()
    ensures var fed := FeedAll(st, Wire(p));
            fed.packets == FeedByte(st, FLAG).packets + [p] && |fed.packets| <= 2 && fed.parser.frame == Some([FLAG])
  {
    hide Packets.Decode, Packets.Wire;
    WireShape(p);
    var wire := Wire(p);
    var inner := wire[1..|wire| - 1];
    assert wire == [FLAG] + (inner + [FLAG]);
    var started := FeedByte(st, FLAG).parser;
    assert FeedAll(st, [FLAG]) == Fed(started, FeedByte(st, FLAG).packets + []) by {
      assert [FLAG][1..] == [];
    }
    FeedAllAppend(st, [FLAG], inner + [FLAG]);
    FeedAllAppend(started, inner, [FLAG]);
    assert [FLAG] + [] == [FLAG] && [] + inner == inner;
    CollectInner([], started.bad, inner);
    var full := Parser(Some([FLAG] + inner), started.bad);
    assert FeedAll(full, [FLAG]) == Fed(FeedByte(full, FLAG).parser, FeedByte(full, FLAG).packets + []) by {
      assert [FLAG][1..] == [];
    }
    assert [FLAG] + inner + [FLAG] == wire;
  }

  lemma WireShape(p: Packet)
    requires p.Valid()
    ensures var wire := Wire(p);
            |wire| >= 3 && wire[0] == FLAG && wire[|wire| - 1] == FLAG && FLAG !in wire[1..|wire| - 1] &&
            !TooLong(wire[1..|wire| - 1]) && Decode(wire) == Some(p)
  {
    hide Fcs.Fcs16;
    var wire := Wire(p);
    WireLength(p);
    StuffHasNoFlag(WithFcs(Body(p)));
    assert wire[1..|wire| - 1] == Stuff(WithFcs(Body(p)));
    DecodeEncode(p);
  }

  // ---------- Exactly the encodings present in the stream are emitted ----------

  ghost predicate Occurs(w: seq<byte>, data: seq<byte>) {
    exists i :: PartAt(data, i, w)
  }

  predicate PartAt(data: seq<byte>, i: int, w: seq<byte>) {
    0 <= i <= |data| - |w| && data[i..i + |w|] == w
  }

  ghost predicate EndsWith(data: seq<byte>, tail: seq<byte>) {
    |tail| <= |data| && data[|data| - |tail|..] == tail
  }

  lemma {:induction false} EmittedWasSent(past: seq<byte>, st: Parser, data: seq<byte>)
    requires st.frame.Some? ==> EndsWith(past, st.frame.value)
    ensures forall p :: p in FeedAll(st, data).packets ==> p.Valid() && Occurs(Wire(p), past + data)
    decreases data
  {
    hide Packets.Decode, Packets.Wire;
    if data != [] {
      var b, one := data[0], FeedByte(st, data[0]);
      var past' := past + [b];
      assert past + data == past' + data[1..];
      EmittedWasSent(past', one.parser, data[1..]);
      forall p | p in one.packets ensures p.Valid() && Occurs(Wire(p), past + data) {
        var w := st.frame.value + [FLAG];
        CodecBijection(p, w);
        var i := |past'| - |w|;
        assert past'[i..] == w;
        assert PartAt(past + data, i, w);
      }
    }
  }

  /** A legal frame on a quiet line is one packet. */
  lemma OneFrame(p: Packet)
    requires p.Valid()
    ensures FeedAll(IDLE, Wire(p)).packets == [p]
  {
    Resynchronises(IDLE, p);
  }

  /** A packet is emitted from a stream if and only if its encoding is a contiguous part of the stream. */
  lemma EmittedIffPresent(data: seq<byte>, p: Packet)
    ensures p in FeedAll(IDLE, data).packets <==> p.Valid() && Occurs(Wire(p), data)
  {
    hide Packets.Decode, Packets.Wire;
    if p in FeedAll(IDLE, data).packets {
      EmittedWasSent([], IDLE, data);
      assert [] + data == data;
    }
    if p.Valid() && Occurs(Wire(p), data) {
      var w := Wire(p);
      var i :| PartAt(data, i, w);
      assert data == data[..i] + (w + data[i + |w|..]);
      FeedAllAppend(IDLE, data[..i], w + data[i + |w|..]);
      var st := FeedAll(IDLE, data[..i]).parser;
      FeedAllAppend(st, w, data[i + |w|..]);
      Resynchronises(st, p);
    }
  }
}
