/** The Python side of the LVHV protocol (common/lvhv_protocol.py). */
module LvhvPython {
  import opened Bits
  import opened Options
  import opened LvhvWire

  // ---------- Encoding and decoding whole messages ----------

  /** `struct.pack` only produces elements of the right width; unknown codes are not packed. */
  predicate Packable(b: Block) {
    Width(b.kind) > 0 ==> b.Typed()
  }

  method EncodeBlock(b: Block) returns (r: Option<seq<byte>>)
    requires Packable(b)
    ensures r.Some? <==> Width(b.kind) > 0 && b.Size() <= MAX_MESSAGE_BYTES
    ensures r.Some? ==> |b.values| < 0x1_0000_0000 && r.value == BlockBytes(b)
  {
    if Width(b.kind) == 0 {
      return None;
    }
    var count := |b.values|;
    DivisionBound(count, Width(b.kind), MAX_MESSAGE_BYTES - COUNT_BYTES - 1);
    if count > (MAX_MESSAGE_BYTES - COUNT_BYTES - 1) / Width(b.kind) {
      return None;
    }
    return Some([b.kind] + Count(count) + Joined(b.values));
  }

  /** `encode_message`: the size test counts known types only; an unknown one fails on its own. */
  method EncodeMessage(blocks: seq<Block>) returns (r: Option<seq<byte>>)
    requires forall i :: 0 <= i < |blocks| ==> Packable(blocks[i])
    ensures r.Some? <==> Encodable(blocks)
    ensures r.Some? ==> r.value == Encode(blocks)
  {
    hide BlockBytes, Width;
    if !(1 <= |blocks| <= MAX_BLOCKS) {
      return None;
    }
    var size := COUNT_BYTES;
    for i := 0 to |blocks|
      invariant AllTyped(blocks[..i]) ==> size + Sizes(blocks[i..]) == COUNT_BYTES + Sizes(blocks)
    {
      assert blocks[i..][1..] == blocks[i + 1..] && blocks[..i + 1] == blocks[..i] + [blocks[i]];
      assert AllTyped(blocks[..i + 1]) ==> AllTyped(blocks[..i]) && blocks[..i + 1][i].Typed();
      if Width(blocks[i].kind) > 0 {
        size := size + blocks[i].Size();
      }
    }
    assert blocks[..|blocks|] == blocks;
    if size > MAX_MESSAGE_BYTES {
      return None;
    }
    var out: seq<byte> := [];
    for i := 0 to |blocks|
      invariant AllTyped(blocks[..i])
      invariant forall k :: 0 <= k < i ==> |blocks[k].values| < 0x1_0000_0000
      invariant out == AllBytes(blocks[..i])
    {
      var bytes := EncodeBlock(blocks[i]);
      assert blocks[..i + 1] == blocks[..i] + [blocks[i]];
      if bytes.None? {
        if AllTyped(blocks) {
          SizeBound(blocks, i);
        }
        return None;
      }
      AllBytesAppend(blocks[..i], blocks[i]);
      out := out + bytes.value;
    }
    return Some(Count(|blocks|) + out);
  }

  lemma {:induction false} SizeBound(blocks: seq<Block>, i: nat)
    requires i < |blocks|
    ensures blocks[i].Size() <= Sizes(blocks)
  {
    if i > 0 {
      SizeBound(blocks[1..], i - 1);
    }
  }

  lemma {:induction false} AllBytesAppend(blocks: seq<Block>, b: Block)
    requires forall k :: 0 <= k < |blocks| ==> |blocks[k].values| < 0x1_0000_0000
    requires |b.values| < 0x1_0000_0000
    ensures AllBytes(blocks + [b]) == AllBytes(blocks) + BlockBytes(b)
  {
    hide BlockBytes;
    if blocks == [] {
      assert blocks + [b] == [b] && [b][1..] == [];
    } else {
      assert (blocks + [b])[1..] == blocks[1..] + [b];
      AllBytesAppend(blocks[1..], b);
    }
  }

  function PrependBlocks(blocks: seq<Block>, rest: Option<seq<Block>>): Option<seq<Block>> {
    if rest.None? then None else Some(blocks + rest.value)
  }

  lemma PrependNone(rest: Option<seq<Block>>)
    ensures PrependBlocks([], rest) == rest
  {
    if rest.Some? {
      assert [] + rest.value == rest.value;
    }
  }

  lemma BlocksOneMore(blocks: seq<Block>, data: seq<byte>, n: nat)
    requires n > 0 && FirstBlock(data).Some?
    ensures var b := FirstBlock(data).value;
            PrependBlocks(blocks, Blocks(data, n)) == PrependBlocks(blocks + [b], Blocks(data[b.Size()..], n - 1))
  {
    hide FirstBlock;
    var b := FirstBlock(data).value;
    var rest := Blocks(data[b.Size()..], n - 1);
    if rest.Some? {
      assert blocks + ([b] + rest.value) == (blocks + [b]) + rest.value;
    }
  }

  /** One pass of the loop of `decode_message`. */
  method DecodeBlock(data: seq<byte>, start: nat) returns (r: Option<Block>, offset: nat)
    requires start <= |data|
    ensures r == FirstBlock(data[start..])
    ensures r.Some? ==> start <= offset <= |data| && offset == start + r.value.Size()
  {
    ghost var d := data[start..];
    offset := start;
    if offset + 1 + COUNT_BYTES > |data| {
      return None, offset;
    }
    var kind := data[offset];
    if Width(kind) == 0 {
      return None, offset;
    }
    var elements := CountOf(data[offset + 1..]);
    assert d[1..] == data[start + 1..];
    hide CountOf, Width;
    offset := offset + 1 + COUNT_BYTES;
    var size := elements * Width(kind);
    if size > |data| - offset {
      return None, offset;
    }
    assert data[offset..offset + size] == d[HEADER_BYTES..Announced(d)];
    r := Some(Block(kind, Cut(data[offset..offset + size], Width(kind))));
    offset := offset + size;
  }

  /** `decode_message`. */
  method DecodeMessage(data: seq<byte>, maxBlocks: int, maxBytes: int) returns (r: Option<seq<Block>>)
    ensures r == Decode(data, maxBlocks, maxBytes)
  {
    hide FirstBlock, CountOf;
    if !(COUNT_BYTES <= |data| <= maxBytes) {
      return None;
    }
    var count := CountOf(data);
    if !(1 <= count <= Min(maxBlocks, MAX_BLOCKS)) {
      return None;
    }
    var offset: nat, blocks := COUNT_BYTES, [];
    PrependNone(Blocks(data[offset..], count));
    for i := 0 to count
      invariant offset <= |data|
      invariant PrependBlocks(blocks, Blocks(data[offset..], count - i)) == Blocks(data[COUNT_BYTES..], count)
    {
      var block, next := DecodeBlock(data, offset);
      if block.None? {
        return None;
      }
      BlocksOneMore(blocks, data[offset..], count - i);
      assert data[offset..][block.value.Size()..] == data[next..];
      blocks := blocks + [block.value];
      offset := next;
    }
    if offset != |data| {
      return None;
    }
    assert blocks + [] == blocks;
    return Some(blocks);
  }

  // ---------- Receiving from a stream ----------

  /** What is still to come until the peer closes. How it is cut into pieces is up to the network, and so is when
      a deadline passes or something fails, which `failed` records. `patience` bounds the waits before it does. */
  class Socket {
    var input: seq<byte>
    var patience: nat
    ghost var failed: bool

    /** Whether the deadline has passed. */
    method Late() returns (late: bool)
      modifies `failed
      ensures failed == (old(failed) || late)
    {
      late := *;
      failed := failed || late;
    }

    /** `recv`: at least one byte unless the peer has closed. */
    method Recv(most: nat) returns (part: seq<byte>)
      requires most > 0
      modifies `input
      ensures old(input) == part + input && |part| <= most
      ensures part == [] <==> old(input) == []
    {
      var k: int := *;
      var n := if 0 < k then k else 1;
      n := Min(Min(n, most), |input|);
      part := input[..n];
      input := input[n..];
    }
  }

  /** Bytes received, or EOFError, TimeoutError, ValueError. */
  datatype Read = Bytes(data: seq<byte>) | Eof | TimedOut | BadData

  /** `recv_exact`; `n` bytes were taken from the stream. */
  method RecvExact(sock: Socket, size: nat) returns (r: Read, ghost n: nat)
    modifies sock
    ensures n <= Min(size, |old(sock.input)|) && sock.input == old(sock.input)[n..]
    ensures r.Bytes? ==> n == size && r.data == old(sock.input)[..size]
    ensures r.Eof? ==> |old(sock.input)| < size
    ensures r != BadData && (r.TimedOut? ==> sock.failed)
  {
    var chunks: seq<byte>, remaining: nat := [], size;
    n := 0;
    while remaining > 0
      invariant n + remaining == size && n <= |old(sock.input)|
      invariant chunks == old(sock.input)[..n] && sock.input == old(sock.input)[n..]
    {
      var late := sock.Late();
      if late {
        return TimedOut, n;
      }
      var part := sock.Recv(Min(65536, remaining));
      if part == [] {
        return Eof, n;
      }
      chunks := chunks + part;
      remaining := remaining - |part|;
      n := n + |part|;
    }
    return Bytes(chunks), n;
  }

  /** What a receiver makes of a stream: the blocks and how many bytes they took, or why it stopped. */
  datatype Received = Accepted(blocks: seq<Block>, used: nat) | Refused | Ended

  predicate TooMany(elements: nat, maxElements: Option<nat>) {
    maxElements.Some? && elements > maxElements.value
  }

  function ReceiveBlock(input: seq<byte>, budget: int, maxElements: Option<nat>): (r: Received)
    ensures r.Accepted? ==> |r.blocks| == 1 && FirstBlock(input) == Some(r.blocks[0]) &&
                            r.used == r.blocks[0].Size() <= Min(budget, |input|)
  {
    if budget < HEADER_BYTES then Refused
    else if |input| < HEADER_BYTES then Ended
    else if Width(input[0]) == 0 || TooMany(CountOf(input[1..]), maxElements) || Announced(input) > budget then Refused
    else match FirstBlock(input)
      case None => Ended
      case Some(b) => Accepted([b], b.Size())
  }

  function ReceiveBlocks(input: seq<byte>, n: nat, budget: int, maxElements: Option<nat>): (r: Received)
    ensures r.Accepted? ==> r.used <= |input| && (n > 0 ==> r.used <= budget)
    decreases n
  {
    if n == 0 then Accepted([], 0)
    else
      var first := ReceiveBlock(input, budget, maxElements);
      if !first.Accepted? then first
      else
        var rest := ReceiveBlocks(input[first.used..], n - 1, budget - first.used, maxElements);
        if !rest.Accepted? then rest else Accepted(first.blocks + rest.blocks, first.used + rest.used)
  }

  function Receive(input: seq<byte>, maxBlocks: int, maxBytes: int, maxElements: Option<nat>): Received {
    if |input| < COUNT_BYTES then Ended
    else if !(1 <= CountOf(input) <= Min(maxBlocks, MAX_BLOCKS)) then Refused
    else
      var r := ReceiveBlocks(input[COUNT_BYTES..], CountOf(input),
                             Min(maxBytes, MAX_MESSAGE_BYTES) - COUNT_BYTES, maxElements);
      if r.Accepted? then Accepted(r.blocks, COUNT_BYTES + r.used) else r
  }

  datatype Reply = Got(blocks: seq<Block>) | Bad | Closed | Late

  predicate Reports(reply: Reply, r: Received) {
    match r
    case Accepted(blocks, _) => reply == Got(blocks)
    case Refused => reply == Bad
    case Ended => reply == Closed
  }

  predicate Follows(r: Read, spec: Received) {
    match spec
    case Accepted(_, _) => r.Bytes?
    case Refused => r == BadData
    case Ended => r == Eof
  }

  /** `recv_block`. Nothing of the block's payload is read unless all of it fits the budget. */
  method RecvBlock(sock: Socket, budget: int, maxElements: Option<nat>) returns (r: Read, ghost n: nat)
    modifies sock
    ensures n <= |old(sock.input)| && sock.input == old(sock.input)[n..] && (n > 0 ==> n <= budget)
    ensures if r.TimedOut? then sock.failed else Follows(r, ReceiveBlock(old(sock.input), budget, maxElements))
    ensures r.Bytes? ==>
      n == ReceiveBlock(old(sock.input), budget, maxElements).used && r.data == old(sock.input)[..n]
  {
    hide FirstBlock;
    n := 0;
    ghost var input := sock.input;
    if budget < 1 + COUNT_BYTES {
      return BadData, n;
    }
    var header, taken := RecvExact(sock, 1 + COUNT_BYTES);
    n := taken;
    if !header.Bytes? {
      return header, n;
    }
    var h := header.data;
    assert h[1..] == input[1..HEADER_BYTES];
    var width, elements := Width(h[0]), CountOf(h[1..]);
    assert elements == CountOf(input[1..]);
    assert Announced(input) == HEADER_BYTES + elements * width;
    hide CountOf, Width, Announced;
    if width == 0 {
      return BadData, n;
    }
    if TooMany(elements, maxElements) {
      return BadData, n;
    }
    var size := elements * width;
    if size > budget - |h| {
      return BadData, n;
    }
    var payload, more := RecvExact(sock, size);
    n := n + more;
    assert sock.input == input[n..];
    if !payload.Bytes? {
      return payload, n;
    }
    r := Bytes(h + payload.data);
  }

  function Extend(blocks: seq<Block>, used: nat, rest: Received): Received {
    if rest.Accepted? then Accepted(blocks + rest.blocks, used + rest.used) else rest
  }

  lemma ExtendTwice(blocks: seq<Block>, used: nat, first: Received, rest: Received)
    requires first.Accepted?
    ensures Extend(blocks, used, Extend(first.blocks, first.used, rest))
         == Extend(blocks + first.blocks, used + first.used, rest)
  {
    if rest.Accepted? {
      assert blocks + (first.blocks + rest.blocks) == (blocks + first.blocks) + rest.blocks;
    }
  }

  lemma ReceiveSplit(input: seq<byte>, n: nat, budget: int, maxElements: Option<nat>)
    requires n > 0
    ensures var first := ReceiveBlock(input, budget, maxElements);
            ReceiveBlocks(input, n, budget, maxElements) ==
              if first.Accepted? then
                Extend(first.blocks, first.used,
                       ReceiveBlocks(input[first.used..], n - 1, budget - first.used, maxElements))
              else first
  {
    hide ReceiveBlock, FirstBlock, Announced, Width, CountOf;
  }

  lemma ReceiveOneMore(rest: seq<byte>, used: nat, blocks: seq<Block>, n: nat, budget: int, maxElements: Option<nat>)
    requires n > 0
    ensures var first := ReceiveBlock(rest, budget, maxElements);
            var all := Extend(blocks, used, ReceiveBlocks(rest, n, budget, maxElements));
            if first.Accepted? then
              all == Extend(blocks + first.blocks, used + first.used,
                            ReceiveBlocks(rest[first.used..], n - 1, budget - first.used, maxElements))
            else all == first
  {
    hide ReceiveBlock, ReceiveBlocks, FirstBlock, Announced, Width, CountOf;
    var first := ReceiveBlock(rest, budget, maxElements);
    ReceiveSplit(rest, n, budget, maxElements);
    if first.Accepted? {
      ExtendTwice(blocks, used, first,
                  ReceiveBlocks(rest[first.used..], n - 1, budget - first.used, maxElements));
    }
  }

  /** The loop of `recv_message`: `n` bytes taken, all within the budget. */
  method RecvBlocks(sock: Socket, count: nat, budget: int, maxElements: Option<nat>) returns (r: Read, ghost n: nat)
    modifies sock
    ensures n <= |old(sock.input)| && sock.input == old(sock.input)[n..] && (n > 0 ==> n <= budget)
    ensures if r.TimedOut? then sock.failed else Follows(r, ReceiveBlocks(old(sock.input), count, budget, maxElements))
    ensures r.Bytes? ==>
      n == ReceiveBlocks(old(sock.input), count, budget, maxElements).used && r.data == old(sock.input)[..n]
  {
    hide ReceiveBlock, FirstBlock, ReceiveBlocks, Announced, CountOf, Block.Size, Block.Typed, Extend;
    ghost var input := sock.input;
    ghost var whole := ReceiveBlocks(input, count, budget, maxElements);
    ghost var blocks: seq<Block>, left := [], count;
    var raw: seq<byte>, room := [], budget;
    n := 0;
    ExtendNothing(whole);
    for i := 0 to count
      invariant n <= |input| && sock.input == input[n..] && raw == input[..n]
      invariant left == count - i && room == budget - n && (n > 0 ==> 0 <= room)
      invariant whole == Extend(blocks, n, ReceiveBlocks(sock.input, left, room, maxElements))
    {
      ReceiveOneMore(sock.input, n, blocks, left, room, maxElements);
      ghost var first := ReceiveBlock(sock.input, room, maxElements);
      var block, more := RecvBlock(sock, room, maxElements);
      TwoPieces(input, n, more);
      if !block.Bytes? {
        return block, n + more;
      }
      blocks, left := blocks + first.blocks, left - 1;
      raw, room := raw + block.data, room - |block.data|;
      n := n + more;
    }
    ReceiveNone(sock.input, room, maxElements);
    ExtendByNothing(blocks, n);
    return Bytes(raw), n;
  }

  lemma TwoPieces(input: seq<byte>, n: nat, more: nat)
    requires n <= |input| && more <= |input[n..]|
    ensures input[n..][more..] == input[n + more..]
    ensures input[..n] + input[n..][..more] == input[..n + more]
  {}

  lemma ExtendByNothing(blocks: seq<Block>, used: nat)
    ensures Extend(blocks, used, Accepted([], 0)) == Accepted(blocks, used)
  {
    assert blocks + [] == blocks;
  }

  lemma ReceiveNone(input: seq<byte>, budget: int, maxElements: Option<nat>)
    ensures ReceiveBlocks(input, 0, budget, maxElements) == Accepted([], 0)
  {}

  /** `recv_message`: at most the byte budget is read, and never less than the count prefix asked for. */
  method RecvMessage(sock: Socket, maxBlocks: int, maxBytes: int, maxElements: Option<nat>)
    returns (reply: Reply, ghost n: nat)
    modifies sock
    ensures n <= |old(sock.input)| && sock.input == old(sock.input)[n..]
    ensures n <= COUNT_BYTES || n <= Min(maxBytes, MAX_MESSAGE_BYTES)
    ensures if reply.Late? then sock.failed else Reports(reply, Receive(old(sock.input), maxBlocks, maxBytes, maxElements))
    ensures reply.Got? ==> n == Receive(old(sock.input), maxBlocks, maxBytes, maxElements).used
  {
    hide ReceiveBlocks, Decode;
    ghost var input := sock.input;
    var prefix, taken := RecvExact(sock, COUNT_BYTES);
    n := taken;
    if !prefix.Bytes? {
      return if prefix.Eof? then Closed else Late, n;
    }
    var count := CountOf(prefix.data);
    assert count == CountOf(input);
    hide CountOf;
    if !(1 <= count <= Min(maxBlocks, MAX_BLOCKS)) {
      return Bad, n;
    }
    var rest, more := RecvBlocks(sock, count, Min(maxBytes, MAX_MESSAGE_BYTES) - COUNT_BYTES, maxElements);
    n := n + more;
    assert sock.input == input[n..];
    if !rest.Bytes? {
      return if rest.Eof? then Closed else if rest.BadData? then Bad else Late, n;
    }
    ReceivedDecodes(input, maxBlocks, maxBytes, maxElements);
    assert prefix.data + rest.data == input[..n];
    var decoded := DecodeMessage(prefix.data + rest.data, maxBlocks, maxBytes);
    return if decoded.Some? then Got(decoded.value) else Bad, n;
  }

  lemma ExtendNothing(r: Received)
    ensures Extend([], 0, r) == r
  {
    if r.Accepted? {
      assert [] + r.blocks == r.blocks;
    }
  }

  lemma {:induction false} ReceivedBlocksParse(input: seq<byte>, n: nat, budget: int, maxElements: Option<nat>)
    requires ReceiveBlocks(input, n, budget, maxElements).Accepted?
    ensures var r := ReceiveBlocks(input, n, budget, maxElements); Blocks(input[..r.used], n) == Some(r.blocks)
    decreases n
  {
    hide ReceiveBlock, FirstBlock;
    if n > 0 {
      var r := ReceiveBlocks(input, n, budget, maxElements);
      var first := ReceiveBlock(input, budget, maxElements);
      var tail := input[first.used..];
      var rest := ReceiveBlocks(tail, n - 1, budget - first.used, maxElements);
      var part := input[..r.used];
      ReceivedBlocksParse(tail, n - 1, budget - first.used, maxElements);
      FirstBlockLocal(input, part);
      assert part[first.used..] == tail[..rest.used];
      assert first.blocks == [first.blocks[0]];
      assert Blocks(part, n) == Some([first.blocks[0]] + rest.blocks);
    }
  }

  lemma FirstBlockLocal(data: seq<byte>, part: seq<byte>)
    requires part <= data && FirstBlock(data).Some? && FirstBlock(data).value.Size() <= |part|
    ensures FirstBlock(part) == FirstBlock(data)
  {
    assert CountOf(part[1..]) == CountOf(data[1..]);
    hide CountOf, Width, Cut;
    assert part[HEADER_BYTES..Announced(data)] == data[HEADER_BYTES..Announced(data)];
  }

  /** The final `decode_message` always agrees with what was received block by block. */
  lemma ReceivedDecodes(input: seq<byte>, maxBlocks: int, maxBytes: int, maxElements: Option<nat>)
    requires Receive(input, maxBlocks, maxBytes, maxElements).Accepted?
    ensures var r := Receive(input, maxBlocks, maxBytes, maxElements);
            r.used <= |input| && Decode(input[..r.used], maxBlocks, maxBytes) == Some(r.blocks)
  {
    var r := Receive(input, maxBlocks, maxBytes, maxElements);
    var data := input[..r.used];
    ReceivedBlocksParse(input[COUNT_BYTES..], CountOf(input), Min(maxBytes, MAX_MESSAGE_BYTES) - COUNT_BYTES, maxElements);
    assert CountOf(data) == CountOf(input);
    assert data[COUNT_BYTES..] == input[COUNT_BYTES..][..r.used - COUNT_BYTES];
  }

  // ---------- What is accepted, and how much of the stream it takes ----------

  predicate WithinLimits(blocks: seq<Block>, maxBlocks: int, maxBytes: int, maxElements: Option<nat>) {
    |blocks| <= maxBlocks && COUNT_BYTES + Sizes(blocks) <= maxBytes &&
    forall i :: 0 <= i < |blocks| && maxElements.Some? ==> |blocks[i].values| <= maxElements.value
  }

  lemma BlockWithinLimits(input: seq<byte>, budget: int, maxElements: Option<nat>)
    requires ReceiveBlock(input, budget, maxElements).Accepted? && maxElements.Some?
    ensures |ReceiveBlock(input, budget, maxElements).blocks[0].values| <= maxElements.value
  {
    hide CountOf, Width;
  }

  /** And whatever is accepted is within the limits. */
  lemma {:induction false} BlocksWithinLimits(input: seq<byte>, n: nat, budget: int, maxElements: Option<nat>, i: nat)
    requires ReceiveBlocks(input, n, budget, maxElements).Accepted?
    ensures var r := ReceiveBlocks(input, n, budget, maxElements);
            |r.blocks| == n && (i < n && maxElements.Some? ==> |r.blocks[i].values| <= maxElements.value)
    decreases n
  {
    if n > 0 {
      var first := ReceiveBlock(input, budget, maxElements);
      if maxElements.Some? {
        BlockWithinLimits(input, budget, maxElements);
      }
      hide ReceiveBlock, CountOf, FirstBlock, Block.Size;
      BlocksWithinLimits(input[first.used..], n - 1, budget - first.used, maxElements, if i > 0 then i - 1 else 0);
    }
  }

  lemma ReceivedFrom(input: seq<byte>, maxBlocks: int, maxBytes: int, maxElements: Option<nat>) returns (n: nat, budget: int)
    requires Receive(input, maxBlocks, maxBytes, maxElements).Accepted?
    ensures |input| >= COUNT_BYTES && n <= maxBlocks && budget + COUNT_BYTES <= maxBytes
    ensures var r := ReceiveBlocks(input[COUNT_BYTES..], n, budget, maxElements);
            r.Accepted? && r.blocks == Receive(input, maxBlocks, maxBytes, maxElements).blocks &&
            r.used + COUNT_BYTES == Receive(input, maxBlocks, maxBytes, maxElements).used <= maxBytes
  {
    n, budget := CountOf(input), Min(maxBytes, MAX_MESSAGE_BYTES) - COUNT_BYTES;
    hide ReceiveBlocks, CountOf;
  }

  lemma AcceptedWithinLimits(input: seq<byte>, maxBlocks: int, maxBytes: int, maxElements: Option<nat>)
    requires Receive(input, maxBlocks, maxBytes, maxElements).Accepted?
    ensures WithinLimits(Receive(input, maxBlocks, maxBytes, maxElements).blocks, maxBlocks, maxBytes, maxElements)
  {
    var r := Receive(input, maxBlocks, maxBytes, maxElements);
    var n, budget := ReceivedFrom(input, maxBlocks, maxBytes, maxElements);
    OnlyEncodingsAccepted(input, maxBlocks, maxBytes, maxElements);
    EncodeSize(r.blocks);
    assert |input[..r.used]| == r.used;
    hide Receive, ReceiveBlocks, Encode, Sizes, Encodable;
    BlocksWithinLimits(input[COUNT_BYTES..], n, budget, maxElements, 0);
    forall i | 0 <= i < |r.blocks| && maxElements.Some? ensures |r.blocks[i].values| <= maxElements.value {
      BlocksWithinLimits(input[COUNT_BYTES..], n, budget, maxElements, i);
    }
  }

  lemma ReceiveBlockOfBytes(b: Block, tail: seq<byte>, budget: int, maxElements: Option<nat>)
    requires b.Typed() && |b.values| < 0x1_0000_0000 && b.Size() <= budget && !TooMany(|b.values|, maxElements)
    ensures ReceiveBlock(BlockBytes(b) + tail, budget, maxElements) == Accepted([b], b.Size())
    ensures |BlockBytes(b)| == b.Size()
  {
    FirstBlockOfBytes(b, tail);
    hide FirstBlock, BlockBytes, CountOf, Announced;
  }

  lemma ReceiveCons(input: seq<byte>, n: nat, budget: int, maxElements: Option<nat>, b: Block, rest: seq<Block>, used: nat)
    requires n > 0 && ReceiveBlock(input, budget, maxElements) == Accepted([b], b.Size())
    requires b.Size() <= |input|
    requires ReceiveBlocks(input[b.Size()..], n - 1, budget - b.Size(), maxElements) == Accepted(rest, used)
    ensures ReceiveBlocks(input, n, budget, maxElements) == Accepted([b] + rest, b.Size() + used)
  {
    hide ReceiveBlock;
  }

  lemma {:induction false} ReceiveBlocksOfBytes(blocks: seq<Block>, tail: seq<byte>, budget: int, maxElements: Option<nat>)
    requires AllTyped(blocks) && (blocks != [] ==> Sizes(blocks) <= budget)
    requires forall i :: 0 <= i < |blocks| ==>
      |blocks[i].values| < 0x1_0000_0000 && !TooMany(|blocks[i].values|, maxElements)
    ensures ReceiveBlocks(AllBytes(blocks) + tail, |blocks|, budget, maxElements) == Accepted(blocks, Sizes(blocks))
  {
    hide ReceiveBlock, ReceiveBlocks, BlockBytes, Width, Block.Size;
    if blocks == [] {
      ReceiveNone(AllBytes(blocks) + tail, budget, maxElements);
    } else {
      var b, rest := blocks[0], blocks[1..];
      assert b.Typed() && AllTyped(rest);
      var more := AllBytes(rest) + tail;
      SizeBound(blocks, 0);
      ReceiveBlockOfBytes(b, more, budget, maxElements);
      ReceiveBlocksOfBytes(rest, tail, budget - b.Size(), maxElements);
      var data := BlockBytes(b) + more;
      assert AllBytes(blocks) + tail == data && data[b.Size()..] == more;
      ReceiveCons(data, |blocks|, budget, maxElements, b, rest, Sizes(rest));
      assert [b] + rest == blocks;
    }
  }

  lemma EncodeParts(blocks: seq<Block>, tail: seq<byte>)
    requires Encodable(blocks)
    ensures forall i :: 0 <= i < |blocks| ==> |blocks[i].values| < 0x1_0000_0000
    ensures var input := Encode(blocks) + tail;
            |input| >= COUNT_BYTES && CountOf(input) == |blocks| && input[COUNT_BYTES..] == AllBytes(blocks) + tail
  {
    CountsFit(blocks);
    var input := Encode(blocks) + tail;
    assert input == Count(|blocks|) + (AllBytes(blocks) + tail);
    CountRoundTrip(|blocks|, AllBytes(blocks) + tail);
  }

  lemma ReceiveParts(input: seq<byte>, blocks: seq<Block>, tail: seq<byte>,
                     maxBlocks: int, maxBytes: int, maxElements: Option<nat>)
    requires 1 <= |blocks| <= MAX_BLOCKS && AllTyped(blocks) && COUNT_BYTES + Sizes(blocks) <= MAX_MESSAGE_BYTES
    requires WithinLimits(blocks, maxBlocks, maxBytes, maxElements)
    requires forall i :: 0 <= i < |blocks| ==> |blocks[i].values| < 0x1_0000_0000
    requires |input| >= COUNT_BYTES && CountOf(input) == |blocks| && input[COUNT_BYTES..] == AllBytes(blocks) + tail
    ensures Receive(input, maxBlocks, maxBytes, maxElements) == Accepted(blocks, COUNT_BYTES + Sizes(blocks))
  {
    hide CountOf, ReceiveBlocks, Sizes, AllBytes, Width;
    ReceiveBlocksOfBytes(blocks, tail, Min(maxBytes, MAX_MESSAGE_BYTES) - COUNT_BYTES, maxElements);
  }

  /** A whole encoding is accepted and exactly its bytes are taken, whatever follows it. */
  lemma ReceiveEncoding(blocks: seq<Block>, tail: seq<byte>, maxBlocks: int, maxBytes: int, maxElements: Option<nat>)
    requires Encodable(blocks) && WithinLimits(blocks, maxBlocks, maxBytes, maxElements)
    ensures Receive(Encode(blocks) + tail, maxBlocks, maxBytes, maxElements)
         == Accepted(blocks, |Encode(blocks)|)
  {
    hide Receive, CountOf, Sizes, AllBytes, Width, Encode;
    EncodeParts(blocks, tail);
    EncodeSize(blocks);
    ReceiveParts(Encode(blocks) + tail, blocks, tail, maxBlocks, maxBytes, maxElements);
  }

  /** Nothing but an encoding at the front of the stream is accepted. */
  lemma OnlyEncodingsAccepted(input: seq<byte>, maxBlocks: int, maxBytes: int, maxElements: Option<nat>)
    requires Receive(input, maxBlocks, maxBytes, maxElements).Accepted?
    ensures var r := Receive(input, maxBlocks, maxBytes, maxElements);
            r.used <= |input| && Encodable(r.blocks) && input[..r.used] == Encode(r.blocks)
  {
    var r := Receive(input, maxBlocks, maxBytes, maxElements);
    ReceivedDecodes(input, maxBlocks, maxBytes, maxElements);
    assert Decode(input[..r.used], maxBlocks, Min(maxBytes, MAX_MESSAGE_BYTES)) == Some(r.blocks);
    DecodeIffEncoded(input[..r.used], r.blocks, maxBlocks, Min(maxBytes, MAX_MESSAGE_BYTES));
  }

  /** So no encoding is a proper prefix of another, and frames sent back to back come out one by one. */
  lemma EncodingsArePrefixFree(a: seq<Block>, b: seq<Block>)
    requires Encodable(a) && Encodable(b) && Encode(a) <= Encode(b)
    ensures a == b
  {
    var tail := Encode(b)[|Encode(a)|..];
    assert Encode(a) + tail == Encode(b) && Encode(b) + [] == Encode(b);
    ReceiveEncoding(a, tail, MAX_BLOCKS, MAX_MESSAGE_BYTES, None);
    ReceiveEncoding(b, [], MAX_BLOCKS, MAX_MESSAGE_BYTES, None);
  }

  // ---------- Replies ----------

  /** `verify_magic` and `recv_reply` with its default limits. */
  function ReceiveReply(input: seq<byte>): Received {
    var r := Receive(input, MAX_BLOCKS, MAX_MESSAGE_BYTES, None);
    if r.Accepted? && (r.blocks == [] || r.blocks[0] != MAGIC) then Refused else r
  }
}
