/** The C side of the LVHV protocol (lvhv-server/messaging/Messages.c), and its agreement with the
    Python side. The host is little-endian, so `swap_payload` leaves payloads as they are. */
module LvhvC {
  import opened Bits
  import opened Options
  import opened LvhvWire
  import opened LvhvPython

  // ---------- What `message_recv` makes of a stream when I/O itself does not fail ----------

  /** The blocks and how many bytes they took, nothing at all, or how many bytes went before it was given up. */
  datatype CReceived = Message(blocks: seq<Block>, used: nat) | Idle | Error(taken: nat)
  {
    function Bytes(): nat {
      match this
      case Message(_, used) => used
      case Idle => 0
      case Error(taken) => taken
    }
  }

  /** `recv_block`: the type is tested before the budget, the budget before the payload is read. */
  function CBlock(input: seq<byte>, budget: nat): Option<Block> {
    if |input| < HEADER_BYTES then None
    else
      var width, n := Width(input[0]), CountOf(input[1..]);
      if width == 0 then None
      else if budget < HEADER_BYTES || n > (budget - HEADER_BYTES) / width then None
      else FirstBlock(input)
  }

  /** The bytes `recv_block` takes, whatever it makes of them: the header in any case, and the payload once its size
      is found to fit. */
  function Taken(input: seq<byte>, budget: nat): nat {
    if |input| < HEADER_BYTES then |input|
    else
      var width, n := Width(input[0]), CountOf(input[1..]);
      if width == 0 || budget < HEADER_BYTES || n > (budget - HEADER_BYTES) / width then HEADER_BYTES
      else Min(|input|, Announced(input))
  }

  /** The budget is kept exactly when there is room in it for a header, or no more input than it allows. */
  lemma TakenWithinBudgetIff(input: seq<byte>, budget: nat)
    ensures Taken(input, budget) <= |input|
    ensures Taken(input, budget) <= budget <==> budget >= HEADER_BYTES || |input| <= budget
    ensures CBlock(input, budget).Some? ==> Taken(input, budget) == CBlock(input, budget).value.Size()
    ensures Taken(input, budget) > HEADER_BYTES ==> Taken(input, budget) <= budget
  {
    if |input| >= HEADER_BYTES && Width(input[0]) > 0 && budget >= HEADER_BYTES {
      DivisionBound(CountOf(input[1..]), Width(input[0]), budget - HEADER_BYTES);
    }
  }

  function CBlocks(input: seq<byte>, n: nat, budget: nat, first: bool): (r: CReceived)
    ensures !r.Idle? && (r.Message? ==> r.used <= |input|)
    decreases n
  {
    if n == 0 then Message([], 0)
    else
      var b := CBlock(input, budget);
      if b.None? || b.value.Size() > budget || (first && b.value != MAGIC) then Error(Taken(input, budget))
      else
        var rest := CBlocks(input[b.value.Size()..], n - 1, budget - b.value.Size(), false);
        if rest.Message? then Message([b.value] + rest.blocks, b.value.Size() + rest.used)
        else Error(b.value.Size() + rest.Bytes())
  }

  const BLOCK_BUDGET: nat := MAX_MESSAGE_BYTES - COUNT_BYTES

  function CReceive(input: seq<byte>): CReceived {
    if input == [] then Idle
    else if |input| < COUNT_BYTES then Error(|input|)
    else if CountOf(input) == 0 || CountOf(input) > MAX_BLOCKS then Error(COUNT_BYTES)
    else
      var r := CBlocks(input[COUNT_BYTES..], CountOf(input), BLOCK_BUDGET, true);
      if r.Message? then Message(r.blocks, COUNT_BYTES + r.used) else Error(COUNT_BYTES + r.Bytes())
  }

  lemma BlocksAgree(input: seq<byte>, budget: nat)
    ensures CBlock(input, budget).Some? <==> ReceiveBlock(input, budget, None).Accepted?
    ensures CBlock(input, budget).Some? ==>
      CBlock(input, budget).value.Size() <= budget &&
      ReceiveBlock(input, budget, None) == Accepted([CBlock(input, budget).value], CBlock(input, budget).value.Size())
  {
    if |input| >= HEADER_BYTES && Width(input[0]) > 0 && budget >= HEADER_BYTES {
      DivisionBound(CountOf(input[1..]), Width(input[0]), budget - HEADER_BYTES);
    }
  }

  lemma {:induction false} BlockListsAgree(input: seq<byte>, n: nat, budget: nat, first: bool)
    ensures var c, py := CBlocks(input, n, budget, first), ReceiveBlocks(input, n, budget, None);
      var good := py.Accepted? && (first && n > 0 ==> py.blocks != [] && py.blocks[0] == MAGIC);
      if good then c == Message(py.blocks, py.used) else c.Error?
    decreases n
  {
    hide CBlock, ReceiveBlock, FirstBlock, Width, Announced, CountOf, Taken, Block.Size, FromCount;
    if n > 0 {
      BlocksAgree(input, budget);
      var b := CBlock(input, budget);
      if b.Some? {
        BlockListsAgree(input[b.value.Size()..], n - 1, budget - b.value.Size(), false);
      }
    }
  }

  /** The server accepts a stream exactly when the Python client accepts it as a reply, takes the
      same number of bytes and reads the same blocks. */
  lemma CAgreesWithPython(input: seq<byte>, blocks: seq<Block>, used: nat)
    ensures CReceive(input) == Message(blocks, used) <==> ReceiveReply(input) == Accepted(blocks, used)
  {
    hide CBlocks, ReceiveBlocks, CountOf;
    if |input| >= COUNT_BYTES && 1 <= CountOf(input) <= MAX_BLOCKS {
      BlockListsAgree(input[COUNT_BYTES..], CountOf(input), BLOCK_BUDGET, true);
    }
  }

  // ---------- When the budget is overrun ----------

  predicate Refuses(b: Option<Block>, first: bool) {
    b.None? || (first && b.value != MAGIC)
  }

  /** After `k` blocks there is less budget left than a header takes. */
  predicate NoRoomAfter(input: seq<byte>, k: nat, budget: nat, first: bool) {
    var r := CBlocks(input, k, budget, first);
    r.Message? && r.used + HEADER_BYTES > budget
  }

  lemma NoRoomNext(input: seq<byte>, k: nat, budget: nat, first: bool)
    requires k > 0
    ensures var b := CBlock(input, budget);
            if Refuses(b, first) then !NoRoomAfter(input, k, budget, first)
            else b.value.Size() <= Min(budget, |input|) &&
                 (NoRoomAfter(input, k, budget, first) <==>
                  NoRoomAfter(input[b.value.Size()..], k - 1, budget - b.value.Size(), false))
  {
    BlocksAgree(input, budget);
    hide CBlock, ReceiveBlock, Taken, FirstBlock, Width, CountOf, Announced, Block.Size;
  }

  /** At some point in `n` blocks one is due with no room for its header. */
  ghost predicate RunsOut(input: seq<byte>, n: nat, budget: nat, first: bool) {
    exists k: nat :: k < n && NoRoomAfter(input, k, budget, first)
  }

  lemma RunsOutNext(input: seq<byte>, n: nat, budget: nat, first: bool)
    requires n > 0
    ensures var b := CBlock(input, budget);
            if Refuses(b, first) then RunsOut(input, n, budget, first) <==> budget < HEADER_BYTES
            else b.value.Size() <= Min(budget, |input|) && budget >= HEADER_BYTES &&
                 (RunsOut(input, n, budget, first) <==>
                  RunsOut(input[b.value.Size()..], n - 1, budget - b.value.Size(), false))
  {
    var b := CBlock(input, budget);
    NoRoomNext(input, 1, budget, first);
    assert NoRoomAfter(input, 0, budget, first) <==> budget < HEADER_BYTES;
    assert b.Some? ==> budget >= HEADER_BYTES;
    hide CBlock, NoRoomAfter, Block.Size;
    if k: nat :| k < n && NoRoomAfter(input, k, budget, first) {
      if k > 0 {
        NoRoomNext(input, k, budget, first);
      }
    }
    if !Refuses(b, first) {
      var rest, left := input[b.value.Size()..], budget - b.value.Size();
      if k: nat :| k < n - 1 && NoRoomAfter(rest, k, left, false) {
        NoRoomNext(input, k + 1, budget, first);
        assert NoRoomAfter(input, k + 1, budget, first);
      }
    }
  }

  /** More is taken than the budget exactly when a block is still due with less room left than its header takes, and
      the input goes beyond the budget. */
  lemma {:induction false} BudgetOverrunIff(input: seq<byte>, n: nat, budget: nat, first: bool)
    ensures CBlocks(input, n, budget, first).Bytes() > budget <==>
      |input| > budget && RunsOut(input, n, budget, first)
    decreases n
  {
    hide CBlock, Taken, RunsOut, Block.Size;
    if n == 0 {
      NeverOut(input, budget, first);
    } else {
      var b := CBlock(input, budget);
      TakenWithinBudgetIff(input, budget);
      RunsOutNext(input, n, budget, first);
      if !Refuses(b, first) {
        BudgetOverrunIff(input[b.value.Size()..], n - 1, budget - b.value.Size(), false);
      }
    }
  }

  lemma NeverOut(input: seq<byte>, budget: nat, first: bool)
    ensures !RunsOut(input, 0, budget, first)
  {}

  /** The stream goes past the message limit, with a block still due and less room left than its header takes. */
  ghost predicate Overshoots(input: seq<byte>) {
    |input| > MAX_MESSAGE_BYTES && 1 <= CountOf(input) <= MAX_BLOCKS &&
    RunsOut(input[COUNT_BYTES..], CountOf(input), BLOCK_BUDGET, true)
  }

  /** Of a stream that is refused, more than the message limit is taken exactly then. */
  lemma OvershootIff(input: seq<byte>)
    ensures CReceive(input).Bytes() > MAX_MESSAGE_BYTES <==> Overshoots(input)
    ensures Overshoots(input) ==> CReceive(input).Error?
    ensures CReceive(input).Bytes() <= MAX_MESSAGE_BYTES + HEADER_BYTES
  {
    if |input| >= COUNT_BYTES && 1 <= CountOf(input) <= MAX_BLOCKS {
      BudgetOverrunIff(input[COUNT_BYTES..], CountOf(input), BLOCK_BUDGET, true);
      BytesBound(input[COUNT_BYTES..], CountOf(input), BLOCK_BUDGET, true);
    }
  }

  lemma {:induction false} BytesBound(input: seq<byte>, n: nat, budget: nat, first: bool)
    ensures var r := CBlocks(input, n, budget, first);
            r.Bytes() <= budget + HEADER_BYTES && (r.Message? ==> r.used <= budget)
    decreases n
  {
    if n > 0 {
      TakenWithinBudgetIff(input, budget);
      hide CBlock, Taken, Block.Size, Width, CountOf, Announced, FirstBlock;
      var b := CBlock(input, budget);
      if b.Some? && b.value.Size() <= budget {
        BytesBound(input[b.value.Size()..], n - 1, budget - b.value.Size(), false);
      }
    }
  }

  /** A block of `n` characters. */
  function Filler(n: nat): Block {
    Block(KIND_C, seq(n, _ => [0]))
  }

  /** Any two blocks that fill a message to within a header of the limit, followed by enough of a third. */
  lemma FullMessageOvershoots(blocks: seq<Block>, tail: seq<byte>)
    requires AllTyped(blocks) && |blocks| == 2 && blocks[0] == MAGIC
    requires Sizes(blocks) <= BLOCK_BUDGET < Sizes(blocks) + HEADER_BYTES && BLOCK_BUDGET < Sizes(blocks) + |tail|
    requires forall i :: 0 <= i < |blocks| ==> |blocks[i].values| < 0x1_0000_0000
    ensures Overshoots(Count(3) + AllBytes(blocks) + tail)
  {
    var rest := AllBytes(blocks) + tail;
    var input := Count(3) + AllBytes(blocks) + tail;
    CountRoundTrip(3, rest);
    assert input == Count(3) + rest && input[COUNT_BYTES..] == rest;
    BlocksOfBytes(blocks);
    hide Count, CountOf, Sizes, AllBytes, CBlocks, ReceiveBlocks;
    ReceiveBlocksOfBytes(blocks, tail, BLOCK_BUDGET, None);
    BlockListsAgree(rest, 2, BLOCK_BUDGET, true);
    assert NoRoomAfter(rest, 2, BLOCK_BUDGET, true);
  }

  lemma TwoBlocks(a: Block, b: Block)
    ensures Sizes([a, b]) == a.Size() + b.Size()
  {
    hide Block.Size;
    var two, one := [a, b], [b];
    assert two[1..] == one && one[1..] == [];
    assert Sizes(one) == b.Size();
  }

  /** One such stream: a message of three blocks whose second fills it to the last byte, with a header after it. The
      server takes more of it than its limit, which the client never does. */
  lemma OvershootingStream()
    ensures var n := BLOCK_BUDGET - MAGIC.Size() - HEADER_BYTES;
            var blocks := [MAGIC, Filler(n)];
            AllTyped(blocks) && Sizes(blocks) == BLOCK_BUDGET &&
            var input := Count(3) + AllBytes(blocks) + [KIND_C, 0, 0, 0, 0];
            Overshoots(input) && CReceive(input).Error? && CReceive(input).Bytes() > MAX_MESSAGE_BYTES
  {
    var n := BLOCK_BUDGET - MAGIC.Size() - HEADER_BYTES;
    var blocks := [MAGIC, Filler(n)];
    TwoBlocks(MAGIC, Filler(n));
    var tail: seq<byte> := [KIND_C, 0, 0, 0, 0];
    hide Sizes, AllBytes, Overshoots, CReceive, Count;
    FullMessageOvershoots(blocks, tail);
    OvershootIff(Count(3) + AllBytes(blocks) + tail);
  }

  // ---------- Blocks and messages in memory ----------

  /** `MessageBlock_t`. The buffer has one byte more than the elements need. */
  class MessageBlock {
    const kind: byte
    const count: nat
    const bytes: array<byte>
    var used: nat
    var valid: bool

    ghost predicate Shaped()
      reads this
    {
      Width(kind) > 0 && bytes.Length == count * Width(kind) + 1 && used <= count < 0x1_0000_0000
    }

    /** `block_ok`. */
    predicate Ok(): (ok: bool)
      reads this
      ensures ok <==> valid && Width(kind) > 0 && used <= count && 5 + count * Width(kind) <= 67108864
    {
      DivisionBound(count, if Width(kind) > 0 then Width(kind) else 1, MAX_MESSAGE_BYTES - HEADER_BYTES);
      valid && Width(kind) > 0 && used <= count && count <= (MAX_MESSAGE_BYTES - HEADER_BYTES) / Width(kind)
    }

    /** The elements inserted so far. */
    ghost function View(): (v: Block)
      requires Shaped()
      reads this, bytes
      ensures v.kind == kind && |v.values| == used < 0x1_0000_0000
    {
      UsedBytes(used, count, Width(kind));
      JoinedCut(bytes[..used * Width(kind)], Width(kind), used);
      Block(kind, Cut(bytes[..used * Width(kind)], Width(kind)))
    }

    constructor (kind: byte, count: nat)
      requires Width(kind) > 0 && count <= (MAX_MESSAGE_BYTES - HEADER_BYTES) / Width(kind)
      ensures this.kind == kind && this.count == count && used == 0 && Shaped() && Ok() && fresh(bytes)
    {
      this.kind, this.count, used, valid := kind, count, 0, true;
      DivisionBound(count, Width(kind), MAX_MESSAGE_BYTES - HEADER_BYTES);
      bytes := new byte[count * Width(kind) + 1](_ => 0);
    }

    /** `block_construct`: null for an unknown type, too many elements or no memory. */
    static method Construct(kind: byte, count: nat, memory: bool) returns (b: MessageBlock?)
      ensures b == null <==>
        Width(kind) == 0 || count > (MAX_MESSAGE_BYTES - HEADER_BYTES) / Width(kind) || !memory
      ensures b != null ==> fresh(b) && fresh(b.bytes) && b.kind == kind && b.count == count && b.used == 0
      ensures b != null ==> b.Shaped() && b.Ok()
    {
      if Width(kind) == 0 || count > (MAX_MESSAGE_BYTES - HEADER_BYTES) / Width(kind) || !memory {
        return null;
      }
      b := new MessageBlock(kind, count);
    }

    /** `block_insert`: one more element, or an invalid block when there is no room for it. */
    method Insert(value: seq<byte>)
      requires Shaped() && |value| == Width(kind)
      modifies this, bytes
      ensures Shaped()
      ensures valid == (old(Ok()) && old(used) < count)
      ensures valid ==> Ok() && View() == Block(kind, old(View()).values + [value])
      ensures !valid ==> View() == old(View())
    {
      if !Ok() || used == count {
        valid := false;
        return;
      }
      var width := Width(kind);
      var start := used * width;
      UsedBytes(used + 1, count, width);
      ghost var before := bytes[..start];
      assert start + width == (used + 1) * width;
      for i := 0 to width
        invariant bytes[..start] == before
        invariant bytes[start..start + i] == value[..i]
        invariant used == old(used) && valid && start + width <= bytes.Length
      {
        bytes[start + i] := value[i];
      }
      assert bytes[..start + width] == before + value;
      used := used + 1;
      CutOneMore(before, width, old(used), value);
    }
  }

  lemma UsedBytes(used: nat, count: nat, width: nat)
    requires used <= count
    ensures used * width <= count * width
  {
    assert count * width == used * width + (count - used) * width;
  }

  lemma {:induction false} CutOneMore(data: seq<byte>, width: nat, n: nat, value: seq<byte>)
    requires width > 0 && |data| == n * width && |value| == width
    ensures Cut(data + value, width) == Cut(data, width) + [value]
    decreases n
  {
    if n == 0 {
      assert data == [] && data + value == value && value[..width] == value && value[width..] == [];
      assert Cut(value, width) == [value] + Cut([], width);
    } else {
      OneLess(n, width, |data|);
      var head, tail := data[..width], data[width..];
      CutOneMore(tail, width, n - 1, value);
      var all := data + value;
      assert all[..width] == head && all[width..] == tail + value;
      assert Cut(all, width) == [head] + Cut(tail + value, width);
      assert Cut(data, width) == [head] + Cut(tail, width);
    }
  }

  // ---------- Messages ----------

  ghost predicate AllShaped(bs: seq<MessageBlock?>)
    reads set b: MessageBlock | b in bs
  {
    forall i :: 0 <= i < |bs| ==> bs[i] != null && bs[i].Shaped()
  }

  ghost function Views(bs: seq<MessageBlock?>): (views: seq<Block>)
    requires AllShaped(bs)
    reads set b: MessageBlock | b in bs, set b: MessageBlock | b in bs :: b.bytes
    ensures |views| == |bs|
  {
    if bs == [] then []
    else assert forall i :: 0 <= i < |bs| - 1 ==> bs[1..][i] == bs[i + 1]; [bs[0].View()] + Views(bs[1..])
  }

  lemma {:induction false} ViewAt(bs: seq<MessageBlock?>, i: nat)
    requires AllShaped(bs) && i < |bs|
    ensures bs[i] != null && bs[i].Shaped() && Views(bs)[i] == bs[i].View() && bs[i].View().Typed()
  {
    var b := bs[0];
    UsedBytes(b.used, b.count, Width(b.kind));
    if i > 0 {
      assert AllShaped(bs[1..]);
      ViewAt(bs[1..], i - 1);
    } else {
      JoinedCut(b.bytes[..b.used * Width(b.kind)], Width(b.kind), b.used);
    }
  }

  lemma {:induction false} ViewsOneMore(held: seq<MessageBlock?>, b: MessageBlock)
    requires AllShaped(held) && b.Shaped()
    ensures AllShaped(held + [b]) && Views(held + [b]) == Views(held) + [b.View()]
  {
    if held == [] {
      assert held + [b] == [b];
    } else {
      assert AllShaped(held[1..]) && (held + [b])[1..] == held[1..] + [b];
      ViewsOneMore(held[1..], b);
    }
  }

  /** `Message_t`: a growing array of owned blocks. */
  class CMessage {
    var count: nat
    var space: nat
    var blocks: array<MessageBlock?>
    var valid: bool

    ghost predicate Valid()
      reads this, blocks
    {
      count <= space == blocks.Length <= MAX_BLOCKS && forall i :: 0 <= i < count ==> blocks[i] != null
    }

    ghost function Held(): seq<MessageBlock?>
      requires Valid()
      reads this, blocks
    {
      blocks[..count]
    }

    constructor ()
      ensures Valid() && valid && Held() == [] && AllShaped(Held()) && fresh(blocks)
    {
      count, space, valid := 0, 2, true;
      blocks := new MessageBlock?[2](_ => null);
    }

    /** `message_construct`: null when there is no memory. */
    static method Construct(memory: bool) returns (m: CMessage?)
      ensures m == null <==> !memory
      ensures m != null ==> fresh(m) && fresh(m.blocks) && m.Valid() && m.valid && m.Held() == [] && AllShaped(m.Held())
    {
      if !memory {
        return null;
      }
      m := new CMessage();
    }

    /** `message_blocks_realloc`: double the room, up to the limit. `memory` says whether `realloc` succeeds. */
    method Grow(memory: bool)
      requires Valid()
      modifies this
      ensures Valid() && Held() == old(Held()) && count == old(count)
      ensures valid <==> old(valid) && old(space) < MAX_BLOCKS && memory
      ensures valid ==> fresh(blocks) && old(space) < space
      ensures !valid ==> blocks == old(blocks)
    {
      if !valid || space >= MAX_BLOCKS {
        valid := false;
        return;
      }
      var target := if space > 0 then space * 2 else 2;
      if target > MAX_BLOCKS {
        target := MAX_BLOCKS;
      }
      if !memory {
        valid := false;
        return;
      }
      var bigger := new MessageBlock?[target](_ => null);
      for i := 0 to count
        invariant Valid() && blocks == old(blocks) && count == old(count) && space == old(space) && valid
        invariant bigger[..i] == blocks[..i]
      {
        bigger[i] := blocks[i];
      }
      blocks := bigger;
      space := target;
    }

    /** `message_append`: the block joins the message, or the message becomes invalid and keeps what it had. */
    method Append(b: MessageBlock?, memory: bool)
      requires Valid()
      modifies this, blocks
      ensures Valid() && (blocks == old(blocks) || fresh(blocks))
      ensures valid <==> old(valid) && b != null && b.Ok() && old(count) < MAX_BLOCKS &&
                         (old(count) == old(space) ==> memory)
      ensures Held() == if valid then old(Held()) + [b] else old(Held())
    {
      if !valid || b == null || !b.Ok() || count >= MAX_BLOCKS {
        valid := false;
        return;
      }
      if count == space {
        Grow(memory);
      }
      if !valid {
        return;
      }
      blocks[count] := b;
      count := count + 1;
    }

    /** `magic_ok`. */
    method MagicOk() returns (ok: bool)
      requires Valid() && AllShaped(Held())
      ensures ok <==> valid && count > 0 && blocks[0].Ok() && blocks[0].View() == MAGIC
    {
      if !valid || count == 0 || count > MAX_BLOCKS {
        return false;
      }
      var b := blocks[0];
      assert Held()[0] == b;
      ok := b.Ok() && b.kind == KIND_C && b.used == 4 && b.bytes[0] == 76 && b.bytes[1] == 86 &&
            b.bytes[2] == 72 && b.bytes[3] == 86;
      MagicCut(b.bytes[..b.used * Width(b.kind)]);
    }
  }

  lemma MagicCut(data: seq<byte>)
    ensures Cut(data, 1) == MAGIC.values <==> data == [76, 86, 72, 86]
  {
    var values := MAGIC.values;
    assert Joined(values) == [76, 86, 72, 86] by {
      assert values[1..][1..][1..] == [[86]];
      assert Joined(values) == [76] + ([86] + ([72] + ([86] + [])));
    }
    JoinedCut(data, 1, |data|);
    CutJoined(values, 1);
  }

  // ---------- Receiving ----------

  /** What `exact_io` returns when reading: everything, 0 for a peer gone before the first byte, or -1. */
  datatype CRead = Full(data: seq<byte>) | Gone | Truncated | IoError

  datatype Wakeup = Ready | Interrupted | Broken

  /** `wait_fd` and the outcome of the call after it, apart from the data. */
  method Wait(sock: Socket) returns (w: Wakeup)
    modifies sock`patience, sock`failed
    ensures if w.Broken? then sock.failed else sock.patience < old(sock.patience) && sock.failed == old(sock.failed)
  {
    w := *;
    if sock.patience == 0 || w == Broken {
      sock.failed := true;
      return Broken;
    }
    sock.patience := sock.patience - 1;
  }

  /** `calloc` and `realloc`: whether there is memory. */
  method Allocate(sock: Socket) returns (ok: bool)
    modifies sock`failed
    ensures sock.failed == (old(sock.failed) || !ok)
  {
    ok := *;
    sock.failed := sock.failed || !ok;
  }

  /** `exact_io`, reading. Short reads and interruptions are up to the environment. */
  method ExactRead(sock: Socket, size: nat) returns (r: CRead, ghost n: nat)
    modifies sock
    ensures n <= Min(size, |old(sock.input)|) && sock.input == old(sock.input)[n..]
    ensures r.Full? ==> n == size && r.data == old(sock.input)[..size]
    ensures r.Gone? ==> old(sock.input) == [] && size > 0
    ensures r.Truncated? ==> 0 < |old(sock.input)| < size
    ensures r.Gone? || r.Truncated? ==> n == |old(sock.input)|
    ensures r.IoError? ==> sock.failed
  {
    var buffer: seq<byte> := [];
    n := 0;
    while |buffer| < size
      invariant n == |buffer| <= Min(size, |old(sock.input)|)
      invariant buffer == old(sock.input)[..n] && sock.input == old(sock.input)[n..]
      decreases sock.patience
    {
      var w := Wait(sock);
      if w == Interrupted {
        continue;
      }
      if w == Broken {
        return IoError, n;
      }
      var part := sock.Recv(size - |buffer|);
      if part == [] {
        assert |sock.input| == |old(sock.input)| - n;
        return if buffer == [] then Gone else Truncated, n;
      }
      buffer := buffer + part;
      n := n + |part|;
    }
    return Full(buffer), n;
  }

  /** The payload of a new block, read straight into its buffer. */
  method FillBlock(b: MessageBlock, sock: Socket) returns (ok: bool, ghost n: nat)
    requires b.Shaped() && b.Ok()
    modifies sock, b, b.bytes
    ensures n <= Min(b.count * Width(b.kind), |old(sock.input)|) && sock.input == old(sock.input)[n..]
    ensures b.Shaped() && b.Ok()
    ensures ok ==> n == b.count * Width(b.kind) && b.View() == Block(b.kind, Cut(old(sock.input)[..n], Width(b.kind)))
    ensures !ok ==> sock.failed || n == |old(sock.input)| < b.count * Width(b.kind)
  {
    ghost var input := sock.input;
    var width := Width(b.kind);
    var length := b.count * width;
    hide Cut, Width;
    var payload, taken := ExactRead(sock, length);
    n := taken;
    if !payload.Full? {
      return false, n;
    }
    for i := 0 to length
      invariant b.bytes[..i] == payload.data[..i] && b.Shaped() && b.Ok() && sock.input == input[n..]
    {
      b.bytes[i] := payload.data[i];
    }
    b.used := b.count;
    assert b.bytes[..length] == payload.data;
    ok := true;
  }

  /** What the header decides. */
  lemma HeaderDecides(input: seq<byte>, budget: nat)
    requires |input| >= HEADER_BYTES
    ensures var width, count := Width(input[0]), CountOf(input[1..]);
            var fits := width > 0 && budget >= HEADER_BYTES && count <= (budget - HEADER_BYTES) / width;
            (!fits ==> CBlock(input, budget) == None && Taken(input, budget) == HEADER_BYTES) &&
            (fits ==> HEADER_BYTES + count * width <= budget &&
                      Taken(input, budget) == Min(|input|, HEADER_BYTES + count * width)) &&
            (fits && HEADER_BYTES + count * width > |input| ==> CBlock(input, budget) == None) &&
            (fits && HEADER_BYTES + count * width <= |input| ==>
              CBlock(input, budget) == Some(Block(input[0], Cut(input[HEADER_BYTES..][..count * width], width))) &&
              CBlock(input, budget).value.Size() == HEADER_BYTES + count * width)
  {
    var width, count := Width(input[0]), CountOf(input[1..]);
    if width > 0 && budget >= HEADER_BYTES && count <= (budget - HEADER_BYTES) / width {
      DivisionBound(count, width, budget - HEADER_BYTES);
      hide CountOf, Width, Cut;
      if HEADER_BYTES + count * width <= |input| {
        assert input[HEADER_BYTES..][..count * width] == input[HEADER_BYTES..Announced(input)];
      }
    }
  }

  /** `recv_block`: null for -1, because of the data unless reading or memory failed. The header is read before the
      budget is looked at. */
  method RecvCBlock(sock: Socket, budget: nat) returns (b: MessageBlock?, size: nat, ghost n: nat)
    requires budget <= MAX_MESSAGE_BYTES
    modifies sock
    ensures n <= |old(sock.input)| && sock.input == old(sock.input)[n..]
    ensures n > HEADER_BYTES ==> n <= budget
    ensures b != null ==> fresh(b) && fresh(b.bytes) && b.Shaped() && b.Ok()
    ensures b != null ==> CBlock(old(sock.input), budget) == Some(b.View()) && n == size == b.View().Size()
    ensures b == null ==> sock.failed || CBlock(old(sock.input), budget) == None
    ensures !sock.failed ==> n == Taken(old(sock.input), budget)
    ensures !sock.failed ==> (n <= budget <==> budget >= HEADER_BYTES || |old(sock.input)| <= budget)
  {
    ghost var input := sock.input;
    TakenWithinBudgetIff(input, budget);
    if |input| >= HEADER_BYTES {
      HeaderDecides(input, budget);
    } else {
      assert CBlock(input, budget) == None && Taken(input, budget) == |input|;
    }
    hide CBlock, Taken, Cut, Block.Size;
    b, size := null, 0;
    var header, taken := ExactRead(sock, HEADER_BYTES);
    n := taken;
    if !header.Full? {
      return;
    }
    var h := header.data;
    var width, count := Width(h[0]), CountOf(h[1..]);
    assert count == CountOf(input[1..]);
    hide CountOf, Width;
    if width == 0 {
      return;
    }
    if budget < HEADER_BYTES || count > (budget - HEADER_BYTES) / width {
      return;
    }
    RoomInLimit(count, width, budget);
    var memory := Allocate(sock);
    var block := MessageBlock.Construct(h[0], count, memory);
    if block == null {
      return;
    }
    var ok, more := FillBlock(block, sock);
    n := n + more;
    assert sock.input == input[n..];
    if ok {
      b, size := block, HEADER_BYTES + count * width;
    }
  }

  lemma RoomInLimit(count: nat, width: nat, budget: nat)
    requires width > 0 && HEADER_BYTES <= budget <= MAX_MESSAGE_BYTES && count <= (budget - HEADER_BYTES) / width
    ensures count <= (MAX_MESSAGE_BYTES - HEADER_BYTES) / width
  {
    DivisionBound(count, width, budget - HEADER_BYTES);
    DivisionBound(count, width, MAX_MESSAGE_BYTES - HEADER_BYTES);
  }

  function Prepend(blocks: seq<Block>, used: nat, rest: CReceived): CReceived {
    if rest.Message? then Message(blocks + rest.blocks, used + rest.used) else Error(used + rest.Bytes())
  }

  /** What the whole frame comes to, `used` bytes and `blocks` into it, with `rest` still to read. */
  function Outlook(rest: seq<byte>, used: nat, blocks: seq<Block>, n: nat, budget: nat, first: bool): CReceived {
    Prepend(blocks, used, CBlocks(rest, n, budget, first))
  }

  lemma OutlookOneMore(rest: seq<byte>, used: nat, blocks: seq<Block>, n: nat, budget: nat, first: bool, b: Block)
    requires n > 0 && CBlock(rest, budget) == Some(b) && (first ==> b == MAGIC)
    ensures b.Size() <= Min(|rest|, budget)
    ensures Outlook(rest, used, blocks, n, budget, first)
         == Outlook(rest[b.Size()..], used + b.Size(), blocks + [b], n - 1, budget - b.Size(), false)
  {
    BlocksAgree(rest, budget);
    hide CBlock, ReceiveBlock, FirstBlock, Width, CountOf, Announced;
    var more := CBlocks(rest[b.Size()..], n - 1, budget - b.Size(), false);
    if more.Message? {
      assert blocks + ([b] + more.blocks) == (blocks + [b]) + more.blocks;
    }
  }

  lemma OutlookRefused(rest: seq<byte>, used: nat, blocks: seq<Block>, n: nat, budget: nat, first: bool)
    requires n > 0 && Refuses(CBlock(rest, budget), first)
    ensures Outlook(rest, used, blocks, n, budget, first) == Error(used + Taken(rest, budget))
  {
    hide CBlock;
  }

  lemma OutlookAtStart(input: seq<byte>, n: nat, budget: nat)
    ensures Outlook(input, 0, [], n, budget, true) == CBlocks(input, n, budget, true)
  {
    hide CBlocks;
    var whole := CBlocks(input, n, budget, true);
    if whole.Message? {
      assert [] + whole.blocks == whole.blocks;
    }
  }

  lemma OutlookAtEnd(rest: seq<byte>, used: nat, blocks: seq<Block>, budget: nat)
    ensures Outlook(rest, used, blocks, 0, budget, false) == Message(blocks, used)
  {}

  /** `message_recv`'s result: the frame size, 0 for a peer gone between frames, or -1. */
  datatype CReply = Received(total: nat) | PeerGone | Failed

  /** One round of `message_recv`'s loop: a block is read, appended and, if it is the first, checked. */
  method TakeBlock(m: CMessage, sock: Socket, first: bool, budget: nat)
    returns (ok: bool, size: nat, ghost n: nat, ghost block: Block)
    requires m.Valid() && m.valid && AllShaped(m.Held()) && m.count < MAX_BLOCKS
    requires (first <==> m.count == 0) && budget <= MAX_MESSAGE_BYTES
    modifies sock, m, m.blocks
    ensures n <= |old(sock.input)| && sock.input == old(sock.input)[n..]
    ensures n > HEADER_BYTES ==> n <= budget
    ensures m.Valid() && (m.blocks == old(m.blocks) || fresh(m.blocks))
    ensures ok ==> m.valid && AllShaped(m.Held()) && m.count == old(m.count) + 1
    ensures ok ==> CBlock(old(sock.input), budget) == Some(block) && (first ==> block == MAGIC)
    ensures ok ==> Views(m.Held()) == old(Views(m.Held())) + [block] && n == size == block.Size()
    ensures !ok ==> sock.failed || Refuses(CBlock(old(sock.input), budget), first)
    ensures !ok && !sock.failed ==> n == Taken(old(sock.input), budget)
  {
    hide CBlock, Views, Block.Size;
    ghost var held, views := m.Held(), Views(m.Held());
    var b, length, more := RecvCBlock(sock, budget);
    ok, size, n, block := false, length, more, MAGIC;
    if b == null {
      return;
    }
    block := b.View();
    var memory := Allocate(sock);
    m.Append(b, memory);
    if !m.valid {
      return;
    }
    ViewsOneMore(held, b);
    assert Views(held) == views;
    ok := true;
    if first {
      ok := m.MagicOk();
    }
  }

  /** The block loop of `message_recv`: null when a block is refused, or when reading or memory fails. */
  method RecvCBlocks(sock: Socket, count: nat) returns (m: CMessage?, total: nat, ghost n: nat)
    requires 1 <= count <= MAX_BLOCKS
    modifies sock
    ensures n <= |old(sock.input)| && sock.input == old(sock.input)[n..] && n <= BLOCK_BUDGET + HEADER_BYTES
    ensures m != null ==> fresh(m) && m.Valid() && m.valid && AllShaped(m.Held()) && total == COUNT_BYTES + n
    ensures m != null ==> CBlocks(old(sock.input), count, BLOCK_BUDGET, true) == Message(Views(m.Held()), n)
    ensures m == null ==> sock.failed || CBlocks(old(sock.input), count, BLOCK_BUDGET, true) == Error(n)
  {
    hide CBlock, CBlocks, Views, Outlook, Refuses, AllShaped, Block.Size;
    ghost var input := sock.input;
    var memory := Allocate(sock);
    var message := CMessage.Construct(memory);
    if message == null {
      return null, COUNT_BYTES, 0;
    }
    ghost var views := Views(message.Held());
    n, total := 0, COUNT_BYTES;
    var budget, first := BLOCK_BUDGET, true;
    OutlookAtStart(input, count, budget);
    ghost var left := count;
    for i := 0 to count
      invariant n <= |input| && sock.input == input[n..] && total == COUNT_BYTES + n == MAX_MESSAGE_BYTES - budget
      invariant message.Valid() && message.valid && message.count == i == count - left && fresh(message.blocks)
      invariant AllShaped(message.Held()) && Views(message.Held()) == views
      invariant CBlocks(input, count, BLOCK_BUDGET, true) == Outlook(sock.input, n, views, left, budget, first)
      invariant first <==> i == 0
    {
      ghost var rest := sock.input;
      var ok, size, more, block := TakeBlock(message, sock, first, budget);
      assert sock.input == input[n + more..];
      if !ok {
        if !sock.failed {
          OutlookRefused(rest, n, views, left, budget, first);
        }
        return null, total, n + more;
      }
      OutlookOneMore(rest, n, views, left, budget, first, block);
      n, total, budget := n + size, total + size, budget - size;
      left, first := left - 1, false;
      views := views + [block];
    }
    OutlookAtEnd(sock.input, n, views, budget);
    return message, total, n;
  }

  /** `message_recv`. The first byte is waited for separately, so that an idle client is not timed out. */
  method MessageRecv(sock: Socket) returns (m: CMessage?, reply: CReply, ghost n: nat)
    modifies sock
    ensures n <= |old(sock.input)| && sock.input == old(sock.input)[n..] && n <= MAX_MESSAGE_BYTES + HEADER_BYTES
    ensures m != null <==> reply.Received?
    ensures m != null ==> fresh(m) && m.Valid() && m.valid && AllShaped(m.Held()) && reply.total == n
    ensures m != null ==> CReceive(old(sock.input)) == Message(Views(m.Held()), n)
    ensures reply.PeerGone? ==> CReceive(old(sock.input)) == Idle && n == 0
    ensures reply.Failed? ==> sock.failed || CReceive(old(sock.input)) == Error(n)
    ensures !sock.failed ==> (n > MAX_MESSAGE_BYTES <==> Overshoots(old(sock.input)))
  {
    hide CBlocks, Views, AllShaped, Overshoots;
    ghost var input := sock.input;
    OvershootIff(input);
    m, reply := null, Failed;
    var first, taken := ExactRead(sock, 1);
    n := taken;
    if !first.Full? {
      reply := if first.Gone? then PeerGone else Failed;
      return;
    }
    var rest, three := ExactRead(sock, COUNT_BYTES - 1);
    n := n + three;
    assert sock.input == input[n..];
    if !rest.Full? {
      return;
    }
    var prefix := first.data + rest.data;
    var count := CountOf(prefix);
    assert count == CountOf(input);
    hide CountOf;
    if count == 0 || count > MAX_BLOCKS {
      return;
    }
    var message, total, more := RecvCBlocks(sock, count);
    n := n + more;
    assert sock.input == input[n..];
    if message == null {
      return;
    }
    m, reply := message, Received(total);
  }

  // ---------- Sending ----------

  /** A stream socket being written to: everything accepted so far, and whether anything failed. */
  class Wire {
    var sent: seq<byte>
    var patience: nat
    ghost var failed: bool

    /** `wait_fd`, as for reading. */
    method Wait() returns (w: Wakeup)
      modifies `patience, `failed
      ensures if w.Broken? then failed else patience < old(patience) && failed == old(failed)
    {
      w := *;
      if patience == 0 || w == Broken {
        failed := true;
        return Broken;
      }
      patience := patience - 1;
    }

    /** `send`: takes some of the data; none at all is an error. */
    method Send(data: seq<byte>) returns (k: nat)
      modifies `sent, `failed
      ensures k <= |data| && sent == old(sent) + data[..k] && failed == (old(failed) || k == 0)
    {
      var most: int := *;
      k := if most <= 0 then 0 else Min(most, |data|);
      sent := sent + data[..k];
      failed := failed || k == 0;
    }
  }

  /** `exact_io`, writing. */
  method ExactWrite(wire: Wire, data: seq<byte>) returns (ok: bool, ghost n: nat)
    modifies wire
    ensures n <= |data| && wire.sent == old(wire.sent) + data[..n]
    ensures if ok then n == |data| && wire.sent == old(wire.sent) + data else wire.failed
  {
    var done: nat := 0;
    while done < |data|
      invariant done <= |data| && wire.sent == old(wire.sent) + data[..done]
      decreases wire.patience
    {
      var w := wire.Wait();
      if w == Interrupted {
        continue;
      }
      if w == Broken {
        return false, done;
      }
      var k := wire.Send(data[done..]);
      assert data[..done] + data[done..][..k] == data[..done + k];
      done := done + k;
      if k == 0 {
        return false, done;
      }
    }
    return true, done;
  }

  lemma WireForm(b: MessageBlock)
    requires b.Shaped()
    ensures b.View().Size() == HEADER_BYTES + b.used * Width(b.kind)
    ensures b.used * Width(b.kind) <= b.bytes.Length
    ensures BlockBytes(b.View()) == [b.kind] + Count(b.used) + b.bytes[..b.used * Width(b.kind)]
    ensures |BlockBytes(b.View())| == b.View().Size()
  {
    UsedBytes(b.used, b.count, Width(b.kind));
    JoinedCut(b.bytes[..b.used * Width(b.kind)], Width(b.kind), b.used);
  }

  /** `send_block`; `n` bytes of the block's wire form are written. */
  method SendBlock(b: MessageBlock, wire: Wire) returns (ok: bool, ghost n: nat)
    requires b.Shaped()
    modifies wire
    ensures n <= |BlockBytes(old(b.View()))| && wire.sent == old(wire.sent) + BlockBytes(old(b.View()))[..n]
    ensures ok ==> b.Ok() && n == |BlockBytes(old(b.View()))|
    ensures !ok ==> wire.failed || !b.Ok()
    ensures !b.Ok() ==> n == 0
  {
    n := 0;
    assert BlockBytes(b.View())[..0] == [];
    if !b.Ok() {
      return false, 0;
    }
    WireForm(b);
    var header := [b.kind] + Count(b.used);
    var payload := b.bytes[..b.used * Width(b.kind)];
    ghost var before, whole := wire.sent, header + payload;
    assert whole == BlockBytes(b.View());
    hide Count, Width, Cut;
    ok, n := ExactWrite(wire, header);
    assert header[..n] == whole[..n];
    if ok {
      ghost var more;
      ok, more := ExactWrite(wire, payload);
      assert header + payload[..more] == whole[..n + more];
      n := n + more;
    }
  }

  datatype SendResult = Sent(size: nat) | Invalid | TooBig | SendFailed

  /** What `message_send` requires of a message. */
  ghost predicate Sendable(m: CMessage)
    requires m.Valid() && AllShaped(m.Held())
    reads m, m.blocks, set b: MessageBlock | b in m.Held(), set b: MessageBlock | b in m.Held() :: b.bytes
  {
    m.valid && (forall i :: 0 <= i < m.count ==> m.blocks[i].Ok()) &&
    m.count > 0 && m.blocks[0].View() == MAGIC && Encodable(Views(m.Held()))
  }

  lemma {:induction false} SizesOneMore(blocks: seq<Block>, b: Block)
    ensures Sizes(blocks + [b]) == Sizes(blocks) + b.Size()
  {
    hide Block.Size;
    if blocks == [] {
      assert blocks + [b] == [b];
    } else {
      assert (blocks + [b])[1..] == blocks[1..] + [b];
      SizesOneMore(blocks[1..], b);
    }
  }

  function SizeBefore(views: seq<Block>, i: nat): nat
    requires i <= |views|
  {
    COUNT_BYTES + Sizes(views[..i])
  }

  lemma NextSize(views: seq<Block>, i: nat)
    requires i < |views|
    ensures SizeBefore(views, i + 1) == SizeBefore(views, i) + views[i].Size() <= COUNT_BYTES + Sizes(views)
  {
    hide Sizes, Block.Size;
    SizesOneMore(views[..i], views[i]);
    assert views[..i] + [views[i]] == views[..i + 1];
    SizesGrow(views, i + 1);
  }

  lemma SizeEnds(views: seq<Block>)
    ensures SizeBefore(views, 0) == COUNT_BYTES && SizeBefore(views, |views|) == COUNT_BYTES + Sizes(views)
  {
    assert views[..|views|] == views;
  }

  lemma {:induction false} SizesGrow(blocks: seq<Block>, i: nat)
    requires i <= |blocks|
    ensures Sizes(blocks[..i]) <= Sizes(blocks)
  {
    if i > 0 {
      SizesGrow(blocks[1..], i - 1);
      assert blocks[..i][1..] == blocks[1..][..i - 1];
    }
  }

  lemma Refused(m: CMessage, i: nat)
    requires m.Valid() && AllShaped(m.Held()) && i < m.count
    requires !m.blocks[i].Ok() || (i == 0 && m.blocks[i].View() != MAGIC)
    ensures !Sendable(m)
  {}

  lemma Accepts(m: CMessage)
    requires m.Valid() && AllShaped(m.Held()) && m.valid && m.count > 0 && m.blocks[0].View() == MAGIC
    requires forall i :: 0 <= i < m.count ==> m.blocks[i].Ok()
    ensures Sendable(m) <==> COUNT_BYTES + Sizes(Views(m.Held())) <= MAX_MESSAGE_BYTES
  {
    var views := Views(m.Held());
    forall i | 0 <= i < |views| ensures views[i].Typed() {
      ViewAt(m.Held(), i);
    }
    hide Sizes, Views, Block.Typed;
  }

  lemma TooLarge(m: CMessage)
    requires m.Valid() && AllShaped(m.Held()) && COUNT_BYTES + Sizes(Views(m.Held())) > MAX_MESSAGE_BYTES
    ensures !Sendable(m)
  {
    hide Sizes, Views;
  }

  /** The first loop of `message_send`: the size to be sent, when the message may be sent at all. */
  method CheckedSize(m: CMessage) returns (r: SendResult)
    requires m.Valid() && AllShaped(m.Held())
    ensures r.Sent? <==> Sendable(m)
    ensures r.Sent? ==> r.size == COUNT_BYTES + Sizes(Views(m.Held()))
    ensures !r.SendFailed?
  {
    ghost var views := Views(m.Held());
    SizeEnds(views);
    var magic := m.MagicOk();
    if !magic {
      return Invalid;
    }
    hide Views, Width, Sizes, Block.Size, Block.Typed, AllShaped, Sendable;
    hide MessageBlock.Ok, MessageBlock.Shaped, MessageBlock.View, BlockBytes, SizeBefore;
    var size := COUNT_BYTES;
    for i := 0 to m.count
      invariant size == SizeBefore(views, i) <= MAX_MESSAGE_BYTES
      invariant forall j :: 0 <= j < i ==> m.blocks[j].Ok()
    {
      var b := m.blocks[i];
      assert b == m.Held()[i];
      if !b.Ok() {
        Refused(m, i);
        return Invalid;
      }
      ViewAt(m.Held(), i);
      NextSize(views, i);
      WireForm(b);
      var n := HEADER_BYTES + b.used * Width(b.kind);
      if n > MAX_MESSAGE_BYTES - size {
        TooLarge(m);
        return TooBig;
      }
      size := size + n;
    }
    Accepts(m);
    return Sent(size);
  }

  function SentBefore(views: seq<Block>, i: nat): seq<byte>
    requires i <= |views| && Encodable(views)
  {
    CountsFit(views);
    Count(|views|) + AllBytes(views[..i])
  }

  lemma SentOneMore(views: seq<Block>, i: nat)
    requires i < |views| && Encodable(views)
    ensures |views[i].values| < 0x1_0000_0000
    ensures SentBefore(views, i + 1) == SentBefore(views, i) + BlockBytes(views[i]) <= Encode(views)
  {
    CountsFit(views);
    hide BlockBytes, AllBytes, Width;
    AllBytesAppend(views[..i], views[i]);
    assert views[..i] + [views[i]] == views[..i + 1];
    AllBytesSplit(views[..i + 1], views[i + 1..]);
    assert views[..i + 1] + views[i + 1..] == views;
  }

  lemma {:induction false} AllBytesSplit(a: seq<Block>, b: seq<Block>)
    requires forall k :: 0 <= k < |a| ==> |a[k].values| < 0x1_0000_0000
    requires forall k :: 0 <= k < |b| ==> |b[k].values| < 0x1_0000_0000
    ensures AllBytes(a + b) == AllBytes(a) + AllBytes(b)
  {
    hide BlockBytes;
    if a == [] {
      assert a + b == b;
    } else {
      assert (a + b)[1..] == a[1..] + b;
      AllBytesSplit(a[1..], b);
    }
  }

  lemma SentEnds(views: seq<Block>)
    requires Encodable(views)
    ensures SentBefore(views, 0) == Count(|views|) <= Encode(views)
    ensures SentBefore(views, |views|) == Encode(views) && |Encode(views)| == COUNT_BYTES + Sizes(views)
  {
    EncodeSize(views);
    assert views[..|views|] == views;
  }

  lemma MoreSent(before: seq<byte>, done: seq<byte>, part: seq<byte>)
    ensures before + done + part == before + (done + part)
  {}

  lemma PartSent(before: seq<byte>, done: seq<byte>, part: seq<byte>, k: nat, whole: seq<byte>)
    requires done + part <= whole && k <= |part|
    ensures before + done + part[..k] == before + whole[..|done| + k]
  {
    assert whole[..|done| + k] == (done + part)[..|done| + k];
  }

  ghost predicate AllOk(bs: seq<MessageBlock?>)
    requires AllShaped(bs)
    reads set b: MessageBlock | b in bs
  {
    forall i :: 0 <= i < |bs| ==> bs[i].Ok()
  }

  /** One round of the sending loop. */
  method SendNext(m: CMessage, i: nat, wire: Wire, ghost views: seq<Block>) returns (ok: bool, ghost n: nat)
    requires m.Valid() && AllShaped(m.Held()) && Views(m.Held()) == views && i < m.count
    requires |views[i].values| < 0x1_0000_0000 && AllOk(m.Held())
    modifies wire
    ensures n <= |BlockBytes(views[i])| && wire.sent == old(wire.sent) + BlockBytes(views[i])[..n]
    ensures if ok then wire.sent == old(wire.sent) + BlockBytes(views[i]) else wire.failed
    ensures m.Valid() && AllShaped(m.Held()) && Views(m.Held()) == views && AllOk(m.Held())
  {
    ViewAt(m.Held(), i);
    var b := m.blocks[i];
    assert b == m.Held()[i];
    hide Views, BlockBytes, AllShaped;
    ok, n := SendBlock(b, wire);
  }

  /** The sending half of `message_send`: `n` bytes of the encoding get out, all of them if `ok`. */
  method SendChecked(m: CMessage, wire: Wire, ghost views: seq<Block>) returns (ok: bool, ghost n: nat)
    requires m.Valid() && AllShaped(m.Held()) && Views(m.Held()) == views && Encodable(views) && AllOk(m.Held())
    modifies wire
    ensures n <= |Encode(views)| && wire.sent == old(wire.sent) + Encode(views)[..n]
    ensures if ok then n == |Encode(views)| else wire.failed
  {
    ghost var before := wire.sent;
    SentEnds(views);
    var prefix := Count(m.count);
    hide *;
    ok, n := ExactWrite(wire, prefix);
    if !ok {
      PartSent(before, [], prefix, n, Encode(views));
      return;
    }
    for i := 0 to m.count
      invariant wire.sent == before + SentBefore(views, i)
      invariant m.Valid() && AllShaped(m.Held()) && Views(m.Held()) == views && AllOk(m.Held())
    {
      SentOneMore(views, i);
      ghost var more;
      ok, more := SendNext(m, i, wire, views);
      if !ok {
        PartSent(before, SentBefore(views, i), BlockBytes(views[i]), more, Encode(views));
        return ok, |SentBefore(views, i)| + more;
      }
      MoreSent(before, SentBefore(views, i), BlockBytes(views[i]));
    }
    return true, |Encode(views)|;
  }

  /** `message_send`: the whole encoding, or a reason; nothing at all of a message that may not be sent. */
  method MessageSend(m: CMessage, wire: Wire) returns (r: SendResult, ghost n: nat)
    requires m.Valid() && AllShaped(m.Held())
    modifies wire
    ensures r.Invalid? || r.TooBig? <==> !old(Sendable(m))
    ensures !old(Sendable(m)) ==> wire.sent == old(wire.sent)
    ensures old(Sendable(m)) ==> n <= |Encode(old(Views(m.Held())))|
    ensures old(Sendable(m)) ==> wire.sent == old(wire.sent) + Encode(old(Views(m.Held())))[..n]
    ensures r.Sent? ==> n == r.size == |Encode(old(Views(m.Held())))|
    ensures r.SendFailed? ==> wire.failed
  {
    n := 0;
    r := CheckedSize(m);
    if !r.Sent? {
      return;
    }
    ghost var views := Views(m.Held());
    assert Encodable(views) && AllOk(m.Held());
    EncodeSize(views);
    hide *;
    var ok, sent := SendChecked(m, wire, views);
    n := sent;
    if !ok {
      r := SendFailed;
    }
  }

  // ---------- Requests ----------

  const REQUEST_FIELDS: nat := 4

  /** The type of each field: command, subsystem, channel, numeric. */
  function FieldKind(i: nat): byte {
    if i < 2 then 85 else if i == 2 then 67 else 70
  }

  predicate IsField(b: Block, i: nat) {
    b.kind == FieldKind(i) && |b.values| == 1
  }

  /** The shape of a request: the magic block, then one element in each field. */
  predicate RequestShape(blocks: seq<Block>) {
    |blocks| == REQUEST_FIELDS + 1 && blocks[0] == MAGIC &&
    forall k :: 1 <= k < |blocks| ==> IsField(blocks[k], k - 1)
  }

  /** `message_is_request`. */
  method IsRequest(m: CMessage) returns (ok: bool)
    requires m.Valid() && AllShaped(m.Held())
    ensures ok <==> m.valid && (forall i :: 0 <= i < m.count ==> m.blocks[i].Ok()) && RequestShape(Views(m.Held()))
  {
    ghost var views := Views(m.Held());
    var magic := m.MagicOk();
    if m.count > 0 {
      ViewAt(m.Held(), 0);
    }
    if !magic || m.count != REQUEST_FIELDS + 1 {
      return false;
    }
    hide Views, Width, AllShaped, FieldKind, MessageBlock.Ok, MessageBlock.Shaped, MessageBlock.View, Block.Typed;
    for i := 0 to REQUEST_FIELDS
      invariant forall j :: 0 <= j <= i ==> m.blocks[j].Ok()
      invariant forall k :: 1 <= k <= i ==> IsField(views[k], k - 1)
    {
      var b := m.blocks[i + 1];
      assert b == m.Held()[i + 1];
      ViewAt(m.Held(), i + 1);
      assert IsField(views[i + 1], i) <==> b.kind == FieldKind(i) && b.used == 1;
      if !b.Ok() || b.kind != FieldKind(i) || b.used != 1 {
        return false;
      }
    }
    return true;
  }

  /** `encode_request` of the client: the fields as packed values. */
  function Request(command: seq<byte>, subsystem: seq<byte>, channel: byte, numeric: seq<byte>): seq<Block> {
    [MAGIC, Block(85, [command]), Block(85, [subsystem]), Block(67, [[channel]]), Block(70, [numeric])]
  }

  lemma OneElement(kind: byte, value: seq<byte>)
    ensures BlockBytes(Block(kind, [value])) == [kind, 1, 0, 0, 0] + value
  {
    assert Joined([value]) == value + Joined([value][1..]);
    assert Count(1) == [1, 0, 0, 0];
  }

  lemma AllBytesCons(b: Block, rest: seq<Block>)
    requires |b.values| < 0x1_0000_0000 && forall i :: 0 <= i < |rest| ==> |rest[i].values| < 0x1_0000_0000
    ensures AllBytes([b] + rest) == BlockBytes(b) + AllBytes(rest)
  {
    assert ([b] + rest)[1..] == rest;
  }

  lemma RequestBytes(command: seq<byte>, subsystem: seq<byte>, channel: byte, numeric: seq<byte>)
    requires |command| == |subsystem| == |numeric| == 4
    ensures Encodable(Request(command, subsystem, channel, numeric))
    ensures Encode(Request(command, subsystem, channel, numeric)) ==
      [5, 0, 0, 0] + [67, 4, 0, 0, 0, 76, 86, 72, 86] + [85, 1, 0, 0, 0] + command +
      [85, 1, 0, 0, 0] + subsystem + [67, 1, 0, 0, 0, channel] + [70, 1, 0, 0, 0] + numeric
  {
    assert Count(5) == [5, 0, 0, 0];
    hide BlockBytes, AllBytes, Joined, Width, Sizes, Count, Encodable;
    MagicBytes();
    OneElement(85, command);
    OneElement(85, subsystem);
    OneElement(67, [channel]);
    OneElement(70, numeric);
    RequestFits(command, subsystem, channel, numeric);
    var c, u := Block(67, [[channel]]), Block(85, [subsystem]);
    var f4 := [Block(70, [numeric])];
    assert f4 == [Block(70, [numeric])] + [];
    var blocks := [MAGIC] + ([Block(85, [command])] + ([u] + ([c] + f4)));
    assert blocks == Request(command, subsystem, channel, numeric);
    AllBytesCons(Block(70, [numeric]), []);
    AllBytesCons(c, f4);
    AllBytesCons(u, [c] + f4);
    AllBytesCons(Block(85, [command]), [u] + ([c] + f4));
    AllBytesCons(MAGIC, [Block(85, [command])] + ([u] + ([c] + f4)));
  }

  lemma RequestHasShape(command: seq<byte>, subsystem: seq<byte>, channel: byte, numeric: seq<byte>)
    ensures RequestShape(Request(command, subsystem, channel, numeric))
  {}

  /** What the client sends as a request is received whole by the server, and is a request to it. */
  lemma RequestsArrive(command: seq<byte>, subsystem: seq<byte>, channel: byte, numeric: seq<byte>, tail: seq<byte>)
    requires |command| == |subsystem| == |numeric| == 4
    ensures var blocks := Request(command, subsystem, channel, numeric);
            Encodable(blocks) && RequestShape(blocks) &&
            Encode(blocks) ==
              [5, 0, 0, 0] + [67, 4, 0, 0, 0, 76, 86, 72, 86] + [85, 1, 0, 0, 0] + command +
              [85, 1, 0, 0, 0] + subsystem + [67, 1, 0, 0, 0, channel] + [70, 1, 0, 0, 0] + numeric &&
            CReceive(Encode(blocks) + tail) == Message(blocks, |Encode(blocks)|)
  {
    var blocks := Request(command, subsystem, channel, numeric);
    RequestBytes(command, subsystem, channel, numeric);
    RequestHasShape(command, subsystem, channel, numeric);
    hide Encode, CReceive, Receive, Encodable, RequestShape;
    EncodedReplyArrives(blocks, tail);
  }

  /** Any encodable message that starts with the magic block crosses to the other side as it is. */
  lemma EncodedReplyArrives(blocks: seq<Block>, tail: seq<byte>)
    requires Encodable(blocks) && blocks[0] == MAGIC
    ensures CReceive(Encode(blocks) + tail) == Message(blocks, |Encode(blocks)|)
    ensures ReceiveReply(Encode(blocks) + tail) == Accepted(blocks, |Encode(blocks)|)
  {
    hide Encode, Receive, CReceive, Sizes, AllTyped;
    ReceiveEncoding(blocks, tail, MAX_BLOCKS, MAX_MESSAGE_BYTES, None);
    CAgreesWithPython(Encode(blocks) + tail, blocks, |Encode(blocks)|);
  }

  /** The types of the protocol and the bytes of their elements. */
  predicate IsType(kind: byte, width: nat) {
    (kind == 67 && width == 1) ||                               // C
    ((kind == 73 || kind == 85 || kind == 70) && width == 4) || // I, U, F
    (kind == 68 && width == 8)                                  // D
  }

  lemma WidthIsType(kind: byte, width: nat)
    ensures width > 0 ==> (Width(kind) == width <==> IsType(kind, width))
    ensures Width(kind) == 0 <==> !IsType(kind, 1) && !IsType(kind, 4) && !IsType(kind, 8)
  {}

  lemma MagicBytes()
    ensures BlockBytes(MAGIC) == [67, 4, 0, 0, 0, 76, 86, 72, 86] && MAGIC.Size() == 9 && MAGIC.Typed()
  {
    var v4: seq<seq<byte>> := [[76], [86], [72], [86]];
    assert v4[1..] == [[86], [72], [86]] && v4[1..][1..] == [[72], [86]] && v4[1..][1..][1..] == [[86]];
    assert Joined([[86 as byte]]) == [86 as byte] + Joined([]);
  }

  lemma TwoBlockMessage(b: Block)
    requires b.Typed() && COUNT_BYTES + 9 + b.Size() <= MAX_MESSAGE_BYTES
    ensures Encodable([MAGIC, b]) && |b.values| < 0x1_0000_0000
    ensures Encode([MAGIC, b]) == [2, 0, 0, 0] + [67, 4, 0, 0, 0, 76, 86, 72, 86] + BlockBytes(b)
  {
    var blocks := [MAGIC, b];
    MagicBytes();
    assert blocks[1..] == [b] && [b][1..] == [];
    assert Sizes([b]) == b.Size() + Sizes([]);
    assert |b.values| * Width(b.kind) >= |b.values|;
    hide BlockBytes;
    assert AllBytes([b]) == BlockBytes(b) + AllBytes([]);
    assert AllBytes(blocks) == BlockBytes(MAGIC) + AllBytes([b]);
    assert Count(2) == [2, 0, 0, 0];
  }

  /** Every reply of one block of a known type, with elements of its width, is encoded as these bytes and received whole
      on both sides: the acknowledgement of a command, an integer, is one. */
  lemma RepliesArrive(kind: byte, width: nat, values: seq<seq<byte>>, tail: seq<byte>)
    requires IsType(kind, width) && forall i :: 0 <= i < |values| ==> |values[i]| == width
    requires 18 + |values| * width <= 67108864
    ensures var blocks := [MAGIC, Block(kind, values)];
            Encodable(blocks) && |values| < 0x1_0000_0000 &&
            Encode(blocks) ==
              [2, 0, 0, 0] + [67, 4, 0, 0, 0, 76, 86, 72, 86] + ([kind] + Count(|values|) + Joined(values)) &&
            CReceive(Encode(blocks) + tail) == Message(blocks, |Encode(blocks)|) &&
            ReceiveReply(Encode(blocks) + tail) == Accepted(blocks, |Encode(blocks)|)
  {
    WidthIsType(kind, width);
    TwoBlockMessage(Block(kind, values));
    hide Encode, CReceive, Receive;
    EncodedReplyArrives([MAGIC, Block(kind, values)], tail);
  }

  /** A block of any other type is refused on both sides, whatever follows its type code. */
  lemma UnknownTypesRefused(input: seq<byte>, budget: nat, maxElements: Option<nat>)
    requires input != [] && !IsType(input[0], 1) && !IsType(input[0], 4) && !IsType(input[0], 8)
    ensures CBlock(input, budget).None? && !ReceiveBlock(input, budget, maxElements).Accepted?
  {
    WidthIsType(input[0], 1);
  }

  /** So all a receiver ever accepts is of the known types, each element of the width of its type. */
  lemma AcceptedTypes(input: seq<byte>, i: nat, j: nat)
    requires CReceive(input).Message? && i < |CReceive(input).blocks| && j < |CReceive(input).blocks[i].values|
    ensures var b := CReceive(input).blocks[i]; IsType(b.kind, |b.values[j]|)
  {
    var r := CReceive(input);
    CAgreesWithPython(input, r.blocks, r.used);
    OnlyEncodingsAccepted(input, MAX_BLOCKS, MAX_MESSAGE_BYTES, None);
    assert r.blocks[i].Typed();
    WidthIsType(r.blocks[i].kind, |r.blocks[i].values[j]|);
  }

  lemma RequestFits(command: seq<byte>, subsystem: seq<byte>, channel: byte, numeric: seq<byte>)
    requires |command| == |subsystem| == |numeric| == 4
    ensures var blocks := Request(command, subsystem, channel, numeric); Encodable(blocks) && Sizes(blocks) == 42
  {
    var blocks := Request(command, subsystem, channel, numeric);
    var f4, f3 := [Block(70, [numeric])], [Block(67, [[channel]]), Block(70, [numeric])];
    var f2 := [Block(85, [subsystem])] + f3;
    var f1 := [Block(85, [command])] + f2;
    assert f4[1..] == [] && f3[1..] == f4 && f2[1..] == f3 && f1[1..] == f2 && blocks[1..] == f1;
    assert Sizes(f4) == 9 && Sizes(f3) == 6 + Sizes(f4) && Sizes(f2) == 9 + Sizes(f3) && Sizes(f1) == 9 + Sizes(f2);
  }
}
