/** The LVHV message format (protocol/lvhv.json): a block count, then blocks of a type code, an
    element count and the elements. Numbers travel as opaque byte groups of their type's width. */
module LvhvWire {
  import opened Bits
  import opened Options

  const COUNT_BYTES: nat := 4
  const HEADER_BYTES: nat := 5
  const MAX_BLOCKS: nat := 1024
  const MAX_MESSAGE_BYTES: nat := 67108864
  const KIND_C: byte := 67

  /** Bytes per element, 0 for an unknown type code. */
  function Width(kind: byte): nat {
    if kind == KIND_C then 1
    else if kind == 73 || kind == 85 || kind == 70 then 4  // I, U, F
    else if kind == 68 then 8                              // D
    else 0
  }

  datatype Block = Block(kind: byte, values: seq<seq<byte>>)
  {
    /** What packing and unpacking an element of this type guarantees. */
    predicate Typed() {
      Width(kind) > 0 && forall i :: 0 <= i < |values| ==> |values[i]| == Width(kind)
    }

    function Size(): nat {
      HEADER_BYTES + |values| * Width(kind)
    }
  }

  const MAGIC: Block := Block(KIND_C, [[76], [86], [72], [86]])  // "LVHV"

  function Count(n: nat): seq<byte>
    requires n < 0x1_0000_0000
  {
    [n % 0x100, n / 0x100 % 0x100, n / 0x1_0000 % 0x100, n / 0x100_0000]
  }

  function CountOf(b: seq<byte>): (n: nat)
    requires |b| >= COUNT_BYTES
  {
    FromCount(b[0], b[1], b[2], b[3])
  }

  function FromCount(a: nat, b: nat, c: nat, d: nat): nat {
    a + 0x100 * b + 0x1_0000 * c + 0x100_0000 * d
  }

  lemma CountRoundTrip(n: nat, rest: seq<byte>)
    requires n < 0x1_0000_0000
    ensures CountOf(Count(n) + rest) == n
  {
    DigitsOfCount(n, n / 0x100, n / 0x1_0000, n / 0x100_0000);
  }

  lemma DigitsOfCount(n: nat, n1: nat, n2: nat, n3: nat)
    requires n1 == n / 0x100 && n2 == n / 0x1_0000 && n3 == n / 0x100_0000
    ensures n == n % 0x100 + 0x100 * (n1 % 0x100) + 0x1_0000 * (n2 % 0x100) + 0x100_0000 * n3
  {
    assert n2 == n1 / 0x100 && n3 == n2 / 0x100;
  }

  lemma CountOfBytes(a: byte, b: byte, c: byte, d: byte)
    ensures FromCount(a, b, c, d) < 0x1_0000_0000 && Count(FromCount(a, b, c, d)) == [a, b, c, d]
  {
    var n := FromCount(a, b, c, d);
    var n1, n2 := b + 0x100 * c + 0x1_0000 * d, c + 0x100 * d;
    assert n == a + 0x100 * n1 && n1 == b + 0x100 * n2;
    assert n / 0x100 == n1 && n % 0x100 == a;
    assert n / 0x1_0000 == n2 && n1 % 0x100 == b;
    assert n / 0x100_0000 == d && n2 % 0x100 == c;
  }

  // ---------- Elements ----------

  function Joined(values: seq<seq<byte>>): seq<byte> {
    if values == [] then [] else values[0] + Joined(values[1..])
  }

  function Cut(data: seq<byte>, width: nat): seq<seq<byte>>
    requires width > 0
  {
    if |data| < width then [] else [data[..width]] + Cut(data[width..], width)
  }

  lemma {:induction false} CutJoined(values: seq<seq<byte>>, width: nat)
    requires width > 0 && forall i :: 0 <= i < |values| ==> |values[i]| == width
    ensures |Joined(values)| == |values| * width
    ensures Cut(Joined(values), width) == values
  {
    if values != [] {
      CutJoined(values[1..], width);
      assert |values| * width == width + (|values| - 1) * width;
      assert Joined(values)[width..] == Joined(values[1..]);
    }
  }

  lemma DivisionBound(n: nat, width: nat, size: nat)
    requires width > 0
    ensures n <= size / width <==> n * width <= size
  {
    assert size == size / width * width + size % width;
    if n <= size / width {
      assert n * width <= size / width * width;
    } else {
      assert n * width >= (size / width + 1) * width;
      assert (size / width + 1) * width == size / width * width + width;
    }
  }

  lemma OneLess(n: nat, width: nat, size: nat)
    requires n > 0 && size == n * width
    ensures size >= width && size - width == (n - 1) * width
  {
    assert n * width == (n - 1) * width + width;
  }

  lemma {:induction false} JoinedCut(data: seq<byte>, width: nat, n: nat)
    requires width > 0 && |data| == n * width
    ensures |Cut(data, width)| == n && Joined(Cut(data, width)) == data
    ensures forall i :: 0 <= i < n ==> |Cut(data, width)[i]| == width
    decreases n
  {
    if n == 0 {
      assert data == [];
    } else {
      OneLess(n, width, |data|);
      var head, tail := data[..width], data[width..];
      JoinedCut(tail, width, n - 1);
      assert Cut(data, width) == [head] + Cut(tail, width);
      assert ([head] + Cut(tail, width))[1..] == Cut(tail, width);
      assert data == head + tail;
    }
  }

  // ---------- Encoding ----------

  function BlockBytes(b: Block): seq<byte>
    requires |b.values| < 0x1_0000_0000
  {
    [b.kind] + Count(|b.values|) + Joined(b.values)
  }

  function Sizes(blocks: seq<Block>): nat {
    if blocks == [] then 0 else blocks[0].Size() + Sizes(blocks[1..])
  }

  predicate AllTyped(blocks: seq<Block>) {
    forall i :: 0 <= i < |blocks| ==> blocks[i].Typed()
  }

  /** Which lists of blocks have an encoding. */
  predicate Encodable(blocks: seq<Block>) {
    1 <= |blocks| <= MAX_BLOCKS && AllTyped(blocks) && COUNT_BYTES + Sizes(blocks) <= MAX_MESSAGE_BYTES
  }

  function AllBytes(blocks: seq<Block>): seq<byte>
    requires forall i :: 0 <= i < |blocks| ==> |blocks[i].values| < 0x1_0000_0000
  {
    if blocks == [] then [] else BlockBytes(blocks[0]) + AllBytes(blocks[1..])
  }

  lemma {:induction false} CountsFit(blocks: seq<Block>)
    requires AllTyped(blocks)
    ensures forall i :: 0 <= i < |blocks| ==> |blocks[i].values| + HEADER_BYTES <= Sizes(blocks)
  {
    if blocks != [] {
      CountsFit(blocks[1..]);
      assert |blocks[0].values| * Width(blocks[0].kind) >= |blocks[0].values|;
      forall i | 0 <= i < |blocks| ensures |blocks[i].values| + HEADER_BYTES <= Sizes(blocks) {
        assert i > 0 ==> blocks[i] == blocks[1..][i - 1];
      }
    }
  }

  function Encode(blocks: seq<Block>): seq<byte>
    requires Encodable(blocks)
  {
    CountsFit(blocks);
    Count(|blocks|) + AllBytes(blocks)
  }

  // ---------- Decoding ----------

  /** The size the header at the front of `data` announces for its block. */
  function Announced(data: seq<byte>): nat
    requires |data| >= HEADER_BYTES
  {
    HEADER_BYTES + CountOf(data[1..]) * Width(data[0])
  }

  /** The first block of `data`, if all of it is there. */
  function FirstBlock(data: seq<byte>): (b: Option<Block>)
    ensures b.Some? <==> |data| >= HEADER_BYTES && Width(data[0]) > 0 && Announced(data) <= |data|
    ensures b.Some? ==> b.value.Typed() && b.value.Size() == Announced(data)
  {
    if |data| < HEADER_BYTES || Width(data[0]) == 0 || Announced(data) > |data| then None
    else
      var payload := data[HEADER_BYTES..Announced(data)];
      JoinedCut(payload, Width(data[0]), CountOf(data[1..]));
      Some(Block(data[0], Cut(payload, Width(data[0]))))
  }

  /** Exactly `n` blocks and nothing after them. */
  function Blocks(data: seq<byte>, n: nat): Option<seq<Block>>
    decreases n
  {
    if n == 0 then (if data == [] then Some([]) else None)
    else
      var first := FirstBlock(data);
      if first.None? then None
      else
        var rest := Blocks(data[first.value.Size()..], n - 1);
        if rest.None? then None else Some([first.value] + rest.value)
  }

  function Min(a: int, b: int): int {
    if a < b then a else b
  }

  function Decode(data: seq<byte>, maxBlocks: int, maxBytes: int): Option<seq<Block>> {
    if !(COUNT_BYTES <= |data| <= maxBytes) then None
    else if !(1 <= CountOf(data) <= Min(maxBlocks, MAX_BLOCKS)) then None
    else Blocks(data[COUNT_BYTES..], CountOf(data))
  }

  // ---------- The codec is a bijection ----------

  lemma FirstBlockOfBytes(b: Block, tail: seq<byte>)
    requires b.Typed() && |b.values| < 0x1_0000_0000
    ensures var data := BlockBytes(b) + tail;
            |BlockBytes(b)| == b.Size() == Announced(data) && data[0] == b.kind &&
            CountOf(data[1..]) == |b.values| && FirstBlock(data) == Some(b)
  {
    var data := BlockBytes(b) + tail;
    CutJoined(b.values, Width(b.kind));
    assert data[1..] == Count(|b.values|) + (Joined(b.values) + tail);
    CountRoundTrip(|b.values|, Joined(b.values) + tail);
    hide CountOf, Width, Joined;
    assert data[HEADER_BYTES..b.Size()] == Joined(b.values);
  }

  lemma BytesOfFirstBlock(data: seq<byte>)
    requires FirstBlock(data).Some?
    ensures var b := FirstBlock(data).value;
            |b.values| < 0x1_0000_0000 && BlockBytes(b) == data[..b.Size()]
  {
    var b, n := FirstBlock(data).value, CountOf(data[1..]);
    var payload := data[HEADER_BYTES..Announced(data)];
    JoinedCut(payload, Width(data[0]), n);
    CountOfBytes(data[1], data[2], data[3], data[4]);
    hide CountOf, Width, Joined, Cut;
    assert data[..b.Size()] == [data[0]] + [data[1], data[2], data[3], data[4]] + payload;
  }

  lemma {:induction false} BlocksOfBytes(blocks: seq<Block>)
    requires AllTyped(blocks) && Sizes(blocks) < 0x1_0000_0000
    requires forall i :: 0 <= i < |blocks| ==> |blocks[i].values| < 0x1_0000_0000
    ensures Blocks(AllBytes(blocks), |blocks|) == Some(blocks) && |AllBytes(blocks)| == Sizes(blocks)
  {
    hide FirstBlock, BlockBytes, Width;
    if blocks != [] {
      var b, tail := blocks[0], blocks[1..];
      var rest := AllBytes(tail);
      assert b.Typed() && AllTyped(tail);
      BlocksOfBytes(tail);
      FirstBlockOfBytes(b, rest);
      var data := BlockBytes(b) + rest;
      assert AllBytes(blocks) == data && data[b.Size()..] == rest;
      assert [b] + tail == blocks;
    }
  }

  lemma {:induction false} BytesOfBlocks(data: seq<byte>, n: nat)
    requires Blocks(data, n).Some?
    ensures var blocks := Blocks(data, n).value;
            |blocks| == n && AllTyped(blocks) && Sizes(blocks) == |data| &&
            (forall i :: 0 <= i < n ==> |blocks[i].values| < 0x1_0000_0000) && AllBytes(blocks) == data
    decreases n
  {
    hide FirstBlock, BlockBytes, Width, Announced;
    if n > 0 {
      var first := FirstBlock(data).value;
      var tail := data[first.Size()..];
      BytesOfFirstBlock(data);
      BytesOfBlocks(tail, n - 1);
      var rest := Blocks(tail, n - 1).value;
      assert ([first] + rest)[1..] == rest;
      assert data == data[..first.Size()] + tail;
    }
  }

  lemma EncodeSize(blocks: seq<Block>)
    requires Encodable(blocks)
    ensures |Encode(blocks)| == COUNT_BYTES + Sizes(blocks)
  {
    CountsFit(blocks);
    BlocksOfBytes(blocks);
  }

  lemma DecodeOfEncode(blocks: seq<Block>)
    requires Encodable(blocks)
    ensures var data := Encode(blocks);
            COUNT_BYTES <= |data| == COUNT_BYTES + Sizes(blocks) && CountOf(data) == |blocks| &&
            Blocks(data[COUNT_BYTES..], |blocks|) == Some(blocks)
  {
    CountsFit(blocks);
    BlocksOfBytes(blocks);
    CountRoundTrip(|blocks|, AllBytes(blocks));
    hide AllBytes, Blocks, CountOf;
    assert Encode(blocks)[COUNT_BYTES..] == AllBytes(blocks);
  }

  lemma EncodeOfDecode(data: seq<byte>, blocks: seq<Block>, maxBlocks: int, maxBytes: int)
    requires maxBytes <= MAX_MESSAGE_BYTES && Decode(data, maxBlocks, maxBytes) == Some(blocks)
    ensures Encodable(blocks) && data == Encode(blocks)
  {
    BytesOfBlocks(data[COUNT_BYTES..], CountOf(data));
    CountOfBytes(data[0], data[1], data[2], data[3]);
    hide AllBytes, Blocks, Sizes;
    assert data == [data[0], data[1], data[2], data[3]] + data[COUNT_BYTES..];
  }

  /** Decoding within limits returns `blocks` exactly when the bytes are their encoding and fit. */
  lemma DecodeIffEncoded(data: seq<byte>, blocks: seq<Block>, maxBlocks: int, maxBytes: int)
    requires maxBytes <= MAX_MESSAGE_BYTES
    ensures Decode(data, maxBlocks, maxBytes) == Some(blocks) <==>
      Encodable(blocks) && data == Encode(blocks) && |blocks| <= maxBlocks && |data| <= maxBytes
  {
    hide Encode, Blocks, CountOf;
    if Encodable(blocks) && data == Encode(blocks) {
      DecodeOfEncode(blocks);
    }
    if Decode(data, maxBlocks, maxBytes) == Some(blocks) {
      EncodeOfDecode(data, blocks, maxBlocks, maxBytes);
    }
  }
}
