/** Bytes, and words as the strings of their bits, least significant first.

    A word of the source (a masked Python integer, a C unsigned) is the sequence of its bits here, so
    that a shift drops a bit, an exclusive-or works bit by bit, and no solver arithmetic on
    machine words is needed. */
module Bits {

  type byte = x: int | 0 <= x < 256

  function Pow2(n: nat): (p: nat)
    ensures p > 0
  {
    if n == 0 then 1 else 2 * Pow2(n - 1)
  }

  lemma Powers()
    ensures Pow2(8) == 0x100 && Pow2(15) == 0x8000 && Pow2(14) == 0x4000 && Pow2(16) == 0x1_0000 && Pow2(24) == 0x100_0000
  {
    assert Pow2(4) == 0x10;
    assert Pow2(8) == 0x100;
    assert Pow2(12) == 0x1000;
    assert Pow2(16) == 0x1_0000;
    assert Pow2(20) == 0x10_0000;
  }

  /** The low `width` bits of `n`. */
  function ToBits(n: nat, width: nat): (bits: seq<bool>)
    ensures |bits| == width
  {
    if width == 0 then [] else [n % 2 == 1] + ToBits(n / 2, width - 1)
  }

  function Value(bits: seq<bool>): (n: nat)
    ensures n < Pow2(|bits|)
  {
    if bits == [] then 0 else (if bits[0] then 1 else 0) + 2 * Value(bits[1..])
  }

  lemma {:induction false} ValueOfToBits(n: nat, width: nat)
    requires n < Pow2(width)
    ensures Value(ToBits(n, width)) == n
  {
    if width > 0 {
      ValueOfToBits(n / 2, width - 1);
      assert ToBits(n, width)[1..] == ToBits(n / 2, width - 1);
    }
  }

  lemma {:induction false} ToBitsOfValue(bits: seq<bool>)
    ensures ToBits(Value(bits), |bits|) == bits
  {
    if bits != [] {
      ToBitsOfValue(bits[1..]);
      assert Value(bits) / 2 == Value(bits[1..]);
    }
  }

  lemma {:induction false} ToBitsAppend(low: nat, high: nat, m: nat, n: nat)
    requires low < Pow2(m)
    ensures ToBits(low, m) + ToBits(high, n) == ToBits(low + Pow2(m) * high, m + n)
  {
    if m > 0 {
      var v := low + Pow2(m) * high;
      assert v == low + 2 * (Pow2(m - 1) * high);
      assert v % 2 == low % 2 && v / 2 == low / 2 + Pow2(m - 1) * high;
      ToBitsAppend(low / 2, high, m - 1, n);
      assert ToBits(low, m) + ToBits(high, n) == [low % 2 == 1] + (ToBits(low / 2, m - 1) + ToBits(high, n));
    } else {
      assert ToBits(low, m) + ToBits(high, n) == ToBits(high, n);
    }
  }

  function FromLittleEndian(low: nat, high: nat): nat {
    low + 256 * high
  }

  lemma {:induction false} LittleEndianBits(low: byte, high: byte)
    ensures ToBits(low, 8) + ToBits(high, 8) == ToBits(FromLittleEndian(low, high), 16)
  {
    assert Pow2(8) == 256;
    ToBitsAppend(low, high, 8, 8);
  }

  predicate Bit(n: nat, k: nat) {
    if k == 0 then n % 2 == 1 else Bit(n / 2, k - 1)
  }

  lemma {:induction false} BitAt(n: nat, k: nat, width: nat)
    requires k < width
    ensures ToBits(n, width)[k] == Bit(n, k)
  {
    if k > 0 {
      BitAt(n / 2, k - 1, width - 1);
    }
  }

  function Xor(a: seq<bool>, b: seq<bool>): (r: seq<bool>)
    requires |a| == |b|
    ensures |r| == |a| && forall i :: 0 <= i < |r| ==> r[i] == (a[i] != b[i])
  {
    seq(|a|, i requires 0 <= i < |a| => a[i] != b[i])
  }

  function Not(a: seq<bool>): (r: seq<bool>)
    ensures |r| == |a| && forall i :: 0 <= i < |r| ==> r[i] == !a[i]
  {
    seq(|a|, i requires 0 <= i < |a| => !a[i])
  }

  function ShiftRight(a: seq<bool>): (r: seq<bool>)
    requires a != []
    ensures |r| == |a|
  {
    a[1..] + [false]
  }
}
