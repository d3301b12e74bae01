/** The array-based priority heap behind every command queue (BinaryHeap.c). Nodes are compared by
    identity, as the pointers of the source are. */
module BinaryHeaps {

  class HeapNode {
    const key: nat
    const payload: object?

    constructor (key: nat, payload: object?)
      ensures this.key == key && this.payload == payload
    {
      this.key, this.payload := key, payload;
    }
  }

  type Slots = seq<HeapNode?>

  function Parent(i: nat): nat
    requires i > 0
  {
    (i - 1) / 2
  }

  /** The first `n` slots hold nodes. */
  ghost predicate Filled(s: Slots, n: nat) {
    n <= |s| && forall i :: 0 <= i < n ==> s[i] != null
  }

  /** Every node but those at `except` is no greater than its parent. */
  ghost predicate OrderedExcept(s: Slots, n: nat, except: set<nat>)
    requires Filled(s, n)
  {
    forall i: nat :: 0 < i < n && i !in except ==> s[Parent(i)].key >= s[i].key
  }

  ghost predicate IsHeap(s: Slots, n: nat) {
    Filled(s, n) && OrderedExcept(s, n, {}) && forall i :: n <= i < |s| ==> s[i] == null
  }

  ghost function Nodes(s: Slots, n: nat): multiset<HeapNode?>
    requires n <= |s|
  {
    multiset(s[..n])
  }

  lemma {:induction false} RootIsLargest(s: Slots, n: nat, i: nat)
    requires IsHeap(s, n) && i < n
    ensures s[0].key >= s[i].key
  {
    if i > 0 {
      RootIsLargest(s, n, Parent(i));
    }
  }

  /** `out` is a node of largest key, and exactly that node goes. */
  ghost predicate PopsTo(before: multiset<HeapNode?>, out: HeapNode, after: multiset<HeapNode?>) {
    out in before && after == before - multiset{out} &&
    forall x: HeapNode :: x in before ==> x.key <= out.key
  }

  lemma NodesSwap(s: Slots, n: nat, i: nat, j: nat)
    requires i < j < n <= |s|
    ensures Nodes(s[i := s[j]][j := s[i]], n) == Nodes(s, n)
  {
    var t := s[i := s[j]][j := s[i]];
    assert s[..n] == s[..i] + [s[i]] + s[i + 1..j] + [s[j]] + s[j + 1..n];
    assert t[..n] == s[..i] + [s[j]] + s[i + 1..j] + [s[i]] + s[j + 1..n];
  }

  ghost predicate EmptyFrom(s: Slots, n: nat) {
    forall i :: n <= i < |s| ==> s[i] == null
  }

  function Swapped(s: Slots, i: nat, j: nat): Slots
    requires i < |s| && j < |s|
  {
    s[i := s[j]][j := s[i]]
  }

  // ---------- Sifting up: only the node at `i` may be larger than its parent ----------

  ghost predicate Rising(s: Slots, n: nat, i: nat) {
    && i < n && Filled(s, n) && EmptyFrom(s, n)
    && OrderedExcept(s, n, {i})
    && forall k: nat :: 0 < k < n && Parent(k) == i && i > 0 ==> s[Parent(i)].key >= s[k].key
  }

  lemma AppendRises(s: Slots, n: nat, node: HeapNode)
    requires IsHeap(s, n) && n < |s|
    ensures Rising(s[n := node], n + 1, n)
    ensures Nodes(s[n := node], n + 1) == Nodes(s, n) + multiset{node}
  {
    assert s[n := node][..n + 1] == s[..n] + [node];
  }

  lemma RiseOneLevel(s: Slots, n: nat, i: nat)
    requires Rising(s, n, i) && i > 0 && s[Parent(i)].key < s[i].key
    ensures Rising(Swapped(s, Parent(i), i), n, Parent(i))
    ensures Nodes(Swapped(s, Parent(i), i), n) == Nodes(s, n)
  {
    NodesSwap(s, n, Parent(i), i);
  }

  lemma RiseEnds(s: Slots, n: nat, i: nat)
    requires Rising(s, n, i) && (i == 0 || s[Parent(i)].key >= s[i].key)
    ensures IsHeap(s, n)
  {}

  // ---------- Sifting down: only the node at `i` may be smaller than its children ----------

  ghost predicate Sinking(s: Slots, n: nat, i: nat) {
    && i < n && Filled(s, n) && EmptyFrom(s, n)
    && (forall k: nat :: 0 < k < n && Parent(k) != i ==> s[Parent(k)].key >= s[k].key)
    && forall k: nat :: 0 < k < n && Parent(k) == i && i > 0 ==> s[Parent(i)].key >= s[k].key
  }

  /** The larger child, the left one if both are equal. */
  predicate LargerChild(s: Slots, n: nat, i: nat, child: nat)
    requires n <= |s| && forall k :: 0 <= k < n ==> s[k] != null
  {
    i < child < n && Parent(child) == i && forall k: nat :: 0 < k < n && Parent(k) == i ==> s[k].key <= s[child].key
  }

  lemma PickedLargerChild(s: Slots, n: nat, i: nat, child: nat)
    requires n <= |s| && (forall k :: 0 <= k < n ==> s[k] != null) && 2 * i + 1 < n
    requires child == if 2 * i + 2 < n && s[2 * i + 1].key < s[2 * i + 2].key then 2 * i + 2 else 2 * i + 1
    ensures LargerChild(s, n, i, child)
  {}

  lemma SinkOneLevel(s: Slots, n: nat, i: nat, child: nat)
    requires Sinking(s, n, i) && LargerChild(s, n, i, child) && s[child].key > s[i].key
    ensures Filled(s, n) && child < n && Sinking(Swapped(s, i, child), n, child)
    ensures Nodes(Swapped(s, i, child), n) == Nodes(s, n)
  {
    NodesSwap(s, n, i, child);
  }

  lemma SinkEnds(s: Slots, n: nat, i: nat)
    requires Sinking(s, n, i) && forall k: nat :: 0 < k < n && Parent(k) == i ==> s[k].key <= s[i].key
    ensures IsHeap(s, n)
  {}

  class Heap {
    var buffer: array<HeapNode?>
    var count: nat

    ghost predicate Valid()
      reads this, buffer
    {
      IsHeap(buffer[..], count)
    }

    ghost function Contents(): multiset<HeapNode?>
      requires Valid()
      reads this, buffer
    {
      Nodes(buffer[..], count)
    }

    /** `heap_init`. */
    constructor (size: nat)
      ensures Valid() && fresh(buffer) && buffer.Length == size && Contents() == multiset{}
    {
      buffer := new HeapNode?[size](_ => null);
      count := 0;
    }

    /** `heap_push`: a full heap ignores the node. */
    method Push(node: HeapNode)
      requires Valid()
      modifies this`count, buffer
      ensures Valid() && buffer == old(buffer)
      ensures old(count) >= buffer.Length ==> Contents() == old(Contents())
      ensures old(count) < buffer.Length ==> Contents() == old(Contents()) + multiset{node}
    {
      hide OrderedExcept, Nodes, EmptyFrom;
      if count >= buffer.Length {
        return;
      }
      var n := count + 1;
      var i := count;
      ghost var nodes := Contents() + multiset{node};
      ghost var before := buffer[..];
      AppendRises(before, i, node);
      buffer[i] := node;
      assert buffer[..] == before[i := node];
      while 0 < i
        invariant n == count + 1 <= buffer.Length && Rising(buffer[..], n, i) && buffer[i] == node
        invariant Nodes(buffer[..], n) == nodes
      {
        var pi := (i - 1) / 2;
        var parent := buffer[pi];
        ghost var s := buffer[..];
        if parent.key >= node.key {
          break;
        }
        RiseOneLevel(s, n, i);
        buffer[i] := parent;
        buffer[pi] := node;
        assert buffer[..] == Swapped(s, pi, i);
        i := pi;
      }
      ghost var after := buffer[..];
      RiseEnds(after, n, i);
      count := count + 1;
      assert buffer[..] == after;
    }

    /** `heap_pop`: null from an empty heap. */
    method Pop() returns (rv: HeapNode?)
      requires Valid()
      modifies this`count, buffer
      ensures Valid() && buffer == old(buffer)
      ensures rv == null <==> old(count) == 0
      ensures rv == null ==> Contents() == old(Contents())
      ensures rv != null ==> PopsTo(old(Contents()), rv, Contents())
    {
      hide OrderedExcept, Nodes, EmptyFrom, PopsTo, Sinking, LargerChild;
      if count == 0 {
        return null;
      }
      rv := buffer[0];
      ghost var before, all := buffer[..], count;
      RootPops(before, all);
      count := count - 1;
      if count == 0 {
        buffer[0] := null;
        assert buffer[..] == before[0 := null];
        OnlyRoot(before);
        return;
      }
      var node := buffer[count];
      buffer[count] := null;
      buffer[0] := node;
      assert buffer[..] == before[count := null][0 := node];
      LastToRoot(before, all);
      SiftDown(node);
    }

    /** The loop of `heap_pop`: the last node sinks from the root to where it belongs. */
    method SiftDown(node: HeapNode)
      requires 0 < count < buffer.Length && buffer[0] == node && Sinking(buffer[..], count, 0)
      modifies buffer
      ensures IsHeap(buffer[..], count) && Nodes(buffer[..], count) == old(Nodes(buffer[..], count))
    {
      hide OrderedExcept, Nodes, EmptyFrom, PopsTo, LargerChild, IsHeap;
      StillFilled(buffer[..], count, 0);
      hide Sinking;
      var i := 0;
      while true
        invariant i < count && Filled(buffer[..], count) && Sinking(buffer[..], count, i) && buffer[i] == node
        invariant Nodes(buffer[..], count) == old(Nodes(buffer[..], count))
        decreases count - i
      {
        var left := 2 * i + 1;
        var right := left + 1;
        var child := left;
        if left >= count {
          break;
        }
        if right < count && buffer[left].key < buffer[right].key {
          child := right;
        }
        ghost var s := buffer[..];
        PickedLargerChild(s, count, i, child);
        if buffer[child].key <= node.key {
          break;
        }
        SinkOneLevel(s, count, i, child);
        buffer[i] := buffer[child];
        buffer[child] := node;
        assert buffer[..] == Swapped(s, i, child);
        i := child;
      }
      SinkEnds(buffer[..], count, i);
    }
  }

  lemma StillFilled(s: Slots, n: nat, i: nat)
    requires Sinking(s, n, i)
    ensures Filled(s, n)
  {}

  lemma RootPops(s: Slots, n: nat)
    requires IsHeap(s, n) && n > 0
    ensures PopsTo(Nodes(s, n), s[0], Nodes(s, n) - multiset{s[0]})
  {
    forall x: HeapNode | x in Nodes(s, n) ensures x.key <= s[0].key {
      var i :| 0 <= i < n && s[..n][i] == x;
      RootIsLargest(s, n, i);
    }
    assert s[..n][0] == s[0];
  }

  lemma OnlyRoot(s: Slots)
    requires IsHeap(s, 1)
    ensures IsHeap(s[0 := null], 0) && Nodes(s[0 := null], 0) == Nodes(s, 1) - multiset{s[0]}
  {
    assert s[..1] == [s[0]];
  }

  lemma LastToRoot(s: Slots, n: nat)
    requires IsHeap(s, n) && n > 1
    ensures var t := s[n - 1 := null][0 := s[n - 1]];
            Filled(t, n - 1) && Sinking(t, n - 1, 0) && Nodes(t, n - 1) == Nodes(s, n) - multiset{s[0]}
  {
    var t := s[n - 1 := null][0 := s[n - 1]];
    assert s[..n] == [s[0]] + s[1..n - 1] + [s[n - 1]];
    assert t[..n - 1] == [s[n - 1]] + s[1..n - 1];
  }

  // ---------- Draining ----------

  /** A run of pops: `contents[i]` before the i-th of them. */
  ghost predicate Draining(contents: seq<multiset<HeapNode?>>, popped: seq<HeapNode>) {
    |contents| == |popped| + 1 && forall i :: 0 <= i < |popped| ==> PopsTo(contents[i], popped[i], contents[i + 1])
  }

  lemma {:induction false} DrainStaysInside(contents: seq<multiset<HeapNode?>>, popped: seq<HeapNode>, i: nat, j: nat)
    requires Draining(contents, popped) && i <= j < |contents|
    ensures contents[j] <= contents[i]
    decreases j - i
  {
    if i < j {
      DrainStaysInside(contents, popped, i, j - 1);
      assert PopsTo(contents[j - 1], popped[j - 1], contents[j]);
    }
  }

  /** Popping again and again yields keys in nonincreasing order. */
  lemma DrainedKeysDescend(contents: seq<multiset<HeapNode?>>, popped: seq<HeapNode>, i: nat, j: nat)
    requires Draining(contents, popped) && i < j < |popped|
    ensures popped[i].key >= popped[j].key
  {
    DrainStaysInside(contents, popped, i, j);
    assert PopsTo(contents[i], popped[i], contents[i + 1]) && PopsTo(contents[j], popped[j], contents[j + 1]);
  }

  lemma OneMoreTaken<T>(s: seq<T>, n: nat)
    requires 0 < n <= |s|
    ensures multiset(s[..n]) == multiset(s[..n - 1]) + multiset{s[n - 1]}
  {
    assert s[..n] == s[..n - 1] + [s[n - 1]];
  }

  lemma PutBack<T>(taken: multiset<T>, before: multiset<T>, x: T, after: multiset<T>)
    requires x in before && after == before - multiset{x}
    ensures taken + multiset{x} + after == taken + before
  {}

  /** Nothing is lost or invented on the way. */
  lemma {:induction false} DrainConserves(contents: seq<multiset<HeapNode?>>, popped: seq<HeapNode?>, n: nat)
    requires n <= |popped| && |contents| == |popped| + 1
    requires forall i :: 0 <= i < |popped| ==> popped[i] != null && PopsTo(contents[i], popped[i], contents[i + 1])
    ensures contents[0] == multiset(popped[..n]) + contents[n]
  {
    if n > 0 {
      DrainConserves(contents, popped, n - 1);
      assert PopsTo(contents[n - 1], popped[n - 1], contents[n]);
      OneMoreTaken(popped, n);
      PutBack(multiset(popped[..n - 1]), contents[n - 1], popped[n - 1], contents[n]);
    }
  }
}
