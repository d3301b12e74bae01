/** Properties of sequences that several components need. */
module Sequences {
  function SetOf<T>(s: seq<T>): set<T> {
    set x | x in s
  }

  predicate Distinct<T(==)>(s: seq<T>) {
    forall i, j :: 0 <= i < j < |s| ==> s[i] != s[j]
  }

  predicate Increasing(s: seq<nat>) {
    forall i, j :: 0 <= i < j < |s| ==> s[i] < s[j]
  }

  function Flat<T>(parts: seq<seq<T>>): seq<T> {
    if parts == [] then [] else Flat(parts[..|parts| - 1]) + parts[|parts| - 1]
  }

  lemma {:induction false} FlatCons<T>(first: seq<T>, rest: seq<seq<T>>)
    ensures Flat([first] + rest) == first + Flat(rest)
  {
    var parts := [first] + rest;
    if rest == [] {
      assert parts[..0] == [] && Flat(parts[..0]) == [];
    } else {
      FlatCons(first, rest[..|rest| - 1]);
      assert parts[..|parts| - 1] == [first] + rest[..|rest| - 1];
    }
  }
}
