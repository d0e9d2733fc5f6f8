/** Counters, de-duplicated lists and sub-lists: `collections.Counter`, `dict.fromkeys` and filters of Python. */
module Counting {
  predicate Distinct<K(==)>(s: seq<K>) {
    forall i, j :: 0 <= i < j < |s| ==> s[i] != s[j]
  }

  /** How often `k` occurs. */
  function Count<K(==)>(s: seq<K>, k: K): nat {
    if s == [] then 0 else Count(s[..|s| - 1], k) + (if s[|s| - 1] == k then 1 else 0)
  }

  /** How many entries are among `ks`. */
  function CountAmong<K(==)>(s: seq<K>, ks: seq<K>): nat {
    if s == [] then 0 else CountAmong(s[..|s| - 1], ks) + (if s[|s| - 1] in ks then 1 else 0)
  }

  /** The counts of the keys `ks`, summed. */
  function SumOfCounts<K(==)>(s: seq<K>, ks: seq<K>): nat {
    if ks == [] then 0 else SumOfCounts(s, ks[..|ks| - 1]) + Count(s, ks[|ks| - 1])
  }

  /** `list(dict.fromkeys(s))`: the first occurrences, in order. */
  function Firsts<K(==,!new)>(s: seq<K>): (f: seq<K>)
    ensures Distinct(f) && |f| <= |s|
    ensures forall k :: k in f <==> k in s
  {
    if s == [] then []
    else
      var f := Firsts(s[..|s| - 1]);
      assert s == s[..|s| - 1] + [s[|s| - 1]];
      if s[|s| - 1] in f then f else f + [s[|s| - 1]]
  }

  lemma AppendFirsts<K(!new)>(s: seq<K>, x: K)
    ensures Firsts(s + [x]) == if x in Firsts(s) then Firsts(s) else Firsts(s) + [x]
  {
    assert (s + [x])[..|s|] == s;
  }

  lemma AppendCount<K>(s: seq<K>, x: K, k: K)
    ensures Count(s + [x], k) == Count(s, k) + if x == k then 1 else 0
  {
    assert (s + [x])[..|s|] == s;
  }

  lemma AppendAmong<K>(s: seq<K>, x: K, ks: seq<K>)
    ensures CountAmong(s + [x], ks) == CountAmong(s, ks) + if x in ks then 1 else 0
  {
    assert (s + [x])[..|s|] == s;
  }

  /** Over distinct keys the counts add up to the entries that are among the keys. */
  lemma {:induction false} CountsAddUp<K>(s: seq<K>, ks: seq<K>)
    requires Distinct(ks)
    ensures SumOfCounts(s, ks) == CountAmong(s, ks)
  {
    if s == [] {
      NothingToCount(ks);
    } else {
      CountsAddUp(s[..|s| - 1], ks);
      OneMoreEntry(s, ks);
    }
  }

  lemma {:induction false} NothingToCount<K>(ks: seq<K>)
    ensures SumOfCounts([], ks) == 0
  {
    if ks != [] { NothingToCount(ks[..|ks| - 1]); }
  }

  lemma {:induction false} OneMoreEntry<K>(s: seq<K>, ks: seq<K>)
    requires s != [] && Distinct(ks)
    ensures SumOfCounts(s, ks) == SumOfCounts(s[..|s| - 1], ks) + (if s[|s| - 1] in ks then 1 else 0)
  {
    if ks != [] {
      var rest, last := ks[..|ks| - 1], ks[|ks| - 1];
      OneMoreEntry(s, rest);
      assert ks == rest + [last];
    }
  }

  lemma {:induction false} AllAmong<K>(s: seq<K>, ks: seq<K>)
    requires forall k :: k in s ==> k in ks
    ensures CountAmong(s, ks) == |s|
  {
    if s != [] { AllAmong(s[..|s| - 1], ks); }
  }

  /** The counts of all the keys that occur add up to the number of entries. */
  lemma TallyIsComplete<K(!new)>(s: seq<K>)
    ensures SumOfCounts(s, Firsts(s)) == |s|
  {
    CountsAddUp(s, Firsts(s));
    AllAmong(s, Firsts(s));
  }

  /** `Counter(s)`: the keys in the order they were first met and how often each was. */
  method Tally<K(==,!new)>(s: seq<K>) returns (keys: seq<K>, counts: map<K, nat>)
    ensures keys == Firsts(s)
    ensures forall k :: k in counts <==> k in keys
    ensures forall k :: k in counts ==> counts[k] == Count(s, k)
  {
    keys, counts := [], map[];
    for i := 0 to |s|
      invariant keys == Firsts(s[..i])
      invariant forall k :: k in counts <==> k in keys
      invariant forall k :: k in counts ==> counts[k] == Count(s[..i], k)
    {
      assert s[..i + 1][..i] == s[..i];
      if s[i] in counts {
        counts := counts[s[i] := counts[s[i]] + 1];
      } else {
        NeverMet(s[..i], s[i]);
        keys := keys + [s[i]];
        counts := counts[s[i] := 1];
      }
    }
    assert s[..|s|] == s;
  }

  lemma {:induction false} NeverMet<K>(s: seq<K>, k: K)
    requires k !in s
    ensures Count(s, k) == 0
  {
    if s != [] { NeverMet(s[..|s| - 1], k); }
  }

  lemma {:induction false} Met<K>(s: seq<K>, k: K)
    requires k in s
    ensures Count(s, k) > 0
  {
    if s[|s| - 1] != k { Met(s[..|s| - 1], k); }
  }

  /** `list(dict.fromkeys(s))` */
  method Unrepeated<K(==,!new)>(s: seq<K>) returns (f: seq<K>)
    ensures f == Firsts(s)
  {
    f := [];
    for i := 0 to |s|
      invariant f == Firsts(s[..i])
    {
      assert s[..i + 1][..i] == s[..i];
      if s[i] !in f {
        f := f + [s[i]];
      }
    }
    assert s[..|s|] == s;
  }

  // ---------------------------------------------------------------- sub-lists

  /** Increasing places below `n`. */
  predicate Places(at: seq<nat>, n: nat) {
    && (forall i :: 0 <= i < |at| ==> at[i] < n)
    && (forall i, j :: 0 <= i < j < |at| ==> at[i] < at[j])
  }

  lemma PlacesNext(at: seq<nat>, n: nat)
    requires Places(at, n)
    ensures Places(at, n + 1) && Places(at + [n], n + 1)
    ensures forall k :: k in at + [n] <==> k in at || k == n
    ensures n !in at
  {
  }

  /** The first occurrences stand in the order in which their keys were first met. */
  lemma {:induction false} FirstsInOrder<K(!new)>(s: seq<K>, i: nat, j: nat) returns (p: nat)
    requires i < j < |Firsts(s)|
    ensures p < |s| && s[p] == Firsts(s)[i] && Firsts(s)[j] !in s[..p + 1]
  {
    var rest := s[..|s| - 1];
    assert s == rest + [s[|s| - 1]];
    if j < |Firsts(rest)| {
      p := FirstsInOrder(rest, i, j);
      assert s[..p + 1] == rest[..p + 1];
    } else {
      assert Firsts(s)[i] == Firsts(rest)[i] && Firsts(rest)[i] in Firsts(rest);
      p :| 0 <= p < |rest| && rest[p] == Firsts(s)[i];
      assert forall k :: k in s[..p + 1] ==> k in rest;
    }
  }

  /** The places of an entry: their number is its count. */
  function PlacesOf<K(==)>(s: seq<K>, k: K): set<nat> { set i: nat | i < |s| && s[i] == k }

  lemma {:induction false} CountIsPlaces<K>(s: seq<K>, k: K)
    ensures Count(s, k) == |PlacesOf(s, k)|
  {
    if s != [] {
      var rest := s[..|s| - 1];
      CountIsPlaces(rest, k);
      assert PlacesOf(s, k) == PlacesOf(rest, k) + if s[|s| - 1] == k then {|rest|} else {};
    }
  }
}
