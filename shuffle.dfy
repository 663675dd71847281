/** The in-place shuffle of proxy.go:22-27 (repeated verbatim at
    proxy/proxy.go:18-23). Step i swaps element i with element j, where j is
    drawn from [0, i]; j may equal i, so this is Fisher-Yates rather than
    Sattolo's algorithm. The random draws are an injected sequence. */
module Shuffle {

  /** The draws rand.Intn(i + 1) makes for a list of n elements: one per
      position, each in [0, i]. */
  predicate ValidChoices(choices: seq<nat>, n: nat) {
    |choices| == n && forall i :: 0 <= i < n ==> choices[i] <= i
  }

  /** `s` with the elements at i and j exchanged. */
  function Swap<T>(s: seq<T>, i: nat, j: nat): (r: seq<T>)
    requires i < |s| && j < |s|
    ensures |r| == |s|
  {
    s[i := s[j]][j := s[i]]
  }

  /** The list after steps i, i + 1, ... of the shuffle, starting from s. */
  function ShuffledFrom<T>(s: seq<T>, choices: seq<nat>, i: nat): (r: seq<T>)
    requires ValidChoices(choices, |s|) && i <= |s|
    ensures |r| == |s|
    decreases |s| - i
  {
    if i == |s| then s
    else ShuffledFrom(Swap(s, i, choices[i]), choices, i + 1)
  }

  /** The list after the whole shuffle. */
  function Shuffled<T>(s: seq<T>, choices: seq<nat>): (r: seq<T>)
    requires ValidChoices(choices, |s|)
  {
    ShuffledFrom(s, choices, 0)
  }

  /** A swap only reorders: the multiset of elements is unchanged. */
  lemma SwapIsPermutation<T>(s: seq<T>, i: nat, j: nat)
    requires i < |s| && j < |s|
    ensures multiset(Swap(s, i, j)) == multiset(s)
  {
    var t := s[i := s[j]];
    assert multiset(t) == multiset(s) - multiset{s[i]} + multiset{s[j]};
    assert multiset(t[j := s[i]]) == multiset(t) - multiset{t[j]} + multiset{s[i]};
  }

  /** The remaining steps of the shuffle only reorder the list. */
  lemma {:induction false} ShuffledFromIsPermutation<T>(s: seq<T>, choices: seq<nat>, i: nat)
    requires ValidChoices(choices, |s|) && i <= |s|
    ensures multiset(ShuffledFrom(s, choices, i)) == multiset(s)
    decreases |s| - i
  {
    if i < |s| {
      SwapIsPermutation(s, i, choices[i]);
      ShuffledFromIsPermutation(Swap(s, i, choices[i]), choices, i + 1);
    }
  }

  /** The shuffle's result has the input's length and is a permutation of it. */
  lemma ShuffledIsPermutation<T>(s: seq<T>, choices: seq<nat>)
    requires ValidChoices(choices, |s|)
    ensures |Shuffled(s, choices)| == |s|
    ensures multiset(Shuffled(s, choices)) == multiset(s)
  {
    ShuffledFromIsPermutation(s, choices, 0);
  }

  /** A permutation keeps the set of elements and the absence of duplicates,
      so a shuffled list of distinct backends still names each exactly once. */
  lemma PermutationKeepsDistinct<T>(s: seq<T>, t: seq<T>)
    requires multiset(t) == multiset(s)
    requires forall a, b :: 0 <= a < b < |s| ==> s[a] != s[b]
    ensures forall a, b :: 0 <= a < b < |t| ==> t[a] != t[b]
    ensures forall x :: x in t <==> x in s
  {
    forall x ensures x in t <==> x in s {
      assert x in t <==> x in multiset(t);
      assert x in s <==> x in multiset(s);
    }
    forall a, b | 0 <= a < b < |t| ensures t[a] != t[b] {
      DistinctCountsOnce(s, t[a]);
      RepeatCountsTwice(t, a, b);
    }
  }

  /** An element found at two positions occurs at least twice. */
  lemma RepeatCountsTwice<T>(t: seq<T>, a: nat, b: nat)
    requires a < b < |t|
    ensures t[a] == t[b] ==> multiset(t)[t[a]] >= 2
  {
    if t[a] == t[b] {
      assert t == t[..a] + [t[a]] + t[a + 1..b] + [t[b]] + t[b + 1..];
    }
  }

  /** In a sequence without duplicates, every element occurs at most once. */
  lemma {:induction false} DistinctCountsOnce<T>(s: seq<T>, x: T)
    requires forall a, b :: 0 <= a < b < |s| ==> s[a] != s[b]
    ensures multiset(s)[x] <= 1
  {
    if |s| > 0 {
      assert s == [s[0]] + s[1..];
      DistinctCountsOnce(s[1..], x);
      if s[0] == x {
        assert x !in s[1..];
      }
    }
  }

  /** Drawing j == i at every step leaves the list as it was, an outcome
      Sattolo's algorithm excludes for two or more elements. */
  lemma {:induction false} IdentityDrawsKeepOrder<T>(s: seq<T>, i: nat)
    requires i <= |s|
    ensures ValidChoices(seq(|s|, k => k), |s|)
    ensures ShuffledFrom(s, seq(|s|, k => k), i) == s
    decreases |s| - i
  {
    if i < |s| {
      assert Swap(s, i, i) == s;
      IdentityDrawsKeepOrder(s, i + 1);
    }
  }

  /** The whole list is shuffled, the ring's first choice included: drawing 0
      at every step moves the last element to the front. */
  lemma ShuffleMovesFirstChoice()
    ensures Shuffled(["a", "b"], [0, 0]) == ["b", "a"]
  {
    assert Swap(["a", "b"], 0, 0) == ["a", "b"];
    assert Swap(["a", "b"], 1, 0) == ["b", "a"];
    assert ShuffledFrom(["b", "a"], [0, 0], 2) == ["b", "a"];
  }

  /** The loop of shuffle: for i over the list, swap list[i] and list[j]. */
  method ShuffleInPlace<T>(list: array<T>, choices: seq<nat>)
    requires ValidChoices(choices, list.Length)
    modifies list
    ensures list[..] == Shuffled(old(list[..]), choices)
    ensures multiset(list[..]) == multiset(old(list[..]))
  {
    for i := 0 to list.Length
      invariant ShuffledFrom(list[..], choices, i) == Shuffled(old(list[..]), choices)
    {
      var j := choices[i];
      var t := list[i];
      list[i] := list[j];
      list[j] := t;
    }
    ShuffledIsPermutation(old(list[..]), choices);
  }
}
