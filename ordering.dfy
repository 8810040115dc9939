/** Ordering the registry by generalization depth, deepest first
    (`self.strategies.sort(key=get_generalization_depth, reverse=True)`).

    The list is sorted in place by a stable sort; here an insertion sort that
    only moves an entry past entries with a strictly smaller key. */
module Ordering {

  predicate KeysDefined(ids: seq<nat>, key: seq<nat>) {
    forall k :: 0 <= k < |ids| ==> ids[k] < |key|
  }

  /** Every entry's key is at least the key of every later entry. */
  predicate SortedDescending(ids: seq<nat>, key: seq<nat>)
    requires KeysDefined(ids, key)
  {
    forall a, b :: 0 <= a < b < |ids| ==> key[ids[a]] >= key[ids[b]]
  }

  /** Sorts `ids` by `key`, largest key first. */
  method SortDescending(ids: seq<nat>, key: seq<nat>) returns (r: seq<nat>)
    requires KeysDefined(ids, key)
    ensures KeysDefined(r, key)
    ensures SortedDescending(r, key)
    ensures multiset(r) == multiset(ids)
  {
    r := ids;
    if |r| == 0 {
      return;
    }
    var i := 1;
    while i < |r|
      invariant 1 <= i <= |r| == |ids|
      invariant KeysDefined(r, key)
      invariant multiset(r) == multiset(ids)
      invariant forall a, b :: 0 <= a < b < i ==> key[r[a]] >= key[r[b]]
    {
      r := InsertAt(r, i, key);
      i := i + 1;
    }
  }

  /** One pass of the insertion sort: moves entry `i` left past the entries
      with a strictly smaller key, so that the first `i + 1` entries are
      sorted. */
  method InsertAt(s: seq<nat>, i: nat, key: seq<nat>) returns (r: seq<nat>)
    requires i < |s| && KeysDefined(s, key)
    requires forall a, b :: 0 <= a < b < i ==> key[s[a]] >= key[s[b]]
    ensures |r| == |s| && KeysDefined(r, key)
    ensures multiset(r) == multiset(s)
    ensures forall a, b :: 0 <= a < b <= i ==> key[r[a]] >= key[r[b]]
  {
    r := s;
    var j := i;
    while j > 0 && key[r[j - 1]] < key[r[j]]
      invariant 0 <= j <= i < |r| == |s|
      invariant KeysDefined(r, key)
      invariant multiset(r) == multiset(s)
      invariant Moving(r, i, j, key)
    {
      SwapKeepsMultiset(r, j - 1, j);
      SwapStep(r, i, j, key);
      r := r[j - 1 := r[j]][j := r[j - 1]];
      j := j - 1;
    }
    InsertDone(r, i, j, key);
  }

  predicate Moving(r: seq<nat>, i: nat, j: nat, key: seq<nat>)
    requires j <= i < |r| && KeysDefined(r, key)
  {
    && (forall a, b :: 0 <= a < b <= i && a != j && b != j ==> key[r[a]] >= key[r[b]])
    && (forall b :: j < b <= i ==> key[r[j]] > key[r[b]])
  }

  lemma SwapStep(r: seq<nat>, i: nat, j: nat, key: seq<nat>)
    requires 0 < j <= i < |r| && KeysDefined(r, key)
    requires Moving(r, i, j, key) && key[r[j - 1]] < key[r[j]]
    ensures KeysDefined(r[j - 1 := r[j]][j := r[j - 1]], key)
    ensures Moving(r[j - 1 := r[j]][j := r[j - 1]], i, j - 1, key)
  {
    var t := r[j - 1 := r[j]][j := r[j - 1]];
    forall a, b | 0 <= a < b <= i && a != j - 1 && b != j - 1
      ensures key[t[a]] >= key[t[b]]
    {
      if a == j {
        assert t[a] == r[j - 1] && t[b] == r[b];
      } else if b == j {
        assert t[b] == r[j - 1] && t[a] == r[a];
      }
    }
  }

  lemma InsertDone(r: seq<nat>, i: nat, j: nat, key: seq<nat>)
    requires j <= i < |r| && KeysDefined(r, key)
    requires Moving(r, i, j, key)
    requires j == 0 || key[r[j - 1]] >= key[r[j]]
    ensures forall a, b :: 0 <= a < b <= i ==> key[r[a]] >= key[r[b]]
  {
    forall a, b | 0 <= a < b <= i
      ensures key[r[a]] >= key[r[b]]
    {
      if b == j && a < j - 1 {
        assert key[r[a]] >= key[r[j - 1]];
      }
    }
  }

  lemma SwapKeepsMultiset(s: seq<nat>, a: nat, b: nat)
    requires a < b < |s|
    ensures multiset(s[a := s[b]][b := s[a]]) == multiset(s)
  {
    var t := s[a := s[b]][b := s[a]];
    assert t == s[..a] + [s[b]] + s[a + 1..b] + [s[a]] + s[b + 1..];
    assert s == s[..a] + [s[a]] + s[a + 1..b] + [s[b]] + s[b + 1..];
  }
}
