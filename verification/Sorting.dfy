/** Sorting by position.  The source calls `std::sort` with a comparison on
    positions only, so the order of entries at equal positions is left open:
    what is used of `Sort` elsewhere is its contract and nothing else. */
module Sorting {
  import opened Positions

  ghost predicate Sorted<T>(s: seq<T>, key: T -> Position) {
    forall i, j :: 0 <= i < j < |s| ==> key(s[i]).AtMost(key(s[j]))
  }

  /** Putting a least entry in front keeps the order. */
  lemma PrependSorted<T>(x: T, s: seq<T>, from: multiset<T>, key: T -> Position)
    requires Sorted(s, key) && multiset(s) == from
    requires forall y :: y in from ==> key(x).AtMost(key(y))
    ensures Sorted([x] + s, key)
  {
    forall i | 0 <= i < |s| ensures key(x).AtMost(key(s[i])) {
      assert s[i] in multiset(s);
    }
  }

  lemma HeadIsLeast<T>(x: T, s: seq<T>, key: T -> Position)
    requires s != [] && Sorted(s, key) && key(s[0]).AtMost(key(x))
    ensures forall y :: y in multiset(s[1..]) + multiset{x} ==> key(s[0]).AtMost(key(y))
  {
    forall y | y in multiset(s[1..]) + multiset{x} ensures key(s[0]).AtMost(key(y)) {
      if y in multiset(s[1..]) {
        var i :| 0 <= i < |s[1..]| && s[1..][i] == y;
        assert s[i + 1] == y;
      }
    }
  }

  function Insert<T>(x: T, s: seq<T>, key: T -> Position): (r: seq<T>)
    requires Sorted(s, key)
    ensures Sorted(r, key)
    ensures multiset(r) == multiset(s) + multiset{x}
  {
    if s == [] || key(x).AtMost(key(s[0])) then
      [x] + s
    else
      var rest := Insert(x, s[1..], key);
      HeadIsLeast(x, s, key);
      PrependSorted(s[0], rest, multiset(s[1..]) + multiset{x}, key);
      assert s == [s[0]] + s[1..];
      [s[0]] + rest
  }

  function Sort<T>(s: seq<T>, key: T -> Position): (r: seq<T>)
    ensures Sorted(r, key)
    ensures multiset(r) == multiset(s)
  {
    if s == [] then
      []
    else
      assert s == [s[0]] + s[1..];
      Insert(s[0], Sort(s[1..], key), key)
  }

  function Remove<T>(s: seq<T>, n: nat): (r: seq<T>)
    requires n < |s|
    ensures multiset(r) == multiset(s) - multiset{s[n]}
    ensures |r| == |s| - 1
  {
    assert s == s[..n] + [s[n]] + s[n + 1..];
    s[..n] + s[n + 1..]
  }

  lemma RemoveKeepsSorted<T>(s: seq<T>, n: nat, key: T -> Position)
    requires n < |s| && Sorted(s, key)
    ensures Sorted(Remove(s, n), key)
  {
  }

  lemma LastPositionsAgree<T>(s: seq<T>, t: seq<T>, key: T -> Position)
    requires Sorted(s, key) && Sorted(t, key) && multiset(s) == multiset(t) && s != [] && t != []
    ensures key(s[|s| - 1]) == key(t[|t| - 1])
  {
    assert s[|s| - 1] in multiset(t) && t[|t| - 1] in multiset(s);
    var k :| 0 <= k < |t| && t[k] == s[|s| - 1];
    var m :| 0 <= m < |s| && s[m] == t[|t| - 1];
  }

  // If t without its entry k agrees with s without its last, so do t and s.
  lemma AgreeAfterRemoval<T>(s: seq<T>, t: seq<T>, k: nat, key: T -> Position)
    requires k < |t| == |s| && Sorted(t, key)
    requires key(t[k]) == key(s[|s| - 1]) == key(t[|t| - 1])
    requires forall i :: 0 <= i < |s| - 1 ==> key(s[i]) == key(Remove(t, k)[i])
    ensures forall i :: 0 <= i < |s| ==> key(s[i]) == key(t[i])
  {
    forall i | 0 <= i < |s| ensures key(s[i]) == key(t[i]) {
      if i < |s| - 1 {
        assert key(s[i]) == key(Remove(t, k)[i]);
        assert Remove(t, k)[i] == if i < k then t[i] else t[i + 1];
      }
    }
  }

  /** Two sorted arrangements of the same entries show the same column of
      positions: they differ at most in the order of equal positions. */
  lemma {:induction false} SortedPermutationsAgree<T>(s: seq<T>, t: seq<T>, key: T -> Position)
    requires Sorted(s, key) && Sorted(t, key) && multiset(s) == multiset(t)
    ensures |s| == |t|
    ensures forall i :: 0 <= i < |s| ==> key(s[i]) == key(t[i])
  {
    assert |multiset(s)| == |s| && |multiset(t)| == |t|;
    if s != [] {
      LastPositionsAgree(s, t, key);
      var last := |s| - 1;
      assert s[last] in multiset(t);
      var k :| 0 <= k < |t| && t[k] == s[last];
      RemoveKeepsSorted(s, last, key);
      RemoveKeepsSorted(t, k, key);
      hide Sorted;
      SortedPermutationsAgree(Remove(s, last), Remove(t, k), key);
      forall i | 0 <= i < last ensures key(s[i]) == key(Remove(t, k)[i]) {
        assert Remove(s, last)[i] == s[i];
      }
      AgreeAfterRemoval(s, t, k, key);
    }
  }
}
