/** Sorting by a real key, as std::sort promises it: in order, with nothing lost, and ties
    in any order. */
module Sorting {

  predicate SortedBy<T>(key: T -> real, s: seq<T>) {
    forall i, j :: 0 <= i < j < |s| ==> key(s[i]) <= key(s[j])
  }

  method SortBy<T>(key: T -> real, s: seq<T>) returns (r: seq<T>)
    ensures SortedBy(key, r) && multiset(r) == multiset(s)
  {
    r := [];
    for n := 0 to |s|
      invariant SortedBy(key, r) && multiset(r) == multiset(s[..n])
    {
      r := InsertBy(key, r, s[n]);
      assert s[..n + 1] == s[..n] + [s[n]];
    }
    assert s[..|s|] == s;
  }

  method InsertBy<T>(key: T -> real, r: seq<T>, x: T) returns (t: seq<T>)
    requires SortedBy(key, r)
    ensures SortedBy(key, t) && multiset(t) == multiset(r) + multiset{x}
  {
    hide SortedBy;
    var i := |r|;
    while i > 0 && key(x) < key(r[i - 1])
      invariant 0 <= i <= |r|
      invariant i < |r| ==> key(x) < key(r[i])
    {
      i := i - 1;
    }
    InsertKeeps(key, r, i, x);
    InsertCounts(r, i, x);
    t := r[..i] + [x] + r[i..];
  }

  lemma InsertKeeps<T>(key: T -> real, r: seq<T>, i: nat, x: T)
    requires SortedBy(key, r) && i <= |r| && (i < |r| ==> key(x) < key(r[i])) && (i > 0 ==> key(r[i - 1]) <= key(x))
    ensures SortedBy(key, r[..i] + [x] + r[i..])
  {
    var out := r[..i] + [x] + r[i..];
    forall a, b | 0 <= a < b < |out| ensures key(out[a]) <= key(out[b]) {
      if a < i {
        assert out[a] == r[a] && (a < i - 1 ==> key(r[a]) <= key(r[i - 1]));
      }
      if b > i {
        assert out[b] == r[b - 1] && (i < b - 1 ==> key(r[i]) <= key(r[b - 1]));
      }
    }
  }

  lemma InsertCounts<T>(r: seq<T>, i: nat, x: T)
    requires i <= |r|
    ensures multiset(r[..i] + [x] + r[i..]) == multiset(r) + multiset{x}
  {
    assert r == r[..i] + r[i..];
  }

  /** A property of every element survives a reordering. */
  lemma KeepsEvery<T>(ok: T -> bool, s: seq<T>, r: seq<T>)
    requires multiset(r) == multiset(s) && forall i :: 0 <= i < |s| ==> ok(s[i])
    ensures |r| == |s| && forall i :: 0 <= i < |r| ==> ok(r[i])
  {
    assert |multiset(r)| == |multiset(s)|;
    forall i | 0 <= i < |r| ensures ok(r[i]) {
      assert r[i] in multiset(s);
      assert r[i] in s;
    }
  }
}
