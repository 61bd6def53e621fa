/** Gated greedy nearest-neighbour association of tracks with measurements. */
module Association {
  import opened Basics
  import opened Clustering
  import opened Sorting

  datatype Pair = Pair(d2: real, ti: nat, mi: nat)

  /** `track[t]` is the measurement of track t or -1; `used[m]` marks taken ones. */
  datatype Matching = Matching(track: seq<int>, used: seq<bool>)

  predicate InGate(ts: seq<Point>, ms: seq<Point>, gate2: real, t: nat, m: nat)
    requires t < |ts| && m < |ms|
  {
    Dist2(ts[t], ms[m]) <= gate2
  }

  /** Injective in both directions, inside the gate, and bookkept consistently. */
  ghost predicate IsMatching(ts: seq<Point>, ms: seq<Point>, gate2: real, a: Matching) {
    && |a.track| == |ts| && |a.used| == |ms|
    && (forall t :: 0 <= t < |ts| ==> -1 <= a.track[t] < |ms|)
    && (forall t :: 0 <= t < |ts| && a.track[t] >= 0 ==> a.used[a.track[t]] && InGate(ts, ms, gate2, t, a.track[t]))
    && (forall t, u :: 0 <= t < u < |ts| && a.track[t] >= 0 ==> a.track[t] != a.track[u])
    && (forall m :: 0 <= m < |ms| && a.used[m] ==> m in a.track)
  }

  /** The track or the measurement of a pair has a partner at least as close. */
  ghost predicate Served(ts: seq<Point>, ms: seq<Point>, a: Matching, p: Pair) {
    && p.ti < |ts| == |a.track| && p.mi < |ms|
    && ((0 <= a.track[p.ti] < |ms| && Dist2(ts[p.ti], ms[a.track[p.ti]]) <= p.d2)
        || exists u :: 0 <= u < |ts| && a.track[u] == p.mi && Dist2(ts[u], ms[p.mi]) <= p.d2)
  }

  /** No in-gate pair would rather be matched with each other; in particular no in-gate
      pair is left with both sides free. */
  ghost predicate Stable(ts: seq<Point>, ms: seq<Point>, gate2: real, a: Matching) {
    && IsMatching(ts, ms, gate2, a)
    && forall t: nat, m: nat :: t < |ts| && m < |ms| && InGate(ts, ms, gate2, t, m) ==> Served(ts, ms, a, Pair(Dist2(ts[t], ms[m]), t, m))
  }

  predicate GoodPair(ts: seq<Point>, ms: seq<Point>, gate2: real, p: Pair) {
    p.ti < |ts| && p.mi < |ms| && p.d2 == Dist2(ts[p.ti], ms[p.mi]) && p.d2 <= gate2
  }

  /** Exactly the in-gate pairs. */
  ghost predicate AllPairs(ts: seq<Point>, ms: seq<Point>, gate2: real, pairs: seq<Pair>) {
    && (forall p :: p in pairs ==> GoodPair(ts, ms, gate2, p))
    && forall t: nat, m: nat :: t < |ts| && m < |ms| && InGate(ts, ms, gate2, t, m) ==> Pair(Dist2(ts[t], ms[m]), t, m) in pairs
  }

  method BuildPairs(ts: seq<Point>, ms: seq<Point>, gate2: real) returns (pairs: seq<Pair>)
    ensures AllPairs(ts, ms, gate2, pairs)
  {
    hide Dist2;
    pairs := [];
    for ti := 0 to |ts|
      invariant forall p :: p in pairs ==> GoodPair(ts, ms, gate2, p)
      invariant forall t: nat, m: nat :: t < ti && m < |ms| && InGate(ts, ms, gate2, t, m) ==> Pair(Dist2(ts[t], ms[m]), t, m) in pairs
    {
      for mi := 0 to |ms|
        invariant forall p :: p in pairs ==> GoodPair(ts, ms, gate2, p)
        invariant forall t: nat, m: nat :: t < |ts| && m < |ms| && (t < ti || (t == ti && m < mi)) && InGate(ts, ms, gate2, t, m) ==> Pair(Dist2(ts[t], ms[m]), t, m) in pairs
      {
        var d2 := Dist2(ts[ti], ms[mi]);
        if d2 <= gate2 { pairs := pairs + [Pair(d2, ti, mi)]; }
      }
    }
  }

  ghost predicate Sorted(pairs: seq<Pair>) {
    forall i, j :: 0 <= i < j < |pairs| ==> pairs[i].d2 <= pairs[j].d2
  }

  /** Closest first, ties in any order. */
  method SortPairs(pairs: seq<Pair>) returns (r: seq<Pair>)
    ensures Sorted(r) && multiset(r) == multiset(pairs)
  {
    var key := (p: Pair) => p.d2;
    r := SortBy(key, pairs);
    forall i, j | 0 <= i < j < |r| ensures r[i].d2 <= r[j].d2 { assert key(r[i]) <= key(r[j]); }
  }

  /** Assign closest-first, skipping pairs with a side already taken. */
  method Greedy(ts: seq<Point>, ms: seq<Point>, gate2: real, pairs: seq<Pair>) returns (a: Matching)
    requires Sorted(pairs) && forall p :: p in pairs ==> GoodPair(ts, ms, gate2, p)
    ensures IsMatching(ts, ms, gate2, a)
    ensures forall k :: 0 <= k < |pairs| ==> Served(ts, ms, a, pairs[k])
  {
    hide Dist2;
    var track, used := seq(|ts|, i => -1), seq(|ms|, i => false);
    a := Matching(track, used);
    for k := 0 to |pairs|
      invariant IsMatching(ts, ms, gate2, a)
      invariant forall t :: 0 <= t < |ts| && a.track[t] >= 0 ==> forall l :: k <= l < |pairs| ==> Dist2(ts[t], ms[a.track[t]]) <= pairs[l].d2
      invariant forall l :: 0 <= l < k ==> Served(ts, ms, a, pairs[l])
    {
      var p := pairs[k];
      assert GoodPair(ts, ms, gate2, p);
      if a.track[p.ti] != -1 || a.used[p.mi] {
        BlockedServed(ts, ms, gate2, a, p);
      } else {
        var b := Matching(a.track[p.ti := p.mi], a.used[p.mi := true]);
        AssignMatching(ts, ms, gate2, a, p);
        forall l | 0 <= l < k ensures Served(ts, ms, b, pairs[l]) {
          ServedKept(ts, ms, gate2, a, p, pairs[l]);
        }
        a := b;
      }
    }
  }

  lemma BlockedServed(ts: seq<Point>, ms: seq<Point>, gate2: real, a: Matching, p: Pair)
    requires IsMatching(ts, ms, gate2, a) && GoodPair(ts, ms, gate2, p)
    requires a.track[p.ti] != -1 || a.used[p.mi]
    requires forall t :: 0 <= t < |ts| && a.track[t] >= 0 ==> Dist2(ts[t], ms[a.track[t]]) <= p.d2
    ensures Served(ts, ms, a, p)
  {
    hide Dist2;
    if a.track[p.ti] == -1 {
      var u :| 0 <= u < |a.track| && a.track[u] == p.mi;
      assert Dist2(ts[u], ms[p.mi]) <= p.d2;
    }
  }

  lemma AssignMatching(ts: seq<Point>, ms: seq<Point>, gate2: real, a: Matching, p: Pair)
    requires IsMatching(ts, ms, gate2, a) && GoodPair(ts, ms, gate2, p) && a.track[p.ti] == -1 && !a.used[p.mi]
    ensures IsMatching(ts, ms, gate2, Matching(a.track[p.ti := p.mi], a.used[p.mi := true]))
    ensures Served(ts, ms, Matching(a.track[p.ti := p.mi], a.used[p.mi := true]), p)
  {
    hide Dist2;
    var b := Matching(a.track[p.ti := p.mi], a.used[p.mi := true]);
    assert forall t :: 0 <= t < |ts| ==> a.track[t] != p.mi;
    forall m | 0 <= m < |ms| && b.used[m] ensures m in b.track {
      if m == p.mi {
        assert b.track[p.ti] == m;
      } else {
        var u :| 0 <= u < |a.track| && a.track[u] == m;
        assert b.track[u] == m;
      }
    }
  }

  lemma ServedKept(ts: seq<Point>, ms: seq<Point>, gate2: real, a: Matching, p: Pair, q: Pair)
    requires IsMatching(ts, ms, gate2, a) && GoodPair(ts, ms, gate2, p) && a.track[p.ti] == -1 && !a.used[p.mi]
    requires GoodPair(ts, ms, gate2, q) && Served(ts, ms, a, q)
    ensures Served(ts, ms, Matching(a.track[p.ti := p.mi], a.used[p.mi := true]), q)
  {
    hide Dist2;
    var b := Matching(a.track[p.ti := p.mi], a.used[p.mi := true]);
    if !(a.track[q.ti] >= 0 && Dist2(ts[q.ti], ms[a.track[q.ti]]) <= q.d2) {
      var u :| 0 <= u < |ts| && a.track[u] == q.mi && Dist2(ts[u], ms[q.mi]) <= q.d2;
      assert b.track[u] == q.mi;
    }
  }

  /** The association of one scan is a stable matching. */
  method Associate(ts: seq<Point>, ms: seq<Point>, gate: real) returns (a: Matching)
    ensures Stable(ts, ms, Square(gate), a)
    ensures |a.track| == |ts| && |a.used| == |ms| && forall t :: 0 <= t < |ts| ==> -1 <= a.track[t] < |ms|
  {
    var gate2 := Square(gate);
    var built := BuildPairs(ts, ms, gate2);
    var pairs := SortPairs(built);
    SameElements(built, pairs);
    a := Greedy(ts, ms, gate2, pairs);
    AllServed(ts, ms, gate2, pairs, a);
  }

  lemma SameElements(s: seq<Pair>, t: seq<Pair>)
    requires multiset(s) == multiset(t)
    ensures forall p :: p in s <==> p in t
  {
    assert forall p :: p in s <==> p in multiset(s);
    assert forall p :: p in t <==> p in multiset(t);
  }

  lemma AllServed(ts: seq<Point>, ms: seq<Point>, gate2: real, pairs: seq<Pair>, a: Matching)
    requires IsMatching(ts, ms, gate2, a) && AllPairs(ts, ms, gate2, pairs)
    requires forall k :: 0 <= k < |pairs| ==> Served(ts, ms, a, pairs[k])
    ensures Stable(ts, ms, gate2, a)
  {
    hide Dist2, Served, IsMatching;
  }

  /** No two in-gate pairs are equally far apart. */
  ghost predicate Distinct(ts: seq<Point>, ms: seq<Point>, gate2: real) {
    forall t: nat, m: nat, u: nat, n: nat ::
      (t < |ts| && u < |ts| && m < |ms| && n < |ms| && InGate(ts, ms, gate2, t, m) && InGate(ts, ms, gate2, u, n)
      && Dist2(ts[t], ms[m]) == Dist2(ts[u], ms[n])) ==> (t == u && m == n)
  }

  ghost function Closer(ts: seq<Point>, ms: seq<Point>, d2: real): set<(nat, nat)> {
    set t: nat, m: nat | t < |ts| && m < |ms| && Dist2(ts[t], ms[m]) < d2 :: (t, m)
  }

  /** A pair matched by one stable matching only yields a strictly closer pair matched by
      the other only, which cannot go on forever. */
  lemma {:induction false} NoDisagreement(ts: seq<Point>, ms: seq<Point>, gate2: real, a: Matching, b: Matching, t: nat, m: nat)
    requires Stable(ts, ms, gate2, a) && Stable(ts, ms, gate2, b) && Distinct(ts, ms, gate2)
    requires t < |ts| && m < |ms| && a.track[t] == m
    ensures b.track[t] == m
    decreases Closer(ts, ms, Dist2(ts[t], ms[m]))
  {
    hide Dist2;
    if b.track[t] != m {
      var d := Dist2(ts[t], ms[m]);
      assert Served(ts, ms, b, Pair(d, t, m));
      if 0 <= b.track[t] && Dist2(ts[t], ms[b.track[t]]) <= d {
        var n := b.track[t];
        CloserShrinks(ts, ms, gate2, t, m, t, n);
        NoDisagreement(ts, ms, gate2, b, a, t, n);
      } else {
        var u :| 0 <= u < |ts| && b.track[u] == m && Dist2(ts[u], ms[m]) <= d;
        CloserShrinks(ts, ms, gate2, t, m, u, m);
        NoDisagreement(ts, ms, gate2, b, a, u, m);
      }
    }
  }

  lemma CloserShrinks(ts: seq<Point>, ms: seq<Point>, gate2: real, t: nat, m: nat, u: nat, n: nat)
    requires Distinct(ts, ms, gate2) && t < |ts| && m < |ms| && u < |ts| && n < |ms| && (t, m) != (u, n)
    requires InGate(ts, ms, gate2, t, m) && InGate(ts, ms, gate2, u, n) && Dist2(ts[u], ms[n]) <= Dist2(ts[t], ms[m])
    ensures Closer(ts, ms, Dist2(ts[u], ms[n])) < Closer(ts, ms, Dist2(ts[t], ms[m]))
  {
    hide Dist2;
    assert Dist2(ts[u], ms[n]) < Dist2(ts[t], ms[m]);
    assert (u, n) in Closer(ts, ms, Dist2(ts[t], ms[m]));
    assert (u, n) !in Closer(ts, ms, Dist2(ts[u], ms[n]));
  }

  /** Without ties the stable matching is unique, so the arbitrary order a sort gives to
      equal elements cannot influence the tracker. */
  lemma StableUnique(ts: seq<Point>, ms: seq<Point>, gate2: real, a: Matching, b: Matching)
    requires Stable(ts, ms, gate2, a) && Stable(ts, ms, gate2, b) && Distinct(ts, ms, gate2)
    ensures a == b
  {
    hide Dist2;
    forall t | 0 <= t < |ts| ensures a.track[t] == b.track[t] {
      if a.track[t] >= 0 { NoDisagreement(ts, ms, gate2, a, b, t, a.track[t]); }
      if b.track[t] >= 0 { NoDisagreement(ts, ms, gate2, b, a, t, b.track[t]); }
    }
    assert a.track == b.track;
    forall m | 0 <= m < |ms| ensures a.used[m] == b.used[m] {
      UsedIffMatched(ts, ms, gate2, a, m);
      UsedIffMatched(ts, ms, gate2, b, m);
    }
    assert a.used == b.used;
  }

  lemma UsedIffMatched(ts: seq<Point>, ms: seq<Point>, gate2: real, a: Matching, m: nat)
    requires IsMatching(ts, ms, gate2, a) && m < |ms|
    ensures a.used[m] <==> m in a.track
  {
    hide Dist2;
    if m in a.track {
      var t :| 0 <= t < |a.track| && a.track[t] == m;
      assert a.used[a.track[t]];
    }
  }
}
