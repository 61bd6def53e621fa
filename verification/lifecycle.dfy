/** Birth, confirmation and death of tracks over whole runs, for arbitrary association
    outcomes. */
module Lifecycle {

  /** Track ids are 32-bit and wrap. */
  const ID_SPAN := 0x1_0000_0000

  datatype Params = Params(confirmCount: int, dropCount: int, maxTracks: nat)

  /** What the node's configuration accepts. */
  predicate ValidParams(ps: Params) {
    ps.confirmCount >= 1 && ps.dropCount >= 0 && ps.maxTracks >= 1
  }

  /** The lifecycle part of a track: its serial number since the last reset, the counters
      and flag the tracker keeps, and its full history of associated scans. */
  datatype Life = Life(serial: nat, hits: int, misses: int, confirmed: bool, log: seq<bool>)

  datatype Herd = Herd(tracks: seq<Life>, born: nat)

  function Id(serial: nat): nat { serial % ID_SPAN }

  function Newborn(ps: Params, serial: nat): Life {
    Life(serial, 1, 0, 1 >= ps.confirmCount, [true])
  }

  function Aged(ps: Params, t: Life, matched: bool): Life {
    if matched then
      Life(t.serial, t.hits + 1, 0, t.confirmed || t.hits + 1 >= ps.confirmCount, t.log + [true])
    else
      Life(t.serial, 0, t.misses + 1, t.confirmed, t.log + [false])
  }

  function AgedAll(ps: Params, ts: seq<Life>, matched: seq<bool>): (r: seq<Life>)
    requires |matched| == |ts|
    ensures |r| == |ts| && forall k :: 0 <= k < |ts| ==> r[k] == Aged(ps, ts[k], matched[k])
  {
    seq(|ts|, k requires 0 <= k < |ts| => Aged(ps, ts[k], matched[k]))
  }

  predicate Survives(ps: Params, t: Life) { t.misses <= ps.dropCount }

  function Survivors(ps: Params, ts: seq<Life>): (r: seq<Life>)
    ensures |r| <= |ts|
  {
    if ts == [] then []
    else
      Survivors(ps, ts[..|ts| - 1]) + (if Survives(ps, ts[|ts| - 1]) then [ts[|ts| - 1]] else [])
  }

  /** How many of the unmatched measurements become tracks. */
  function Births(ps: Params, held: nat, unmatched: nat): nat {
    if held >= ps.maxTracks then 0
    else if unmatched <= ps.maxTracks - held then unmatched else ps.maxTracks - held
  }

  function Newborns(ps: Params, born: nat, n: nat): (r: seq<Life>)
    ensures |r| == n && forall k :: 0 <= k < n ==> r[k] == Newborn(ps, born + k)
  {
    seq(n, k requires 0 <= k < n => Newborn(ps, born + k))
  }

  /** One scan: which tracks were associated and how many measurements were not. */
  datatype Scan = Scan(matched: seq<bool>, unmatched: nat)

  function Next(ps: Params, h: Herd, scan: Scan): Herd
    requires |scan.matched| == |h.tracks|
  {
    var held := Held(ps, h, scan);
    var n := Births(ps, |held|, scan.unmatched);
    Herd(held + Newborns(ps, h.born, n), h.born + n)
  }

  const Empty := Herd([], 0)

  /** A run from a reset is any sequence of scans whose association outcomes fit. */
  ghost predicate IsRun(ps: Params, states: seq<Herd>, scans: seq<Scan>) {
    && |states| == |scans| + 1 && states[0] == Empty
    && forall k :: 0 <= k < |scans| ==> Follows(ps, states[k], scans[k], states[k + 1])
  }

  ghost predicate Follows(ps: Params, h: Herd, scan: Scan, next: Herd) {
    |scan.matched| == |h.tracks| && next == Next(ps, h, scan)
  }

  // ----- the counters read the history

  /** The number of equal entries at the end of a history. */
  function Trailing(log: seq<bool>, value: bool): nat {
    if log == [] || log[|log| - 1] != value then 0 else 1 + Trailing(log[..|log| - 1], value)
  }

  /** Some c consecutive scans of the history were all associated. */
  ghost predicate Streak(log: seq<bool>, c: int) {
    exists i :: StreakAt(log, i, c)
  }

  ghost predicate StreakAt(log: seq<bool>, i: int, c: int) {
    0 <= i <= i + c <= |log| && forall k :: i <= k < i + c ==> log[k]
  }

  /** The invariant of one held track. */
  ghost predicate Faithful(ps: Params, t: Life) {
    && t.log != [] && t.log[0]
    && t.hits == Trailing(t.log, true) && t.misses == Trailing(t.log, false)
    && (t.confirmed <==> Streak(t.log, ps.confirmCount))
  }

  ghost predicate Increasing(ts: seq<Life>, born: nat) {
    && (forall i, j :: 0 <= i < j < |ts| ==> ts[i].serial < ts[j].serial)
    && forall i :: 0 <= i < |ts| ==> ts[i].serial < born
  }

  ghost predicate Sound(ps: Params, h: Herd) {
    && |h.tracks| <= ps.maxTracks
    && Increasing(h.tracks, h.born)
    && forall i :: 0 <= i < |h.tracks| ==> Faithful(ps, h.tracks[i]) && Survives(ps, h.tracks[i])
  }

  lemma {:induction false} TrailingAll(log: seq<bool>, value: bool)
    ensures Trailing(log, value) <= |log|
    ensures forall k :: |log| - Trailing(log, value) <= k < |log| ==> log[k] == value
    ensures Trailing(log, value) < |log| ==> log[|log| - 1 - Trailing(log, value)] != value
  {
    if log != [] && log[|log| - 1] == value {
      TrailingAll(log[..|log| - 1], value);
    }
  }

  lemma TrailingSnoc(log: seq<bool>, b: bool, value: bool)
    ensures Trailing(log + [b], value) == if b == value then Trailing(log, value) + 1 else 0
  {
    assert (log + [b])[..|log|] == log;
  }

  /** A streak appears with a scan exactly when it was there before or the scan completes
      a trailing run of that length. */
  lemma StreakSnoc(log: seq<bool>, b: bool, c: int)
    requires c >= 1
    ensures Streak(log + [b], c) <==> (Streak(log, c) || (b && Trailing(log, true) + 1 >= c))
  {
    var m := log + [b];
    TrailingAll(log, true);
    if Streak(log, c) {
      var i :| StreakAt(log, i, c);
      assert StreakAt(m, i, c);
    }
    if b && Trailing(log, true) + 1 >= c {
      assert StreakAt(m, |m| - c, c);
    }
    if Streak(m, c) {
      var i :| StreakAt(m, i, c);
      if i + c <= |log| {
        assert forall k :: i <= k < i + c ==> m[k] == log[k];
        assert StreakAt(log, i, c);
      } else {
        assert m[|log|] == b;
        if Trailing(log, true) < |log| { assert !m[|log| - 1 - Trailing(log, true)]; }
      }
    }
  }

  /** Ageing keeps counters, flag and history in agreement. */
  lemma AgedFaithful(ps: Params, t: Life, matched: bool)
    requires ValidParams(ps) && Faithful(ps, t)
    ensures Faithful(ps, Aged(ps, t, matched))
  {
    TrailingSnoc(t.log, matched, true);
    TrailingSnoc(t.log, matched, false);
    StreakSnoc(t.log, matched, ps.confirmCount);
    assert (t.log + [matched])[0] == t.log[0];
  }

  lemma NewbornFaithful(ps: Params, serial: nat)
    requires ValidParams(ps)
    ensures Faithful(ps, Newborn(ps, serial)) && Survives(ps, Newborn(ps, serial))
  {
    TrailingSnoc([], true, true);
    TrailingSnoc([], true, false);
    StreakSnoc([], true, ps.confirmCount);
    assert [] + [true] == [true];
    assert !Streak([], ps.confirmCount);
  }

  lemma {:induction false} SurvivorsSound(ps: Params, ts: seq<Life>, born: nat)
    requires Increasing(ts, born) && forall i :: 0 <= i < |ts| ==> Faithful(ps, ts[i])
    ensures var r := Survivors(ps, ts);
            Increasing(r, born) && forall i :: 0 <= i < |r| ==> Faithful(ps, r[i]) && Survives(ps, r[i]) && r[i] in ts
    ensures forall t :: t in ts && Survives(ps, t) ==> t in Survivors(ps, ts)
  {
    hide Faithful;
    if ts != [] {
      SurvivorsSound(ps, ts[..|ts| - 1], born);
    }
  }

  /** The tracks that outlive a scan. */
  function Held(ps: Params, h: Herd, scan: Scan): seq<Life>
    requires |scan.matched| == |h.tracks|
  {
    Survivors(ps, AgedAll(ps, h.tracks, scan.matched))
  }

  lemma HeldSound(ps: Params, h: Herd, scan: Scan)
    requires ValidParams(ps) && Sound(ps, h) && |scan.matched| == |h.tracks|
    ensures var r := Held(ps, h, scan);
            Increasing(r, h.born) && forall i :: 0 <= i < |r| ==> Faithful(ps, r[i]) && Survives(ps, r[i])
    ensures forall i :: 0 <= i < |h.tracks| ==> Faithful(ps, Aged(ps, h.tracks[i], scan.matched[i]))
  {
    hide Faithful, Aged;
    var aged := AgedAll(ps, h.tracks, scan.matched);
    forall i | 0 <= i < |aged| ensures Faithful(ps, Aged(ps, h.tracks[i], scan.matched[i])) && aged[i].serial == h.tracks[i].serial {
      AgedFaithful(ps, h.tracks[i], scan.matched[i]);
      AgedSerial(ps, h.tracks[i], scan.matched[i]);
    }
    SurvivorsSound(ps, aged, h.born);
  }

  lemma AgedSerial(ps: Params, t: Life, matched: bool)
    ensures Aged(ps, t, matched).serial == t.serial
  {
  }

  /** Who is held: the aged tracks that survive, and nobody else. */
  lemma HeldIff(ps: Params, h: Herd, scan: Scan, t: Life)
    requires ValidParams(ps) && Sound(ps, h) && |scan.matched| == |h.tracks|
    ensures t in Held(ps, h, scan) <==>
      Survives(ps, t) && exists i :: 0 <= i < |h.tracks| && t == Aged(ps, h.tracks[i], scan.matched[i])
  {
    hide Faithful, Aged, Survives;
    var aged := AgedAll(ps, h.tracks, scan.matched);
    HeldSound(ps, h, scan);
    forall i | 0 <= i < |aged| ensures aged[i].serial == h.tracks[i].serial {
      AgedSerial(ps, h.tracks[i], scan.matched[i]);
    }
    SurvivorsSound(ps, aged, h.born);
    if t in Held(ps, h, scan) {
      var k :| 0 <= k < |Held(ps, h, scan)| && Held(ps, h, scan)[k] == t;
      assert t in aged;
    }
    if exists i :: 0 <= i < |h.tracks| && t == Aged(ps, h.tracks[i], scan.matched[i]) {
      assert t in aged;
    }
  }

  /** Every scan keeps the invariant. */
  lemma NextSound(ps: Params, h: Herd, scan: Scan)
    requires ValidParams(ps) && Sound(ps, h) && |scan.matched| == |h.tracks|
    ensures Sound(ps, Next(ps, h, scan))
  {
    hide Faithful, Survivors, AgedAll;
    HeldSound(ps, h, scan);
    var n := Births(ps, |Held(ps, h, scan)|, scan.unmatched);
    forall k | 0 <= k < n ensures Faithful(ps, Newborns(ps, h.born, n)[k]) && Survives(ps, Newborns(ps, h.born, n)[k]) {
      NewbornFaithful(ps, h.born + k);
    }
    HeldCount(ps, h, scan);
  }

  lemma HeldCount(ps: Params, h: Herd, scan: Scan)
    requires |scan.matched| == |h.tracks|
    ensures |Held(ps, h, scan)| <= |h.tracks|
  {
  }

  /** The invariant holds after every scan of every run. */
  lemma {:induction false} RunSound(ps: Params, states: seq<Herd>, scans: seq<Scan>, k: nat)
    requires ValidParams(ps) && IsRun(ps, states, scans) && k < |states|
    ensures Sound(ps, states[k])
  {
    if k > 0 {
      RunSound(ps, states, scans, k - 1);
      assert Follows(ps, states[k - 1], scans[k - 1], states[k - 1 + 1]);
      NextSound(ps, states[k - 1], scans[k - 1]);
    }
  }

  /** Exactly one of a held track's counters is positive. */
  lemma OneCounter(ps: Params, t: Life)
    requires Faithful(ps, t)
    ensures (t.hits > 0 && t.misses == 0) || (t.hits == 0 && t.misses > 0)
  {
  }

  /** A held track is dropped by a scan exactly when that scan is its
      (dropCount + 1)-th consecutive miss. */
  lemma DroppedExactly(ps: Params, h: Herd, scan: Scan, i: nat)
    requires ValidParams(ps) && Sound(ps, h) && |scan.matched| == |h.tracks| && i < |h.tracks|
    ensures (forall t :: t in Next(ps, h, scan).tracks ==> t.serial != h.tracks[i].serial)
       <==> Trailing(h.tracks[i].log + [scan.matched[i]], false) == ps.dropCount + 1
  {
    hide Faithful, Aged, Survivors, AgedAll;
    var t, u := h.tracks[i], Aged(ps, h.tracks[i], scan.matched[i]);
    HeldSound(ps, h, scan);
    MissesRead(ps, u);
    AgedLog(ps, t, scan.matched[i]);
    TrailingSnoc(t.log, scan.matched[i], false);
    MissesRead(ps, t);
    HeldIff(ps, h, scan, u);
    if Survives(ps, u) {
      assert u in Next(ps, h, scan).tracks;
    } else {
      forall v | v in Next(ps, h, scan).tracks ensures v.serial != t.serial {
        if v in Held(ps, h, scan) {
          HeldIff(ps, h, scan, v);
          var k :| 0 <= k < |h.tracks| && v == Aged(ps, h.tracks[k], scan.matched[k]);
          AgedSerial(ps, h.tracks[k], scan.matched[k]);
        }
      }
    }
  }

  lemma AgedLog(ps: Params, t: Life, matched: bool)
    ensures Aged(ps, t, matched).log == t.log + [matched] && Aged(ps, t, matched).serial == t.serial
  {
  }

  lemma MissesRead(ps: Params, t: Life)
    requires Faithful(ps, t)
    ensures t.misses == Trailing(t.log, false)
  {
  }

  /** Every scan appends exactly one history entry to each survivor and changes nothing
      about its identity; newcomers get the next serial numbers. */
  lemma SurvivorsContinue(ps: Params, h: Herd, scan: Scan, t: Life)
    requires ValidParams(ps) && Sound(ps, h) && |scan.matched| == |h.tracks| && t in Next(ps, h, scan).tracks
    ensures if t.serial < h.born
            then exists i :: 0 <= i < |h.tracks| && h.tracks[i].serial == t.serial && t == Aged(ps, h.tracks[i], scan.matched[i])
            else t == Newborn(ps, t.serial) && t.serial < Next(ps, h, scan).born
  {
    hide Faithful, Aged, Survivors, AgedAll;
    HeldSound(ps, h, scan);
    if t in Held(ps, h, scan) {
      HeldIff(ps, h, scan, t);
      var i :| 0 <= i < |h.tracks| && t == Aged(ps, h.tracks[i], scan.matched[i]);
      AgedSerial(ps, h.tracks[i], scan.matched[i]);
    }
  }

  // ----- 32-bit ids

  /** Ids are never reused between resets, and stay strictly increasing along the track
      list, exactly as long as no more than 2^32 tracks have been born. */
  lemma IdsUniqueIff(born: nat)
    ensures (forall a: nat, b: nat :: a < b < born ==> Id(a) != Id(b)) <==> born <= ID_SPAN
    ensures born <= ID_SPAN ==> forall a: nat, b: nat :: a < b < born ==> Id(a) < Id(b)
  {
    if born > ID_SPAN {
      assert Id(0) == Id(ID_SPAN) == 0;
    } else {
      forall a: nat, b: nat | a < b < born ensures Id(a) < Id(b) {
        assert Id(a) == a && Id(b) == b;
      }
    }
  }
}
