/** The multi-object tracker: predict, associate, fuse, drop and spawn. */
module Tracker {
  import opened Linear
  import opened Kalman
  import opened Basics
  import opened Clustering
  import opened Association
  import Imm
  import LegacyKalman
  import Lifecycle

  datatype Track = Track(
    id: nat, state: Vec, cov: Mat, filter: Imm.State, radius: real, hits: int, misses: int, confirmed: bool)

  datatype Params = Params(life: Lifecycle.Params, gate: real, filter: Imm.Params, immEnabled: bool, maths: Imm.Maths)

  ghost predicate ValidParams(ps: Params) {
    Lifecycle.ValidParams(ps.life) && Imm.ValidParams(ps.filter) && Imm.ValidMaths(ps.maths)
  }

  /** What every held track carries: a state, its covariance, and a sound filter with the IMM
      path or a covariance of two identical axes without it. */
  ghost predicate TrackSound(ps: Params, t: Track) {
    |t.state| == 4 && Psd(t.cov, 4) && if ps.immEnabled then Imm.Sound(t.filter) else LegacyKalman.TwoAxes(t.cov)
  }

  function Legacy(ps: Params): LegacyKalman.Params {
    LegacyKalman.Params(ps.filter.processNoise, ps.filter.measurementNoise, ps.filter.initialVelocityVariance)
  }

  // ----- one track

  function WithFilter(ps: Params, t: Track, f: Imm.State): (r: Track)
    requires ps.immEnabled && Imm.Sound(f)
    ensures TrackSound(ps, r)
  {
    Imm.CombinedPsd(ps.maths, f);
    t.(filter := f, state := Imm.CombinedState(ps.maths, f), cov := Imm.CombinedCov(ps.maths, f))
  }

  function PredictTrack(ps: Params, t: Track, dt: real): (r: Track)
    requires ValidParams(ps) && TrackSound(ps, t)
    ensures TrackSound(ps, r)
  {
    if ps.immEnabled then
      Imm.PredictSound(ps.maths, ps.filter, t.filter, dt);
      WithFilter(ps, t, Imm.PredictState(ps.maths, ps.filter, t.filter, dt))
    else if dt <= 0.0 then t
    else
      LegacyKalman.PredictPsd(t.cov, dt, ps.filter.processNoise);
      LegacyKalman.StepKeepsAxes(Legacy(ps), t.cov, LegacyKalman.Predict(dt));
      t.(state := MatVec(LegacyKalman.Transition(dt), t.state), cov := LegacyKalman.PredictCov(t.cov, dt, ps.filter.processNoise))
  }

  /** The filter part of an association. */
  function Estimate(ps: Params, t: Track, m: Cluster): (r: Track)
    requires ValidParams(ps) && TrackSound(ps, t)
    ensures TrackSound(ps, r)
  {
    if ps.immEnabled then
      Imm.UpdateSound(ps.maths, ps.filter, t.filter, [m.x, m.y]);
      WithFilter(ps, t, Imm.UpdateState(ps.maths, ps.filter, t.filter, [m.x, m.y]))
    else
      UpdatePsd(t.cov, 4, ps.filter.measurementNoise);
      LegacyKalman.StepKeepsAxes(Legacy(ps), t.cov, LegacyKalman.Measure);
      t.(state := Corrected(t.state, t.cov, ps.filter.measurementNoise, [m.x, m.y]), cov := Updated(t.cov, 4, ps.filter.measurementNoise))
  }

  function HitTrack(ps: Params, t: Track, m: Cluster): (r: Track)
    requires ValidParams(ps) && TrackSound(ps, t)
    ensures TrackSound(ps, r)
  {
    Estimate(ps, t, m).(radius := 0.5 * t.radius + 0.5 * m.radius, hits := t.hits + 1, misses := 0,
                        confirmed := t.confirmed || t.hits + 1 >= ps.life.confirmCount)
  }

  function MissTrack(t: Track): Track {
    t.(misses := t.misses + 1, hits := 0)
  }

  function BirthTrack(ps: Params, m: Cluster, id: nat): (r: Track)
    requires ValidParams(ps)
    ensures TrackSound(ps, r)
  {
    Imm.ResetSound(ps.maths, ps.filter, m.x, m.y);
    LegacyKalman.BirthPsd(Legacy(ps));
    LegacyKalman.RunKeepsAxes(Legacy(ps), []);
    var f := Imm.ResetState(ps.maths, ps.filter, m.x, m.y);
    var t := Track(id, [m.x, m.y, 0.0, 0.0], LegacyKalman.BirthCov(Legacy(ps)), f, m.radius, 1, 0, 1 >= ps.life.confirmCount);
    if ps.immEnabled then WithFilter(ps, t, f) else t
  }

  // ----- all tracks of one scan

  ghost predicate AllSound(ps: Params, ts: seq<Track>) {
    forall i :: 0 <= i < |ts| ==> TrackSound(ps, ts[i])
  }

  function Predicted(ps: Params, ts: seq<Track>, dt: real): (r: seq<Track>)
    requires ValidParams(ps) && AllSound(ps, ts)
    ensures |r| == |ts| && AllSound(ps, r) && forall i :: 0 <= i < |ts| ==> r[i] == PredictTrack(ps, ts[i], dt)
  {
    seq(|ts|, i requires 0 <= i < |ts| => PredictTrack(ps, ts[i], dt))
  }

  function TrackPoints(ps: Params, ts: seq<Track>): (r: seq<Point>)
    requires AllSound(ps, ts)
    ensures |r| == |ts| && forall i :: 0 <= i < |ts| ==> |ts[i].state| == 4 && r[i].x == ts[i].state[0] && r[i].y == ts[i].state[1]
  {
    seq(|ts|, i requires 0 <= i < |ts| => Point(ts[i].state[0], ts[i].state[1]))
  }

  function ClusterCentres(ms: seq<Cluster>): (r: seq<Point>)
    ensures |r| == |ms| && forall i :: 0 <= i < |ms| ==> r[i].x == ms[i].x && r[i].y == ms[i].y
  {
    seq(|ms|, i requires 0 <= i < |ms| => Point(ms[i].x, ms[i].y))
  }

  /** Fuse or age one track according to its association. */
  function Serve(ps: Params, t: Track, ms: seq<Cluster>, a: int): (r: Track)
    requires ValidParams(ps) && TrackSound(ps, t) && -1 <= a < |ms|
    ensures TrackSound(ps, r)
  {
    if a >= 0 then HitTrack(ps, t, ms[a]) else MissTrack(t)
  }

  function Fused(ps: Params, ts: seq<Track>, ms: seq<Cluster>, a: seq<int>): (r: seq<Track>)
    requires ValidParams(ps) && AllSound(ps, ts) && |a| == |ts| && forall i :: 0 <= i < |ts| ==> -1 <= a[i] < |ms|
    ensures |r| == |ts| && AllSound(ps, r) && forall i :: 0 <= i < |ts| ==> r[i] == Serve(ps, ts[i], ms, a[i])
  {
    seq(|ts|, i requires 0 <= i < |ts| => Serve(ps, ts[i], ms, a[i]))
  }

  function Kept(ps: Params, ts: seq<Track>): (r: seq<Track>)
    ensures AllSound(ps, ts) ==> AllSound(ps, r)
  {
    if ts == [] then []
    else
      var r := Kept(ps, ts[..|ts| - 1]);
      if ts[|ts| - 1].misses <= ps.life.dropCount then r + [ts[|ts| - 1]] else r
  }

  /** The tracks born from the first n measurements, given how many tracks are held. */
  function Newcomers(ps: Params, held: nat, ms: seq<Cluster>, used: seq<bool>, n: nat, nextId: nat): (r: seq<Track>)
    requires ValidParams(ps) && n <= |ms| == |used|
    ensures AllSound(ps, r)
  {
    if n == 0 then []
    else
      var r := Newcomers(ps, held, ms, used, n - 1, nextId);
      if used[n - 1] || held + |r| >= ps.life.maxTracks then r
      else r + [BirthTrack(ps, ms[n - 1], (nextId + |r|) % Lifecycle.ID_SPAN)]
  }

  function NextTracks(ps: Params, ts: seq<Track>, ms: seq<Cluster>, dt: real, a: Matching, nextId: nat): (r: seq<Track>)
    requires ValidParams(ps) && AllSound(ps, ts) && |a.track| == |ts| && |a.used| == |ms|
    requires forall i :: 0 <= i < |ts| ==> -1 <= a.track[i] < |ms|
    ensures AllSound(ps, r)
  {
    Kept(ps, Fused(ps, Predicted(ps, ts, dt), ms, a.track)) + Spawned(ps, ts, ms, dt, a, nextId)
  }

  /** The tracks born in a scan. */
  function Spawned(ps: Params, ts: seq<Track>, ms: seq<Cluster>, dt: real, a: Matching, nextId: nat): (r: seq<Track>)
    requires ValidParams(ps) && AllSound(ps, ts) && |a.track| == |ts| && |a.used| == |ms|
    requires forall i :: 0 <= i < |ts| ==> -1 <= a.track[i] < |ms|
    ensures AllSound(ps, r)
  {
    Newcomers(ps, |Kept(ps, Fused(ps, Predicted(ps, ts, dt), ms, a.track))|, ms, a.used, |ms|, nextId)
  }

  // ----- the lifecycle abstraction

  /** A track shows the counters, flag and id of its lifecycle record. */
  predicate Shows(t: Track, l: Lifecycle.Life) {
    t.id == Lifecycle.Id(l.serial) && t.hits == l.hits && t.misses == l.misses && t.confirmed == l.confirmed
  }

  predicate AllShow(ts: seq<Track>, ls: seq<Lifecycle.Life>) {
    |ts| == |ls| && forall i :: 0 <= i < |ts| ==> Shows(ts[i], ls[i])
  }

  function CountFree(used: seq<bool>): nat {
    if used == [] then 0 else CountFree(used[..|used| - 1]) + (if used[|used| - 1] then 0 else 1)
  }

  function ScanOf(a: Matching): Lifecycle.Scan {
    Lifecycle.Scan(seq(|a.track|, i requires 0 <= i < |a.track| => a.track[i] >= 0), CountFree(a.used))
  }

  lemma ServeShows(ps: Params, t: Track, l: Lifecycle.Life, ms: seq<Cluster>, a: int)
    requires ValidParams(ps) && TrackSound(ps, t) && -1 <= a < |ms| && Shows(t, l)
    ensures Shows(Serve(ps, t, ms, a), Lifecycle.Aged(ps.life, l, a >= 0))
  {
  }

  lemma {:induction false} KeptShows(ps: Params, ts: seq<Track>, ls: seq<Lifecycle.Life>)
    requires AllShow(ts, ls)
    ensures AllShow(Kept(ps, ts), Lifecycle.Survivors(ps.life, ls))
  {
    if ts != [] { KeptShows(ps, ts[..|ts| - 1], ls[..|ls| - 1]); }
  }

  lemma {:induction false} NewcomersShow(ps: Params, held: nat, ms: seq<Cluster>, used: seq<bool>, n: nat, born: nat)
    requires ValidParams(ps) && n <= |ms| == |used|
    ensures var k := Lifecycle.Births(ps.life, held, CountFree(used[..n]));
            AllShow(Newcomers(ps, held, ms, used, n, Lifecycle.Id(born)), Lifecycle.Newborns(ps.life, born, k))
  {
    hide Imm.ValidParams, Imm.ValidMaths, TrackSound, Shows, BirthTrack, Lifecycle.Newborn, Lifecycle.Id;
    if n > 0 {
      NewcomersShow(ps, held, ms, used, n - 1, born);
      FreeNext(used, n);
      var r := Newcomers(ps, held, ms, used, n - 1, Lifecycle.Id(born));
      BirthShows(ps, ms[n - 1], born, |r|);
    }
  }

  lemma FreeNext(used: seq<bool>, n: nat)
    requires 0 < n <= |used|
    ensures CountFree(used[..n]) == CountFree(used[..n - 1]) + (if used[n - 1] then 0 else 1)
  {
    assert used[..n][..n - 1] == used[..n - 1];
  }

  lemma BirthShows(ps: Params, m: Cluster, born: nat, k: nat)
    requires ValidParams(ps)
    ensures Shows(BirthTrack(ps, m, (Lifecycle.Id(born) + k) % Lifecycle.ID_SPAN), Lifecycle.Newborn(ps.life, born + k))
  {
    hide BirthTrack;
    BirthFields(ps, m, (Lifecycle.Id(born) + k) % Lifecycle.ID_SPAN);
    ModSum(born, k);
  }

  lemma BirthFields(ps: Params, m: Cluster, id: nat)
    requires ValidParams(ps)
    ensures var t := BirthTrack(ps, m, id);
            t.id == id && t.hits == 1 && t.misses == 0 && t.confirmed == (1 >= ps.life.confirmCount)
  {
  }

  lemma ModSum(a: nat, k: nat)
    ensures (a % Lifecycle.ID_SPAN + k) % Lifecycle.ID_SPAN == (a + k) % Lifecycle.ID_SPAN
  {
  }

  /** One scan of the tracker is one scan of the lifecycle. */
  lemma NextShows(ps: Params, ts: seq<Track>, ms: seq<Cluster>, dt: real, a: Matching, h: Lifecycle.Herd)
    requires ValidParams(ps) && AllSound(ps, ts) && |a.track| == |ts| && |a.used| == |ms|
    requires forall i :: 0 <= i < |ts| ==> -1 <= a.track[i] < |ms|
    requires AllShow(ts, h.tracks)
    ensures var next := Lifecycle.Next(ps.life, h, ScanOf(a));
            && AllShow(NextTracks(ps, ts, ms, dt, a, Lifecycle.Id(h.born)), next.tracks)
            && (Lifecycle.Id(h.born) + |Spawned(ps, ts, ms, dt, a, Lifecycle.Id(h.born))|) % Lifecycle.ID_SPAN == Lifecycle.Id(next.born)
  {
    hide Shows, TrackSound, Serve, Lifecycle.Aged, Kept, Newcomers, Lifecycle.Survivors;
    var fused := Fused(ps, Predicted(ps, ts, dt), ms, a.track);
    var aged := Lifecycle.AgedAll(ps.life, h.tracks, ScanOf(a).matched);
    forall i | 0 <= i < |ts| ensures Shows(fused[i], aged[i]) {
      PredictShows(ps, ts[i], h.tracks[i], dt);
      ServeShows(ps, PredictTrack(ps, ts[i], dt), h.tracks[i], ms, a.track[i]);
    }
    KeptShows(ps, fused, aged);
    var held := Kept(ps, fused);
    NewcomersShow(ps, |held|, ms, a.used, |ms|, h.born);
    assert a.used[..|ms|] == a.used;
    ModSum(h.born, |Newcomers(ps, |held|, ms, a.used, |ms|, Lifecycle.Id(h.born))|);
  }

  /** The tracker invariant carries over one scan. */
  lemma StepSound(ps: Params, ts: seq<Track>, ms: seq<Cluster>, dt: real, a: Matching, h: Lifecycle.Herd)
    requires ValidParams(ps) && AllSound(ps, ts) && |a.track| == |ts| && |a.used| == |ms|
    requires forall i :: 0 <= i < |ts| ==> -1 <= a.track[i] < |ms|
    requires AllShow(ts, h.tracks) && Lifecycle.Sound(ps.life, h)
    ensures Lifecycle.Follows(ps.life, h, ScanOf(a), Lifecycle.Next(ps.life, h, ScanOf(a)))
    ensures Lifecycle.Sound(ps.life, Lifecycle.Next(ps.life, h, ScanOf(a)))
  {
    hide TrackSound, Shows;
    Lifecycle.NextSound(ps.life, h, ScanOf(a));
  }

  lemma PredictShows(ps: Params, t: Track, l: Lifecycle.Life, dt: real)
    requires ValidParams(ps) && TrackSound(ps, t) && Shows(t, l)
    ensures Shows(PredictTrack(ps, t, dt), l)
  {
  }

  // ----- what one scan does to each track

  /** The same track but for its estimate. */
  predicate SameRecord(was: Track, now: Track) {
    now.id == was.id && now.radius == was.radius && now.hits == was.hits && now.misses == was.misses && now.confirmed == was.confirmed
  }

  /** A track carries the combined estimate of its filter. */
  ghost predicate Combines(ps: Params, t: Track) {
    Imm.Shaped(t.filter) && t.state == Imm.CombinedState(ps.maths, t.filter) && t.cov == Imm.CombinedCov(ps.maths, t.filter)
  }

  /** A track a time later: its position has moved with its velocity and its two axes have
      spread by the process noise, or its filter has predicted. */
  ghost predicate Later(ps: Params, was: Track, dt: real, now: Track)
    requires ValidParams(ps) && TrackSound(ps, was)
  {
    && SameRecord(was, now)
    && if ps.immEnabled then now.filter == Imm.PredictState(ps.maths, ps.filter, was.filter, dt) && Combines(ps, now)
       else if dt <= 0.0 then now == was
       else
         var a, b, c, q := was.cov[0][0], was.cov[0][2], was.cov[2][2], ps.filter.processNoise;
         && now.filter == was.filter
         && now.state == [was.state[0] + Mul(dt, was.state[2]), was.state[1] + Mul(dt, was.state[3]), was.state[2], was.state[3]]
         && now.cov == LegacyKalman.SpreadAxes(a, b, c, dt, q)
  }

  /** A track fused with a cluster: its radius is halfway to the cluster's and its counters
      record a hit. Without the IMM filter each position coordinate moves to the cluster's by
      the share a / (a + r) of the way, every entry of the state is corrected by its own
      covariance with the position, and the covariance loses what the residual explains; with
      it the filter is updated with the cluster's position. */
  ghost predicate FusedWith(ps: Params, was: Track, m: Cluster, now: Track)
    requires ValidParams(ps) && TrackSound(ps, was)
  {
    && now.id == was.id && 2.0 * now.radius == was.radius + m.radius && now.hits == was.hits + 1 && now.misses == 0
    && (now.confirmed <==> was.confirmed || was.hits + 1 >= ps.life.confirmCount)
    && if ps.immEnabled then
         UpdatesFilter(ps, was.filter, m, now.filter) && Combines(ps, now)
       else
         now.filter == was.filter && Corrects(was.state, was.cov, [m.x, m.y], ps.filter.measurementNoise, now.state, now.cov)
  }

  ghost predicate UpdatesFilter(ps: Params, was: Imm.State, m: Cluster, now: Imm.State)
    requires ValidParams(ps) && Imm.Sound(was)
  {
    InnovationInvertible(was.pCv, 4, ps.filter.measurementNoise);
    InnovationInvertible(was.pCtrv, 5, ps.filter.measurementNoise);
    now == Imm.UpdateState(ps.maths, ps.filter, was, [m.x, m.y])
  }

  predicate Corrects(x: Vec, p: Mat, z: Vec, r: real, y: Vec, q: Mat)
    requires |x| == 4 && IsMat(p, 4, 4) && |z| == 2
  {
    && |y| == 4 && IsMat(q, 4, 4)
    && (forall k :: 0 <= k < 2 ==> Mul(p[0][0] + r, y[k] - x[k]) == Mul(p[0][0], z[k] - x[k]))
    && (forall i :: 0 <= i < 4 ==> Mul(r, y[i] - x[i]) == Mul(p[i][0], z[0] - y[0]) + Mul(p[i][1], z[1] - y[1]))
    && (forall i, j :: 0 <= i < 4 && 0 <= j < 4 ==> Mul(r, p[i][j] - q[i][j]) == Mul(p[i][0], q[0][j]) + Mul(p[i][1], q[1][j]))
  }

  /** A track without a measurement keeps its prediction and ages. */
  predicate Missed(was: Track, now: Track) {
    now == Track(was.id, was.state, was.cov, was.filter, was.radius, 0, was.misses + 1, was.confirmed)
  }

  /** A newborn track stands still at its own cluster. */
  ghost predicate BornAt(ps: Params, m: Cluster, id: nat, now: Track) {
    && now.id == id && now.radius == m.radius && now.hits == 1 && now.misses == 0 && (now.confirmed <==> ps.life.confirmCount <= 1)
    && now.state == [m.x, m.y, 0.0, 0.0]
    && if ps.immEnabled then now.filter == Imm.ResetState(ps.maths, ps.filter, m.x, m.y) && Combines(ps, now)
       else now.cov == LegacyKalman.Axes(ps.filter.measurementNoise, 0.0, ps.filter.initialVelocityVariance)
  }

  /** Which tracks a scan keeps and which measurements become tracks: every predicted track
      that has a measurement or has not missed too often, in order and each fused with its own
      measurement or aged; then the measurements without a track, in order, until there is no
      more room. */
  ghost predicate ScannedAs(ps: Params, was: seq<Track>, ms: seq<Cluster>, a: Matching, id: nat, kept: seq<nat>, born: seq<nat>, now: seq<Track>)
    requires ValidParams(ps) && AllSound(ps, was) && |a.track| == |was| && |a.used| == |ms| && forall t :: 0 <= t < |was| ==> -1 <= a.track[t] < |ms|
  {
    && |now| == |kept| + |born| && Ascending(kept, |was|) && Ascending(born, |ms|)
    && (forall t :: 0 <= t < |was| ==> (t in kept <==> a.track[t] >= 0 || was[t].misses + 1 <= ps.life.dropCount))
    && (forall i {:trigger kept[i]} :: 0 <= i < |kept| ==>
          if a.track[kept[i]] >= 0 then FusedWith(ps, was[kept[i]], ms[a.track[kept[i]]], now[i]) else Missed(was[kept[i]], now[i]))
    && (forall j {:trigger born[j]} :: 0 <= j < |born| ==>
          !a.used[born[j]] && BornAt(ps, ms[born[j]], (id + j) % Lifecycle.ID_SPAN, now[|kept| + j]))
    && (forall m :: 0 <= m < |ms| && !a.used[m] && m !in born ==> |now| >= ps.life.maxTracks && forall j :: 0 <= j < |born| ==> born[j] < m)
  }

  predicate Ascending(s: seq<nat>, n: nat) {
    (forall i, j :: 0 <= i < j < |s| ==> s[i] < s[j]) && forall i :: 0 <= i < |s| ==> s[i] < n
  }

  lemma PredictIsLater(ps: Params, t: Track, dt: real)
    requires ValidParams(ps) && TrackSound(ps, t)
    ensures Later(ps, t, dt, PredictTrack(ps, t, dt))
  {
    hide Imm.PredictState, Imm.CombinedState, Imm.CombinedCov, LegacyKalman.Axes, LegacyKalman.PredictCov, LegacyKalman.Transition, Dot, Mul, Psd,
         MatVec, LegacyKalman.AxisPsd, LegacyKalman.SpreadAxes, Imm.Simplex;
    if ps.immEnabled {
      Imm.PredictSound(ps.maths, ps.filter, t.filter, dt);
      SoundShape(Imm.PredictState(ps.maths, ps.filter, t.filter, dt));
    } else if dt > 0.0 {
      SpreadLater(t.cov, dt, ps.filter.processNoise);
      Drifts(t.state, dt);
    }
  }

  lemma SoundShape(f: Imm.State)
    requires Imm.Sound(f)
    ensures Imm.Shaped(f)
  {
  }

  lemma SpreadLater(p: Mat, dt: real, q: real)
    requires LegacyKalman.TwoAxes(p)
    ensures var a, b, c := p[0][0], p[0][2], p[2][2];
            LegacyKalman.PredictCov(p, dt, q)
            == LegacyKalman.SpreadAxes(a, b, c, dt, q)
  {
    hide LegacyKalman.Axes, LegacyKalman.SpreadAxes, LegacyKalman.PredictCov, LegacyKalman.AxisPsd;
    var a, b, c := p[0][0], p[0][2], p[2][2];
    assert p == LegacyKalman.Axes(a, b, c);
    LegacyKalman.PredictAxes(a, b, c, dt, q);
  }

  lemma Drifts(x: Vec, dt: real)
    requires |x| == 4
    ensures MatVec(LegacyKalman.Transition(dt), x) == [x[0] + Mul(dt, x[2]), x[1] + Mul(dt, x[3]), x[2], x[3]]
  {
    var f := LegacyKalman.Transition(dt);
    forall i | 0 <= i < 4 ensures Dot(f[i], x) == Mul(f[i][0], x[0]) + Mul(f[i][1], x[1]) + Mul(f[i][2], x[2]) + Mul(f[i][3], x[3]) {
      Explicit4(f[i], x);
    }
  }

  lemma Explicit4(u: Vec, v: Vec)
    requires |u| == 4 && |v| == 4
    ensures Dot(u, v) == Mul(u[0], v[0]) + Mul(u[1], v[1]) + Mul(u[2], v[2]) + Mul(u[3], v[3])
  {
    hide Mul;
    assert u[1..][1..] == u[2..] && v[1..][1..] == v[2..];
    Explicit2(u[2..], v[2..]);
  }

  lemma HitIsFused(ps: Params, t: Track, m: Cluster)
    requires ValidParams(ps) && TrackSound(ps, t)
    ensures FusedWith(ps, t, m, HitTrack(ps, t, m))
  {
    hide Imm.UpdateState, Imm.CombinedState, Imm.CombinedCov, Corrects, Updated, Corrected, Psd, LegacyKalman.AxisPsd, Innovation, Det2, Imm.Simplex, UpdatesFilter, Estimate;
    Twice(t.radius, m.radius);
    if ps.immEnabled { FilterUpdates(ps, t, m); } else { EstimateCorrects(ps, t, m); }
  }

  lemma Twice(a: real, b: real)
    ensures 2.0 * (0.5 * a + 0.5 * b) == a + b
  {
  }

  lemma FilterUpdates(ps: Params, t: Track, m: Cluster)
    requires ValidParams(ps) && TrackSound(ps, t) && ps.immEnabled
    ensures UpdatesFilter(ps, t.filter, m, Estimate(ps, t, m).filter) && Combines(ps, Estimate(ps, t, m))
    ensures SameRecord(t, Estimate(ps, t, m))
  {
    hide Imm.UpdateState, Imm.CombinedState, Imm.CombinedCov, Updated, Corrected, Psd, Innovation, Det2, Imm.Simplex;
    Imm.UpdateSound(ps.maths, ps.filter, t.filter, [m.x, m.y]);
  }

  lemma EstimateCorrects(ps: Params, t: Track, m: Cluster)
    requires ValidParams(ps) && TrackSound(ps, t) && !ps.immEnabled
    ensures Corrects(t.state, t.cov, [m.x, m.y], ps.filter.measurementNoise, Estimate(ps, t, m).state, Estimate(ps, t, m).cov)
    ensures SameRecord(t, Estimate(ps, t, m)) && Estimate(ps, t, m).filter == t.filter
  {
    hide Updated, Corrected, Innovation, Mul, Dot, Psd, Det2, LegacyKalman.AxisPsd;
    var p, r, z := t.cov, ps.filter.measurementNoise, [m.x, m.y];
    UpdatePsd(p, 4, r);
    StateCorrects(t.state, p, r, z);
    forall i, j | 0 <= i < 4 && 0 <= j < 4
      ensures Mul(r, p[i][j] - Updated(p, 4, r)[i][j]) == Mul(p[i][0], Updated(p, 4, r)[0][j]) + Mul(p[i][1], Updated(p, 4, r)[1][j])
    {
      UpdatedLoss(p, 4, r, i, j);
    }
  }

  lemma StateCorrects(x: Vec, p: Mat, r: real, z: Vec)
    requires |x| == 4 && Psd(p, 4) && LegacyKalman.TwoAxes(p) && r > 0.0 && |z| == 2 && Det2(Innovation(p, 4, r)) != 0.0
    ensures var y := Corrected(x, p, r, z);
            && (forall k :: 0 <= k < 2 ==> Mul(p[0][0] + r, y[k] - x[k]) == Mul(p[0][0], z[k] - x[k]))
            && (forall i :: 0 <= i < 4 ==> Mul(r, y[i] - x[i]) == Mul(p[i][0], z[0] - y[0]) + Mul(p[i][1], z[1] - y[1]))
  {
    hide Corrected, Innovation, Mul, Dot, Psd, Det2, MatVec;
    var y := Corrected(x, p, r, z);
    CorrectedResidual(x, p, r, z);
    forall k | 0 <= k < 2 ensures Mul(p[0][0] + r, y[k] - x[k]) == Mul(p[0][0], z[k] - x[k]) {
      Nothing(z[1 - k] - y[1 - k]);
      assert Mul(r, y[k] - x[k]) == Mul(p[0][0], z[k] - y[k]);
      ShareOf(p[0][0], r, x[k], y[k], z[k]);
    }
  }

  lemma Nothing(v: real)
    ensures Mul(0.0, v) == 0.0
  {
  }

  lemma ShareOf(a: real, r: real, x: real, y: real, z: real)
    requires Mul(r, y - x) == Mul(a, z - y)
    ensures Mul(a + r, y - x) == Mul(a, z - x)
  {
    assert (a + r) * (y - x) == a * (y - x) + r * (y - x);
    assert a * (z - x) == a * (z - y) + a * (y - x);
  }

  lemma BirthIsBorn(ps: Params, m: Cluster, id: nat)
    requires ValidParams(ps)
    ensures BornAt(ps, m, id, BirthTrack(ps, m, id))
  {
    hide Imm.CombinedState, Imm.CombinedCov, Imm.ResetState, LegacyKalman.Axes, LegacyKalman.BirthCov, Psd, Imm.Sound, LegacyKalman.TwoAxes;
    if ps.immEnabled {
      Imm.ResetSound(ps.maths, ps.filter, m.x, m.y);
      SoundShape(Imm.ResetState(ps.maths, ps.filter, m.x, m.y));
      ResetStandsStill(ps, m.x, m.y);
    } else {
      LegacyKalman.BirthAxes(Legacy(ps));
    }
  }

  lemma ResetStandsStill(ps: Params, x: real, y: real)
    ensures Imm.CombinedState(ps.maths, Imm.ResetState(ps.maths, ps.filter, x, y)) == [x, y, 0.0, 0.0]
  {
    hide Mul, Diag;
    Halves(x);
    Halves(y);
    var c := Imm.CombinedState(ps.maths, Imm.ResetState(ps.maths, ps.filter, x, y));
    assert c[0] == x && c[1] == y && c[2] == 0.0 && c[3] == 0.0;
  }

  lemma Halves(v: real)
    ensures Mul(0.5, v) + Mul(0.5, v) == v && Mul(0.5, 0.0) == 0.0
  {
  }

  /** The places of the tracks that are kept. */
  ghost function KeptAt(ps: Params, ts: seq<Track>): (k: seq<nat>)
    ensures Ascending(k, |ts|)
  {
    if ts == [] then []
    else
      var k := KeptAt(ps, ts[..|ts| - 1]);
      if ts[|ts| - 1].misses <= ps.life.dropCount then k + [|ts| - 1] else k
  }

  /** The kept tracks are those at the places. */
  predicate KeptInOrder(ps: Params, ts: seq<Track>, at: seq<nat>, r: seq<Track>) {
    && |r| == |at| && Ascending(at, |ts|)
    && (forall i {:trigger at[i]} :: 0 <= i < |at| ==> r[i] == ts[at[i]])
    && (forall t :: 0 <= t < |ts| ==> (t in at <==> ts[t].misses <= ps.life.dropCount))
  }

  lemma {:induction false} KeptPlaces(ps: Params, ts: seq<Track>)
    ensures KeptInOrder(ps, ts, KeptAt(ps, ts), Kept(ps, ts))
  {
    hide AllSound, TrackSound, KeptInOrder, Ascending;
    if ts == [] {
      NoneKept(ps);
    } else {
      var last := |ts| - 1;
      KeptPlaces(ps, ts[..last]);
      KeptNext(ps, ts[..last], ts[last], KeptAt(ps, ts[..last]), Kept(ps, ts[..last]));
      assert ts == ts[..last] + [ts[last]];
    }
  }

  lemma NoneKept(ps: Params)
    ensures KeptInOrder(ps, [], [], [])
  {
  }

  lemma KeptNext(ps: Params, ts: seq<Track>, t: Track, at: seq<nat>, r: seq<Track>)
    requires KeptInOrder(ps, ts, at, r)
    ensures if t.misses <= ps.life.dropCount then KeptInOrder(ps, ts + [t], at + [|ts|], r + [t]) else KeptInOrder(ps, ts + [t], at, r)
  {
  }

  /** The measurements that become tracks, among the first n. */
  ghost function BornFrom(ps: Params, held: nat, used: seq<bool>, n: nat): (b: seq<nat>)
    requires n <= |used|
    ensures Ascending(b, n)
  {
    if n == 0 then []
    else
      var b := BornFrom(ps, held, used, n - 1);
      if used[n - 1] || held + |b| >= ps.life.maxTracks then b else b + [n - 1]
  }

  /** Every newborn is that of its own measurement, and what was left out found no room. */
  ghost predicate BornInOrder(ps: Params, held: nat, ms: seq<Cluster>, used: seq<bool>, n: nat, id: nat, b: seq<nat>, r: seq<Track>)
    requires ValidParams(ps) && n <= |ms| == |used|
  {
    && |r| == |b| && Ascending(b, n)
    && (forall j {:trigger b[j]} :: 0 <= j < |b| ==> !used[b[j]] && r[j] == BirthTrack(ps, ms[b[j]], (id + j) % Lifecycle.ID_SPAN))
    && (forall m :: 0 <= m < n && !used[m] && m !in b ==> held + |b| >= ps.life.maxTracks && forall j :: 0 <= j < |b| ==> b[j] < m)
  }

  lemma {:induction false} BornPlaces(ps: Params, held: nat, ms: seq<Cluster>, used: seq<bool>, n: nat, id: nat)
    requires ValidParams(ps) && n <= |ms| == |used|
    ensures BornInOrder(ps, held, ms, used, n, id, BornFrom(ps, held, used, n), Newcomers(ps, held, ms, used, n, id))
    ensures |BornFrom(ps, held, used, n)| == |Newcomers(ps, held, ms, used, n, id)|
  {
    hide Imm.ValidParams, Imm.ValidMaths, TrackSound, BirthTrack, AllSound, BornInOrder, Ascending;
    if n == 0 {
      NoneBorn(ps, held, ms, used, id);
    } else {
      BornPlaces(ps, held, ms, used, n - 1, id);
      BornNext(ps, held, ms, used, n, id, BornFrom(ps, held, used, n - 1), Newcomers(ps, held, ms, used, n - 1, id));
    }
  }

  lemma NoneBorn(ps: Params, held: nat, ms: seq<Cluster>, used: seq<bool>, id: nat)
    requires ValidParams(ps) && |ms| == |used|
    ensures BornInOrder(ps, held, ms, used, 0, id, [], [])
  {
  }

  lemma BornNext(ps: Params, held: nat, ms: seq<Cluster>, used: seq<bool>, n: nat, id: nat, b: seq<nat>, r: seq<Track>)
    requires ValidParams(ps) && 0 < n <= |ms| == |used| && BornInOrder(ps, held, ms, used, n - 1, id, b, r)
    ensures if used[n - 1] || held + |b| >= ps.life.maxTracks then BornInOrder(ps, held, ms, used, n, id, b, r)
            else BornInOrder(ps, held, ms, used, n, id, b + [n - 1], r + [BirthTrack(ps, ms[n - 1], (id + |r|) % Lifecycle.ID_SPAN)])
  {
    hide Imm.ValidParams, Imm.ValidMaths, TrackSound, BirthTrack;
  }

  lemma ServeIs(ps: Params, t: Track, ms: seq<Cluster>, a: int)
    requires ValidParams(ps) && TrackSound(ps, t) && -1 <= a < |ms|
    ensures if a >= 0 then FusedWith(ps, t, ms[a], Serve(ps, t, ms, a)) else Missed(t, Serve(ps, t, ms, a))
    ensures Serve(ps, t, ms, a).misses == if a >= 0 then 0 else t.misses + 1
  {
    hide Imm.ValidParams, Imm.ValidMaths, TrackSound, Estimate, FusedWith;
    if a >= 0 { HitIsFused(ps, t, ms[a]); }
  }

  /** The track list of a scan is what the scan does to each track. */
  lemma NextIsScanned(ps: Params, ts: seq<Track>, ms: seq<Cluster>, dt: real, a: Matching, id: nat) returns (was: seq<Track>, kept: seq<nat>, born: seq<nat>)
    requires ValidParams(ps) && AllSound(ps, ts) && |a.track| == |ts| && |a.used| == |ms|
    requires forall i :: 0 <= i < |ts| ==> -1 <= a.track[i] < |ms|
    ensures was == Predicted(ps, ts, dt) && forall t :: 0 <= t < |ts| ==> Later(ps, ts[t], dt, was[t])
    ensures ScannedAs(ps, was, ms, a, id, kept, born, NextTracks(ps, ts, ms, dt, a, id))
    ensures |Spawned(ps, ts, ms, dt, a, id)| == |born|
  {
    hide Imm.ValidParams, Imm.ValidMaths, TrackSound, Serve, FusedWith, BornAt, BirthTrack, Later, PredictTrack, Missed;
    was := Predicted(ps, ts, dt);
    forall t | 0 <= t < |ts| ensures Later(ps, ts[t], dt, was[t]) { PredictIsLater(ps, ts[t], dt); }
    var fused := Fused(ps, was, ms, a.track);
    kept := KeptAt(ps, fused);
    KeptPlaces(ps, fused);
    born := BornFrom(ps, |kept|, a.used, |ms|);
    BornPlaces(ps, |kept|, ms, a.used, |ms|, id);
    forall t | 0 <= t < |was|
      ensures (if a.track[t] >= 0 then FusedWith(ps, was[t], ms[a.track[t]], fused[t]) else Missed(was[t], fused[t]))
              && fused[t].misses == if a.track[t] >= 0 then 0 else was[t].misses + 1
    {
      ServeIs(ps, was[t], ms, a.track[t]);
    }
    forall j {:trigger born[j]} | 0 <= j < |born| ensures BornAt(ps, ms[born[j]], (id + j) % Lifecycle.ID_SPAN, BirthTrack(ps, ms[born[j]], (id + j) % Lifecycle.ID_SPAN)) {
      BirthIsBorn(ps, ms[born[j]], (id + j) % Lifecycle.ID_SPAN);
    }
  }

  // ----- the tracker object

  class Tracker {
    const params: Params
    var tracks: seq<Track>
    var nextId: nat
    var lastStamp: real
    var hasLastStamp: bool
    ghost var herd: Lifecycle.Herd

    /** Every held track is sound and shows its lifecycle record, and the lifecycle
        invariant holds. */
    ghost predicate Valid()
      reads this
    {
      && ValidParams(params) && AllSound(params, tracks)
      && AllShow(tracks, herd.tracks) && nextId == Lifecycle.Id(herd.born)
      && Lifecycle.Sound(params.life, herd)
    }

    constructor (params: Params)
      requires ValidParams(params)
      ensures Valid() && this.params == params && tracks == [] && herd == Lifecycle.Empty && !hasLastStamp
    {
      this.params := params;
      tracks, nextId, lastStamp, hasLastStamp, herd := [], 0, 0.0, false, Lifecycle.Empty;
    }

    method Reset()
      requires Valid()
      modifies this
      ensures Valid() && tracks == [] && herd == Lifecycle.Empty && !hasLastStamp
    {
      tracks, nextId, lastStamp, hasLastStamp, herd := [], 0, 0.0, false, Lifecycle.Empty;
    }

    /** Elapsed time since the previous scan; non-monotonic stamps give zero. */
    function Elapsed(stamp: real): (dt: real)
      reads this
      ensures dt >= 0.0 && (hasLastStamp && stamp >= lastStamp ==> lastStamp + dt == stamp)
      ensures !hasLastStamp || stamp < lastStamp ==> dt == 0.0
    {
      if hasLastStamp && stamp > lastStamp then stamp - lastStamp else 0.0
    }

    method PredictAll(dt: real)
      requires Valid()
      modifies this`tracks
      ensures tracks == Predicted(params, old(tracks), dt)
    {
      hide TrackSound, PredictTrack, Imm.ValidParams, Imm.ValidMaths;
      var before := tracks;
      for i := 0 to |tracks|
        invariant |tracks| == |before|
        invariant forall k :: 0 <= k < i ==> tracks[k] == PredictTrack(params, before[k], dt)
        invariant forall k :: i <= k < |before| ==> tracks[k] == before[k]
      {
        tracks := tracks[i := PredictTrack(params, before[i], dt)];
      }
    }

    method FuseAll(ms: seq<Cluster>, a: Matching)
      requires ValidParams(params) && AllSound(params, tracks) && |a.track| == |tracks|
      requires forall i :: 0 <= i < |tracks| ==> -1 <= a.track[i] < |ms|
      modifies this`tracks
      ensures tracks == Fused(params, old(tracks), ms, a.track)
    {
      hide TrackSound, Serve, Imm.ValidParams, Imm.ValidMaths;
      var before := tracks;
      for i := 0 to |tracks|
        invariant |tracks| == |before|
        invariant forall k :: 0 <= k < i ==> tracks[k] == Serve(params, before[k], ms, a.track[k])
        invariant forall k :: i <= k < |before| ==> tracks[k] == before[k]
      {
        tracks := tracks[i := Serve(params, before[i], ms, a.track[i])];
      }
    }

    method DropLost()
      modifies this`tracks
      ensures tracks == Kept(params, old(tracks))
    {
      var kept := [];
      for i := 0 to |tracks|
        invariant tracks == old(tracks) && kept == Kept(params, tracks[..i])
      {
        assert tracks[..i + 1][..i] == tracks[..i];
        if tracks[i].misses <= params.life.dropCount { kept := kept + [tracks[i]]; }
      }
      assert tracks[..|tracks|] == tracks;
      tracks := kept;
    }

    method Spawn(ms: seq<Cluster>, used: seq<bool>)
      requires ValidParams(params) && |used| == |ms| && nextId < Lifecycle.ID_SPAN
      modifies this`tracks, this`nextId
      ensures var born := Newcomers(params, |old(tracks)|, ms, used, |ms|, old(nextId));
              tracks == old(tracks) + born && nextId == (old(nextId) + |born|) % Lifecycle.ID_SPAN
    {
      hide BirthTrack, Imm.ValidParams, Imm.ValidMaths, TrackSound;
      ghost var held, id0 := tracks, nextId;
      ModStep(id0, 0);
      for mi := 0 to |ms|
        invariant tracks == held + Newcomers(params, |held|, ms, used, mi, id0)
        invariant nextId == (id0 + |Newcomers(params, |held|, ms, used, mi, id0)|) % Lifecycle.ID_SPAN
      {
        if used[mi] { continue; }
        if |tracks| >= params.life.maxTracks {
          NoMoreNewcomers(params, |held|, ms, used, mi, |ms|, id0);
          break;
        }
        ghost var r := Newcomers(params, |held|, ms, used, mi, id0);
        ModStep(id0, |r|);
        tracks := tracks + [BirthTrack(params, ms[mi], nextId)];
        nextId := (nextId + 1) % Lifecycle.ID_SPAN;
      }
    }

    /** Predict over dt, associate, fuse or age, drop, spawn. */
    method Advance(ms: seq<Cluster>, dt: real) returns (a: Matching, ghost was: seq<Track>, ghost kept: seq<nat>, ghost born: seq<nat>)
      requires Valid()
      modifies this`tracks, this`nextId
      ensures Stable(TrackPoints(params, Predicted(params, old(tracks), dt)), ClusterCentres(ms), Square(params.gate), a)
      ensures |a.track| == |old(tracks)| && |a.used| == |ms| && forall t :: 0 <= t < |a.track| ==> -1 <= a.track[t] < |ms|
      ensures tracks == NextTracks(params, old(tracks), ms, dt, a, old(nextId))
      ensures was == Predicted(params, old(tracks), dt) && forall t :: 0 <= t < |was| ==> Later(params, old(tracks)[t], dt, was[t])
      ensures ScannedAs(params, was, ms, a, old(nextId), kept, born, tracks) && |born| == |Spawned(params, old(tracks), ms, dt, a, old(nextId))|
      ensures nextId == (old(nextId) + |Spawned(params, old(tracks), ms, dt, a, old(nextId))|) % Lifecycle.ID_SPAN
    {
      hide TrackSound, Imm.ValidParams, Imm.ValidMaths, Stable, Newcomers, Kept, Dist2, Square, ScannedAs, Later;
      ghost var points := TrackPoints(params, Predicted(params, tracks, dt));
      PredictAll(dt);
      a := Associate(TrackPoints(params, tracks), ClusterCentres(ms), params.gate);
      assert Stable(points, ClusterCentres(ms), Square(params.gate), a);
      FuseAll(ms, a);
      DropLost();
      Spawn(ms, a.used);
      was, kept, born := NextIsScanned(params, old(tracks), ms, dt, a, old(nextId));
    }

    /** One scan: predict to its stamp, associate, fuse or age, drop, spawn. The
        association is a stable matching of the predicted positions with the measured
        centroids, the new track list is the specified one, and the lifecycle takes the
        corresponding step. */
    method Update(ms: seq<Cluster>, stamp: real) returns (a: Matching, ghost was: seq<Track>, ghost kept: seq<nat>, ghost born: seq<nat>)
      requires Valid()
      modifies this
      ensures Valid() && hasLastStamp && lastStamp == stamp
      ensures Stable(TrackPoints(params, Predicted(params, old(tracks), old(Elapsed(stamp)))), ClusterCentres(ms), Square(params.gate), a)
      ensures |a.track| == |old(tracks)| && |a.used| == |ms| && forall t :: 0 <= t < |a.track| ==> -1 <= a.track[t] < |ms|
      ensures tracks == NextTracks(params, old(tracks), ms, old(Elapsed(stamp)), a, old(nextId))
      ensures was == Predicted(params, old(tracks), old(Elapsed(stamp))) && forall t :: 0 <= t < |was| ==> Later(params, old(tracks)[t], old(Elapsed(stamp)), was[t])
      ensures ScannedAs(params, was, ms, a, old(nextId), kept, born, tracks)
      ensures nextId == (old(nextId) + |born|) % Lifecycle.ID_SPAN
      ensures Lifecycle.Follows(params.life, old(herd), ScanOf(a), herd)
    {
      hide TrackSound, Imm.ValidParams, Imm.ValidMaths, Stable, Newcomers, Kept, NextTracks, Spawned, Shows, ScannedAs, Later, Lifecycle.Follows, Square, Lifecycle.Sound, Lifecycle.Next;
      var dt := 0.0;
      if hasLastStamp { dt := stamp - lastStamp; }
      if dt < 0.0 { dt := 0.0; }
      lastStamp := stamp;
      hasLastStamp := true;
      ghost var before := tracks;
      a, was, kept, born := Advance(ms, dt);
      NextShows(params, before, ms, dt, a, herd);
      StepSound(params, before, ms, dt, a, herd);
      herd := Lifecycle.Next(params.life, herd, ScanOf(a));
    }
  }

  lemma ModStep(id: nat, n: nat)
    requires id < Lifecycle.ID_SPAN
    ensures ((id + n) % Lifecycle.ID_SPAN + 1) % Lifecycle.ID_SPAN == (id + (n + 1)) % Lifecycle.ID_SPAN
    ensures id % Lifecycle.ID_SPAN == id
  {
    ModSum(id + n, 1);
  }

  lemma {:induction false} NoMoreNewcomers(ps: Params, held: nat, ms: seq<Cluster>, used: seq<bool>, n: nat, m: nat, id: nat)
    requires ValidParams(ps) && n <= m <= |ms| == |used| && held + |Newcomers(ps, held, ms, used, n, id)| >= ps.life.maxTracks
    ensures Newcomers(ps, held, ms, used, m, id) == Newcomers(ps, held, ms, used, n, id)
  {
    if n < m { NoMoreNewcomers(ps, held, ms, used, n, m - 1, id); }
  }
}
