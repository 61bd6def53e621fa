/** Binding costmap clutter to obstacle slots: representatives per node, physical objects
    across nodes, and slots for the objects met first. */
module StaticSlots {
  import opened Basics
  import opened QpLayout
  import opened QpRows

  /** The occupied cells around one scan centre, nearest first. */
  datatype Scan = Scan(centre: Point, cells: seq<Point>)

  /** A distinct object: where it was seen last, its closest approach, and the first and
      last node it was seen at. */
  datatype Object = Object(at: Point, best: real, first: nat, last: nat)

  /** One sighting of an object at a node. */
  datatype Hit = Hit(node: nat, owner: nat, at: Point)

  // ----- representatives of one node

  predicate Near(p: Point, q: Point, cr2: real) { Dist2(p, q) < cr2 }

  predicate Apart(picked: seq<Point>, cr2: real) {
    forall i, j :: 0 <= i < j < |picked| ==> !Near(picked[j], picked[i], cr2)
  }

  ghost predicate Represented(cell: Point, picked: seq<Point>, cr2: real) {
    cell in picked || exists i :: 0 <= i < |picked| && Near(cell, picked[i], cr2)
  }

  /** Keep the first cells that are at least a cluster radius apart: every cell looked at is
      kept or within the radius of one that is, and all are looked at unless the budget is
      spent before. */
  method Pick(cells: seq<Point>, budget: nat, cr2: real) returns (picked: seq<Point>, ghost seen: nat)
    ensures |picked| <= budget && Apart(picked, cr2) && seen <= |cells|
    ensures forall p :: p in picked ==> p in cells[..seen]
    ensures forall c :: c in cells[..seen] ==> Represented(c, picked, cr2)
    ensures seen < |cells| ==> |picked| == budget
  {
    picked, seen := [], 0;
    for k := 0 to |cells|
      invariant |picked| <= budget && Apart(picked, cr2) && seen == k
      invariant forall p :: p in picked ==> p in cells[..k]
      invariant forall j :: 0 <= j < k ==> Represented(cells[j], picked, cr2)
    {
      if |picked| >= budget { return; }
      var near := false;
      for i := 0 to |picked|
        invariant near == exists j :: 0 <= j < i && Near(cells[k], picked[j], cr2)
      {
        if Near(cells[k], picked[i], cr2) { near := true; break; }
      }
      ghost var was := picked;
      if !near {
        picked := picked + [cells[k]];
      }
      assert cells[..k + 1] == cells[..k] + [cells[k]];
      forall j | 0 <= j <= k ensures Represented(cells[j], picked, cr2) {
        if j < k {
          assert Represented(cells[j], was, cr2);
          StillRepresented(cells[j], was, picked, cr2);
        }
      }
      seen := k + 1;
    }
  }

  lemma StillRepresented(cell: Point, was: seq<Point>, now: seq<Point>, cr2: real)
    requires Represented(cell, was, cr2) && was <= now
    ensures Represented(cell, now, cr2)
  {
    if cell !in was {
      var i :| 0 <= i < |was| && Near(cell, was[i], cr2);
      assert Near(cell, now[i], cr2);
    }
  }

  // ----- objects across nodes

  /** The nearest object still unclaimed at a node within the cluster radius, the first one
      on ties; the number of objects when there is none. */
  method FindMatch(objects: seq<Object>, node: nat, p: Point, cr2: real) returns (m: nat)
    ensures m <= |objects|
    ensures m < |objects| ==> objects[m].last != node && Near(p, objects[m].at, cr2)
    ensures forall i :: 0 <= i < |objects| && objects[i].last != node ==>
              if m < |objects| then Dist2(p, objects[m].at) <= Dist2(p, objects[i].at) else !Near(p, objects[i].at, cr2)
    ensures forall i :: 0 <= i < m < |objects| && objects[i].last != node ==> Dist2(p, objects[m].at) < Dist2(p, objects[i].at)
  {
    hide Dist2;
    m := |objects|;
    var best := cr2;
    for i := 0 to |objects|
      invariant m == |objects| || m < i
      invariant m == |objects| ==> best == cr2
      invariant m < |objects| ==> objects[m].last != node && best == Dist2(p, objects[m].at) && best < cr2
      invariant forall k :: 0 <= k < i && objects[k].last != node ==> best <= Dist2(p, objects[k].at)
      invariant forall k :: 0 <= k < i && k < m && objects[k].last != node && m < |objects| ==> best < Dist2(p, objects[k].at)
    {
      if objects[i].last == node { continue; }
      var d2 := Dist2(p, objects[i].at);
      if d2 < best { best, m := d2, i; }
    }
  }

  /** What holds of the objects and sightings at any point of the scan. `prev` links every
      sighting to the one before it of the same object, `lastHit` every object to its
      latest. */
  ghost predicate Tracked(objects: seq<Object>, hits: seq<Hit>, prev: seq<int>, lastHit: seq<nat>, cr2: real) {
    && |prev| == |hits| && |lastHit| == |objects|
    && (forall h :: 0 <= h < |hits| ==> hits[h].owner < |objects|)
    && (forall h {:trigger Linked(hits, prev, h, cr2)} :: 0 <= h < |hits| ==> Linked(hits, prev, h, cr2))
    && (forall o {:trigger Latest(objects, hits, lastHit, o)} :: 0 <= o < |objects| ==> Latest(objects, hits, lastHit, o))
    && (forall a, b :: 0 <= a < b < |hits| ==> hits[a].node <= hits[b].node)
    && (forall a, b :: 0 <= a < b < |objects| ==> objects[a].first <= objects[b].first)
    && (forall h {:trigger prev[h]} :: 0 <= h < |hits| && prev[h] < 0 ==> objects[hits[h].owner].first == hits[h].node)
  }

  /** A sighting either starts its object or follows its previous sighting, at a later node
      and less than a cluster radius away. */
  ghost predicate Linked(hits: seq<Hit>, prev: seq<int>, h: nat, cr2: real)
    requires h < |hits| && |prev| == |hits|
  {
    && -1 <= prev[h] < h
    && (forall k :: prev[h] < k < h ==> hits[k].owner != hits[h].owner)
    && (prev[h] >= 0 ==> hits[prev[h]].owner == hits[h].owner && hits[prev[h]].node < hits[h].node && Near(hits[h].at, hits[prev[h]].at, cr2))
  }

  ghost predicate Latest(objects: seq<Object>, hits: seq<Hit>, lastHit: seq<nat>, o: nat)
    requires o < |objects| && |lastHit| == |objects|
  {
    && lastHit[o] < |hits| && hits[lastHit[o]].owner == o
    && hits[lastHit[o]].at == objects[o].at && hits[lastHit[o]].node == objects[o].last && objects[o].first <= objects[o].last
    && forall k :: lastHit[o] < k < |hits| ==> hits[k].owner != o
  }

  /** A sighting continues the nearest of the objects not yet sighted at its node, judged from
      where each was seen last, the one discovered first on ties; and it starts a new object
      when none of them is within the radius. */
  ghost predicate Continues(hits: seq<Hit>, prev: seq<int>, h: nat, cr2: real)
    requires h < |hits| && |prev| == |hits|
  {
    forall j {:trigger hits[j]} :: 0 <= j < h && hits[j].node < hits[h].node && (forall k :: j < k < h ==> hits[k].owner != hits[j].owner) ==>
      if 0 <= prev[h] < h then
        && Dist2(hits[h].at, hits[prev[h]].at) <= Dist2(hits[h].at, hits[j].at)
        && (hits[j].owner < hits[prev[h]].owner ==> Dist2(hits[h].at, hits[prev[h]].at) < Dist2(hits[h].at, hits[j].at))
      else !Near(hits[h].at, hits[j].at, cr2)
  }

  ghost predicate AllContinue(hits: seq<Hit>, prev: seq<int>, cr2: real) {
    |prev| == |hits| && forall h {:trigger Continues(hits, prev, h, cr2)} :: 0 <= h < |hits| ==> Continues(hits, prev, h, cr2)
  }

  /** A match found for a representative is what its sighting has to continue. */
  lemma MatchContinues(objects: seq<Object>, hits: seq<Hit>, prev: seq<int>, lastHit: seq<nat>, cr2: real, node: nat, p: Point, m: nat)
    requires Tracked(objects, hits, prev, lastHit, cr2) && AllContinue(hits, prev, cr2) && m <= |objects|
    requires m < |objects| ==> objects[m].last != node && Near(p, objects[m].at, cr2)
    requires forall i :: 0 <= i < |objects| && objects[i].last != node ==>
               if m < |objects| then Dist2(p, objects[m].at) <= Dist2(p, objects[i].at) else !Near(p, objects[i].at, cr2)
    requires forall i :: 0 <= i < m < |objects| && objects[i].last != node ==> Dist2(p, objects[m].at) < Dist2(p, objects[i].at)
    ensures AllContinue(hits + [Hit(node, m, p)], prev + [if m < |objects| then lastHit[m] else -1], cr2)
  {
    hide Dist2, Near, Linked;
    var hits', prev' := hits + [Hit(node, m, p)], prev + [if m < |objects| then lastHit[m] else -1];
    if m < |objects| { assert Latest(objects, hits, lastHit, m); }
    forall h | 0 <= h < |hits'| ensures Continues(hits', prev', h, cr2) {
      if h < |hits| {
        assert Continues(hits, prev, h, cr2);
        StillContinues(hits, prev, h, cr2, Hit(node, m, p), prev'[|hits|]);
      } else {
        forall j {:trigger hits'[j]} | 0 <= j < h && hits'[j].node < node && (forall k :: j < k < h ==> hits'[k].owner != hits'[j].owner)
          ensures if 0 <= prev'[h] < h then
                    && Dist2(p, hits'[prev'[h]].at) <= Dist2(p, hits'[j].at)
                    && (hits'[j].owner < hits'[prev'[h]].owner ==> Dist2(p, hits'[prev'[h]].at) < Dist2(p, hits'[j].at))
                  else !Near(p, hits'[j].at, cr2)
        {
          assert forall k :: j < k < |hits| ==> hits'[k] == hits[k];
          LatestIs(objects, hits, lastHit, j);
        }
      }
    }
  }

  lemma StillContinues(hits: seq<Hit>, prev: seq<int>, h: nat, cr2: real, next: Hit, link: int)
    requires |prev| == |hits| && h < |hits| && Continues(hits, prev, h, cr2)
    ensures Continues(hits + [next], prev + [link], h, cr2)
  {
    hide Dist2, Near;
    var hits', prev' := hits + [next], prev + [link];
    forall j {:trigger hits'[j]} | 0 <= j < h && hits'[j].node < hits'[h].node && (forall k :: j < k < h ==> hits'[k].owner != hits'[j].owner)
      ensures if 0 <= prev'[h] < h then
                && Dist2(hits'[h].at, hits'[prev'[h]].at) <= Dist2(hits'[h].at, hits'[j].at)
                && (hits'[j].owner < hits'[prev'[h]].owner ==> Dist2(hits'[h].at, hits'[prev'[h]].at) < Dist2(hits'[h].at, hits'[j].at))
              else !Near(hits'[h].at, hits'[j].at, cr2)
    {
      assert hits[j] == hits'[j];
      forall k | j < k < h ensures hits[k].owner != hits[j].owner { assert hits'[k].owner != hits'[j].owner; }
    }
  }

  /** A sighting no later one of its object follows is the object's latest. */
  lemma LatestIs(objects: seq<Object>, hits: seq<Hit>, lastHit: seq<nat>, j: nat)
    requires j < |hits| && |lastHit| == |objects| && hits[j].owner < |objects| && Latest(objects, hits, lastHit, hits[j].owner)
    requires forall k :: j < k < |hits| ==> hits[k].owner != hits[j].owner
    ensures objects[hits[j].owner].at == hits[j].at && objects[hits[j].owner].last == hits[j].node
  {
    var o := hits[j].owner;
    assert lastHit[o] == j;
  }

  /** No object is sighted twice at a node. */
  lemma {:induction false} OncePerNode(objects: seq<Object>, hits: seq<Hit>, prev: seq<int>, lastHit: seq<nat>, cr2: real, a: nat, b: nat)
    requires Tracked(objects, hits, prev, lastHit, cr2) && a < b < |hits| && hits[a].owner == hits[b].owner
    ensures hits[a].node < hits[b].node
    decreases b
  {
    assert Linked(hits, prev, b, cr2);
    if prev[b] > a { OncePerNode(objects, hits, prev, lastHit, cr2, a, prev[b]); }
  }

  /** Consecutive sightings of an object are less than a cluster radius apart. */
  lemma SightingsClose(objects: seq<Object>, hits: seq<Hit>, prev: seq<int>, lastHit: seq<nat>, cr2: real, a: nat, b: nat)
    requires Tracked(objects, hits, prev, lastHit, cr2) && a < b < |hits| && hits[a].owner == hits[b].owner
    requires forall k :: a < k < b ==> hits[k].owner != hits[b].owner
    ensures Near(hits[b].at, hits[a].at, cr2)
  {
    assert Linked(hits, prev, b, cr2);
  }

  /** The earliest node an object was sighted at is the one recorded. */
  lemma {:induction false} FirstRecorded(objects: seq<Object>, hits: seq<Hit>, prev: seq<int>, lastHit: seq<nat>, cr2: real, h: nat)
    requires Tracked(objects, hits, prev, lastHit, cr2) && h < |hits|
    ensures objects[hits[h].owner].first <= hits[h].node
    decreases h
  {
    assert Linked(hits, prev, h, cr2);
    if prev[h] >= 0 { FirstRecorded(objects, hits, prev, lastHit, cr2, prev[h]); }
  }

  lemma SightNew(objects: seq<Object>, hits: seq<Hit>, prev: seq<int>, lastHit: seq<nat>, cr2: real, node: nat, p: Point, best: real)
    requires Tracked(objects, hits, prev, lastHit, cr2) && forall h :: 0 <= h < |hits| ==> hits[h].node <= node
    requires forall o :: 0 <= o < |objects| ==> objects[o].first <= node
    ensures Tracked(objects + [Object(p, best, node, node)], hits + [Hit(node, |objects|, p)], prev + [-1], lastHit + [|hits|], cr2)
  {
    hide Near;
    var objects', hits', prev', lastHit' := objects + [Object(p, best, node, node)], hits + [Hit(node, |objects|, p)], prev + [-1], lastHit + [|hits|];
    forall h | 0 <= h < |hits'| ensures Linked(hits', prev', h, cr2) {
      if h < |hits| { assert Linked(hits, prev, h, cr2); }
    }
    forall o | 0 <= o < |objects'| ensures Latest(objects', hits', lastHit', o) {
      if o < |objects| { assert Latest(objects, hits, lastHit, o); }
    }
  }

  lemma SightAgain(objects: seq<Object>, hits: seq<Hit>, prev: seq<int>, lastHit: seq<nat>, cr2: real, node: nat, p: Point, best: real, m: nat)
    requires Tracked(objects, hits, prev, lastHit, cr2) && forall h :: 0 <= h < |hits| ==> hits[h].node <= node
    requires m < |objects| && objects[m].last != node && Near(p, objects[m].at, cr2)
    ensures var o := objects[m].(at := p, best := best, last := node);
            Tracked(objects[m := o], hits + [Hit(node, m, p)], prev + [lastHit[m]], lastHit[m := |hits|], cr2)
  {
    hide Near;
    assert Latest(objects, hits, lastHit, m);
    var objects', hits' := objects[m := objects[m].(at := p, best := best, last := node)], hits + [Hit(node, m, p)];
    var prev', lastHit' := prev + [lastHit[m]], lastHit[m := |hits|];
    forall h | 0 <= h < |hits'| ensures Linked(hits', prev', h, cr2) {
      if h < |hits| { assert Linked(hits, prev, h, cr2); }
    }
    forall o | 0 <= o < |objects'| ensures Latest(objects', hits', lastHit', o) {
      if o != m { assert Latest(objects, hits, lastHit, o); }
    }
  }

  /** `d2` holds each sighting's squared distance to the scan centre of its node; an object's
      closest approach is the least of its own, reached at sighting `arg`. */
  ghost predicate Closest(objects: seq<Object>, hits: seq<Hit>, d2: seq<real>, arg: seq<nat>) {
    && |d2| == |hits| && |arg| == |objects|
    && (forall h :: 0 <= h < |hits| ==> hits[h].owner < |objects| && objects[hits[h].owner].best <= d2[h])
    && (forall o :: 0 <= o < |objects| ==> arg[o] < |hits| && hits[arg[o]].owner == o && d2[arg[o]] == objects[o].best)
  }

  /** Everything known of the scan after some nodes. */
  ghost predicate Scanned(objects: seq<Object>, hits: seq<Hit>, cr2: real, g: Links, node: nat) {
    && Tracked(objects, hits, g.prev, g.lastHit, cr2) && Closest(objects, hits, g.d2, g.arg) && AllContinue(hits, g.prev, cr2)
    && (forall h :: 0 <= h < |hits| ==> hits[h].node < node) && (forall o :: 0 <= o < |objects| ==> objects[o].first < node)
  }

  /** The proof's bookkeeping: the links between sightings and the distances behind them. */
  datatype Links = Links(prev: seq<int>, lastHit: seq<nat>, d2: seq<real>, arg: seq<nat>)

  function LinkNew(g: Links, hits: nat, d2: real): Links {
    Links(g.prev + [-1], g.lastHit + [hits], g.d2 + [d2], g.arg + [hits])
  }

  function LinkAgain(g: Links, hits: nat, d2: real, m: nat, closer: bool): Links
    requires m < |g.lastHit| && m < |g.arg|
  {
    Links(g.prev + [g.lastHit[m]], g.lastHit[m := hits], g.d2 + [d2], if closer then g.arg[m := hits] else g.arg)
  }

  /** One representative at a node, bound to object m or starting a new one. */
  lemma Sight(objects: seq<Object>, hits: seq<Hit>, cr2: real, g: Links, node: nat, p: Point, d2: real, m: nat)
    returns (g': Links)
    requires Scanned(objects, hits, cr2, g, node + 1) && m <= |objects|
    requires m < |objects| ==> objects[m].last != node && Near(p, objects[m].at, cr2)
    requires forall i :: 0 <= i < |objects| && objects[i].last != node ==>
               if m < |objects| then Dist2(p, objects[m].at) <= Dist2(p, objects[i].at) else !Near(p, objects[i].at, cr2)
    requires forall i :: 0 <= i < m < |objects| && objects[i].last != node ==> Dist2(p, objects[m].at) < Dist2(p, objects[i].at)
    ensures m == |objects| ==> Scanned(objects + [Object(p, d2, node, node)], hits + [Hit(node, m, p)], cr2, g', node + 1)
    ensures m < |objects| ==>
              Scanned(objects[m := objects[m].(at := p, best := Min(objects[m].best, d2), last := node)], hits + [Hit(node, m, p)], cr2, g', node + 1)
    ensures g'.d2 == g.d2 + [d2]
  {
    hide Near, Linked, Latest, Dist2, Continues;
    MatchContinues(objects, hits, g.prev, g.lastHit, cr2, node, p, m);
    if m == |objects| {
      SightNew(objects, hits, g.prev, g.lastHit, cr2, node, p, d2);
      g' := LinkNew(g, |hits|, d2);
    } else {
      SightAgain(objects, hits, g.prev, g.lastHit, cr2, node, p, Min(objects[m].best, d2), m);
      g' := LinkAgain(g, |hits|, d2, m, d2 < objects[m].best);
    }
  }

  /** Bind the representatives of one node: each continues the nearest unclaimed object
      within the radius, or starts a new one. */
  method BindNode(objects: seq<Object>, hits: seq<Hit>, ghost g: Links, cr2: real, node: nat, centre: Point, picked: seq<Point>)
      returns (objects': seq<Object>, hits': seq<Hit>, ghost g': Links)
    requires Scanned(objects, hits, cr2, g, node)
    ensures Scanned(objects', hits', cr2, g', node + 1)
    ensures |hits'| == |hits| + |picked| && hits <= hits' && |g'.d2| == |hits'| && g.d2 <= g'.d2
    ensures forall k :: |hits| <= k < |hits'| ==>
              hits'[k].node == node && hits'[k].at == picked[k - |hits|] && g'.d2[k] == Dist2(hits'[k].at, centre)
  {
    hide Dist2;
    objects', hits', g' := objects, hits, g;
    ScannedSizes(objects', hits', cr2, g, node);
    WiderScan(objects', hits', cr2, g, node);
    for i := 0 to |picked|
      invariant Scanned(objects', hits', cr2, g', node + 1)
      invariant |hits'| == |hits| + i && hits <= hits' && |g'.d2| == |hits'| && g.d2 <= g'.d2
      invariant forall k :: |hits| <= k < |hits'| ==>
                  hits'[k].node == node && hits'[k].at == picked[k - |hits|] && g'.d2[k] == Dist2(hits'[k].at, centre)
    {
      var p := picked[i];
      var d2 := Dist2(p, centre);
      var m := FindMatch(objects', node, p, cr2);
      g' := Sight(objects', hits', cr2, g', node, p, d2, m);
      hits' := hits' + [Hit(node, m, p)];
      if m == |objects'| {
        objects' := objects' + [Object(p, d2, node, node)];
      } else {
        objects' := objects'[m := objects'[m].(at := p, best := Min(objects'[m].best, d2), last := node)];
      }
    }
  }

  lemma ScannedSizes(objects: seq<Object>, hits: seq<Hit>, cr2: real, g: Links, node: nat)
    requires Scanned(objects, hits, cr2, g, node)
    ensures |g.d2| == |hits| && |g.arg| == |objects| && |g.prev| == |hits| && |g.lastHit| == |objects|
  {
  }

  lemma WiderScan(objects: seq<Object>, hits: seq<Hit>, cr2: real, g: Links, node: nat)
    requires Scanned(objects, hits, cr2, g, node)
    ensures Scanned(objects, hits, cr2, g, node + 1)
  {
  }

  // ----- slots

  /** Met earlier along the trajectory, then closer, then found first. */
  predicate Before(objects: seq<Object>, a: nat, b: nat)
    requires a < |objects| && b < |objects|
  {
    || objects[a].first < objects[b].first
    || (objects[a].first == objects[b].first && (objects[a].best < objects[b].best || (objects[a].best == objects[b].best && a < b)))
  }

  ghost predicate Ranked(objects: seq<Object>, order: seq<nat>, n: nat) {
    && n <= |objects| && |order| == n
    && (forall i :: 0 <= i < n ==> order[i] < n)
    && (forall i, j :: 0 <= i < j < n ==> Before(objects, order[i], order[j]))
    && (forall o :: 0 <= o < n ==> o in order)
  }

  /** The stable sort of the objects. */
  method Rank(objects: seq<Object>) returns (order: seq<nat>)
    ensures Ranked(objects, order, |objects|)
  {
    order := [];
    for n := 0 to |objects|
      invariant Ranked(objects, order, n)
    {
      var i := |order|;
      while i > 0 && Before(objects, n, order[i - 1])
        invariant 0 <= i <= |order|
        invariant forall k :: i <= k < |order| ==> Before(objects, n, order[k])
      {
        i := i - 1;
      }
      ghost var was := order;
      order := order[..i] + [n] + order[i..];
      InsertRanked(objects, was, n, i);
    }
  }

  lemma InsertRanked(objects: seq<Object>, was: seq<nat>, n: nat, i: nat)
    requires Ranked(objects, was, n) && n < |objects| && i <= n
    requires (forall k :: i <= k < n ==> Before(objects, n, was[k])) && (i > 0 ==> !Before(objects, n, was[i - 1]))
    ensures Ranked(objects, was[..i] + [n] + was[i..], n + 1)
  {
    var order := was[..i] + [n] + was[i..];
    forall k | 0 <= k < i ensures Before(objects, was[k], n) {
      if k < i - 1 { assert Before(objects, was[k], was[i - 1]); }
    }
    forall a, b | 0 <= a < b < n + 1 ensures Before(objects, order[a], order[b]) {
    }
    forall o | 0 <= o < n + 1 ensures o in order {
      if o < n {
        assert o in was;
        var k :| 0 <= k < n && was[k] == o;
        if k < i { assert order[k] == o; } else { assert order[k + 1] == o; }
      } else {
        assert order[i] == o;
      }
    }
  }

  /** The slot of every object, if it has one. */
  ghost predicate Slotted(objects: seq<Object>, order: seq<nat>, slots: seq<Option<nat>>, begin: nat, budget: nat) {
    && Ranked(objects, order, |objects|) && |slots| == |objects|
    && forall r {:trigger order[r]} :: 0 <= r < |order| ==> slots[order[r]] == if r < budget then Some(begin + r) else None
  }

  method AssignSlots(objects: seq<Object>, order: seq<nat>, begin: nat, budget: nat) returns (slots: seq<Option<nat>>)
    requires Ranked(objects, order, |objects|)
    ensures Slotted(objects, order, slots, begin, budget)
  {
    slots := seq(|objects|, i => None);
    for r := 0 to |order|
      invariant |slots| == |objects|
      invariant forall k {:trigger order[k]} :: 0 <= k < |order| ==> slots[order[k]] == if k < r && k < budget then Some(begin + k) else None
    {
      if r >= budget { break; }
      forall k | 0 <= k < |order| && k != r ensures order[k] != order[r] { DistinctRanks(objects, order, k, r); }
      slots := slots[order[r] := Some(begin + r)];
    }
  }

  lemma DistinctRanks(objects: seq<Object>, order: seq<nat>, a: nat, b: nat)
    requires Ranked(objects, order, |objects|) && a < |order| && b < |order| && a != b
    ensures order[a] != order[b]
  {
    if a < b { assert Before(objects, order[a], order[b]); } else { assert Before(objects, order[b], order[a]); }
  }

  lemma RankOf(objects: seq<Object>, order: seq<nat>, slots: seq<Option<nat>>, begin: nat, budget: nat, o: nat) returns (r: nat)
    requires Slotted(objects, order, slots, begin, budget) && o < |objects|
    ensures r < |order| && order[r] == o && (slots[o] == if r < budget then Some(begin + r) else None)
  {
    assert o in order;
    r :| r < |order| && order[r] == o;
  }

  /** A slot belongs to one object, and lies in the range left for static clutter. */
  lemma SlotOfOne(objects: seq<Object>, order: seq<nat>, slots: seq<Option<nat>>, begin: nat, budget: nat, a: nat, b: nat)
    requires Slotted(objects, order, slots, begin, budget) && a < |objects| && b < |objects| && slots[a].Some?
    ensures begin <= slots[a].value < begin + budget && (slots[b] == slots[a] ==> a == b)
  {
    var r := RankOf(objects, order, slots, begin, budget, a);
    var q := RankOf(objects, order, slots, begin, budget, b);
  }

  lemma NotBoth(objects: seq<Object>, a: nat, b: nat)
    requires a < |objects| && b < |objects|
    ensures !(Before(objects, a, b) && Before(objects, b, a))
  {
  }

  /** An object met earlier never loses its slot to one met later; at the same first node
      the closer one goes first. */
  lemma EarlierKeepsSlot(objects: seq<Object>, order: seq<nat>, slots: seq<Option<nat>>, begin: nat, budget: nat, a: nat, b: nat)
    requires Slotted(objects, order, slots, begin, budget) && a < |objects| && b < |objects| && slots[b].Some?
    requires objects[a].first < objects[b].first || (objects[a].first == objects[b].first && objects[a].best < objects[b].best)
    ensures slots[a].Some? && slots[a].value < slots[b].value
  {
    var r := RankOf(objects, order, slots, begin, budget, a);
    var q := RankOf(objects, order, slots, begin, budget, b);
    NotBoth(objects, a, b);
  }

  // ----- the fill

  function RowOf(k: nat, node: nat, slot: nat): nat { Times(node, k) + slot }

  /** The sighting that owns a row, if its object has a slot. */
  predicate Writes(hits: seq<Hit>, slots: seq<Option<nat>>, k: nat, h: nat, row: nat)
    requires h < |hits| && hits[h].owner < |slots|
  {
    slots[hits[h].owner].Some? && RowOf(k, hits[h].node, slots[hits[h].owner].value) == row
  }

  function DiscOf(h: Hit, shift: seq<Point>, dSafe: real): Disc
    requires h.node < |shift|
  {
    Disc(h.at.x + shift[h.node].x, h.at.y + shift[h.node].y, dSafe)
  }

  /** No row is written twice. */
  lemma RowOnce(objects: seq<Object>, hits: seq<Hit>, cr2: real, g: Links, node: nat, order: seq<nat>, slots: seq<Option<nat>>,
                begin: nat, k: nat, a: nat, b: nat, row: nat)
    requires Scanned(objects, hits, cr2, g, node) && begin < k && Slotted(objects, order, slots, begin, k - begin)
    requires a < |hits| && b < |hits| && hits[a].owner < |slots| && hits[b].owner < |slots| && Writes(hits, slots, k, a, row) && Writes(hits, slots, k, b, row)
    ensures a == b
  {
    hide Times, Linked, Latest, Near;
    SlotOfOne(objects, order, slots, begin, k - begin, hits[a].owner, hits[b].owner);
    SlotOfOne(objects, order, slots, begin, k - begin, hits[b].owner, hits[a].owner);
    CellUnique(hits[a].node, slots[hits[a].owner].value, hits[b].node, slots[hits[b].owner].value, k);
    if a < b { OncePerNode(objects, hits, g.prev, g.lastHit, cr2, a, b); }
    if b < a { OncePerNode(objects, hits, g.prev, g.lastHit, cr2, b, a); }
  }

  /** What the fill leaves in the slots: every sighting of a slotted object is in its own
      row, and every other row is as it was. */
  ghost predicate Placed(was: seq<Disc>, now: seq<Disc>, hits: seq<Hit>, slots: seq<Option<nat>>, shift: seq<Point>, dSafe: real, k: nat, upto: nat)
    requires upto <= |hits| && forall h :: 0 <= h < |hits| ==> hits[h].owner < |slots| && hits[h].node < |shift|
  {
    && |now| == |was|
    && (forall h, row :: 0 <= h < upto && 0 <= row < |now| && Writes(hits, slots, k, h, row) ==> now[row] == DiscOf(hits[h], shift, dSafe))
    && (forall row {:trigger now[row]} :: 0 <= row < |now| && (forall h :: 0 <= h < upto ==> !Writes(hits, slots, k, h, row)) ==> now[row] == was[row])
  }

  method WriteHits(obs: array<Disc>, objects: seq<Object>, hits: seq<Hit>, cr2: real, ghost g: Links, np: nat, order: seq<nat>, slots: seq<Option<nat>>,
                   shift: seq<Point>, dSafe: real, begin: nat, k: nat)
    requires Scanned(objects, hits, cr2, g, np) && begin < k && Slotted(objects, order, slots, begin, k - begin)
    requires |shift| == np && obs.Length == Times(np, k) && (forall h :: 0 <= h < |hits| ==> hits[h].owner < |slots|)
    modifies obs
    ensures Placed(old(obs[..]), obs[..], hits, slots, shift, dSafe, k, |hits|)
  {
    hide Times, Scanned, Slotted;
    ghost var was := obs[..];
    NodesBelow(objects, hits, cr2, g, np);
    for h := 0 to |hits|
      invariant Placed(was, obs[..], hits, slots, shift, dSafe, k, h)
    {
      var slot := slots[hits[h].owner];
      ghost var pre := obs[..];
      if slot.Some? {
        SlotInRange(objects, order, slots, begin, k, hits, cr2, g, np, h);
        TableCell(hits[h].node, np, k, slot.value);
        var row := RowOf(k, hits[h].node, slot.value);
        obs[row] := DiscOf(hits[h], shift, dSafe);
        forall a | 0 <= a < h ensures !Writes(hits, slots, k, a, row) {
          if Writes(hits, slots, k, a, row) {
            RowOnce(objects, hits, cr2, g, np, order, slots, begin, k, a, h, row);
          }
        }
        PlaceNext(was, pre, obs[..], hits, slots, shift, dSafe, k, h, row);
      } else {
        PlaceSkip(was, pre, hits, slots, shift, dSafe, k, h);
      }
    }
  }

  lemma NodesBelow(objects: seq<Object>, hits: seq<Hit>, cr2: real, g: Links, np: nat)
    requires Scanned(objects, hits, cr2, g, np)
    ensures forall h :: 0 <= h < |hits| ==> hits[h].node < np && hits[h].owner < |objects|
  {
  }

  lemma SlotInRange(objects: seq<Object>, order: seq<nat>, slots: seq<Option<nat>>, begin: nat, k: nat, hits: seq<Hit>, cr2: real, g: Links, np: nat, h: nat)
    requires Scanned(objects, hits, cr2, g, np) && begin < k && Slotted(objects, order, slots, begin, k - begin)
    requires h < |hits| && hits[h].owner < |slots| && slots[hits[h].owner].Some?
    ensures begin <= slots[hits[h].owner].value < k && hits[h].node < np
  {
    SlotOfOne(objects, order, slots, begin, k - begin, hits[h].owner, hits[h].owner);
  }

  lemma PlaceNext(was: seq<Disc>, pre: seq<Disc>, now: seq<Disc>, hits: seq<Hit>, slots: seq<Option<nat>>, shift: seq<Point>, dSafe: real, k: nat, h: nat, row: nat)
    requires h < |hits| && (forall i :: 0 <= i < |hits| ==> hits[i].owner < |slots| && hits[i].node < |shift|)
    requires Placed(was, pre, hits, slots, shift, dSafe, k, h) && row < |pre| && Writes(hits, slots, k, h, row)
    requires now == pre[row := DiscOf(hits[h], shift, dSafe)] && forall a :: 0 <= a < h ==> !Writes(hits, slots, k, a, row)
    ensures Placed(was, now, hits, slots, shift, dSafe, k, h + 1)
  {
    hide Times;
    forall r {:trigger now[r]} | 0 <= r < |now| && (forall a :: 0 <= a < h + 1 ==> !Writes(hits, slots, k, a, r)) ensures now[r] == was[r] {
      assert !Writes(hits, slots, k, h, r);
      assert pre[r] == was[r];
    }
  }

  lemma PlaceSkip(was: seq<Disc>, pre: seq<Disc>, hits: seq<Hit>, slots: seq<Option<nat>>, shift: seq<Point>, dSafe: real, k: nat, h: nat)
    requires h < |hits| && (forall i :: 0 <= i < |hits| ==> hits[i].owner < |slots| && hits[i].node < |shift|)
    requires Placed(was, pre, hits, slots, shift, dSafe, k, h) && slots[hits[h].owner].None?
    ensures Placed(was, pre, hits, slots, shift, dSafe, k, h + 1)
  {
    forall r {:trigger pre[r]} | 0 <= r < |pre| && (forall a :: 0 <= a < h + 1 ==> !Writes(hits, slots, k, a, r)) ensures pre[r] == was[r] {
    }
  }

  /** Rows of slots before the static range are left as they were. */
  lemma DynamicUntouched(was: seq<Disc>, now: seq<Disc>, objects: seq<Object>, hits: seq<Hit>, order: seq<nat>, slots: seq<Option<nat>>,
                         shift: seq<Point>, dSafe: real, begin: nat, k: nat, node: nat, slot: nat)
    requires begin < k && Slotted(objects, order, slots, begin, k - begin) && slot < begin && RowOf(k, node, slot) < |now|
    requires forall h :: 0 <= h < |hits| ==> hits[h].owner < |slots| && hits[h].node < |shift|
    requires Placed(was, now, hits, slots, shift, dSafe, k, |hits|)
    ensures now[RowOf(k, node, slot)] == was[RowOf(k, node, slot)]
  {
    hide Times;
    var row := RowOf(k, node, slot);
    forall h | 0 <= h < |hits| ensures !Writes(hits, slots, k, h, row) {
      if Writes(hits, slots, k, h, row) {
        SlotOfOne(objects, order, slots, begin, k - begin, hits[h].owner, hits[h].owner);
        CellUnique(node, slot, hits[h].node, slots[hits[h].owner].value, k);
      }
    }
  }

  /** All rows of a slot carry one object. */
  lemma SlotCarriesOne(objects: seq<Object>, hits: seq<Hit>, order: seq<nat>, slots: seq<Option<nat>>, begin: nat, k: nat,
                       node: nat, node': nat, slot: nat, a: nat, b: nat)
    requires begin < k && Slotted(objects, order, slots, begin, k - begin) && slot < k
    requires a < |hits| && b < |hits| && hits[a].owner < |slots| && hits[b].owner < |slots|
    requires Writes(hits, slots, k, a, RowOf(k, node, slot)) && Writes(hits, slots, k, b, RowOf(k, node', slot))
    ensures hits[a].owner == hits[b].owner && hits[a].node == node && hits[b].node == node'
  {
    hide Times;
    SlotOfOne(objects, order, slots, begin, k - begin, hits[a].owner, hits[b].owner);
    SlotOfOne(objects, order, slots, begin, k - begin, hits[b].owner, hits[a].owner);
    CellUnique(hits[a].node, slots[hits[a].owner].value, node, slot, k);
    CellUnique(hits[b].node, slots[hits[b].owner].value, node', slot, k);
  }

  /** Sightings at one node are at least a cluster radius apart. */
  ghost predicate Spread(hits: seq<Hit>, cr2: real) {
    forall a, b :: 0 <= a < b < |hits| && hits[a].node == hits[b].node ==> !Near(hits[b].at, hits[a].at, cr2)
  }

  /** A sighting stands for a cell of its node: it is that cell, or less than a cluster radius
      away. */
  predicate StandsFor(h: Hit, node: nat, cell: Point, cr2: real) {
    h.node == node && (h.at == cell || Near(cell, h.at, cr2))
  }

  /** A node's sightings have spent the budget, and none is farther from its scan centre than
      the cell. */
  ghost predicate Spent(hits: seq<Hit>, node: nat, budget: nat, centre: Point, cell: Point) {
    exists a :: SpentFrom(hits, a, node, budget, centre, cell)
  }

  ghost predicate SpentFrom(hits: seq<Hit>, a: nat, node: nat, budget: nat, centre: Point, cell: Point) {
    a + budget <= |hits| && forall h :: a <= h < a + budget ==> hits[h].node == node && Dist2(hits[h].at, centre) <= Dist2(cell, centre)
  }

  predicate NearestFirst(scan: Scan) {
    forall i, j :: 0 <= i < j < |scan.cells| ==> Dist2(scan.cells[i], scan.centre) <= Dist2(scan.cells[j], scan.centre)
  }

  /** Every cell scanned at a node has a sighting that stands for it, unless nearer cells have
      spent the budget. */
  ghost predicate Shown(hits: seq<Hit>, node: nat, scan: Scan, budget: nat, cr2: real) {
    NearestFirst(scan) ==> forall c :: c in scan.cells ==> ShownAt(hits, node, scan.centre, budget, cr2, c)
  }

  ghost predicate ShownAt(hits: seq<Hit>, node: nat, centre: Point, budget: nat, cr2: real, cell: Point) {
    (exists h :: 0 <= h < |hits| && StandsFor(hits[h], node, cell, cr2)) || Spent(hits, node, budget, centre, cell)
  }

  lemma StillShown(was: seq<Hit>, now: seq<Hit>, node: nat, scan: Scan, budget: nat, cr2: real)
    requires was <= now && Shown(was, node, scan, budget, cr2)
    ensures Shown(now, node, scan, budget, cr2)
  {
    hide Near, Dist2;
    if NearestFirst(scan) {
      forall c | c in scan.cells ensures ShownAt(now, node, scan.centre, budget, cr2, c) {
        assert ShownAt(was, node, scan.centre, budget, cr2, c);
        if h :| 0 <= h < |was| && StandsFor(was[h], node, c, cr2) {
          assert StandsFor(now[h], node, c, cr2);
        } else {
          var a :| SpentFrom(was, a, node, budget, scan.centre, c);
          assert SpentFrom(now, a, node, budget, scan.centre, c);
        }
      }
    }
  }

  /** The representatives picked at a node show its scan. */
  lemma PickShows(was: seq<Hit>, now: seq<Hit>, node: nat, scan: Scan, picked: seq<Point>, seen: nat, budget: nat, cr2: real)
    requires was <= now && |now| == |was| + |picked| && seen <= |scan.cells| && (seen < |scan.cells| ==> |picked| == budget)
    requires forall k :: |was| <= k < |now| ==> now[k].node == node && now[k].at == picked[k - |was|]
    requires forall p :: p in picked ==> p in scan.cells[..seen]
    requires forall c :: c in scan.cells[..seen] ==> Represented(c, picked, cr2)
    ensures Shown(now, node, scan, budget, cr2)
  {
    hide Near, Dist2;
    if NearestFirst(scan) {
      forall c | c in scan.cells ensures ShownAt(now, node, scan.centre, budget, cr2, c) {
        if c in scan.cells[..seen] {
          RepresentedShown(was, now, node, picked, cr2, c);
        } else {
          var j := PastSeen(scan.cells, seen, c);
          forall h | |was| <= h < |was| + budget ensures Dist2(now[h].at, scan.centre) <= Dist2(c, scan.centre) {
            assert picked[h - |was|] in picked;
            var i :| 0 <= i < seen && scan.cells[..seen][i] == now[h].at;
          }
          assert SpentFrom(now, |was|, node, budget, scan.centre, c);
        }
      }
    }
  }

  lemma PastSeen(cells: seq<Point>, seen: nat, c: Point) returns (j: nat)
    requires seen <= |cells| && c in cells && c !in cells[..seen]
    ensures seen <= j < |cells| && cells[j] == c
  {
    assert cells == cells[..seen] + cells[seen..];
    j :| 0 <= j < |cells| && cells[j] == c;
  }

  lemma RepresentedShown(was: seq<Hit>, now: seq<Hit>, node: nat, picked: seq<Point>, cr2: real, c: Point)
    requires was <= now && |now| == |was| + |picked| && Represented(c, picked, cr2)
    requires forall k :: |was| <= k < |now| ==> now[k].node == node && now[k].at == picked[k - |was|]
    ensures exists h :: 0 <= h < |now| && StandsFor(now[h], node, c, cr2)
  {
    hide Near;
    var i: nat;
    if c in picked { i :| i < |picked| && picked[i] == c; } else { i :| i < |picked| && Near(c, picked[i], cr2); }
    assert StandsFor(now[|was| + i], node, c, cr2);
  }

  /** An object goes without a slot only when each of them belongs to an object met before it. */
  lemma SlotLost(objects: seq<Object>, order: seq<nat>, slots: seq<Option<nat>>, begin: nat, budget: nat, o: nat, slot: nat)
    requires Slotted(objects, order, slots, begin, budget) && o < |objects| && slots[o].None? && begin <= slot < begin + budget
    ensures exists a :: 0 <= a < |objects| && slots[a] == Some(slot)
                        && (objects[a].first < objects[o].first || (objects[a].first == objects[o].first && objects[a].best <= objects[o].best))
  {
    var r := RankOf(objects, order, slots, begin, budget, o);
    assert slots[order[slot - begin]] == Some(slot) && Before(objects, order[slot - begin], order[r]);
  }

  // ----- when a cell is left out

  /** A slot carries a sighting. */
  ghost predicate Taken(hits: seq<Hit>, slots: seq<Option<nat>>, slot: nat) {
    exists h :: TakenBy(hits, slots, slot, h)
  }

  predicate TakenBy(hits: seq<Hit>, slots: seq<Option<nat>>, slot: nat, h: nat) {
    h < |hits| && hits[h].owner < |slots| && slots[hits[h].owner] == Some(slot)
  }

  lemma ObjectTakes(objects: seq<Object>, hits: seq<Hit>, cr2: real, g: Links, node: nat, slots: seq<Option<nat>>, slot: nat, o: nat)
    requires Scanned(objects, hits, cr2, g, node) && |slots| == |objects| && o < |objects| && slots[o] == Some(slot)
    ensures Taken(hits, slots, slot)
  {
    assert TakenBy(hits, slots, slot, g.arg[o]);
  }

  /** Sightings of one node belong to as many objects. */
  lemma {:induction false} OwnersOf(objects: seq<Object>, hits: seq<Hit>, cr2: real, g: Links, np: nat, a: nat, n: nat, node: nat) returns (owners: set<nat>)
    requires Scanned(objects, hits, cr2, g, np) && a + n <= |hits| && forall h :: a <= h < a + n ==> hits[h].node == node
    ensures |owners| == n && forall o :: o in owners <==> exists h :: a <= h < a + n && hits[h].owner == o
  {
    hide Linked, Latest, Continues, Closest;
    owners := {};
    if n > 0 {
      var rest := OwnersOf(objects, hits, cr2, g, np, a, n - 1, node);
      var last := a + n - 1;
      if h :| a <= h < last && hits[h].owner == hits[last].owner { OncePerNode(objects, hits, g.prev, g.lastHit, cr2, h, last); }
      owners := rest + {hits[last].owner};
    }
  }

  lemma {:induction false} Below(owners: set<nat>, n: nat)
    requires forall o :: o in owners ==> o < n
    ensures |owners| <= n
  {
    if n > 0 {
      Below(owners - {n - 1}, n - 1);
    } else {
      assert owners == {};
    }
  }

  /** A cell with no sighting of its own in a slot is left out only when every slot is taken. */
  lemma LeftOut(objects: seq<Object>, hits: seq<Hit>, cr2: real, g: Links, np: nat, order: seq<nat>, slots: seq<Option<nat>>, begin: nat, budget: nat,
                node: nat, centre: Point, cell: Point, slot: nat)
    requires Scanned(objects, hits, cr2, g, np) && Slotted(objects, order, slots, begin, budget) && begin <= slot < begin + budget
    requires ShownAt(hits, node, centre, budget, cr2, cell)
    requires forall h :: 0 <= h < |hits| && hits[h].owner < |slots| && StandsFor(hits[h], node, cell, cr2) ==> slots[hits[h].owner].None?
    ensures Taken(hits, slots, slot)
  {
    hide Near, Dist2, Linked, Latest, Continues, Ranked;
    NodesBelow(objects, hits, cr2, g, np);
    if h :| 0 <= h < |hits| && StandsFor(hits[h], node, cell, cr2) {
      SlotLost(objects, order, slots, begin, budget, hits[h].owner, slot);
      var a :| 0 <= a < |objects| && slots[a] == Some(slot);
      ObjectTakes(objects, hits, cr2, g, np, slots, slot, a);
    } else {
      var a :| SpentFrom(hits, a, node, budget, centre, cell);
      var owners := OwnersOf(objects, hits, cr2, g, np, a, budget, node);
      Below(owners, |objects|);
      var o := InOrder(objects, order, slots, begin, budget, slot - begin);
      ObjectTakes(objects, hits, cr2, g, np, slots, slot, o);
    }
  }

  lemma InOrder(objects: seq<Object>, order: seq<nat>, slots: seq<Option<nat>>, begin: nat, budget: nat, r: nat) returns (o: nat)
    requires Slotted(objects, order, slots, begin, budget) && r < budget <= |objects|
    ensures o < |objects| && slots[o] == Some(begin + r)
  {
    o := order[r];
  }

  /** Fill the slots from `begin` on with the clutter found around each node's scan centre;
      a node off the map has none. */
  method FillStatic(obs: array<Disc>, nodes: seq<Option<Scan>>, shift: seq<Point>, dSafe: real, cr2: real, begin: nat, k: nat)
      returns (ghost objects: seq<Object>, ghost hits: seq<Hit>, ghost g: Links, ghost order: seq<nat>, ghost slots: seq<Option<nat>>)
    requires |shift| == |nodes| && obs.Length == Times(|nodes|, k)
    modifies obs
    ensures begin >= k ==> obs[..] == old(obs[..])
    ensures begin < k ==> Scanned(objects, hits, cr2, g, |nodes|) && Slotted(objects, order, slots, begin, k - begin) && Spread(hits, cr2)
    ensures forall h :: 0 <= h < |hits| ==> hits[h].owner < |slots| && hits[h].node < |shift|
    ensures begin < k ==> Placed(old(obs[..]), obs[..], hits, slots, shift, dSafe, k, |hits|)
    ensures forall h :: 0 <= h < |hits| ==> nodes[hits[h].node].Some? && hits[h].at in nodes[hits[h].node].value.cells
    ensures begin < k ==> forall node {:trigger nodes[node]} :: 0 <= node < |nodes| && nodes[node].Some? ==> Shown(hits, node, nodes[node].value, k - begin, cr2)
  {
    hide Times, Scanned, Slotted, Placed, Near, Shown, Represented, Dist2;
    objects, hits, g, order, slots := [], [], Links([], [], [], []), [], [];
    if begin >= k { return; }
    var budget := k - begin;
    var objs: seq<Object>, seen: seq<Hit> := [], [];
    EmptyScan(cr2);
    for node := 0 to |nodes|
      invariant Scanned(objs, seen, cr2, g, node) && Spread(seen, cr2) && obs[..] == old(obs[..])
      invariant forall n {:trigger nodes[n]} :: 0 <= n < node && nodes[n].Some? ==> Shown(seen, n, nodes[n].value, budget, cr2)
      invariant forall h :: 0 <= h < |seen| ==> seen[h].node < node && nodes[seen[h].node].Some? && seen[h].at in nodes[seen[h].node].value.cells
    {
      WiderScan(objs, seen, cr2, g, node);
      if nodes[node].Some? {
        var picked, looked := Pick(nodes[node].value.cells, budget, cr2);
        ghost var was := seen;
        objs, seen, g := BindNode(objs, seen, g, cr2, node, nodes[node].value.centre, picked);
        SpreadNext(was, seen, cr2, node, picked);
        PickShows(was, seen, node, nodes[node].value, picked, looked, budget, cr2);
        forall n {:trigger nodes[n]} | 0 <= n < node && nodes[n].Some? ensures Shown(seen, n, nodes[n].value, budget, cr2) {
          StillShown(was, seen, n, nodes[n].value, budget, cr2);
        }
        forall h | 0 <= h < |seen| ensures seen[h].node < node + 1 && nodes[seen[h].node].Some? && seen[h].at in nodes[seen[h].node].value.cells {
          if h >= |was| { assert picked[h - |was|] in picked; }
        }
      }
    }
    var rank := Rank(objs);
    var given := AssignSlots(objs, rank, begin, budget);
    objects, hits, order, slots := objs, seen, rank, given;
    NodesBelow(objs, seen, cr2, g, |nodes|);
    assert |slots| == |objs| by { SlotCount(objs, rank, given, begin, budget); }
    WriteHits(obs, objs, seen, cr2, g, |nodes|, rank, given, shift, dSafe, begin, k);
  }

  lemma SlotCount(objects: seq<Object>, order: seq<nat>, slots: seq<Option<nat>>, begin: nat, budget: nat)
    requires Slotted(objects, order, slots, begin, budget)
    ensures |slots| == |objects|
  {
  }

  lemma EmptyScan(cr2: real)
    ensures Scanned([], [], cr2, Links([], [], [], []), 0)
  {
  }

  lemma SpreadNext(was: seq<Hit>, now: seq<Hit>, cr2: real, node: nat, picked: seq<Point>)
    requires Spread(was, cr2) && was <= now && |now| == |was| + |picked| && Apart(picked, cr2)
    requires forall h :: 0 <= h < |was| ==> was[h].node < node
    requires forall h :: |was| <= h < |now| ==> now[h].node == node && now[h].at == picked[h - |was|]
    ensures Spread(now, cr2)
  {
    hide Near;
    forall a, b | 0 <= a < b < |now| && now[a].node == now[b].node ensures !Near(now[b].at, now[a].at, cr2) {
      if b >= |was| {
        assert a >= |was|;
        assert !Near(picked[b - |was|], picked[a - |was|], cr2);
      } else {
        assert was[a] == now[a] && was[b] == now[b];
      }
    }
  }
}
