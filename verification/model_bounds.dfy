/** The bound tables of a model: appended while it is built, updated in place at run time. */
module ModelBounds {
  import opened QpRows

  datatype Kind = OfState | OfControl | OfRate | OfSlack | Unknown

  datatype Error = Crossed | BadKind | OutOfRange | NoBound

  datatype Outcome = Done | Failed(error: Error)

  /** Keys 0 .. count - 1 and no others, which is what the assembly indexes by. */
  ghost predicate Dense(t: map<nat, Bound>, count: nat) {
    forall k: nat :: k in t <==> k < count
  }

  /** The table in key order. */
  function Entries(t: map<nat, Bound>, count: nat): (s: seq<Bound>)
    requires Dense(t, count)
    ensures |s| == count && forall j :: 0 <= j < count ==> s[j] == t[j]
  {
    seq(count, j requires 0 <= j < count => t[j])
  }

  // ----- what a table means

  /** A value meets every entry declared for a component. */
  predicate Admits(s: seq<Bound>, idx: nat, v: real) {
    forall j :: 0 <= j < |s| && s[j].idx == idx ==> s[j].low <= v <= s[j].upp
  }

  /** The entries for a component leave exactly this interval. */
  ghost predicate LimitsTo(s: seq<Bound>, b: Bound) {
    forall v: real :: Admits(s, b.idx, v) <==> b.low <= v <= b.upp
  }

  predicate Matches(s: seq<Bound>, idx: nat, j: int) { 0 <= j < |s| && s[j].idx == idx }

  ghost predicate HasBound(s: seq<Bound>, idx: nat) { exists j :: Matches(s, idx, j) }

  /** The last entry for a component. */
  predicate LastMatch(s: seq<Bound>, idx: nat, at: nat) {
    Matches(s, idx, at) && forall j :: at < j < |s| ==> !Matches(s, idx, j)
  }

  /** Replacing the last entry keeps the components, their order and their number. */
  lemma UpdateKeepsIndices(s: seq<Bound>, at: nat, b: Bound)
    requires LastMatch(s, b.idx, at)
    ensures |s[at := b]| == |s| && forall j :: 0 <= j < |s| ==> s[at := b][j].idx == s[j].idx
  {
  }

  /** After an update the component is limited to exactly the new interval if and only if
      every other entry for it leaves that interval alone. */
  lemma UpdateTakesEffectIff(s: seq<Bound>, at: nat, b: Bound)
    requires LastMatch(s, b.idx, at) && b.low <= b.upp
    ensures LimitsTo(s[at := b], b) <==> forall j :: 0 <= j < at && Matches(s, b.idx, j) ==> s[j].low <= b.low && b.upp <= s[j].upp
  {
    var t := s[at := b];
    if forall j :: 0 <= j < at && Matches(s, b.idx, j) ==> s[j].low <= b.low && b.upp <= s[j].upp {
      forall v: real ensures Admits(t, b.idx, v) <==> b.low <= v <= b.upp {
        if b.low <= v <= b.upp {
          forall j | 0 <= j < |t| && t[j].idx == b.idx ensures t[j].low <= v <= t[j].upp {
            if j != at { assert Matches(s, b.idx, j); }
          }
        } else {
          assert t[at] == b;
        }
      }
    } else {
      var j :| 0 <= j < at && Matches(s, b.idx, j) && !(s[j].low <= b.low && b.upp <= s[j].upp);
      assert t[j] == s[j];
      var v := if s[j].low <= b.low then b.upp else b.low;
      assert b.low <= v <= b.upp && !Admits(t, b.idx, v);
    }
  }

  /** Two entries for one component: widening through an update leaves the older, tighter
      entry in force. */
  lemma ShadowedUpdate()
    ensures var s := [Bound(0, 0.0, 1.0), Bound(0, 0.0, 1.0)];
            var b := Bound(0, 0.0, 2.0);
            LastMatch(s, 0, 1) && !Admits(s[1 := b], 0, 2.0)
  {
    var s := [Bound(0, 0.0, 1.0), Bound(0, 0.0, 1.0)];
    assert s[1 := Bound(0, 0.0, 2.0)][0] == Bound(0, 0.0, 1.0);
  }

  class Model {
    var n: nat
    var m: nat
    var x: map<nat, Bound>
    var u: map<nat, Bound>
    var du: map<nat, Bound>
    var w: map<nat, Bound>
    var countX: nat
    var countU: nat
    var countDu: nat
    var countW: nat

    ghost predicate Valid()
      reads this
    {
      Dense(x, countX) && Dense(u, countU) && Dense(du, countDu) && Dense(w, countW)
    }

    function Table(kind: Kind): seq<Bound>
      requires Valid()
      reads this
    {
      match kind
      case OfState => Entries(x, countX)
      case OfControl => Entries(u, countU)
      case OfRate => Entries(du, countDu)
      case OfSlack => Entries(w, countW)
      case Unknown => []
    }

    constructor ()
      ensures Valid() && n == 0 && m == 0 && forall kind: Kind :: Table(kind) == []
    {
      n, m := 0, 0;
      x, u, du, w := map[], map[], map[], map[];
      countX, countU, countDu, countW := 0, 0, 0, 0;
    }

    function SetError(kind: Kind, idx: nat, low: real, upp: real): Outcome
      reads this
    {
      if low > upp then Failed(Crossed)
      else if kind.Unknown? then Failed(BadKind)
      else if kind.OfState? && n > 0 && idx >= n then Failed(OutOfRange)
      else if (kind.OfControl? || kind.OfRate?) && m > 0 && idx >= m then Failed(OutOfRange)
      else Done
    }

    /** Append a bound; a rejected one changes nothing. */
    method SetIneq(kind: Kind, idx: nat, low: real, upp: real) returns (o: Outcome)
      requires Valid()
      modifies this`x, this`u, this`du, this`w, this`countX, this`countU, this`countDu, this`countW
      ensures Valid() && o == old(SetError(kind, idx, low, upp))
      ensures o.Done? ==> Table(kind) == old(Table(kind)) + [Bound(idx, low, upp)]
      ensures forall k: Kind :: k != kind || o.Failed? ==> Table(k) == old(Table(k))
    {
      if low > upp { return Failed(Crossed); }
      if kind.Unknown? { return Failed(BadKind); }
      if kind.OfState? && n > 0 && idx >= n { return Failed(OutOfRange); }
      if (kind.OfControl? || kind.OfRate?) && m > 0 && idx >= m { return Failed(OutOfRange); }
      var b := Bound(idx, low, upp);
      match kind {
        case OfState => x, countX := x[countX := b], countX + 1;
        case OfControl => u, countU := u[countU := b], countU + 1;
        case OfRate => du, countDu := du[countDu := b], countDu + 1;
        case OfSlack => w, countW := w[countW := b], countW + 1;
      }
      return Done;
    }

    /** The scan the update and the override share: the last entry for a component. */
    static method FindLast(t: map<nat, Bound>, count: nat, idx: nat) returns (found: bool, at: nat)
      requires Dense(t, count)
      ensures found ==> LastMatch(Entries(t, count), idx, at)
      ensures !found ==> forall j :: 0 <= j < count ==> !Matches(Entries(t, count), idx, j)
    {
      found, at := false, 0;
      for i := 0 to count
        invariant found ==> at < i && Matches(Entries(t, count), idx, at) && forall j :: at < j < i ==> !Matches(Entries(t, count), idx, j)
        invariant !found ==> forall j :: 0 <= j < i ==> !Matches(Entries(t, count), idx, j)
      {
        if t[i].idx == idx { found, at := true, i; }
      }
    }

    /** Overwrite the last entry for a component; every table keeps its length, and a
        rejected update changes nothing. */
    method UpdateIneq(kind: Kind, idx: nat, low: real, upp: real) returns (o: Outcome, at: nat)
      requires Valid()
      modifies this`x, this`u, this`du, this`w
      ensures Valid()
      ensures o.Done? <==> low <= upp && !kind.Unknown? && HasBound(old(Table(kind)), idx)
      ensures o.Done? ==> LastMatch(old(Table(kind)), idx, at) && Table(kind) == old(Table(kind))[at := Bound(idx, low, upp)]
      ensures o == Failed(Crossed) <==> low > upp
      ensures o == Failed(BadKind) <==> low <= upp && kind.Unknown?
      ensures o == Failed(NoBound) <==> low <= upp && !kind.Unknown? && !HasBound(old(Table(kind)), idx)
      ensures forall k: Kind :: k != kind || o.Failed? ==> Table(k) == old(Table(k))
    {
      at := 0;
      if low > upp { return Failed(Crossed), at; }
      if kind.Unknown? { return Failed(BadKind), at; }
      var b, found := Bound(idx, low, upp), false;
      ghost var was := Table(kind);
      match kind {
        case OfState => found, at := FindLast(x, countX, idx); if found { x := x[at := b]; }
        case OfControl => found, at := FindLast(u, countU, idx); if found { u := u[at := b]; }
        case OfRate => found, at := FindLast(du, countDu, idx); if found { du := du[at := b]; }
        case OfSlack => found, at := FindLast(w, countW, idx); if found { w := w[at := b]; }
      }
      if !found {
        assert forall j :: !Matches(was, idx, j);
        return Failed(NoBound), at;
      }
      assert Table(kind) == was[at := b];
      return Done, at;
    }

    function Side(params: map<string, real>, key: string, current: real): real {
      if key in params then params[key] else current
    }

    /** The last entry for a component in the table of a kind. */
    method LastOf(kind: Kind, idx: nat) returns (found: bool, at: nat, b: Bound)
      requires Valid() && !kind.Unknown?
      ensures found <==> HasBound(Table(kind), idx)
      ensures found ==> LastMatch(Table(kind), idx, at) && b == Table(kind)[at]
    {
      hide Entries, Dense, Matches;
      match kind {
        case OfState => found, at := FindLast(x, countX, idx);
        case OfControl => found, at := FindLast(u, countU, idx);
        case OfRate => found, at := FindLast(du, countDu, idx);
        case OfSlack => found, at := FindLast(w, countW, idx);
      }
      MatchInside(Table(kind), idx);
      b := if found then Table(kind)[at] else Bound(0, 0.0, 0.0);
    }

    /** Override the sides a configuration names. An unknown kind is rejected, a component
        with no bound is left alone, an absent key keeps that side, and sides that cross are
        rejected; a rejected override changes nothing. */
    method OverrideBound(params: map<string, real>, kind: Kind, idx: nat, keyLow: string, keyUpp: string) returns (o: Outcome, ghost at: nat)
      requires Valid()
      modifies this`x, this`u, this`du, this`w
      ensures Valid()
      ensures o == Failed(BadKind) <==> kind.Unknown?
      ensures !kind.Unknown? && !HasBound(old(Table(kind)), idx) ==> o.Done?
      ensures o.Failed? || !HasBound(old(Table(kind)), idx) ==> Table(kind) == old(Table(kind))
      ensures !kind.Unknown? && HasBound(old(Table(kind)), idx) ==>
                && LastMatch(old(Table(kind)), idx, at)
                && var b := old(Table(kind))[at];
                   var low, upp := Side(params, keyLow, b.low), Side(params, keyUpp, b.upp);
                   && (o == Failed(Crossed) <==> low > upp) && (o.Done? <==> low <= upp)
                   && (o.Done? ==> Table(kind) == old(Table(kind))[at := Bound(idx, low, upp)])
      ensures forall k: Kind :: k != kind ==> Table(k) == old(Table(k))
    {
      hide Table, HasBound, LastMatch, Valid;
      at := 0;
      if kind.Unknown? {
        NoneUnknown(idx);
        return Failed(BadKind), at;
      }
      ghost var was := Table(kind);
      var found, last, b := LastOf(kind, idx);
      at := last;
      if !found { return Done, at; }
      var low := if keyLow in params then params[keyLow] else b.low;
      var upp := if keyUpp in params then params[keyUpp] else b.upp;
      ghost var last';
      o, last' := UpdateIneq(kind, idx, low, upp);
      if o.Done? { LastUnique(was, idx, last, last'); }
    }
  }

  lemma LastUnique(s: seq<Bound>, idx: nat, a: nat, b: nat)
    requires LastMatch(s, idx, a) && LastMatch(s, idx, b)
    ensures a == b
  {
    assert a < b ==> !Matches(s, idx, b);
    assert b < a ==> !Matches(s, idx, a);
  }

  lemma MatchInside(s: seq<Bound>, idx: nat)
    ensures (forall j :: 0 <= j < |s| ==> !Matches(s, idx, j)) <==> !HasBound(s, idx)
    ensures forall at: nat :: LastMatch(s, idx, at) ==> HasBound(s, idx) && at < |s|
  {
  }

  lemma NoneUnknown(idx: nat)
    ensures !HasBound([], idx)
  {
  }
}
