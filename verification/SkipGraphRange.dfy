/**
 One level range of a skip-graph node: the records it keeps and its four
 borders, the nearest records on each side for each value of the next bit.
 */
module SkipGraphRange {
  import opened Shared

  const MAX_UINT32: nat := 0xFFFF_FFFF

  type Id = n: nat | n <= MAX_UINT32

  /** A linearize package: who a node is and where it sits. */
  datatype Record = Record(value: Id, bits: string)

  /** The state of a level range; borders are left '0', right '0', left '1', right '1'. */
  datatype RangeView = RangeView(level: nat, bits: string, value: Id,
                                 borders: seq<Option<Record>>, held: seq<Record>)
  {
    ghost predicate Valid() {
      |borders| == 4 && level <= |bits|
    }
  }

  function InitRange(value: Id, bits: string, level: nat): RangeView {
    RangeView(level, bits, value, [None, None, None, None], [])
  }

  /** The smallest and the largest id stand for a border that is not set. */
  function PreventNilBorder(r: Option<Record>, floor: bool): Id {
    if r.Some? then r.value.value else if floor then 0 else MAX_UINT32
  }

  function SpecialMin(a: Id, b: Id): Id {
    if a == 0 then b else if b == 0 then a else if a < b then a else b
  }

  function SpecialMax(a: Id, b: Id): Id {
    if a == MAX_UINT32 then b else if b == MAX_UINT32 then a else if a < b then b else a
  }

  function Low(borders: seq<Option<Record>>): Id
    requires |borders| == 4
  {
    SpecialMin(PreventNilBorder(borders[0], true), PreventNilBorder(borders[2], true))
  }

  function High(borders: seq<Option<Record>>): Id
    requires |borders| == 4
  {
    SpecialMax(PreventNilBorder(borders[1], false), PreventNilBorder(borders[3], false))
  }

  predicate Inside(borders: seq<Option<Record>>, v: Id)
    requires |borders| == 4
  {
    Low(borders) <= v <= High(borders)
  }

  // ----- what one offer does -----

  predicate Rejected(v: RangeView, r: Record)
    requires v.Valid() && v.level < |r.bits|
  {
    || (r.value < PreventNilBorder(v.borders[0], true) && r.value < PreventNilBorder(v.borders[2], true))
    || (r.value > PreventNilBorder(v.borders[1], false) && r.value > PreventNilBorder(v.borders[3], false))
    || v.bits[..v.level] != r.bits[..v.level]
  }

  predicate HoldsIn(held: seq<Record>, x: Id) {
    exists i :: 0 <= i < |held| && held[i].value == x
  }

  predicate Holds(v: RangeView, x: Id) {
    HoldsIn(v.held, x)
  }

  function NewBorders(v: RangeView, r: Record): (b: seq<Option<Record>>)
    requires v.Valid() && v.level < |r.bits|
    ensures |b| == 4
  {
    var k := if r.bits[v.level] == '0' then 0 else 2;
    if PreventNilBorder(v.borders[k], true) < r.value < v.value then v.borders[k := Some(r)]
    else if v.value < r.value < PreventNilBorder(v.borders[k + 1], false) then v.borders[k + 1 := Some(r)]
    else v.borders
  }

  /** The range with the offer taken in, before the cleanup. */
  function Admitted(v: RangeView, r: Record): (w: RangeView)
    requires v.Valid() && v.level < |r.bits|
    ensures w.Valid()
  {
    if Rejected(v, r) || r.value == v.value then v
    else v.(held := if Holds(v, r.value) then v.held else v.held + [r], borders := NewBorders(v, r))
  }

  function Filter(held: seq<Record>, borders: seq<Option<Record>>, keep: bool): (f: seq<Record>)
    requires |borders| == 4
    ensures forall x :: x in f <==> x in held && Inside(borders, x.value) == keep
  {
    if held == [] then []
    else
      var init := Filter(held[..|held| - 1], borders, keep);
      var last := held[|held| - 1];
      assert held == held[..|held| - 1] + [last];
      if Inside(borders, last.value) == keep then init + [last] else init
  }

  function Updated(v: RangeView, r: Record): (w: RangeView)
    requires v.Valid() && v.level < |r.bits|
    ensures w.Valid() && w.level == v.level && w.bits == v.bits && w.value == v.value
  {
    var w := Admitted(v, r);
    w.(held := Filter(w.held, w.borders, true))
  }

  function Drops(v: RangeView, r: Record): seq<Record>
    requires v.Valid() && v.level < |r.bits|
  {
    var w := Admitted(v, r);
    (if Rejected(v, r) then [r] else []) + Filter(w.held, w.borders, false)
  }

  /** A level range as the node owns and changes it. */
  class LevelRange {
    const level: nat
    const bitstring: string
    const value: Id
    var borderNodes: seq<Option<Record>>
    var nodesInRange: seq<Record>

    ghost predicate Valid()
      reads this
    {
      View().Valid()
    }

    function View(): RangeView
      reads this
    {
      RangeView(level, bitstring, value, borderNodes, nodesInRange)
    }

    constructor (v: Id, bits: string, l: nat)
      requires l <= |bits|
      ensures View() == InitRange(v, bits, l) && Valid()
    {
      level, bitstring, value := l, bits, v;
      borderNodes := [None, None, None, None];
      nodesInRange := [];
    }

    /** The first half of UpdateRange: reject the offer, or take it in and move the borders. */
    method AdmitOffer(r: Record) returns (droppedList: seq<Record>)
      requires Valid() && level < |r.bits|
      modifies this
      ensures Valid() && View() == Admitted(old(View()), r)
      ensures droppedList == if Rejected(old(View()), r) then [r] else []
    {
      ghost var v := View();
      droppedList := [];
      if (r.value < PreventNilBorder(borderNodes[0], true) && r.value < PreventNilBorder(borderNodes[2], true)) ||
         (r.value > PreventNilBorder(borderNodes[1], false) && r.value > PreventNilBorder(borderNodes[3], false)) ||
         bitstring[..level] != r.bits[..level] {
        droppedList := droppedList + [r];
      } else if r.value != value {
        var found := false;
        for i := 0 to |nodesInRange|
          invariant !found && View() == v
          invariant forall j :: 0 <= j < i ==> nodesInRange[j].value != r.value
        {
          if nodesInRange[i].value == r.value {
            found := true;
            break;
          }
        }
        if !found {
          nodesInRange := nodesInRange + [r];
        }
        if r.bits[level] == '0' {
          if r.value > PreventNilBorder(borderNodes[0], true) && r.value < value {
            borderNodes := borderNodes[0 := Some(r)];
          } else if r.value < PreventNilBorder(borderNodes[1], false) && r.value > value {
            borderNodes := borderNodes[1 := Some(r)];
          }
        } else {
          if r.value > PreventNilBorder(borderNodes[2], true) && r.value < value {
            borderNodes := borderNodes[2 := Some(r)];
          } else if r.value < PreventNilBorder(borderNodes[3], false) && r.value > value {
            borderNodes := borderNodes[3 := Some(r)];
          }
        }
      }
    }

    method UpdateRange(r: Record) returns (droppedList: seq<Record>)
      requires Valid() && level < |r.bits|
      modifies this
      ensures Valid() && View() == Updated(old(View()), r)
      ensures droppedList == Drops(old(View()), r)
    {
      droppedList := AdmitOffer(r);
      var outside, kept := Sift(nodesInRange, borderNodes);
      droppedList := droppedList + outside;
      nodesInRange := kept;
    }
  }

  /** The two cleanup loops of UpdateRange. */
  method Sift(nodes: seq<Record>, borders: seq<Option<Record>>) returns (outside: seq<Record>, kept: seq<Record>)
    requires |borders| == 4
    ensures outside == Filter(nodes, borders, false) && kept == Filter(nodes, borders, true)
  {
    var low, high := Low(borders), High(borders);
    outside := [];
    for i := 0 to |nodes|
      invariant outside == Filter(nodes[..i], borders, false)
    {
      FilterStep(nodes, i, borders, false);
      if nodes[i].value < low || nodes[i].value > high {
        outside := outside + [nodes[i]];
      }
    }
    kept := [];
    for i := 0 to |nodes|
      invariant kept == Filter(nodes[..i], borders, true)
    {
      FilterStep(nodes, i, borders, true);
      if !(nodes[i].value < low || nodes[i].value > high) {
        kept := kept + [nodes[i]];
      }
    }
    assert nodes[..|nodes|] == nodes;
  }

  lemma FilterStep(nodes: seq<Record>, i: nat, borders: seq<Option<Record>>, keep: bool)
    requires i < |nodes| && |borders| == 4
    ensures Filter(nodes[..i + 1], borders, keep) ==
            Filter(nodes[..i], borders, keep) + if Inside(borders, nodes[i].value) == keep then [nodes[i]] else []
  {
    assert nodes[..i + 1][..i] == nodes[..i];
  }

  // ----- runs of offers -----

  predicate Wide(offers: seq<Record>, level: nat) {
    forall r :: r in offers ==> level < |r.bits|
  }

  /** The state after a whole sequence of offers. */
  function Run(v: RangeView, offers: seq<Record>): (w: RangeView)
    requires v.Valid() && Wide(offers, v.level)
    ensures w.Valid() && w.level == v.level && w.bits == v.bits && w.value == v.value
  {
    if offers == [] then v
    else Updated(Run(v, offers[..|offers| - 1]), offers[|offers| - 1])
  }

  predicate LeftSide(i: nat) { i % 2 == 0 }

  /** The records that border i looks at: same prefix, the right next bit, the right side. */
  predicate InClass(v: RangeView, r: Record, i: nat)
    requires v.level <= |v.bits| && v.level < |r.bits|
  {
    && v.bits[..v.level] == r.bits[..v.level]
    && (r.bits[v.level] == '0') == (i < 2)
    && (if LeftSide(i) then r.value < v.value else r.value > v.value)
  }

  /** The id that cannot be told from an unset border. */
  function Sentinel(i: nat): Id {
    if LeftSide(i) then 0 else MAX_UINT32
  }

  predicate CloserOrEqual(i: nat, a: Id, b: Id) {
    if LeftSide(i) then b <= a else a <= b
  }

  /** Border b is the closest of the offered records of class i, the excluded id left aside. */
  ghost predicate Nearest(v: RangeView, offers: seq<Record>, i: nat, b: Option<Record>, excluded: Option<Id>)
    requires v.level <= |v.bits| && Wide(offers, v.level)
  {
    match b
    case None => forall q :: q in offers && InClass(v, q, i) ==> Some(q.value) == excluded
    case Some(r) =>
      && r in offers && InClass(v, r, i) && Some(r.value) != excluded
      && forall q :: q in offers && InClass(v, q, i) && Some(q.value) != excluded ==> CloserOrEqual(i, r.value, q.value)
  }

  lemma {:induction false} BordersNearestBarSentinel(v: RangeView, offers: seq<Record>, i: nat)
    requires v == InitRange(v.value, v.bits, v.level) && v.Valid() && Wide(offers, v.level) && i < 4
    ensures Nearest(v, offers, i, Run(v, offers).borders[i], Some(Sentinel(i)))
  {
    if offers != [] {
      var init, r := offers[..|offers| - 1], offers[|offers| - 1];
      assert offers == init + [r];
      forall k: nat | k < 4 ensures Nearest(v, init, k, Run(v, init).borders[k], Some(Sentinel(k))) {
        BordersNearestBarSentinel(v, init, k);
      }
      var w := Run(v, init);
      assert forall q :: q in offers <==> q in init || q == r;
      OneOffer(v, w, init, r, i);
    }
  }

  /** An offer keeps all borders nearest: what is rejected was farther than a set border of its side. */
  lemma OneOffer(v: RangeView, w: RangeView, init: seq<Record>, r: Record, i: nat)
    requires v.Valid() && w.Valid() && w.level == v.level && w.bits == v.bits && w.value == v.value
    requires Wide(init + [r], v.level) && Wide(init, v.level) && i < 4
    requires forall k: nat :: k < 4 ==> Nearest(v, init, k, w.borders[k], Some(Sentinel(k)))
    ensures Nearest(v, init + [r], i, Updated(w, r).borders[i], Some(Sentinel(i)))
  {
    assert r in init + [r];
    assert forall q :: q in init + [r] <==> q in init || q == r;
    assert Nearest(v, init, i, w.borders[i], Some(Sentinel(i)));
    BorderMoves(w, r, i);
    if InClass(v, r, i) && Rejected(w, r) {
      var side := if LeftSide(i) then 0 else 1;
      assert Nearest(v, init, side, w.borders[side], Some(Sentinel(side)));
      assert Nearest(v, init, side + 2, w.borders[side + 2], Some(Sentinel(side + 2)));
    }
  }

  /** How border i answers an offer. */
  lemma BorderMoves(w: RangeView, r: Record, i: nat)
    requires w.Valid() && w.level < |r.bits| && i < 4
    ensures var b, c := w.borders[i], Updated(w, r).borders[i];
            if InClass(w, r, i) && !Rejected(w, r) && r.value != Sentinel(i) && (b.None? || !CloserOrEqual(i, b.value.value, r.value))
            then c == Some(r) else c == b || (c == Some(r) && InClass(w, r, i) && b.None?)
    ensures Updated(w, r).borders[i] != w.borders[i] ==> r.value != Sentinel(i)
  {
  }

  /** The only offers of class i carry the id that stands for "unset". */
  ghost predicate OnlySentinel(v: RangeView, offers: seq<Record>, i: nat)
    requires v.level <= |v.bits| && Wide(offers, v.level)
  {
    && (exists q :: q in offers && InClass(v, q, i))
    && forall q :: q in offers && InClass(v, q, i) ==> q.value == Sentinel(i)
  }

  /**
   Main result: after any offers, border i is the true nearest offered record
   of its class, except exactly when that class was offered the reserved id alone.
   */
  lemma BordersAreNearest(v: RangeView, offers: seq<Record>, i: nat)
    requires v == InitRange(v.value, v.bits, v.level) && v.Valid() && Wide(offers, v.level) && i < 4
    ensures Nearest(v, offers, i, Run(v, offers).borders[i], None) <==> !OnlySentinel(v, offers, i)
  {
    BordersNearestBarSentinel(v, offers, i);
    var b := Run(v, offers).borders[i];
    if OnlySentinel(v, offers, i) {
      var q :| q in offers && InClass(v, q, i);
      assert b.None?;
    } else if b.Some? {
      forall q | q in offers && InClass(v, q, i) ensures CloserOrEqual(i, b.value.value, q.value) {}
    }
  }

  // ----- what a range keeps -----

  ghost predicate DistinctValues(held: seq<Record>) {
    forall i, j :: 0 <= i < j < |held| ==> held[i].value != held[j].value
  }

  /** Kept records: one per value, never the node itself, same prefix, between the borders; borders are kept. */
  ghost predicate Tidy(v: RangeView) {
    && v.Valid() && DistinctValues(v.held)
    && (forall x :: x in v.held ==> x.value != v.value && Inside(v.borders, x.value))
    && (forall x :: x in v.held ==> v.level < |x.bits| && x.bits[..v.level] == v.bits[..v.level])
    && (forall i :: 0 <= i < 4 && v.borders[i].Some? ==>
          Holds(v, v.borders[i].value.value) && SideOk(v, i))
  }

  ghost predicate SideOk(v: RangeView, i: nat)
    requires i < |v.borders| && v.borders[i].Some?
  {
    var b := v.borders[i].value.value;
    if LeftSide(i) then 0 < b < v.value else v.value < b < MAX_UINT32
  }

  lemma {:induction false} FilterDistinct(held: seq<Record>, borders: seq<Option<Record>>, keep: bool)
    requires |borders| == 4 && DistinctValues(held)
    ensures DistinctValues(Filter(held, borders, keep))
  {
    if held != [] {
      var init, last := held[..|held| - 1], held[|held| - 1];
      FilterDistinct(init, borders, keep);
      forall x | x in Filter(init, borders, keep) ensures x.value != last.value {
        var i :| 0 <= i < |init| && init[i] == x;
        assert held[i] == x;
      }
    }
  }

  lemma HoldsFiltered(held: seq<Record>, borders: seq<Option<Record>>, keep: bool, x: Id)
    requires |borders| == 4
    ensures HoldsIn(Filter(held, borders, keep), x) <==> HoldsIn(held, x) && Inside(borders, x) == keep
  {
    var f := Filter(held, borders, keep);
    if HoldsIn(f, x) {
      var i :| 0 <= i < |f| && f[i].value == x;
      assert f[i] in held;
    }
    if HoldsIn(held, x) && Inside(borders, x) == keep {
      var i :| 0 <= i < |held| && held[i].value == x;
      assert held[i] in f;
    }
  }

  lemma AdmittedHeld(v: RangeView, r: Record)
    requires Tidy(v) && v.level < |r.bits|
    ensures var w := Admitted(v, r);
            && DistinctValues(w.held)
            && (forall x :: x in w.held ==> x.value != w.value && w.level < |x.bits| && x.bits[..w.level] == w.bits[..w.level])
            && (forall x: Id :: Holds(w, x) <==> Holds(v, x) || (x == r.value && !Rejected(v, r) && x != v.value))
  {
    var w := Admitted(v, r);
    if !Rejected(v, r) && r.value != v.value && !Holds(v, r.value) {
      assert w.held == v.held + [r];
      assert w.held[|v.held|] == r;
      forall x: Id ensures Holds(w, x) <==> Holds(v, x) || x == r.value {
        if Holds(v, x) {
          var i :| 0 <= i < |v.held| && v.held[i].value == x;
          assert w.held[i].value == x;
        }
      }
    } else if !Rejected(v, r) && r.value != v.value {
      assert w.held == v.held;
    }
  }

  lemma AdmittedBorders(v: RangeView, r: Record)
    requires Tidy(v) && v.level < |r.bits|
    ensures var w := Admitted(v, r);
            forall i: nat :: i < 4 && w.borders[i].Some? ==>
              Holds(w, w.borders[i].value.value) && SideOk(w, i) && Inside(w.borders, w.borders[i].value.value)
  {
    var w := Admitted(v, r);
    forall i: nat | i < 4 && w.borders[i].Some? ensures Holds(w, w.borders[i].value.value) && SideOk(w, i) {
      AdmittedBorder(v, r, i);
    }
    BordersInside(w);
  }

  lemma AdmittedBorder(v: RangeView, r: Record, i: nat)
    requires Tidy(v) && v.level < |r.bits| && i < 4
    ensures var w := Admitted(v, r);
            w.borders[i].Some? ==> Holds(w, w.borders[i].value.value) && SideOk(w, i)
  {
    AdmittedHeld(v, r);
    var w := Admitted(v, r);
    if w.borders[i] == v.borders[i] {
      assert v.borders[i].Some? ==> SideOk(v, i) && Holds(v, v.borders[i].value.value);
    } else {
      assert w.borders[i] == Some(r) && !Rejected(v, r) && r.value != v.value;
      assert Holds(w, r.value);
    }
  }

  lemma BordersInside(w: RangeView)
    requires w.Valid() && forall i: nat :: i < 4 && w.borders[i].Some? ==> SideOk(w, i)
    ensures forall i: nat :: i < 4 && w.borders[i].Some? ==> Inside(w.borders, w.borders[i].value.value)
  {
    assert w.borders[0].Some? ==> SideOk(w, 0);
    assert w.borders[1].Some? ==> SideOk(w, 1);
    assert w.borders[2].Some? ==> SideOk(w, 2);
    assert w.borders[3].Some? ==> SideOk(w, 3);
    var low, high := Low(w.borders), High(w.borders);
    assert low <= w.value && high >= w.value;
    assert w.borders[0].Some? ==> low <= w.borders[0].value.value;
    assert w.borders[2].Some? ==> low <= w.borders[2].value.value;
    assert w.borders[1].Some? ==> high >= w.borders[1].value.value;
    assert w.borders[3].Some? ==> high >= w.borders[3].value.value;
  }

  /** Every offer, from the empty range on, leaves a range tidy. */
  lemma UpdateKeepsTidy(v: RangeView, r: Record)
    requires Tidy(v) && v.level < |r.bits|
    ensures Tidy(Updated(v, r))
  {
    AdmittedHeld(v, r);
    AdmittedBorders(v, r);
    var w := Admitted(v, r);
    FilterDistinct(w.held, w.borders, true);
    var u := Updated(v, r);
    assert forall x :: x in u.held ==> x in w.held && Inside(w.borders, x.value);
    forall i | 0 <= i < 4 && u.borders[i].Some? ensures Holds(u, u.borders[i].value.value) && SideOk(u, i) {
      assert Holds(w, w.borders[i].value.value) && SideOk(w, i);
      HoldsFiltered(w.held, w.borders, true, w.borders[i].value.value);
    }
  }

  lemma {:induction false} RunsStayTidy(v: RangeView, offers: seq<Record>)
    requires v == InitRange(v.value, v.bits, v.level) && v.Valid() && Wide(offers, v.level)
    ensures Tidy(Run(v, offers))
  {
    if offers != [] {
      RunsStayTidy(v, offers[..|offers| - 1]);
      UpdateKeepsTidy(Run(v, offers[..|offers| - 1]), offers[|offers| - 1]);
    }
  }

  /** Border i is set, and x is on the near side of it. */
  predicate Reaches(v: RangeView, i: nat, x: Id)
    requires v.Valid() && i < 4
  {
    v.borders[i].Some? && if LeftSide(i) then v.borders[i].value.value <= x else x <= v.borders[i].value.value
  }

  /** One side leaves x in: no border there, or one that x is not beyond. */
  predicate LetsIn(v: RangeView, i: nat, j: nat, x: Id)
    requires v.Valid() && i < 4 && j < 4
  {
    (v.borders[i].None? && v.borders[j].None?) || Reaches(v, i, x) || Reaches(v, j, x)
  }

  /** Both borders of one side are set, and x is beyond them. */
  predicate Beyond(v: RangeView, i: nat, j: nat, x: Id)
    requires v.Valid() && i < 4 && j < 4
  {
    v.borders[i].Some? && v.borders[j].Some? && !Reaches(v, i, x) && !Reaches(v, j, x)
  }

  /** What is taken in: the prefix matches, and the value is not beyond both borders of a side. */
  predicate Welcome(v: RangeView, r: Record)
    requires v.Valid() && v.level < |r.bits|
  {
    v.bits[..v.level] == r.bits[..v.level] && !Beyond(v, 0, 2, r.value) && !Beyond(v, 1, 3, r.value)
  }

  lemma WelcomeIsAdmitted(v: RangeView, r: Record)
    requires Tidy(v) && v.level < |r.bits|
    ensures Welcome(v, r) <==> !Rejected(v, r)
  {
    assert forall i: nat :: i < 4 && v.borders[i].Some? ==> SideOk(v, i);
  }

  lemma InsideIsLetIn(v: RangeView, x: Id)
    requires v.Valid() && forall i: nat :: i < 4 && v.borders[i].Some? ==> SideOk(v, i)
    ensures Inside(v.borders, x) <==> LetsIn(v, 0, 2, x) && LetsIn(v, 1, 3, x)
  {
    assert v.borders[0].Some? ==> SideOk(v, 0);
    assert v.borders[1].Some? ==> SideOk(v, 1);
    assert v.borders[2].Some? ==> SideOk(v, 2);
    assert v.borders[3].Some? ==> SideOk(v, 3);
  }

  lemma HoldsUpdated(v: RangeView, r: Record, x: Id)
    requires Tidy(v) && v.level < |r.bits|
    ensures var u := Updated(v, r);
            && (Holds(u, x) <==> Holds(Admitted(v, r), x) && Inside(u.borders, x))
            && forall i: nat :: i < 4 && u.borders[i].Some? ==> SideOk(u, i)
  {
    AdmittedBorders(v, r);
    HoldsFiltered(Admitted(v, r).held, Admitted(v, r).borders, true, x);
  }

  /**
   What must be kept: after an offer a value is held exactly if it was held, or
   is that of a welcome offer, and each side of the new borders lets it in.
   */
  lemma KeepsExactly(v: RangeView, r: Record, x: Id)
    requires Tidy(v) && v.level < |r.bits| && r.value != v.value
    ensures var u := Updated(v, r);
            Holds(u, x) <==> (Holds(v, x) || (x == r.value && Welcome(v, r))) && LetsIn(u, 0, 2, x) && LetsIn(u, 1, 3, x)
  {
    AdmittedHeld(v, r);
    WelcomeIsAdmitted(v, r);
    HoldsUpdated(v, r, x);
    InsideIsLetIn(Updated(v, r), x);
  }

  // ----- what a range drops -----

  function Occurrences(dropped: seq<Record>, x: Id): nat {
    if dropped == [] then 0
    else Occurrences(dropped[..|dropped| - 1], x) + (if dropped[|dropped| - 1].value == x then 1 else 0)
  }

  lemma {:induction false} OccurrencesDistinct(s: seq<Record>, x: Id)
    requires DistinctValues(s)
    ensures Occurrences(s, x) == if HoldsIn(s, x) then 1 else 0
  {
    if s != [] {
      var init, last := s[..|s| - 1], s[|s| - 1];
      OccurrencesDistinct(init, x);
      if HoldsIn(s, x) && last.value != x {
        var i :| 0 <= i < |s| && s[i].value == x;
        assert init[i].value == x;
      }
      if HoldsIn(init, x) {
        var i :| 0 <= i < |init| && init[i].value == x;
        assert s[i].value == x;
      }
    }
  }

  lemma {:induction false} OccurrencesConcat(a: seq<Record>, b: seq<Record>, x: Id)
    ensures Occurrences(a + b, x) == Occurrences(a, x) + Occurrences(b, x)
  {
    if b == [] {
      assert a + b == a;
    } else {
      OccurrencesConcat(a, b[..|b| - 1], x);
      assert (a + b)[..|a + b| - 1] == a + b[..|b| - 1];
    }
  }

  /** A record kept with the value of the offer carries the bits of the offer. */
  ghost predicate SameBits(v: RangeView, r: Record) {
    forall x :: x in v.held && x.value == r.value ==> x.bits == r.bits
  }

  /**
   Exactly once: an offer makes the range drop precisely the values it held, or
   was just offered, and holds no longer - each a single time.
   */
  lemma DropsExactly(v: RangeView, r: Record, x: Id)
    requires Tidy(v) && v.level < |r.bits| && SameBits(v, r) && r.value != v.value
    ensures Occurrences(Drops(v, r), x) ==
            if (Holds(v, x) || x == r.value) && !Holds(Updated(v, r), x) then 1 else 0
    ensures Holds(Updated(v, r), x) ==> Holds(v, x) || x == r.value
  {
    AdmittedHeld(v, r);
    var w := Admitted(v, r);
    var gone := Filter(w.held, w.borders, false);
    HoldsFiltered(w.held, w.borders, true, x);
    HoldsFiltered(w.held, w.borders, false, x);
    FilterDistinct(w.held, w.borders, false);
    OccurrencesDistinct(gone, x);
    var head := if Rejected(v, r) then [r] else [];
    OccurrencesConcat(head, gone, x);
    assert Occurrences([r], x) == if r.value == x then 1 else 0 by {
      assert [r][..0] == [];
    }
  }

  /** The node's own record is neither kept nor dropped by its own ranges. */
  lemma OwnRecordIsIgnored(v: RangeView, r: Record)
    requires Tidy(v) && v.level < |r.bits| && r.value == v.value && r.bits == v.bits
    ensures Updated(v, r).held == v.held && Drops(v, r) == []
  {
    assert !Rejected(v, r) by {
      assert v.borders[0].Some? ==> SideOk(v, 0);
      assert v.borders[1].Some? ==> SideOk(v, 1);
      assert v.borders[2].Some? ==> SideOk(v, 2);
      assert v.borders[3].Some? ==> SideOk(v, 3);
    }
    FilterAllInside(v.held, v.borders);
  }

  lemma {:induction false} FilterAllInside(held: seq<Record>, borders: seq<Option<Record>>)
    requires |borders| == 4 && forall x :: x in held ==> Inside(borders, x.value)
    ensures Filter(held, borders, true) == held && Filter(held, borders, false) == []
  {
    if held != [] {
      assert held == held[..|held| - 1] + [held[|held| - 1]];
      FilterAllInside(held[..|held| - 1], borders);
    }
  }
}
