/**
 A skip-graph node: one range per level and a reference-counted index of the
 records that some range keeps.
 */
module SkipGraphNode {
  import opened Shared
  import opened SkipGraphRange

  /** count is a uint8 in the program. */
  datatype LinCount = LinCount(rec: Record, count: nat)

  const MAX_LEVELS: nat := 255

  datatype NodeView = NodeView(value: Id, bits: string, ranges: seq<RangeView>, connected: seq<LinCount>)
  {
    ghost predicate Valid() {
      && |ranges| <= |bits| && |ranges| <= MAX_LEVELS
      && forall i :: 0 <= i < |ranges| ==>
           ranges[i].Valid() && ranges[i].level == i && ranges[i].value == value && ranges[i].bits == bits
    }
  }

  function InitNode(value: Id, bits: string): NodeView {
    NodeView(value, bits, seq(|bits|, i requires 0 <= i < |bits| => InitRange(value, bits, i)), [])
  }

  // ----- what one offer does to the index -----

  /** The ranges are well formed and the record reaches all their levels. */
  ghost predicate Fits(ranges: seq<RangeView>, r: Record) {
    forall i :: 0 <= i < |ranges| ==> ranges[i].Valid() && ranges[i].level < |r.bits|
  }

  ghost predicate Known(conn: seq<LinCount>, d: Record) {
    exists i :: 0 <= i < |conn| && conn[i].rec == d
  }

  predicate Lists(conn: seq<LinCount>, x: Id) {
    exists i :: 0 <= i < |conn| && conn[i].rec.value == x
  }

  /** The record is known with a full count: one for each level. */
  function Enlist(conn: seq<LinCount>, r: Record, levels: nat): (c: seq<LinCount>)
    ensures |c| == if Lists(conn, r.value) then |conn| else |conn| + 1
    ensures forall i :: 0 <= i < |conn| ==>
              c[i] == if conn[i].rec.value == r.value then conn[i].(count := levels) else conn[i]
    ensures !Lists(conn, r.value) ==> c[|conn|] == LinCount(r, levels)
  {
    var reset := seq(|conn|, i requires 0 <= i < |conn| =>
                       if conn[i].rec.value == r.value then conn[i].(count := levels) else conn[i]);
    if Lists(conn, r.value) then reset else reset + [LinCount(r, levels)]
  }

  function Minus(count: nat, n: nat): nat {
    if count >= n then count - n else 0
  }

  /** One drop of value x: every entry with that value loses one, never below zero. */
  function Discount(conn: seq<LinCount>, x: Id): (c: seq<LinCount>)
    ensures |c| == |conn|
    ensures forall i :: 0 <= i < |conn| ==>
              c[i] == if conn[i].rec.value == x then conn[i].(count := Minus(conn[i].count, 1)) else conn[i]
  {
    seq(|conn|, i requires 0 <= i < |conn| =>
          if conn[i].rec.value == x then conn[i].(count := Minus(conn[i].count, 1)) else conn[i])
  }

  function DiscountAll(conn: seq<LinCount>, dropped: seq<Record>): (c: seq<LinCount>)
    ensures |c| == |conn|
  {
    if dropped == [] then conn
    else Discount(DiscountAll(conn, dropped[..|dropped| - 1]), dropped[|dropped| - 1].value)
  }

  function DiscountRanges(conn: seq<LinCount>, ranges: seq<RangeView>, r: Record): (c: seq<LinCount>)
    requires Fits(ranges, r)
    ensures |c| == |conn|
  {
    if ranges == [] then conn
    else DiscountAll(DiscountRanges(conn, ranges[..|ranges| - 1], r), Drops(ranges[|ranges| - 1], r))
  }

  function UpdatedRanges(ranges: seq<RangeView>, r: Record): (u: seq<RangeView>)
    requires Fits(ranges, r)
    ensures |u| == |ranges|
    ensures forall i :: 0 <= i < |ranges| ==> u[i] == Updated(ranges[i], r)
  {
    seq(|ranges|, i requires 0 <= i < |ranges| => Updated(ranges[i], r))
  }

  function Remaining(conn: seq<LinCount>): seq<LinCount> {
    if conn == [] then []
    else Remaining(conn[..|conn| - 1]) + if conn[|conn| - 1].count == 0 then [] else [conn[|conn| - 1]]
  }

  function Released(conn: seq<LinCount>): seq<Record> {
    if conn == [] then []
    else Released(conn[..|conn| - 1]) + if conn[|conn| - 1].count == 0 then [conn[|conn| - 1].rec] else []
  }

  function Recounted(n: NodeView, r: Record): seq<LinCount>
    requires n.Valid() && |n.ranges| <= |r.bits|
  {
    DiscountRanges(Enlist(n.connected, r, |n.ranges|), n.ranges, r)
  }

  function Offered(n: NodeView, r: Record): (m: NodeView)
    requires n.Valid() && |n.ranges| <= |r.bits|
    ensures m.Valid() && m.value == n.value && m.bits == n.bits && |m.ranges| == |n.ranges|
  {
    n.(ranges := UpdatedRanges(n.ranges, r), connected := Remaining(Recounted(n, r)))
  }

  /** The records a node passes on after an offer. */
  function HandedOn(n: NodeView, r: Record): seq<Record>
    requires n.Valid() && |n.ranges| <= |r.bits|
  {
    Released(Recounted(n, r))
  }

  ghost predicate Distinct(ranges: seq<LevelRange>) {
    forall i, j :: 0 <= i < |ranges| && 0 <= j < |ranges| && i != j ==> ranges[i] != ranges[j]
  }

  lemma FitsLevels(n: NodeView, r: Record)
    requires n.Valid() && |n.ranges| <= |r.bits|
    ensures Fits(n.ranges, r)
  {
  }

  class Node {
    const value: Id
    const bitstring: string
    const ranges: seq<LevelRange>
    var nodesConnected: seq<LinCount>
    var changedSinceTimeout: bool

    ghost predicate Valid()
      reads this, ranges
    {
      && Distinct(ranges)
      && View().Valid()
    }

    ghost function Views(): (s: seq<RangeView>)
      reads ranges
      ensures |s| == |ranges| && forall i :: 0 <= i < |ranges| ==> s[i] == ranges[i].View()
    {
      seq(|ranges|, i requires 0 <= i < |ranges| reads ranges => ranges[i].View())
    }

    ghost function View(): NodeView
      reads this, ranges
    {
      NodeView(value, bitstring, Views(), nodesConnected)
    }

    constructor (v: Id, bits: string)
      requires |bits| <= MAX_LEVELS
      ensures Valid() && View() == InitNode(v, bits) && fresh(ranges)
    {
      var rs: seq<LevelRange> := [];
      for d := 0 to |bits|
        invariant |rs| == d
        invariant forall i :: 0 <= i < d ==> fresh(rs[i]) && rs[i].View() == InitRange(v, bits, i)
        invariant Distinct(rs)
      {
        var lr := new LevelRange(v, bits, d);
        rs := rs + [lr];
      }
      value, bitstring, ranges := v, bits, rs;
      nodesConnected, changedSinceTimeout := [], false;
      new;
      assert View().ranges == InitNode(v, bits).ranges;
    }

    /** Takes in an offered record; the result is what has to be handed on. */
    method UpdateRangesOfNode(r: Record) returns (droppedList: seq<Record>)
      requires Valid() && |ranges| <= |r.bits|
      modifies this, ranges
      ensures Valid() && View() == Offered(old(View()), r)
      ensures droppedList == HandedOn(old(View()), r)
      ensures changedSinceTimeout == (old(changedSinceTimeout) || droppedList != [] || !Lists(old(nodesConnected), r.value))
    {
      ghost var n := View();
      var inList, newNodesConnected;
      droppedList, newNodesConnected, inList := TakeIn(ranges, n, r, nodesConnected);
      assert Views() == UpdatedRanges(n.ranges, r);
      nodesConnected := newNodesConnected;
      if |droppedList| > 0 || !inList {
        changedSinceTimeout := true;
      }
    }
  }

  /** The three loops of an offer: over the index, over the levels, and over the index again. */
  method TakeIn(ranges: seq<LevelRange>, ghost n: NodeView, r: Record, conn0: seq<LinCount>)
    returns (droppedList: seq<Record>, conn: seq<LinCount>, inList: bool)
    requires Distinct(ranges) && n.Valid() && conn0 == n.connected && |ranges| == |n.ranges| <= |r.bits|
    requires forall i :: 0 <= i < |ranges| ==> ranges[i].View() == n.ranges[i]
    modifies ranges
    ensures forall i :: 0 <= i < |ranges| ==> ranges[i].View() == UpdatedRanges(n.ranges, r)[i]
    ensures droppedList == HandedOn(n, r) && conn == Remaining(Recounted(n, r)) && inList == Lists(n.connected, r.value)
  {
    FitsLevels(n, r);
    inList, conn := Admit(conn0, r, |ranges|);
    conn := UpdateLevels(ranges, n.ranges, UpdatedRanges(n.ranges, r), r, conn);
    droppedList, conn := Split(conn);
  }

  /** The loop over the levels: each drop of a range costs the record one reference. */
  method UpdateLevels(ranges: seq<LevelRange>, ghost views: seq<RangeView>, ghost after: seq<RangeView>,
                      r: Record, conn0: seq<LinCount>)
    returns (conn: seq<LinCount>)
    requires Distinct(ranges)
    requires |views| == |after| == |ranges| && forall i :: 0 <= i < |ranges| ==> ranges[i].View() == views[i]
    requires Fits(views, r) && after == UpdatedRanges(views, r)
    modifies ranges
    ensures forall i :: 0 <= i < |ranges| ==> ranges[i].View() == after[i]
    ensures conn == DiscountRanges(conn0, views, r)
  {
    conn := conn0;
    for k := 0 to |ranges|
      invariant forall i :: 0 <= i < k ==> ranges[i].View() == after[i]
      invariant forall i :: k <= i < |ranges| ==> ranges[i].View() == views[i]
      invariant conn == DiscountRanges(conn0, views[..k], r)
    {
      DiscountStep(conn0, views, r, k);
      conn := UpdateLevel(ranges[k], views[k], after[k], r, conn);
    }
    assert views[..|views|] == views;
  }

  lemma DiscountStep(conn: seq<LinCount>, views: seq<RangeView>, r: Record, k: nat)
    requires Fits(views, r) && k < |views|
    ensures Fits(views[..k], r) && Fits(views[..k + 1], r) && views[k].Valid() && views[k].level < |r.bits|
    ensures DiscountRanges(conn, views[..k + 1], r) ==
            DiscountAll(DiscountRanges(conn, views[..k], r), Drops(views[k], r))
  {
    assert views[..k + 1][..k] == views[..k];
  }

  /** One level: the range takes the offer, the index pays for its drops. */
  method UpdateLevel(lr: LevelRange, ghost v: RangeView, ghost w: RangeView, r: Record, conn0: seq<LinCount>)
    returns (conn: seq<LinCount>)
    requires lr.View() == v && v.Valid() && v.level < |r.bits| && w == Updated(v, r)
    modifies lr
    ensures lr.View() == w && conn == DiscountAll(conn0, Drops(v, r))
  {
    var droppedListRange := lr.UpdateRange(r);
    conn := Settle(conn0, droppedListRange);
  }

  /** The first loop of an offer: a known record gets its full count back, a new one is appended. */
  method Admit(conn0: seq<LinCount>, r: Record, levels: nat) returns (inList: bool, conn: seq<LinCount>)
    ensures inList == Lists(conn0, r.value) && conn == Enlist(conn0, r, levels)
  {
    inList, conn := false, conn0;
    for i := 0 to |conn0|
      invariant |conn| == |conn0|
      invariant inList == exists j :: 0 <= j < i && conn0[j].rec.value == r.value
      invariant forall j :: 0 <= j < |conn| ==>
                  conn[j] == if j < i && conn0[j].rec.value == r.value then conn0[j].(count := levels) else conn0[j]
    {
      if conn[i].rec.value == r.value {
        inList := true;
        conn := conn[i := conn[i].(count := levels)];
      }
    }
    if !inList {
      conn := conn + [LinCount(r, levels)];
    }
    assert conn == Enlist(conn0, r, levels);
  }

  /** The last loop of an offer: zero counts are released, the others stay. */
  method Split(conn: seq<LinCount>) returns (droppedList: seq<Record>, rest: seq<LinCount>)
    ensures droppedList == Released(conn) && rest == Remaining(conn)
  {
    droppedList, rest := [], [];
    for i := 0 to |conn|
      invariant droppedList == Released(conn[..i]) && rest == Remaining(conn[..i])
    {
      assert conn[..i + 1][..i] == conn[..i];
      if conn[i].count == 0 {
        droppedList := droppedList + [conn[i].rec];
      } else {
        rest := rest + [conn[i]];
      }
    }
    assert conn[..|conn|] == conn;
  }

  /** The two inner loops of the level loop. */
  method Settle(conn0: seq<LinCount>, dropped: seq<Record>) returns (conn: seq<LinCount>)
    ensures conn == DiscountAll(conn0, dropped)
  {
    conn := conn0;
    for d := 0 to |dropped|
      invariant conn == DiscountAll(conn0, dropped[..d])
    {
      var before := conn;
      var x := dropped[d].value;
      for i := 0 to |conn|
        invariant |conn| == |before|
        invariant forall j :: 0 <= j < i ==> conn[j] == Discount(before, x)[j]
        invariant forall j :: i <= j < |conn| ==> conn[j] == before[j]
      {
        if conn[i].rec.value == x {
          if conn[i].count > 0 {
            conn := conn[i := conn[i].(count := conn[i].count - 1)];
          }
        }
      }
      assert conn == Discount(before, x);
      assert dropped[..d + 1][..d] == dropped[..d];
    }
    assert dropped[..|dropped|] == dropped;
  }

  // ----- the index agrees with the ranges -----

  /** The number of levels that keep value x. */
  function Holders(ranges: seq<RangeView>, x: Id): nat {
    if ranges == [] then 0
    else Holders(ranges[..|ranges| - 1], x) + if Holds(ranges[|ranges| - 1], x) then 1 else 0
  }

  /** Each entry counts the levels that keep its value, and exactly the kept values have an entry. */
  ghost predicate IndexExact(n: NodeView) {
    && (forall i, j :: 0 <= i < j < |n.connected| ==> n.connected[i].rec.value != n.connected[j].rec.value)
    && (forall i :: 0 <= i < |n.connected| ==>
          n.connected[i].count == Holders(n.ranges, n.connected[i].rec.value) > 0)
    && (forall x: Id :: Holders(n.ranges, x) > 0 ==> Lists(n.connected, x))
  }

  /** Every record of the node carries the bits that belong to its id. */
  ghost predicate Consistent(n: NodeView, bitsOf: Id -> string) {
    && n.bits == bitsOf(n.value)
    && (forall i, x :: 0 <= i < |n.ranges| && x in n.ranges[i].held ==> x.bits == bitsOf(x.value))
    && (forall i :: 0 <= i < |n.connected| ==> n.connected[i].rec.bits == bitsOf(n.connected[i].rec.value))
  }

  ghost predicate AllTidy(n: NodeView) {
    n.Valid() && forall i :: 0 <= i < |n.ranges| ==> Tidy(n.ranges[i])
  }

  function DropCount(ranges: seq<RangeView>, r: Record, x: Id): nat
    requires Fits(ranges, r)
  {
    if ranges == [] then 0
    else DropCount(ranges[..|ranges| - 1], r, x) + Occurrences(Drops(ranges[|ranges| - 1], r), x)
  }

  lemma {:induction false} DiscountAllEntry(conn: seq<LinCount>, dropped: seq<Record>, i: nat)
    requires i < |conn|
    ensures DiscountAll(conn, dropped)[i] ==
            conn[i].(count := Minus(conn[i].count, Occurrences(dropped, conn[i].rec.value)))
  {
    if dropped != [] {
      DiscountAllEntry(conn, dropped[..|dropped| - 1], i);
    }
  }

  lemma {:induction false} DiscountRangesEntry(conn: seq<LinCount>, ranges: seq<RangeView>, r: Record, i: nat)
    requires i < |conn| && Fits(ranges, r)
    ensures DiscountRanges(conn, ranges, r)[i] ==
            conn[i].(count := Minus(conn[i].count, DropCount(ranges, r, conn[i].rec.value)))
  {
    if ranges != [] {
      var init := ranges[..|ranges| - 1];
      DiscountRangesEntry(conn, init, r, i);
      DiscountAllEntry(DiscountRanges(conn, init, r), Drops(ranges[|ranges| - 1], r), i);
    }
  }

  /** What the levels drop of a value is what they kept (or were offered) and keep no longer. */
  lemma {:induction false} DropsBalance(ranges: seq<RangeView>, r: Record, x: Id)
    requires Fits(ranges, r)
    requires forall i :: 0 <= i < |ranges| ==> Tidy(ranges[i]) && SameBits(ranges[i], r) && r.value != ranges[i].value
    ensures DropCount(ranges, r, x) + Holders(UpdatedRanges(ranges, r), x) ==
            if x == r.value then |ranges| else Holders(ranges, x)
  {
    if ranges != [] {
      var init, v := ranges[..|ranges| - 1], ranges[|ranges| - 1];
      DropsBalance(init, r, x);
      DropsExactly(v, r, x);
      assert UpdatedRanges(ranges, r)[..|ranges| - 1] == UpdatedRanges(init, r);
    }
  }

  lemma {:induction false} HoldersBound(ranges: seq<RangeView>, x: Id)
    ensures Holders(ranges, x) <= |ranges|
    ensures Holders(ranges, x) > 0 <==> exists i :: 0 <= i < |ranges| && Holds(ranges[i], x)
  {
    if ranges != [] {
      var init := ranges[..|ranges| - 1];
      HoldersBound(init, x);
      if i :| 0 <= i < |init| && Holds(init[i], x) {
        assert Holds(ranges[i], x);
      }
    }
  }

  lemma {:induction false} ReleasedEntries(conn: seq<LinCount>, d: Record)
    ensures d in Released(conn) <==> exists i :: 0 <= i < |conn| && conn[i].count == 0 && conn[i].rec == d
  {
    if conn != [] {
      var init, last := conn[..|conn| - 1], conn[|conn| - 1];
      ReleasedEntries(init, d);
      assert forall i :: 0 <= i < |init| ==> init[i] == conn[i];
    }
  }

  lemma {:induction false} RemainingEntries(conn: seq<LinCount>)
    requires forall i, j :: 0 <= i < j < |conn| ==> conn[i].rec.value != conn[j].rec.value
    ensures var m := Remaining(conn);
            && (forall i, j :: 0 <= i < j < |m| ==> m[i].rec.value != m[j].rec.value)
            && (forall c :: c in m <==> c in conn && c.count > 0)
  {
    if conn != [] {
      var init, last := conn[..|conn| - 1], conn[|conn| - 1];
      assert conn == init + [last];
      RemainingEntries(init);
      forall c | c in Remaining(init) ensures c.rec.value != last.rec.value {
        var i :| 0 <= i < |init| && init[i] == c;
        assert conn[i] == c;
      }
    }
  }

  ghost predicate Acceptable(n: NodeView, r: Record, bitsOf: Id -> string) {
    && AllTidy(n) && Consistent(n, bitsOf) && r.bits == bitsOf(r.value) && |n.ranges| <= |r.bits|
  }

  lemma OfferKeepsTidy(n: NodeView, r: Record, bitsOf: Id -> string)
    requires Acceptable(n, r, bitsOf)
    ensures AllTidy(Offered(n, r)) && Consistent(Offered(n, r), bitsOf)
  {
    var m := Offered(n, r);
    forall i | 0 <= i < |n.ranges|
      ensures Tidy(m.ranges[i]) && forall x :: x in m.ranges[i].held ==> x.bits == bitsOf(x.value)
    {
      RangeOfferConsistent(n.ranges[i], r, bitsOf);
    }
    forall i | 0 <= i < |m.connected| ensures m.connected[i].rec.bits == bitsOf(m.connected[i].rec.value) {
      RecountedRecords(n, r);
      RemainingSubset(Recounted(n, r));
      assert m.connected[i] in m.connected;
    }
  }

  lemma RangeOfferConsistent(v: RangeView, r: Record, bitsOf: Id -> string)
    requires Tidy(v) && v.level < |r.bits| && r.bits == bitsOf(r.value)
    requires forall x :: x in v.held ==> x.bits == bitsOf(x.value)
    ensures Tidy(Updated(v, r)) && forall x :: x in Updated(v, r).held ==> x.bits == bitsOf(x.value)
  {
    UpdateKeepsTidy(v, r);
    forall x | x in Updated(v, r).held ensures x.bits == bitsOf(x.value) {
      assert x in Admitted(v, r).held;
    }
  }

  lemma RecountedRecords(n: NodeView, r: Record)
    requires n.Valid() && |n.ranges| <= |r.bits|
    ensures forall c :: c in Recounted(n, r) ==> c.rec == r || Known(n.connected, c.rec)
  {
    var e := Enlist(n.connected, r, |n.ranges|);
    forall c | c in Recounted(n, r) ensures c.rec == r || Known(n.connected, c.rec) {
      var i :| 0 <= i < |Recounted(n, r)| && Recounted(n, r)[i] == c;
      DiscountRangesEntry(e, n.ranges, r, i);
    }
  }

  lemma {:induction false} RemainingSubset(conn: seq<LinCount>)
    ensures forall c :: c in Remaining(conn) ==> c in conn
  {
    if conn != [] {
      RemainingSubset(conn[..|conn| - 1]);
    }
  }

  /** After an offer of a foreign record each entry counts the levels that keep its value. */
  lemma RecountedEntry(n: NodeView, r: Record, bitsOf: Id -> string, i: nat)
    requires Acceptable(n, r, bitsOf) && IndexExact(n) && r.value != n.value && i < |Recounted(n, r)|
    ensures var e, p := Enlist(n.connected, r, |n.ranges|), Recounted(n, r);
            |p| == |e| && p[i].rec == e[i].rec && p[i].count == Holders(Offered(n, r).ranges, e[i].rec.value)
  {
    var e := Enlist(n.connected, r, |n.ranges|);
    var x := e[i].rec.value;
    DiscountRangesEntry(e, n.ranges, r, i);
    assert e[i].count == if x == r.value then |n.ranges| else Holders(n.ranges, x);
    assert DropCount(n.ranges, r, x) + Holders(Offered(n, r).ranges, x) == e[i].count by {
      DropsBalance(n.ranges, r, x);
    }
  }

  lemma RecountedDistinct(n: NodeView, r: Record)
    requires n.Valid() && |n.ranges| <= |r.bits|
    requires forall i, j :: 0 <= i < j < |n.connected| ==> n.connected[i].rec.value != n.connected[j].rec.value
    ensures var p := Recounted(n, r);
            forall i, j :: 0 <= i < j < |p| ==> p[i].rec.value != p[j].rec.value
  {
    var e, p := Enlist(n.connected, r, |n.ranges|), Recounted(n, r);
    forall i | 0 <= i < |e| ensures p[i].rec == e[i].rec {
      DiscountRangesEntry(e, n.ranges, r, i);
    }
  }

  /** A foreign offer keeps the index exact, and hands on exactly the known records that no level keeps. */
  lemma OfferKeepsIndex(n: NodeView, r: Record, bitsOf: Id -> string)
    requires Acceptable(n, r, bitsOf) && IndexExact(n) && r.value != n.value
    ensures IndexExact(Offered(n, r))
    ensures forall d :: d in HandedOn(n, r) <==>
              (d == r || Known(n.connected, d)) && Holders(Offered(n, r).ranges, d.value) == 0
  {
    var m, p := Offered(n, r), Recounted(n, r);
    RecountedDistinct(n, r);
    RemainingEntries(p);
    forall i | 0 <= i < |m.connected|
      ensures m.connected[i].count == Holders(m.ranges, m.connected[i].rec.value) > 0
    {
      assert m.connected[i] in p;
      var k :| 0 <= k < |p| && p[k] == m.connected[i];
      RecountedEntry(n, r, bitsOf, k);
    }
    forall x: Id | Holders(m.ranges, x) > 0 ensures Lists(m.connected, x) {
      KeptIsListed(n, r, bitsOf, x);
    }
    forall d ensures d in HandedOn(n, r) <==> (d == r || Known(n.connected, d)) && Holders(m.ranges, d.value) == 0 {
      HandedOnExactly(n, r, bitsOf, d);
    }
  }

  lemma HandedOnExactly(n: NodeView, r: Record, bitsOf: Id -> string, d: Record)
    requires Acceptable(n, r, bitsOf) && IndexExact(n) && r.value != n.value
    ensures d in HandedOn(n, r) <==>
            (d == r || Known(n.connected, d)) && Holders(Offered(n, r).ranges, d.value) == 0
  {
    var e, p := Enlist(n.connected, r, |n.ranges|), Recounted(n, r);
    RecountedDistinct(n, r);
    EnlistRecords(n, r, bitsOf, d);
    ReleasedEntries(p, d);
    forall i | 0 <= i < |p|
      ensures p[i].rec == e[i].rec && p[i].count == Holders(Offered(n, r).ranges, e[i].rec.value)
    {
      RecountedEntry(n, r, bitsOf, i);
    }
    if Known(e, d) {
      var i :| 0 <= i < |e| && e[i].rec == d;
      assert p[i].rec == d;
    }
  }

  lemma KeptIsListed(n: NodeView, r: Record, bitsOf: Id -> string, x: Id)
    requires Acceptable(n, r, bitsOf) && IndexExact(n) && r.value != n.value
    requires Holders(Offered(n, r).ranges, x) > 0
    ensures Lists(Offered(n, r).connected, x)
  {
    var e, p := Enlist(n.connected, r, |n.ranges|), Recounted(n, r);
    DropsBalance(n.ranges, r, x);
    var i :| 0 <= i < |e| && e[i].rec.value == x;
    RecountedEntry(n, r, bitsOf, i);
    KeptEntry(p, i);
    var j :| 0 <= j < |Remaining(p)| && Remaining(p)[j] == p[i];
  }

  lemma EnlistRecords(n: NodeView, r: Record, bitsOf: Id -> string, d: Record)
    requires Acceptable(n, r, bitsOf)
    ensures Known(Enlist(n.connected, r, |n.ranges|), d) <==> d == r || Known(n.connected, d)
  {
    var e := Enlist(n.connected, r, |n.ranges|);
    if Known(n.connected, d) {
      var i :| 0 <= i < |n.connected| && n.connected[i].rec == d;
      assert e[i].rec == d;
    }
    if d == r {
      var i :| 0 <= i < |e| && e[i].rec.value == r.value;
      assert e[i].rec == r;
    }
  }

  // ----- runs -----

  function RunNode(n: NodeView, offers: seq<Record>): (m: NodeView)
    requires n.Valid() && forall r :: r in offers ==> |n.ranges| <= |r.bits|
    ensures m.Valid() && m.value == n.value && m.bits == n.bits && |m.ranges| == |n.ranges|
  {
    if offers == [] then n else Offered(RunNode(n, offers[..|offers| - 1]), offers[|offers| - 1])
  }

  /** Records of one graph: the bits are determined by the id, for the node itself too. */
  ghost predicate OneGraph(value: Id, bits: string, offers: seq<Record>, bitsOf: Id -> string) {
    bitsOf(value) == bits && forall r :: r in offers ==> r.bits == bitsOf(r.value) && |bits| <= |r.bits|
  }

  lemma {:induction false} RunInvariant(value: Id, bits: string, offers: seq<Record>, bitsOf: Id -> string)
    requires |bits| <= MAX_LEVELS && OneGraph(value, bits, offers, bitsOf)
    ensures var m := RunNode(InitNode(value, bits), offers); AllTidy(m) && Consistent(m, bitsOf)
  {
    var n0 := InitNode(value, bits);
    if offers == [] {
      InitTidy(value, bits, bitsOf);
    } else {
      var init, last := offers[..|offers| - 1], offers[|offers| - 1];
      RunInvariant(value, bits, init, bitsOf);
      var m := RunNode(n0, init);
      assert last in offers && Acceptable(m, last, bitsOf);
      OfferKeepsTidy(m, last, bitsOf);
    }
  }

  lemma InitTidy(value: Id, bits: string, bitsOf: Id -> string)
    requires |bits| <= MAX_LEVELS && bitsOf(value) == bits
    ensures AllTidy(InitNode(value, bits)) && Consistent(InitNode(value, bits), bitsOf)
  {
    var n0 := InitNode(value, bits);
    forall i | 0 <= i < |n0.ranges| ensures Tidy(n0.ranges[i]) && n0.ranges[i].held == [] {
      assert n0.ranges[i] == InitRange(value, bits, i);
    }
  }

  lemma {:induction false} InitHolders(value: Id, bits: string, n: nat, x: Id)
    requires n <= |bits|
    ensures Holders(InitNode(value, bits).ranges[..n], x) == 0
  {
    if n > 0 {
      InitHolders(value, bits, n - 1, x);
      assert InitNode(value, bits).ranges[..n][..n - 1] == InitNode(value, bits).ranges[..n - 1];
    }
  }

  lemma {:induction false} ForeignRunsAreExact(value: Id, bits: string, offers: seq<Record>, bitsOf: Id -> string)
    requires |bits| <= MAX_LEVELS && OneGraph(value, bits, offers, bitsOf)
    requires forall r :: r in offers ==> r.value != value
    ensures IndexExact(RunNode(InitNode(value, bits), offers))
  {
    var n0 := InitNode(value, bits);
    if offers == [] {
      forall x: Id ensures Holders(n0.ranges, x) == 0 {
        InitHolders(value, bits, |bits|, x);
        assert n0.ranges[..|bits|] == n0.ranges;
      }
    } else {
      var init := offers[..|offers| - 1];
      ForeignRunsAreExact(value, bits, init, bitsOf);
      RunInvariant(value, bits, init, bitsOf);
      var m, last := RunNode(n0, init), offers[|offers| - 1];
      assert last in offers && Acceptable(m, last, bitsOf);
      OfferKeepsIndex(m, last, bitsOf);
    }
  }

  // Offering a node its own record breaks the index for good.

  ghost predicate OwnListed(n: NodeView) {
    exists i :: 0 <= i < |n.connected| && n.connected[i].rec.value == n.value && n.connected[i].count == |n.ranges|
  }

  lemma {:induction false} NoDropsOfOwn(ranges: seq<RangeView>, r: Record, own: Id)
    requires Fits(ranges, r)
    requires forall i :: 0 <= i < |ranges| ==> Tidy(ranges[i]) && SameBits(ranges[i], r) && ranges[i].value == own
    requires forall i :: 0 <= i < |ranges| && r.value == own ==> r.bits == ranges[i].bits
    ensures DropCount(ranges, r, own) == 0
  {
    if ranges != [] {
      var init, v := ranges[..|ranges| - 1], ranges[|ranges| - 1];
      NoDropsOfOwn(init, r, own);
      assert !Holds(v, own) by {
        forall i | 0 <= i < |v.held| ensures v.held[i].value != own { assert v.held[i] in v.held; }
      }
      if r.value == own {
        OwnRecordIsIgnored(v, r);
      } else {
        DropsExactly(v, r, own);
      }
    }
  }

  lemma OwnStaysListed(n: NodeView, r: Record, bitsOf: Id -> string)
    requires Acceptable(n, r, bitsOf) && (OwnListed(n) || r.value == n.value) && |n.ranges| > 0
    ensures OwnListed(Offered(n, r))
  {
    var e, p := Enlist(n.connected, r, |n.ranges|), Recounted(n, r);
    var i: nat :| i < |e| && e[i].rec.value == n.value && e[i].count == |n.ranges| by {
      if OwnListed(n) {
        var k: nat :| k < |n.connected| && n.connected[k].rec.value == n.value && n.connected[k].count == |n.ranges|;
        assert e[k].rec.value == n.value && e[k].count == |n.ranges|;
      } else {
        var k: nat :| k < |e| && e[k].rec.value == r.value;
        assert e[k].count == |n.ranges|;
      }
    }
    NoDropsOfOwn(n.ranges, r, n.value);
    DiscountRangesEntry(e, n.ranges, r, i);
    assert p[i] == e[i];
    KeptEntry(p, i);
    var j :| 0 <= j < |Remaining(p)| && Remaining(p)[j] == p[i];
  }

  lemma {:induction false} KeptEntry(conn: seq<LinCount>, i: nat)
    requires i < |conn| && conn[i].count > 0
    ensures conn[i] in Remaining(conn)
  {
    if i < |conn| - 1 {
      KeptEntry(conn[..|conn| - 1], i);
    }
  }

  lemma {:induction false} OwnOfferSpoils(value: Id, bits: string, offers: seq<Record>, bitsOf: Id -> string)
    requires 0 < |bits| <= MAX_LEVELS && OneGraph(value, bits, offers, bitsOf)
    requires exists r :: r in offers && r.value == value
    ensures OwnListed(RunNode(InitNode(value, bits), offers))
  {
    var init, last := offers[..|offers| - 1], offers[|offers| - 1];
    assert offers == init + [last];
    RunInvariant(value, bits, init, bitsOf);
    var m := RunNode(InitNode(value, bits), init);
    assert last in offers && Acceptable(m, last, bitsOf);
    if last.value != value {
      assert exists r :: r in init && r.value == value by {
        var r :| r in offers && r.value == value;
        assert r in init;
      }
      OwnOfferSpoils(value, bits, init, bitsOf);
    }
    OwnStaysListed(m, last, bitsOf);
  }

  lemma OwnListedIsInexact(n: NodeView)
    requires AllTidy(n) && OwnListed(n) && |n.ranges| > 0
    ensures !IndexExact(n)
  {
    HoldersBound(n.ranges, n.value);
    forall k | 0 <= k < |n.ranges| ensures !Holds(n.ranges[k], n.value) {
      var v := n.ranges[k];
      forall i | 0 <= i < |v.held| ensures v.held[i].value != n.value { assert v.held[i] in v.held; }
    }
  }

  lemma {:induction false} NoLevelsNoEntries(value: Id, offers: seq<Record>)
    ensures RunNode(InitNode(value, ""), offers).connected == []
  {
    if offers != [] {
      var n := RunNode(InitNode(value, ""), offers[..|offers| - 1]);
      var r := offers[|offers| - 1];
      NoLevelsNoEntries(value, offers[..|offers| - 1]);
      var e := Enlist(n.connected, r, 0);
      assert e == [LinCount(r, 0)];
      assert n.ranges == [];
      assert Recounted(n, r) == e;
      assert Remaining(e) == [] by { assert e[..0] == []; }
    }
  }

  /**
   Main result: after any offers of one graph's records, the index agrees with
   the ranges exactly when the node was never offered its own record (or has
   no level at all).
   */
  lemma IndexExactIffForeign(value: Id, bits: string, offers: seq<Record>, bitsOf: Id -> string)
    requires |bits| <= MAX_LEVELS && OneGraph(value, bits, offers, bitsOf)
    ensures IndexExact(RunNode(InitNode(value, bits), offers)) <==>
            bits == "" || forall r :: r in offers ==> r.value != value
  {
    var m := RunNode(InitNode(value, bits), offers);
    if bits == "" {
      NoLevelsNoEntries(value, offers);
    } else if forall r :: r in offers ==> r.value != value {
      ForeignRunsAreExact(value, bits, offers, bitsOf);
    } else {
      RunInvariant(value, bits, offers, bitsOf);
      OwnOfferSpoils(value, bits, offers, bitsOf);
      OwnListedIsInexact(m);
    }
  }

  /** The levels of a node are independent: each sees the same run of offers. */
  lemma {:induction false} LevelsRunAlone(value: Id, bits: string, offers: seq<Record>, i: nat)
    requires |bits| <= MAX_LEVELS && i < |bits| && forall r :: r in offers ==> |bits| <= |r.bits|
    ensures RunNode(InitNode(value, bits), offers).ranges[i] == Run(InitRange(value, bits, i), offers)
  {
    if offers != [] {
      LevelsRunAlone(value, bits, offers[..|offers| - 1], i);
    }
  }
}
