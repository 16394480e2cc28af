/**
 The two searches of the skip graph: by id and by bitstring. One hop is decided
 from the records the current node knows; the routes below put no assumption on
 how those records change between hops.
 */
module SkipGraphRouting {
  import opened Shared
  import opened SkipGraphRange
  import opened SkipGraphNode

  function Distance(a: Id, b: Id): Id {
    if a > b then a - b else b - a
  }

  /** x lies past own, on the way to target, and not beyond it. */
  predicate OnTheWay(own: Id, x: Id, target: Id) {
    own < x <= target || target <= x < own
  }

  /** The forward of an id search: the known record closest to the target that is on the way, if any. */
  ghost predicate IdHop(own: Id, conn: seq<LinCount>, target: Id, next: Option<Record>) {
    match next
    case None => forall i :: 0 <= i < |conn| ==> !OnTheWay(own, conn[i].rec.value, target)
    case Some(r) =>
      && Known(conn, r) && OnTheWay(own, r.value, target)
      && forall i :: 0 <= i < |conn| && OnTheWay(own, conn[i].rec.value, target) ==>
           Distance(r.value, target) <= Distance(conn[i].rec.value, target)
  }

  /** The comparison key of the two sort orders. */
  function SortKey(c: LinCount, ascending: bool): int {
    if ascending then c.rec.value as int else -(c.rec.value as int)
  }

  ghost predicate Ordered(conn: seq<LinCount>, ascending: bool) {
    forall i, j :: 0 <= i < j < |conn| ==> SortKey(conn[i], ascending) <= SortKey(conn[j], ascending)
  }

  method SortByValue(conn: seq<LinCount>, ascending: bool) returns (sorted: seq<LinCount>)
    ensures Ordered(sorted, ascending) && multiset(sorted) == multiset(conn)
  {
    sorted := [];
    for i := 0 to |conn|
      invariant Ordered(sorted, ascending) && multiset(sorted) == multiset(conn[..i])
    {
      assert conn[..i + 1] == conn[..i] + [conn[i]];
      InsertOrdered(sorted, conn[i], ascending);
      sorted := InsertByValue(sorted, conn[i], ascending);
    }
    assert conn[..|conn|] == conn;
  }

  function InsertByValue(s: seq<LinCount>, c: LinCount, ascending: bool): (t: seq<LinCount>)
    ensures multiset(t) == multiset(s) + multiset{c}
    ensures forall x :: x in t <==> x in s || x == c
  {
    if s == [] then [c]
    else
      assert s == [s[0]] + s[1..];
      if SortKey(s[0], ascending) <= SortKey(c, ascending) then [s[0]] + InsertByValue(s[1..], c, ascending) else [c] + s
  }

  lemma {:induction false} InsertOrdered(s: seq<LinCount>, c: LinCount, ascending: bool)
    requires Ordered(s, ascending)
    ensures Ordered(InsertByValue(s, c, ascending), ascending)
  {
    if s != [] && SortKey(s[0], ascending) <= SortKey(c, ascending) {
      InsertOrdered(s[1..], c, ascending);
      var t := InsertByValue(s[1..], c, ascending);
      assert forall i :: 0 <= i < |t| ==> t[i] in t;
      assert forall x :: x in s[1..] ==> SortKey(s[0], ascending) <= SortKey(x, ascending);
    }
  }

  lemma SameRecords(a: seq<LinCount>, b: seq<LinCount>)
    requires multiset(a) == multiset(b)
    ensures forall i :: 0 <= i < |a| ==> a[i] in b
  {
    forall i | 0 <= i < |a| ensures a[i] in b {
      assert a[i] in multiset(a);
    }
  }

  /** The loop over the sorted index: the last record on the way. */
  method LastOnTheWay(own: Id, conn: seq<LinCount>, target: Id, ascending: bool) returns (next: Option<Record>)
    requires own != target && ascending == (target > own) && Ordered(conn, ascending)
    ensures IdHop(own, conn, target, next)
  {
    next := None;
    for i := 0 to |conn|
      invariant next.None? ==> forall j :: 0 <= j < i ==> !OnTheWay(own, conn[j].rec.value, target)
      invariant next.Some? ==> OnTheWay(own, next.value.value, target)
      invariant next.Some? ==> exists j :: 0 <= j < i && conn[j].rec == next.value
      invariant next.Some? ==> forall j :: 0 <= j < i && OnTheWay(own, conn[j].rec.value, target) ==>
                  Distance(next.value.value, target) <= Distance(conn[j].rec.value, target)
    {
      if ascending {
        if conn[i].rec.value > own && conn[i].rec.value <= target {
          next := Some(conn[i].rec);
        }
      } else {
        if conn[i].rec.value < own && conn[i].rec.value >= target {
          next := Some(conn[i].rec);
        }
      }
    }
  }

  /** The hop does not depend on the order of the index. */
  lemma SameHop(own: Id, a: seq<LinCount>, b: seq<LinCount>, target: Id, next: Option<Record>)
    requires IdHop(own, a, target, next) && multiset(a) == multiset(b)
    ensures IdHop(own, b, target, next)
  {
    SameRecords(a, b);
    SameRecords(b, a);
  }

  /** Sorts the index towards the target and forwards to the last record on the way. */
  method SearchOnNodeID(n: Node, lP: Record) returns (next: Option<Record>)
    modifies n
    ensures multiset(n.nodesConnected) == multiset(old(n.nodesConnected))
    ensures n.changedSinceTimeout == old(n.changedSinceTimeout)
    ensures IdHop(n.value, old(n.nodesConnected), lP.value, next)
  {
    if n.value == lP.value {
      return None;
    }
    var ascending := lP.value > n.value;
    var conn := SortByValue(n.nodesConnected, ascending);
    next := LastOnTheWay(n.value, conn, lP.value, ascending);
    SameHop(n.value, conn, n.nodesConnected, lP.value, next);
    n.nodesConnected := conn;
  }

  // ----- id routes -----

  /** A visited node: its record and what it knew when the search passed. */
  datatype Visit = Visit(rec: Record, connected: seq<LinCount>)

  ghost predicate IdRoute(route: seq<Visit>, target: Id) {
    forall i :: 0 <= i < |route| - 1 ==>
      IdHop(route[i].rec.value, route[i].connected, target, Some(route[i + 1].rec))
  }

  /**
   Main result: an id search never passes its target, moves strictly closer
   with every hop, and so takes at most as many hops as the start is away.
   */
  lemma {:induction false} IdRoutesEnd(route: seq<Visit>, target: Id)
    requires route != [] && IdRoute(route, target)
    ensures |route| - 1 + Distance(route[|route| - 1].rec.value, target) <= Distance(route[0].rec.value, target)
    ensures forall i :: 0 <= i < |route| ==>
              route[0].rec.value <= route[i].rec.value <= target || target <= route[i].rec.value <= route[0].rec.value
    decreases |route|
  {
    if |route| > 1 {
      var init := route[..|route| - 1];
      IdRoutesEnd(init, target);
      assert OnTheWay(init[|init| - 1].rec.value, route[|route| - 1].rec.value, target);
    }
  }

  /** A node that knows the target forwards straight to it. */
  lemma KnownTargetIsNext(own: Id, conn: seq<LinCount>, target: Id, next: Option<Record>)
    requires own != target && Lists(conn, target) && IdHop(own, conn, target, next)
    ensures next.Some? && next.value.value == target
  {
    var i :| 0 <= i < |conn| && conn[i].rec.value == target;
  }

  // ----- bitstring search -----

  /** The length of the common prefix. */
  function Common(a: string, b: string): (n: nat)
    ensures n <= |a| && n <= |b|
  {
    if a == "" || b == "" || a[0] != b[0] then 0 else 1 + Common(a[1..], b[1..])
  }

  lemma {:induction false} CommonMeans(a: string, b: string)
    ensures var n := Common(a, b); a[..n] == b[..n] && (n < |a| && n < |b| ==> a[n] != b[n])
  {
    if a != "" && b != "" && a[0] == b[0] {
      CommonMeans(a[1..], b[1..]);
      var n := Common(a[1..], b[1..]);
      assert a[..n + 1] == [a[0]] + a[1..][..n] && b[..n + 1] == [b[0]] + b[1..][..n];
    }
  }

  lemma {:induction false} CommonExtends(a: string, b: string, n: nat)
    requires n <= |a| && n <= |b| && a[..n] == b[..n]
    ensures n <= Common(a, b)
  {
    if n > 0 {
      assert a[0] == a[..n][0] && b[0] == b[..n][0];
      assert a[1..][..n - 1] == a[..n][1..] && b[1..][..n - 1] == b[..n][1..];
      CommonExtends(a[1..], b[1..], n - 1);
    }
  }

  /** The level up to which two nodes share their ranges; -1 when they share none. */
  method GetFitLevel(string1: string, string2: string) returns (level: int)
    ensures level == Common(string1, string2) - 1
  {
    level := -1;
    var max := |string1|;
    if |string2| < max {
      max := |string2|;
    }
    for i := 0 to max
      invariant level == i - 1 && string1[..i] == string2[..i]
    {
      if string1[i] == string2[i] {
        level := level + 1;
        assert string1[..i + 1] == string1[..i] + [string1[i]] && string2[..i + 1] == string2[..i] + [string2[i]];
      } else {
        break;
      }
    }
    CommonExtends(string1, string2, level + 1);
    CommonStops(string1, string2, level + 1);
  }

  lemma {:induction false} CommonStops(a: string, b: string, n: nat)
    requires n == |a| || n == |b| || (n < |a| && n < |b| && a[n] != b[n])
    requires n <= |a| && n <= |b|
    ensures Common(a, b) <= n
  {
    if a != "" && b != "" && n > 0 { CommonStops(a[1..], b[1..], n - 1); }
  }

  /** The forward of a bitstring search: a known record with the longest match, if longer than the node's own. */
  ghost predicate BitHop(own: string, conn: seq<LinCount>, target: string, next: Option<Record>) {
    match next
    case None => own == target || forall i :: 0 <= i < |conn| ==> Common(conn[i].rec.bits, target) <= Common(own, target)
    case Some(r) =>
      && own != target && Known(conn, r) && Common(r.bits, target) > Common(own, target)
      && forall i :: 0 <= i < |conn| ==> Common(conn[i].rec.bits, target) <= Common(r.bits, target)
  }

  method SearchOnNodeBitstring(n: Node, lP: Record) returns (next: Option<Record>)
    ensures BitHop(n.bitstring, n.nodesConnected, lP.bits, next)
  {
    if lP.bits == n.bitstring {
      return None;
    }
    var currentBest := Record(n.value, n.bitstring);
    var conn := n.nodesConnected;
    for i := 0 to |conn|
      invariant Common(currentBest.bits, lP.bits) >= Common(n.bitstring, lP.bits)
      invariant forall j :: 0 <= j < i ==> Common(conn[j].rec.bits, lP.bits) <= Common(currentBest.bits, lP.bits)
      invariant currentBest == Record(n.value, n.bitstring) ||
                  (Common(currentBest.bits, lP.bits) > Common(n.bitstring, lP.bits) &&
                   exists j :: 0 <= j < i && conn[j].rec == currentBest)
    {
      var fit := GetFitLevel(conn[i].rec.bits, lP.bits);
      var best := GetFitLevel(currentBest.bits, lP.bits);
      if fit > best {
        currentBest := conn[i].rec;
      }
    }
    if currentBest.bits != n.bitstring {
      next := Some(currentBest);
    } else {
      next := None;
    }
  }

  ghost predicate BitRoute(route: seq<Visit>, target: string) {
    forall i :: 0 <= i < |route| - 1 ==>
      BitHop(route[i].rec.bits, route[i].connected, target, Some(route[i + 1].rec))
  }

  /**
   Main result: each hop of a bitstring search matches a strictly longer prefix,
   so the hops are bounded by what was left to match at the start.
   */
  lemma {:induction false} BitRoutesEnd(route: seq<Visit>, target: string)
    requires route != [] && BitRoute(route, target)
    ensures Common(route[0].rec.bits, target) + |route| - 1 <= Common(route[|route| - 1].rec.bits, target) <= |target|
    decreases |route|
  {
    if |route| > 1 {
      var init := route[..|route| - 1];
      BitRoutesEnd(init, target);
      assert BitHop(init[|init| - 1].rec.bits, init[|init| - 1].connected, target, Some(route[|route| - 1].rec));
    }
  }

  /** A node that knows the bitstring, and does not match all of it itself, forwards to a full match. */
  lemma KnownBitstringIsNext(own: string, conn: seq<LinCount>, target: string, next: Option<Record>)
    requires !(target <= own) && (exists i :: 0 <= i < |conn| && conn[i].rec.bits == target)
    requires BitHop(own, conn, target, next)
    ensures next.Some? && target <= next.value.bits && Known(conn, next.value)
  {
    var i :| 0 <= i < |conn| && conn[i].rec.bits == target;
    CommonExtends(target, target, |target|);
    CommonMeans(own, target);
    assert Common(own, target) < |target|;
    if next.Some? { CommonMeans(next.value.bits, target); }
  }
}
