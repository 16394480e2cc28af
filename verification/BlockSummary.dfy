/** Blocked time in the audit summary: the five longest, the longest of all, and the time for each reason. */
module BlockSummary {
  import opened Shared
  import opened BlockAccounting

  /** An entry of the list; running tells the two entries of one goroutine apart. */
  datatype Item = Item(g: Gid, total: real, running: bool)

  function ClosedItem(s: Acct, g: Gid): Item {
    Item(g, Of(s.totals.byG, g), false)
  }

  function RunningItem(s: Acct, g: Gid, now: real): Item {
    Item(g, Running(s, g, now) + Of(s.totals.byG, g), true)
  }

  /** Goroutines with charged time have an entry, and those with an open interval. */
  predicate IsItem(s: Acct, now: real, x: Item) {
    if x.running then x.g in s.blocks.blockedAt && x == RunningItem(s, x.g, now)
    else x.g in s.totals.byG && x == ClosedItem(s, x.g)
  }

  ghost predicate Distinct(items: seq<Item>) {
    forall i, j :: 0 <= i < j < |items| ==> items[i] != items[j]
  }

  ghost predicate Descending(items: seq<Item>) {
    forall i, j :: 0 <= i < j < |items| ==> items[i].total >= items[j].total
  }

  /** Each entry once. */
  ghost predicate Collected(s: Acct, now: real, items: seq<Item>) {
    Distinct(items) && forall x :: x in items <==> IsItem(s, now, x)
  }

  /** The entries in an order that the sort may leave them in. */
  ghost predicate Listed(s: Acct, now: real, items: seq<Item>) {
    Collected(s, now, items) && Descending(items)
  }

  /** The reported times: the first n entries, a later one for the same goroutine replacing an earlier. */
  function Top(items: seq<Item>, n: nat): map<Gid, real>
    requires n <= |items|
  {
    if n == 0 then map[] else Top(items, n - 1)[items[n - 1].g := items[n - 1].total]
  }

  /** Five entries are reported, if there are so many. */
  function Reported(items: seq<Item>): (n: nat)
    ensures n <= |items|
  {
    if |items| < 5 then |items| else 5
  }

  // ----- collecting, sorting and reporting -----

  lemma OneMoreItem(items: seq<Item>, x: Item)
    requires Distinct(items) && x !in items
    ensures Distinct(items + [x]) && forall y :: y in items + [x] <==> y in items || y == x
  {
  }

  /** The entries, each map read in any order. */
  method CollectItems(s: Acct, now: real) returns (items: seq<Item>)
    ensures Collected(s, now, items)
  {
    items := [];
    var left := s.totals.byG.Keys;
    while left != {}
      invariant left <= s.totals.byG.Keys && Distinct(items)
      invariant forall x :: x in items <==> !x.running && x.g !in left && IsItem(s, now, x)
    {
      var g :| g in left;
      OneMoreItem(items, ClosedItem(s, g));
      items, left := items + [ClosedItem(s, g)], left - {g};
    }
    left := s.blocks.blockedAt.Keys;
    while left != {}
      invariant left <= s.blocks.blockedAt.Keys && Distinct(items)
      invariant forall x :: x in items <==> (x.running ==> x.g !in left) && IsItem(s, now, x)
    {
      var g :| g in left;
      OneMoreItem(items, RunningItem(s, g, now));
      items, left := items + [RunningItem(s, g, now)], left - {g};
    }
  }

  function InsertItem(items: seq<Item>, x: Item): (r: seq<Item>)
    ensures forall y :: y in r <==> y in items || y == x
    ensures |r| == |items| + 1
  {
    if items == [] then [x]
    else if items[0].total > x.total then [items[0]] + InsertItem(items[1..], x)
    else [x] + items
  }

  lemma {:induction false} InsertKeepsOrder(items: seq<Item>, x: Item)
    requires Distinct(items) && Descending(items) && x !in items
    ensures Distinct(InsertItem(items, x)) && Descending(InsertItem(items, x))
  {
    if items != [] && items[0].total > x.total {
      var rest := InsertItem(items[1..], x);
      InsertKeepsOrder(items[1..], x);
      assert forall i :: 0 <= i < |rest| ==> rest[i] in rest;
      assert forall y :: y in items[1..] ==> y != items[0] && y.total <= items[0].total;
    }
  }

  /** Stands for the library sort, which may leave equal times in any order. */
  method SortItems(items: seq<Item>) returns (sorted: seq<Item>)
    requires Distinct(items)
    ensures Descending(sorted) && Distinct(sorted) && |sorted| == |items|
    ensures forall x :: x in sorted <==> x in items
  {
    sorted := [];
    for i := 0 to |items|
      invariant Descending(sorted) && Distinct(sorted) && |sorted| == i
      invariant forall x :: x in sorted <==> x in items[..i]
    {
      assert items[..i + 1] == items[..i] + [items[i]];
      InsertKeepsOrder(sorted, items[i]);
      sorted := InsertItem(sorted, items[i]);
    }
    assert items[..|items|] == items;
  }

  /** The time a goroutine has been blocked in all. */
  function BlockedFor(s: Acct, g: Gid, now: real): real {
    Of(s.totals.byG, g) + Running(s, g, now)
  }

  /** The figures of the summary; the longest time is right even where a goroutine's own figure is not. */
  method SummarizeBlocked(s: Acct, now: real) returns (top: map<Gid, real>, maxBlocked: real, ghost items: seq<Item>)
    ensures Listed(s, now, items) && top == Top(items, Reported(items))
    ensures maxBlocked >= 0.0 && forall g :: BlockedFor(s, g, now) <= maxBlocked
    ensures maxBlocked > 0.0 ==> exists g :: BlockedFor(s, g, now) == maxBlocked
  {
    var collected := CollectItems(s, now);
    var sorted := SortItems(collected);
    items := sorted;
    top, maxBlocked := map[], 0.0;
    for i := 0 to Reported(sorted)
      invariant top == Top(sorted, i)
      invariant maxBlocked == if i == 0 || sorted[0].total < 0.0 then 0.0 else sorted[0].total
    {
      if sorted[i].total > maxBlocked { maxBlocked := sorted[i].total; }
      top := top[sorted[i].g := sorted[i].total];
    }
    LongestIsFirst(s, now, sorted);
  }

  lemma LongestIsFirst(s: Acct, now: real, items: seq<Item>)
    requires Listed(s, now, items)
    ensures forall g :: items == [] ==> BlockedFor(s, g, now) == 0.0
    ensures forall g :: items != [] && BlockedFor(s, g, now) > 0.0 ==> BlockedFor(s, g, now) <= items[0].total
    ensures items != [] ==> BlockedFor(s, items[0].g, now) == items[0].total
  {
    forall g | g in s.totals.byG || g in s.blocks.blockedAt
      ensures items != [] && BlockedFor(s, g, now) <= items[0].total
    {
      var x := if g in s.blocks.blockedAt then RunningItem(s, g, now) else ClosedItem(s, g);
      assert IsItem(s, now, x);
      var i :| 0 <= i < |items| && items[i] == x;
    }
    if items != [] {
      assert items[0] in items;
      var g := items[0].g;
      assert BlockedFor(s, g, now) >= items[0].total;
    }
  }

  // ----- what is reported -----

  /** A reported time is that of the last entry for the goroutine. */
  lemma {:induction false} TopMeans(items: seq<Item>, n: nat, g: Gid)
    requires n <= |items|
    ensures g in Top(items, n) <==> exists i :: 0 <= i < n && items[i].g == g
    ensures g in Top(items, n) ==>
              exists i :: 0 <= i < n && items[i].g == g && Top(items, n)[g] == items[i].total
                          && forall j :: i < j < n ==> items[j].g != g
  {
    if n > 0 {
      TopMeans(items, n - 1, g);
      assert items[n - 1].g == g ==> Top(items, n)[g] == items[n - 1].total;
    }
  }

  /**
   The summary is to report charged plus running time. It reports something
   else for a goroutine exactly if the goroutine's open interval has a length
   and its charged time is itself among the first five: then only that.
   */
  lemma RunningTimeIsReportedExactly(s: Acct, now: real, items: seq<Item>, g: Gid)
    requires Listed(s, now, items)
    ensures var n := Reported(items);
            var top := Top(items, n);
            && (g in top && top[g] != BlockedFor(s, g, now) <==> Running(s, g, now) > 0.0 && ClosedItem(s, g) in items[..n])
            && (g in top && top[g] != BlockedFor(s, g, now) ==> top[g] == Of(s.totals.byG, g))
  {
    var n := Reported(items);
    TopMeans(items, n, g);
    forall i | 0 <= i < n && items[i].g == g
      ensures items[i] == if items[i].running then RunningItem(s, g, now) else ClosedItem(s, g)
    {
      assert items[i] in items;
    }
    if ClosedItem(s, g) in items[..n] {
      var i :| 0 <= i < n && items[i] == ClosedItem(s, g);
    }
  }

  // ----- told from the entries alone, whatever the order of equal times -----

  ghost function Longer(items: set<Item>, time: real): set<Item> {
    set x | x in items && x.total > time
  }

  ghost function AsLong(items: set<Item>, time: real): set<Item> {
    set x | x in items && x.total >= time
  }

  ghost function Elements(items: seq<Item>): set<Item> {
    set x | x in items
  }

  lemma {:induction false} DistinctElements(items: seq<Item>)
    requires Distinct(items)
    ensures |Elements(items)| == |items|
  {
    if items != [] {
      var init, last := items[..|items| - 1], items[|items| - 1];
      DistinctElements(init);
      assert items == init + [last];
      assert Elements(items) == Elements(init) + {last};
    }
  }

  lemma {:induction false} SmallerSet<T>(a: set<T>, b: set<T>)
    requires a <= b
    ensures |a| <= |b|
  {
    if a != {} {
      var x :| x in a;
      SmallerSet(a - {x}, b - {x});
    }
  }

  /** An entry stands behind all longer ones and before all shorter ones. */
  lemma PlaceOf(items: seq<Item>, i: nat)
    requires Distinct(items) && Descending(items) && i < |items|
    ensures |Longer(Elements(items), items[i].total)| <= i < |AsLong(Elements(items), items[i].total)|
  {
    var all := Elements(items);
    DistinctElements(items[..i]);
    SmallerSet(Longer(all, items[i].total), Elements(items[..i]));
    DistinctElements(items[..i + 1]);
    SmallerSet(Elements(items[..i + 1]), AsLong(all, items[i].total));
  }

  /**
   Every order of equal times reports a blocked goroutine's charged part alone
   if at most five entries are as long as that part, and none does if five are
   longer.
   */
  lemma ReportedByLength(s: Acct, now: real, items: seq<Item>, g: Gid)
    requires Listed(s, now, items) && g in s.totals.byG && Running(s, g, now) > 0.0
    ensures var top := Top(items, Reported(items));
            && (|AsLong(Elements(items), Of(s.totals.byG, g))| <= 5 ==> g in top && top[g] == Of(s.totals.byG, g))
            && (|Longer(Elements(items), Of(s.totals.byG, g))| >= 5 ==> g !in top || top[g] == BlockedFor(s, g, now))
  {
    assert IsItem(s, now, ClosedItem(s, g));
    var i :| 0 <= i < |items| && items[i] == ClosedItem(s, g);
    PlaceOf(items, i);
    RunningTimeIsReportedExactly(s, now, items, g);
    if i < 5 {
      assert items[..Reported(items)][i] == ClosedItem(s, g);
    } else {
      assert forall j :: 0 <= j < Reported(items) ==> items[..Reported(items)][j] != items[i];
    }
  }

  // ----- a wrong figure -----

  /** One goroutine is blocked for one unit, runs, and is blocked again for two. */
  function TwoWaits(g: Gid): Trace {
    [(0.0, Track(g)), (1.0, BlockChan(g, true, false)), (2.0, Unblock(g, "")), (3.0, BlockChan(g, true, false)), (5.0, Track(g))]
  }

  lemma OneMoreStep(trace: Trace, t: real, e: Event)
    ensures Run(trace + [(t, e)]) == Step(Run(trace), t, e)
  {
    assert (trace + [(t, e)])[..|trace|] == trace;
  }

  lemma TwoWaitsState(g: Gid)
    ensures Sorted(TwoWaits(g))
    ensures var s := Run(TwoWaits(g));
            s.totals.byG == map[g := 1.0] && s.blocks.blockedAt == map[g := 3.0]
  {
    var first, wait, run := [(0.0, Track(g))], BlockChan(g, true, false), Unblock(g, "");
    OneMoreStep([], 0.0, Track(g));
    OneMoreStep(first, 1.0, wait);
    OneMoreStep(first + [(1.0, wait)], 2.0, run);
    OneMoreStep(first + [(1.0, wait), (2.0, run)], 3.0, wait);
    OneMoreStep(first + [(1.0, wait), (2.0, run), (3.0, wait)], 5.0, Track(g));
    assert [] + first == first;
    assert first + [(1.0, wait)] + [(2.0, run)] == first + [(1.0, wait), (2.0, run)];
    assert first + [(1.0, wait), (2.0, run)] + [(3.0, wait)] == first + [(1.0, wait), (2.0, run), (3.0, wait)];
    assert first + [(1.0, wait), (2.0, run), (3.0, wait)] + [(5.0, Track(g))] == TwoWaits(g);
    TwoWaitsSteps(g);
  }

  lemma TwoWaitsSteps(g: Gid)
    ensures var wait := BlockChan(g, true, false);
            var s := Step(Step(Step(Empty(), 0.0, Track(g)), 1.0, wait), 2.0, Unblock(g, ""));
            && s.interested == {g} && s.blocks.blockedAt == map[] && s.totals.byG == map[g := 1.0]
  {
    var s := Step(Step(Empty(), 0.0, Track(g)), 1.0, BlockChan(g, true, false));
    assert s.interested == {g} && s.blocks.blockedAt == map[g := 1.0];
    assert ChargedBy(s, 2.0, Unblock(g, "")) == [Interval(g, 1.0, 2.0, "chan_send")];
  }

  /** Of three units one is reported, in any order of the entries. */
  lemma TwoWaitsReportOne(g: Gid, items: seq<Item>)
    requires Listed(Run(TwoWaits(g)), 5.0, items)
    ensures BlockedFor(Run(TwoWaits(g)), g, 5.0) == 3.0
    ensures var top := Top(items, Reported(items)); g in top && top[g] == 1.0
  {
    TwoWaitsState(g);
    var s := Run(TwoWaits(g));
    forall x | x in Elements(items) ensures x in {ClosedItem(s, g), RunningItem(s, g, 5.0)} {
      assert IsItem(s, 5.0, x);
    }
    SmallerSet(AsLong(Elements(items), 1.0), {ClosedItem(s, g), RunningItem(s, g, 5.0)});
    ReportedByLength(s, 5.0, items, g);
  }

  // ----- the time for each reason -----

  /** Why an open interval is open. */
  function RunningReason(s: Acct, g: Gid): string {
    if g in s.blocks.reasonByG && s.blocks.reasonByG[g] != "" then s.blocks.reasonByG[g] else "unknown"
  }

  /** Reasons of open intervals are known. */
  lemma {:induction false} ReasonsKnown(trace: Trace, g: Gid)
    ensures var b := Run(trace).blocks;
            g in b.blockedAt ==> g in Run(trace).interested && g in b.reasonByG && b.reasonByG[g] != ""
  {
    if trace != [] {
      var n := |trace| - 1;
      ReasonsKnown(trace[..n], g);
      StepKnowsReason(Run(trace[..n]), trace[n].0, trace[n].1, g);
    }
  }

  lemma StepKnowsReason(s: Acct, t: real, e: Event, g: Gid)
    requires g in s.blocks.blockedAt ==> g in s.interested && g in s.blocks.reasonByG && s.blocks.reasonByG[g] != ""
    ensures var s' := Step(s, t, e);
            g in s'.blocks.blockedAt ==> g in s'.interested && g in s'.blocks.reasonByG && s'.blocks.reasonByG[g] != ""
  {
  }

  /** The running time and its reason are those that an unblock at the moment of the summary would charge. */
  lemma RunningIsWhatUnblockCharges(trace: Trace, g: Gid, now: real, runtimeKind: string)
    requires g in Run(trace).blocks.blockedAt && Running(Run(trace), g, now) > 0.0
    ensures var s := Run(trace);
            ChargedBy(s, now, Unblock(g, runtimeKind)) == [Interval(g, now - Running(s, g, now), now, RunningReason(s, g))]
  {
    ReasonsKnown(trace, g);
  }

  /** The open intervals with a reason. */
  ghost function RunningFor(s: Acct, now: real, gs: set<Gid>, reason: string): map<Gid, real> {
    map g | g in gs && RunningReason(s, g) == reason :: Running(s, g, now)
  }

  ghost function RunningAll(s: Acct, now: real, gs: set<Gid>): map<Gid, real> {
    map g | g in gs :: Running(s, g, now)
  }

  /** Charged time for each reason, and the running time of some goroutines. */
  ghost predicate Added(s: Acct, now: real, totals: map<string, real>, gs: set<Gid>) {
    && (forall r :: Of(totals, r) == Of(s.totals.byReason, r) + Sum(RunningFor(s, now, gs, r)))
    && Sum(totals) == Sum(s.totals.byReason) + Sum(RunningAll(s, now, gs))
  }

  /** Charged and running time for each reason, the open intervals read in any order. */
  method ReasonTotals(s: Acct, now: real) returns (totals: map<string, real>)
    ensures Added(s, now, totals, s.blocks.blockedAt.Keys)
  {
    totals := s.totals.byReason;
    var left := s.blocks.blockedAt.Keys;
    ghost var done: set<Gid> := {};
    NothingRunning(s, now);
    while left != {}
      invariant left + done == s.blocks.blockedAt.Keys && left !! done
      invariant Added(s, now, totals, done)
    {
      var g :| g in left;
      OneMoreAdded(s, now, totals, done, g);
      var reason := RunningReason(s, g);
      totals := totals[reason := Of(totals, reason) + Running(s, g, now)];
      left, done := left - {g}, done + {g};
    }
    assert done == s.blocks.blockedAt.Keys;
  }

  /** Over every trace the reported reasons make up all time, charged and running, of all goroutines. */
  lemma ReasonsAddUp(trace: Trace, now: real, totals: map<string, real>)
    requires Sorted(trace) && trace != []
    requires Added(Run(trace), now, totals, Run(trace).blocks.blockedAt.Keys)
    ensures var s := Run(trace);
            Sum(totals) == Sum(s.totals.byG) + Sum(RunningAll(s, now, s.blocks.blockedAt.Keys))
  {
    BlockedTimeIsBounded(trace, trace[0].1.g);
  }

  lemma OneMoreAdded(s: Acct, now: real, totals: map<string, real>, gs: set<Gid>, g: Gid)
    requires Added(s, now, totals, gs) && g !in gs
    ensures var reason := RunningReason(s, g);
            Added(s, now, totals[reason := Of(totals, reason) + Running(s, g, now)], gs + {g})
  {
    OneMoreRunning(s, now, gs, g);
    OneMoreTotal(totals, RunningReason(s, g), Running(s, g, now));
  }

  lemma NothingRunning(s: Acct, now: real)
    ensures Added(s, now, s.totals.byReason, {})
  {
    assert forall r :: RunningFor(s, now, {}, r) == map[];
    assert RunningAll(s, now, {}) == map[];
  }

  lemma OneMoreRunning(s: Acct, now: real, gs: set<Gid>, g: Gid)
    requires g !in gs
    ensures forall r :: Sum(RunningFor(s, now, gs + {g}, r)) ==
                        Sum(RunningFor(s, now, gs, r)) + if r == RunningReason(s, g) then Running(s, g, now) else 0.0
    ensures Sum(RunningAll(s, now, gs + {g})) == Sum(RunningAll(s, now, gs)) + Running(s, g, now)
  {
    forall r
      ensures Sum(RunningFor(s, now, gs + {g}, r)) ==
              Sum(RunningFor(s, now, gs, r)) + if r == RunningReason(s, g) then Running(s, g, now) else 0.0
    {
      var before := RunningFor(s, now, gs, r);
      if r == RunningReason(s, g) {
        SumUpdate(before, g, Running(s, g, now));
        assert RunningFor(s, now, gs + {g}, r) == before[g := Running(s, g, now)];
      } else {
        assert RunningFor(s, now, gs + {g}, r) == before;
      }
    }
    var before := RunningAll(s, now, gs);
    SumUpdate(before, g, Running(s, g, now));
    assert RunningAll(s, now, gs + {g}) == before[g := Running(s, g, now)];
  }
}
