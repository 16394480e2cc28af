/**
 The deadlock warning: a wait-for graph from the blocked goroutines and the
 last opposite operations on their channels, and a search for a cycle in it.
 */
module Deadlock {
  import opened Text
  import opened Shared
  import opened RegionLabels
  import opened CycleSearch

  datatype LastOp = LastOp(g: Gid, time: real)

  /** Why a goroutine is blocked, and on which channel (empty when unknown). */
  datatype Blocked = Blocked(reason: string, channelID: string)

  /** What the warning is computed from. */
  datatype WaitView = WaitView(blocked: map<Gid, Blocked>, lastSend: map<string, LastOp>, lastRecv: map<string, LastOp>,
                               nameByPtr: map<string, string>, now: real, window: real)

  datatype Candidate = Candidate(op: LastOp, via: string)

  /** A receiver waits for the last sender, everything else for the last receiver. */
  function Lookup(w: WaitView, kind: string, key: string): Option<LastOp> {
    var ops := if kind == "recv" then w.lastSend else w.lastRecv;
    if key != "" && key in ops then Some(ops[key]) else None
  }

  /** The channel inside a label, when the label parses to one. */
  function InnerChannel(text: string): string {
    match ParseRegionOp(text)
    case Some(op) => op.ch
    case None => ""
  }

  function PointerName(w: WaitView, id: string): string {
    if HasPrefix(id, "0x") && id in w.nameByPtr then w.nameByPtr[id] else ""
  }

  /** The identities under which a channel may have been recorded, in the order they are tried. */
  function Aliases(w: WaitView, id: string): seq<string> {
    var name := PointerName(w, id);
    [id, InnerChannel(id), name, if name == "" then "" else InnerChannel(name)]
  }

  function FirstKnown(w: WaitView, kind: string, keys: seq<string>): Option<Candidate> {
    if keys == [] then None
    else
      match Lookup(w, kind, keys[0])
      case Some(op) => Some(Candidate(op, keys[0]))
      case None => FirstKnown(w, kind, keys[1..])
  }

  function ResolveCandidate(w: WaitView, kind: string, id: string): Option<Candidate> {
    if id == "" then None else FirstKnown(w, kind, Aliases(w, id))
  }

  /** The goroutine that g waits for, if one is known, real and recent enough. */
  function WaitsFor(w: WaitView, g: Gid): Option<Candidate> {
    if g !in w.blocked then None
    else
      match ResolveCandidate(w, w.blocked[g].reason, w.blocked[g].channelID)
      case None => None
      case Some(c) => if c.op.g == Gid(0) || w.now - c.op.time > w.window then None else Some(c)
  }

  // ----- what a wait is -----

  /** The last operation on the other side of a channel: a receiver waits for a sender, all others for a receiver. */
  ghost predicate Recorded(w: WaitView, reason: string, key: string, op: LastOp) {
    if reason == "recv" then key in w.lastSend && w.lastSend[key] == op else key in w.lastRecv && w.lastRecv[key] == op
  }

  ghost predicate Inner(text: string, key: string) {
    exists kind :: ParseRegionOp(text) == Some(RegionOp(kind, key))
  }

  /** The names of a channel: its identity, the channel in that, the logged name of the pointer, the channel in that. */
  ghost predicate NameOf(w: WaitView, id: string, i: nat, key: string) {
    var logged := HasPrefix(id, "0x") && id in w.nameByPtr;
    && key != ""
    && (i == 0 ==> key == id)
    && (i == 1 ==> Inner(id, key))
    && (i == 2 ==> logged && key == w.nameByPtr[id])
    && (i == 3 ==> logged && w.nameByPtr[id] != "" && Inner(w.nameByPtr[id], key))
  }

  /** op is recorded under the i-th name of the channel, and nothing under an earlier one. */
  ghost predicate FirstRecorded(w: WaitView, b: Blocked, i: nat, via: string, op: LastOp) {
    && i < 4 && NameOf(w, b.channelID, i, via) && Recorded(w, b.reason, via, op)
    && forall j: nat, key, other :: j < i && NameOf(w, b.channelID, j, key) ==> !Recorded(w, b.reason, key, other)
  }

  /** g is blocked, and h did the first recorded operation; it is a known goroutine, and not too long ago. */
  ghost predicate Waits(w: WaitView, g: Gid, h: Gid, via: string) {
    && g in w.blocked && w.blocked[g].channelID != "" && h != Gid(0)
    && exists i: nat, time :: FirstRecorded(w, w.blocked[g], i, via, LastOp(h, time)) && w.now - time <= w.window
  }

  ghost predicate Awaits(w: WaitView, g: Gid, h: Gid) {
    exists via :: Waits(w, g, h, via)
  }

  lemma AliasIsName(w: WaitView, id: string, i: nat, key: string)
    requires i < 4 && id != ""
    ensures key != "" && Aliases(w, id)[i] == key <==> NameOf(w, id, i, key)
  {
    var name := PointerName(w, id);
    assert forall text, k :: k != "" ==> (InnerChannel(text) == k <==> Inner(text, k));
  }

  lemma LookupIsRecorded(w: WaitView, reason: string, key: string, op: LastOp)
    ensures Lookup(w, reason, key) == Some(op) <==> key != "" && Recorded(w, reason, key, op)
  {
  }

  /** The first key with a recorded operation. */
  lemma {:induction false} FirstKnownIs(w: WaitView, reason: string, keys: seq<string>, via: string, op: LastOp)
    ensures FirstKnown(w, reason, keys) == Some(Candidate(op, via)) <==>
            exists i :: 0 <= i < |keys| && keys[i] == via && Lookup(w, reason, via) == Some(op)
                        && forall j :: 0 <= j < i ==> Lookup(w, reason, keys[j]) == None
  {
    if keys != [] {
      FirstKnownIs(w, reason, keys[1..], via, op);
    }
  }

  lemma ResolvesFirst(w: WaitView, b: Blocked, via: string, op: LastOp)
    requires b.channelID != ""
    ensures ResolveCandidate(w, b.reason, b.channelID) == Some(Candidate(op, via)) <==>
            exists i: nat :: FirstRecorded(w, b, i, via, op)
  {
    var keys := Aliases(w, b.channelID);
    FirstKnownIs(w, b.reason, keys, via, op);
    forall i: nat, key | i < 4 ensures key != "" && keys[i] == key <==> NameOf(w, b.channelID, i, key) {
      AliasIsName(w, b.channelID, i, key);
    }
    forall i: nat | i < 4
      ensures keys[i] == via && Lookup(w, b.reason, via) == Some(op) && (forall j :: 0 <= j < i ==> Lookup(w, b.reason, keys[j]) == None)
              <==> FirstRecorded(w, b, i, via, op)
    {
      FirstIs(w, b, keys, i, via, op);
    }
  }

  lemma FirstIs(w: WaitView, b: Blocked, keys: seq<string>, i: nat, via: string, op: LastOp)
    requires i < 4 && |keys| == 4
    requires forall j: nat, key :: j < 4 ==> (key != "" && keys[j] == key <==> NameOf(w, b.channelID, j, key))
    ensures keys[i] == via && Lookup(w, b.reason, via) == Some(op) && (forall j :: 0 <= j < i ==> Lookup(w, b.reason, keys[j]) == None)
            <==> FirstRecorded(w, b, i, via, op)
  {
    forall j: nat | j < i
      ensures Lookup(w, b.reason, keys[j]) == None <==>
              forall key, other :: NameOf(w, b.channelID, j, key) ==> !Recorded(w, b.reason, key, other)
    {
      assert NameOf(w, b.channelID, j, keys[j]) <==> keys[j] != "";
      if Lookup(w, b.reason, keys[j]).Some? { assert Recorded(w, b.reason, keys[j], Lookup(w, b.reason, keys[j]).value); }
    }
  }

  /** The computed candidate is the one that g waits for. */
  lemma WaitsExactly(w: WaitView, g: Gid, h: Gid, via: string)
    ensures Waits(w, g, h, via) <==> WaitsFor(w, g).Some? && WaitsFor(w, g).value.op.g == h && WaitsFor(w, g).value.via == via
  {
    if g in w.blocked && w.blocked[g].channelID != "" {
      var b := w.blocked[g];
      forall time
        ensures ResolveCandidate(w, b.reason, b.channelID) == Some(Candidate(LastOp(h, time), via)) <==>
                exists i: nat :: FirstRecorded(w, b, i, via, LastOp(h, time))
      {
        ResolvesFirst(w, b, via, LastOp(h, time));
      }
      var c := ResolveCandidate(w, b.reason, b.channelID);
      if c.Some? && c.value.op.g == h && c.value.via == via {
        assert c == Some(Candidate(LastOp(h, c.value.op.time), via));
      }
    }
  }

  /** The graph is exactly the waits-for relation of the blocked goroutines. */
  ghost predicate Represents(graph: Graph, w: WaitView, done: set<Gid>) {
    && graph.Keys <= done
    && forall g :: g in done ==>
         if g in graph then |graph[g]| == 1 && Awaits(w, g, graph[g][0]) else forall h :: !Awaits(w, g, h)
  }

  ghost predicate LabelsWaits(edgeInfo: map<(Gid, Gid), string>, w: WaitView, done: set<Gid>) {
    && (forall e :: e in edgeInfo ==> e.0 in done && Waits(w, e.0, e.1, edgeInfo[e]))
    && forall g, h :: g in done && Awaits(w, g, h) ==> (g, h) in edgeInfo
  }

  /** A chain of blocked goroutines, each waiting for the next. */
  ghost predicate WaitChain(w: WaitView, p: seq<Gid>) {
    forall i :: 0 <= i < |p| - 1 ==> Awaits(w, p[i], p[i + 1])
  }

  ghost predicate CircularWait(w: WaitView, p: seq<Gid>) {
    |p| >= 2 && p[0] == p[|p| - 1] && WaitChain(w, p)
  }

  datatype EdgeReport = EdgeReport(src: Gid, via: string, dst: Gid)

  datatype CycleReport = CycleReport(gids: seq<Gid>, edges: seq<EdgeReport>)

  /** The edge leaves the i-th node of the circle and names the identity through which the wait was found. */
  ghost predicate Reported(w: WaitView, gids: seq<Gid>, e: EdgeReport, i: nat)
    requires i + 1 < |gids|
  {
    e.src == gids[i] && e.dst == gids[i + 1] && Waits(w, gids[i], gids[i + 1], e.via)
  }

  ghost predicate Circular(w: WaitView) {
    exists p :: CircularWait(w, p)
  }

  ghost predicate GoodReport(w: WaitView, r: CycleReport) {
    && CircularWait(w, r.gids) && NoRepeats(r.gids[..|r.gids| - 1])
    && |r.edges| == |r.gids| - 1
    && forall i :: 0 <= i < |r.edges| ==> Reported(w, r.gids, r.edges[i], i)
  }

  /** A goroutine waits for one other at most. */
  lemma OneAwaited(w: WaitView, g: Gid, h: Gid, k: Gid)
    requires Awaits(w, g, h) && Awaits(w, g, k)
    ensures h == k && g in w.blocked
  {
    var v :| Waits(w, g, h, v);
    var u :| Waits(w, g, k, u);
    WaitsExactly(w, g, h, v);
    WaitsExactly(w, g, k, u);
  }

  lemma WalksAreChains(graph: Graph, w: WaitView, p: seq<Gid>)
    requires Represents(graph, w, w.blocked.Keys)
    ensures ClosedWalk(graph, p) <==> CircularWait(w, p)
  {
    forall i {:trigger p[i]} | 0 <= i < |p| - 1
      ensures Edge(graph, p[i], p[i + 1]) <==> Awaits(w, p[i], p[i + 1])
    {
      EdgesAreWaits(graph, w, p[i], p[i + 1]);
    }
  }

  lemma EdgesAreWaits(graph: Graph, w: WaitView, g: Gid, h: Gid)
    requires Represents(graph, w, w.blocked.Keys)
    ensures Edge(graph, g, h) <==> Awaits(w, g, h)
  {
    if g in graph {
      var k := graph[g][0];
      assert g in w.blocked.Keys && graph[g] == [k] && Awaits(w, g, k);
      if Awaits(w, g, h) { OneAwaited(w, g, h, k); }
    } else if Awaits(w, g, h) {
      WaiterIsBlocked(w, g, h);
    }
  }

  lemma WaiterIsBlocked(w: WaitView, g: Gid, h: Gid)
    requires Awaits(w, g, h)
    ensures g in w.blocked.Keys
  {
  }

  lemma CyclesAreCircles(graph: Graph, w: WaitView)
    requires Represents(graph, w, w.blocked.Keys)
    ensures Cyclic(graph) <==> Circular(w)
  {
    if Cyclic(graph) {
      var p :| ClosedWalk(graph, p);
      WalksAreChains(graph, w, p);
    }
    if Circular(w) {
      var p :| CircularWait(w, p);
      WalksAreChains(graph, w, p);
    }
  }

  lemma NoWait(w: WaitView, g: Gid, h: Gid)
    requires WaitsFor(w, g).None?
    ensures !Awaits(w, g, h)
  {
    forall via ensures !Waits(w, g, h, via) {
      WaitsExactly(w, g, h, via);
    }
  }

  lemma OneWait(w: WaitView, g: Gid, h: Gid)
    requires WaitsFor(w, g).Some?
    ensures var c := WaitsFor(w, g).value; Waits(w, g, c.op.g, c.via) && (Awaits(w, g, h) ==> h == c.op.g)
  {
    var c := WaitsFor(w, g).value;
    WaitsExactly(w, g, c.op.g, c.via);
    if Awaits(w, g, h) {
      var via :| Waits(w, g, h, via);
      WaitsExactly(w, g, h, via);
    }
  }

  lemma OneMoreNode(graph: Graph, w: WaitView, done: set<Gid>, g: Gid)
    requires Represents(graph, w, done) && g !in done
    ensures WaitsFor(w, g).None? ==> Represents(graph, w, done + {g})
    ensures WaitsFor(w, g).Some? ==> Represents(graph[g := [WaitsFor(w, g).value.op.g]], w, done + {g})
  {
    if WaitsFor(w, g).None? {
      forall h ensures !Awaits(w, g, h) {
        NoWait(w, g, h);
      }
    } else {
      OneWait(w, g, WaitsFor(w, g).value.op.g);
    }
  }

  lemma OneMoreLabel(edgeInfo: map<(Gid, Gid), string>, w: WaitView, done: set<Gid>, g: Gid)
    requires LabelsWaits(edgeInfo, w, done) && g !in done
    ensures WaitsFor(w, g).None? ==> LabelsWaits(edgeInfo, w, done + {g})
    ensures WaitsFor(w, g).Some? ==>
              LabelsWaits(edgeInfo[(g, WaitsFor(w, g).value.op.g) := WaitsFor(w, g).value.via], w, done + {g})
  {
    if WaitsFor(w, g).None? {
      forall h ensures !Awaits(w, g, h) {
        NoWait(w, g, h);
      }
    } else {
      var c := WaitsFor(w, g).value;
      var e0 := (g, c.op.g);
      var more := edgeInfo[e0 := c.via];
      forall e | e in more ensures e.0 in done + {g} && Waits(w, e.0, e.1, more[e]) {
        if e == e0 { OneWait(w, g, c.op.g); }
      }
      forall k, h | k in done + {g} && Awaits(w, k, h) ensures (k, h) in more {
        if k == g { OneWait(w, g, h); }
      }
    }
  }

  class DeadlockState {
    var blocked: map<Gid, Blocked>
    var lastSendByChannel: map<string, LastOp>
    var lastRecvByChannel: map<string, LastOp>
    var channelNameByPtr: map<string, string>
    var lastTimeMs: real
    var deadlockCycle: Option<CycleReport>

    function View(window: real): WaitView
      reads this
    {
      WaitView(blocked, lastSendByChannel, lastRecvByChannel, channelNameByPtr, lastTimeMs, window)
    }

    constructor ()
      ensures blocked == map[] && deadlockCycle == None
    {
      blocked, lastSendByChannel, lastRecvByChannel, channelNameByPtr := map[], map[], map[], map[];
      lastTimeMs, deadlockCycle := 0.0, None;
    }

    /** Builds the graph in any order of the blocked goroutines. */
    method BuildGraph(window: real) returns (graph: Graph, edgeInfo: map<(Gid, Gid), string>)
      ensures Represents(graph, View(window), blocked.Keys)
      ensures LabelsWaits(edgeInfo, View(window), blocked.Keys)
    {
      graph, edgeInfo := map[], map[];
      ghost var w := View(window);
      var todo := blocked.Keys;
      while todo != {}
        invariant todo <= blocked.Keys
        invariant Represents(graph, w, blocked.Keys - todo)
        invariant LabelsWaits(edgeInfo, w, blocked.Keys - todo)
      {
        var gid :| gid in todo;
        ghost var done := blocked.Keys - todo;
        OneMoreNode(graph, w, done, gid);
        OneMoreLabel(edgeInfo, w, done, gid);
        todo := todo - {gid};
        assert blocked.Keys - todo == done + {gid};
        var candidate := WaitsFor(View(window), gid);
        if candidate.Some? {
          assert Successors(graph, gid) == [];
          graph := graph[gid := Successors(graph, gid) + [candidate.value.op.g]];
          edgeInfo := edgeInfo[(gid, candidate.value.op.g) := candidate.value.via];
        }
      }
      assert blocked.Keys - todo == blocked.Keys;
    }

    /**
     Warns exactly when some blocked goroutines wait for one another in a
     circle; the report is such a circle without repetitions, each edge labelled
     with the identity under which the awaited operation was found.
     */
    method DeadlockCycleEvent(window: real) returns (r: Option<CycleReport>)
      modifies this`deadlockCycle
      ensures r.Some? <==> Circular(View(window))
      ensures r.Some? ==> GoodReport(View(window), r.value)
      ensures deadlockCycle == if r.Some? then r else old(deadlockCycle)
    {
      ghost var w := View(window);
      var graph, edgeInfo := BuildGraph(window);
      var cycle := FindCycle(graph);
      CyclesAreCircles(graph, w);
      if |cycle| == 0 {
        return None;
      }
      WalksAreChains(graph, w, cycle);
      LabelsKnown(w, cycle, edgeInfo);
      var edges := DescribeEdges(cycle, edgeInfo);
      EdgesReported(w, cycle, edges, edgeInfo);
      r := Some(CycleReport(cycle, edges));
      deadlockCycle := r;
    }
  }

  /** The edges along a cycle, each with the label it was found under. */
  method DescribeEdges(cycle: seq<Gid>, edgeInfo: map<(Gid, Gid), string>) returns (edges: seq<EdgeReport>)
    requires |cycle| > 0
    ensures |edges| == |cycle| - 1
    ensures forall i :: 0 <= i < |edges| ==>
              var key := (cycle[i], cycle[i + 1]);
              edges[i] == EdgeReport(cycle[i], if key in edgeInfo then edgeInfo[key] else "", cycle[i + 1])
  {
    edges := [];
    for i := 0 to |cycle| - 1
      invariant |edges| == i
      invariant forall k :: 0 <= k < i ==>
                  var key := (cycle[k], cycle[k + 1]);
                  edges[k] == EdgeReport(cycle[k], if key in edgeInfo then edgeInfo[key] else "", cycle[k + 1])
    {
      var key := (cycle[i], cycle[i + 1]);
      edges := edges + [EdgeReport(cycle[i], if key in edgeInfo then edgeInfo[key] else "", cycle[i + 1])];
    }
  }

  lemma LabelKnown(w: WaitView, g: Gid, h: Gid, edgeInfo: map<(Gid, Gid), string>)
    requires Awaits(w, g, h) && LabelsWaits(edgeInfo, w, w.blocked.Keys)
    ensures (g, h) in edgeInfo && Waits(w, g, h, edgeInfo[(g, h)])
  {
    WaiterIsBlocked(w, g, h);
    var e := (g, h);
    assert Waits(w, e.0, e.1, edgeInfo[e]);
  }

  lemma LabelsKnown(w: WaitView, p: seq<Gid>, edgeInfo: map<(Gid, Gid), string>)
    requires |p| > 0 && WaitChain(w, p) && LabelsWaits(edgeInfo, w, w.blocked.Keys)
    ensures forall i :: 0 <= i < |p| - 1 ==>
              (p[i], p[i + 1]) in edgeInfo && Waits(w, p[i], p[i + 1], edgeInfo[(p[i], p[i + 1])])
  {
    forall i | 0 <= i < |p| - 1
      ensures (p[i], p[i + 1]) in edgeInfo && Waits(w, p[i], p[i + 1], edgeInfo[(p[i], p[i + 1])])
    {
      assert Awaits(w, p[i], p[i + 1]);
      LabelKnown(w, p[i], p[i + 1], edgeInfo);
    }
  }

  lemma EdgesReported(w: WaitView, p: seq<Gid>, edges: seq<EdgeReport>, edgeInfo: map<(Gid, Gid), string>)
    requires |edges| == |p| - 1
    requires forall i :: 0 <= i < |p| - 1 ==>
               (p[i], p[i + 1]) in edgeInfo && Waits(w, p[i], p[i + 1], edgeInfo[(p[i], p[i + 1])])
    requires forall i :: 0 <= i < |edges| ==>
               var key := (p[i], p[i + 1]);
               edges[i] == EdgeReport(p[i], if key in edgeInfo then edgeInfo[key] else "", p[i + 1])
    ensures forall i :: 0 <= i < |edges| ==> Reported(w, p, edges[i], i)
  {
    forall i | 0 <= i < |edges| ensures Reported(w, p, edges[i], i) {
      assert edges[i].via == edgeInfo[(p[i], p[i + 1])];
    }
  }
}
