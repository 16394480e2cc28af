/**
 Pairing by index: on runs of region sends and receives that carry channel
 pointers, the k-th receive completed on a pointer is paired with the k-th send
 completed on it, whichever side finished first.
 */
module IndexMatching {
  import opened Text
  import opened Shared
  import opened ChannelKeys
  import opened Pairing

  predicate OnPointer(op: Op) {
    (op.Send? || op.Recv?) && op.ptr != ""
  }

  /** Region operations with pointers, and logs that name pointers. */
  ghost predicate PointerOps(ops: seq<Op>) {
    forall i :: 0 <= i < |ops| ==> OnPointer(ops[i]) || ops[i].Learn?
  }

  /** Distinct names: no operation is on a channel whose name another pointer of the run answers to. */
  ghost predicate Separate(ops: seq<Op>, states: seq<Pairs>)
    requires |states| == |ops| + 1
  {
    forall i, j :: 0 <= i < |ops| && 0 <= j < |ops| && OnPointer(ops[i]) && OnPointer(ops[j]) && ops[j].ptr != ops[i].ptr ==>
      !Answers(states[i].names, ops[j].ptr, ops[i].site.wanted)
  }

  function SendCount(ops: seq<Op>): nat {
    if ops == [] then 0 else SendCount(ops[..|ops| - 1]) + if ops[|ops| - 1].Send? then 1 else 0
  }

  /** The sends on p in order, with the ids they are given. */
  function SendsOn(ops: seq<Op>, p: string): seq<SendRec> {
    if ops == [] then []
    else
      var init, op := ops[..|ops| - 1], ops[|ops| - 1];
      SendsOn(init, p) + if op.Send? && op.ptr == p then [NewSend(op, SendCount(init) + 1)] else []
  }

  function NewRecv(op: Op): RecvRec
    requires op.Recv?
  {
    RecvRec(op.t, op.g, op.role, op.ch, op.ptr)
  }

  /** The receives on p in order. */
  function RecvsOn(ops: seq<Op>, p: string): seq<RecvRec> {
    if ops == [] then []
    else
      var init, op := ops[..|ops| - 1], ops[|ops| - 1];
      RecvsOn(init, p) + if op.Recv? && op.ptr == p then [NewRecv(op)] else []
  }

  /** The paired receive events of pointer p, in the order they were emitted. */
  function PairedOn(events: seq<Emitted>, p: string): seq<Emitted> {
    if events == [] then []
    else
      var e := events[|events| - 1];
      PairedOn(events[..|events| - 1], p) + if e.kind == ChanRecv && e.msgID != 0 && e.chPtr == p then [e] else []
  }

  function Min(a: nat, b: nat): nat { if a < b then a else b }

  /** The event of receive r paired with send s. */
  function Match(r: RecvRec, s: SendRec): Emitted {
    Emitted(ChanRecv, r.time, r.ch, r.ptr, r.ptr, r.g, r.role, "paired", s.g, s.id)
  }

  /** Receive k with send k, as far as both go. */
  function Zip(sends: seq<SendRec>, recvs: seq<RecvRec>): (z: seq<Emitted>)
    ensures |z| == Min(|sends|, |recvs|) && forall k :: 0 <= k < |z| ==> z[k] == Match(recvs[k], sends[k])
  {
    seq(Min(|sends|, |recvs|), k requires 0 <= k < Min(|sends|, |recvs|) => Match(recvs[k], sends[k]))
  }

  /** Queues sq and rq hold the unmatched rest of the sends s and receives r; z pairs what both have. */
  ghost predicate InStep(sq: seq<SendRec>, rq: seq<RecvRec>, z: seq<Emitted>, s: seq<SendRec>, r: seq<RecvRec>) {
    sq == s[Min(|s|, |r|)..] && rq == r[Min(|s|, |r|)..] && z == Zip(s, r)
  }

  ghost predicate MatchedOn(c: Core, ops: seq<Op>, p: string) {
    InStep(SendQ(c, p), RecvQ(c, p), PairedOn(c.emitted, p), SendsOn(ops, p), RecvsOn(ops, p))
  }

  ghost predicate Matched(st: Pairs, ops: seq<Op>) {
    && st.skip == {} && st.core.credits == map[] && st.core.nextID == SendCount(ops) + 1
    && (forall p :: MatchedOn(st.core, ops, p))
    && st.tally.unknown == 0
    && (forall p :: Count(st.tally.matched, p) == Min(|SendsOn(ops, p)|, |RecvsOn(ops, p)|))
  }

  lemma PairedOnConcat(events: seq<Emitted>, more: seq<Emitted>, p: string)
    ensures PairedOn(events + more, p) == PairedOn(events, p) + PairedOn(more, p)
    decreases |more|
  {
    if more == [] {
      assert events + more == events;
    } else {
      PairedOnConcat(events, more[..|more| - 1], p);
      assert (events + more)[..|events + more| - 1] == events + more[..|more| - 1];
    }
  }

  /** A waiting send or receive stems from an operation on its pointer. */
  lemma {:induction false} HasOps(ops: seq<Op>, p: string)
    requires PointerOps(ops) && (SendsOn(ops, p) != [] || RecvsOn(ops, p) != [])
    ensures exists j :: 0 <= j < |ops| && OnPointer(ops[j]) && ops[j].ptr == p
  {
    var init, op := ops[..|ops| - 1], ops[|ops| - 1];
    if SendsOn(init, p) != [] || RecvsOn(init, p) != [] {
      HasOps(init, p);
      var j :| 0 <= j < |init| && OnPointer(init[j]) && init[j].ptr == p;
      assert OnPointer(ops[j]) && ops[j].ptr == p;
    } else {
      assert OnPointer(ops[|ops| - 1]) && ops[|ops| - 1].ptr == p;
    }
  }

  /** No other pointer of the run answers to the name of op. */
  ghost predicate Alone(names: map<string, string>, ops: seq<Op>, op: Op)
    requires OnPointer(op)
  {
    forall j :: 0 <= j < |ops| && OnPointer(ops[j]) && ops[j].ptr != op.ptr ==> !Answers(names, ops[j].ptr, op.site.wanted)
  }

  /** With names apart, the searches by name find nothing: a send meets a receive on its own pointer or waits. */
  lemma OwnSlot(st: Pairs, ops: seq<Op>, op: Op, p: Picks)
    requires Matched(st, ops) && PointerOps(ops) && op.Send? && OnPointer(op) && Alone(st.names, ops, op)
    requires ValidPicks(st, op, p)
    ensures SlotFor(st.core, op, p) == if RecvQ(st.core, op.ptr) != [] then Early(op.ptr) else Waiting(op.ptr)
  {
    if p.recv.Some? && RecvQ(st.core, p.recv.value) != [] && p.recv.value != op.ptr {
      assert MatchedOn(st.core, ops, p.recv.value);
      HasOps(ops, p.recv.value);
    }
  }

  lemma OwnQueue(st: Pairs, ops: seq<Op>, op: Op, p: Picks)
    requires op.Recv? && OnPointer(op) && ValidPicks(st, op, p)
    ensures Takes(st.core, p) <==> SendQ(st.core, op.ptr) != []
    ensures Takes(st.core, p) ==> p.send == Some(op.ptr)
  {
  }

  lemma StepLists(ops: seq<Op>, op: Op, p: string)
    ensures SendsOn(ops + [op], p) == SendsOn(ops, p) + if op.Send? && op.ptr == p then [NewSend(op, SendCount(ops) + 1)] else []
    ensures RecvsOn(ops + [op], p) ==
            RecvsOn(ops, p) + if op.Recv? && op.ptr == p then [NewRecv(op)] else []
    ensures SendCount(ops + [op]) == SendCount(ops) + if op.Send? then 1 else 0
  {
    assert (ops + [op])[..|ops|] == ops;
  }

  lemma SendEventsOn(c: Core, op: Op, p: Picks, q: string)
    requires op.Send? && c.nextID > 0
    requires SlotFor(c, op, p).Early? ==> RecvQ(c, SlotFor(c, op, p).key) != []
    ensures var slot := SlotFor(c, op, p);
            PairedOn(SendEvents(c, op, p), q) ==
            if slot.Early? && RecvQ(c, slot.key)[0].ptr == q then [EarlyReceipt(op, RecvQ(c, slot.key)[0], c.nextID)] else []
  {
    var slot, sent := SlotFor(c, op, p), SentEvent(op, c.nextID);
    PairedOnConcat([DoneEvent(op)], [sent], q);
    assert [DoneEvent(op), sent] == [DoneEvent(op)] + [sent];
    if slot.Early? {
      var got := EarlyReceipt(op, RecvQ(c, slot.key)[0], c.nextID);
      PairedOnConcat([DoneEvent(op), sent], [got], q);
    } else {
      assert [DoneEvent(op), sent] + [] == [DoneEvent(op), sent];
    }
  }

  lemma {:induction false} RecvsCarryPointer(ops: seq<Op>, p: string)
    ensures forall k :: 0 <= k < |RecvsOn(ops, p)| ==> RecvsOn(ops, p)[k].ptr == p
  {
    if ops != [] { RecvsCarryPointer(ops[..|ops| - 1], p); }
  }

  lemma SendInStep(sq: seq<SendRec>, rq: seq<RecvRec>, z: seq<Emitted>, s: seq<SendRec>, r: seq<RecvRec>, x: SendRec)
    requires InStep(sq, rq, z, s, r)
    ensures if rq != [] then InStep(sq, rq[1..], z + [Match(rq[0], x)], s + [x], r)
            else InStep(sq + [x], rq, z, s + [x], r)
  {
    if |s| < |r| {
      assert r[|s|..][1..] == r[|s| + 1..];
      assert Zip(s + [x], r) == Zip(s, r) + [Match(r[|s|], x)];
    } else {
      assert (s + [x])[|r|..] == s[|r|..] + [x];
      assert Zip(s + [x], r) == Zip(s, r);
    }
  }

  lemma RecvInStep(sq: seq<SendRec>, rq: seq<RecvRec>, z: seq<Emitted>, s: seq<SendRec>, r: seq<RecvRec>, y: RecvRec)
    requires InStep(sq, rq, z, s, r)
    ensures if sq != [] then InStep(sq[1..], rq, z + [Match(y, sq[0])], s, r + [y])
            else InStep(sq, rq + [y], z, s, r + [y])
  {
    if |r| < |s| {
      assert s[|r|..][1..] == s[|r| + 1..];
      assert Zip(s, r + [y]) == Zip(s, r) + [Match(y, s[|r|])];
    } else {
      assert (r + [y])[|s|..] == r[|s|..] + [y];
      assert Zip(s, r + [y]) == Zip(s, r);
    }
  }

  /** A send on its own pointer meets the first waiting receive there, or waits there. */
  ghost predicate SendMoves(c: Core, c': Core, x: SendRec, q: string) {
    if q != x.ptr then SendQ(c', q) == SendQ(c, q) && RecvQ(c', q) == RecvQ(c, q) && PairedOn(c'.emitted, q) == PairedOn(c.emitted, q)
    else if RecvQ(c, q) == [] then
      SendQ(c', q) == SendQ(c, q) + [x] && RecvQ(c', q) == [] && PairedOn(c'.emitted, q) == PairedOn(c.emitted, q)
    else
      && SendQ(c', q) == SendQ(c, q) && RecvQ(c', q) == RecvQ(c, q)[1..]
      && PairedOn(c'.emitted, q) == PairedOn(c.emitted, q) + [Match(RecvQ(c, q)[0], x)]
  }

  lemma SendQueues(c: Core, op: Op, p: Picks, q: string)
    requires op.Send? && OnPointer(op)
    requires SlotFor(c, op, p) == if RecvQ(c, op.ptr) != [] then Early(op.ptr) else Waiting(op.ptr)
    ensures var c', early := AfterSend(c, op, p), RecvQ(c, op.ptr) != [];
            && SendQ(c', q) == (if !early && q == op.ptr then SendQ(c, q) + [NewSend(op, c.nextID)] else SendQ(c, q))
            && RecvQ(c', q) == (if early && q == op.ptr then RecvQ(c, q)[1..] else RecvQ(c, q))
            && c'.emitted == c.emitted + SendEvents(c, op, p)
  {
  }

  lemma SendEffect(c: Core, op: Op, p: Picks, q: string)
    requires op.Send? && OnPointer(op) && c.nextID > 0
    requires SlotFor(c, op, p) == if RecvQ(c, op.ptr) != [] then Early(op.ptr) else Waiting(op.ptr)
    requires RecvQ(c, op.ptr) != [] ==> RecvQ(c, op.ptr)[0].ptr == op.ptr
    ensures SendMoves(c, AfterSend(c, op, p), NewSend(op, c.nextID), q)
  {
    SendQueues(c, op, p, q);
    SendEventsOn(c, op, p, q);
    PairedOnConcat(c.emitted, SendEvents(c, op, p), q);
  }

  lemma SentMatches(c: Core, c': Core, ops: seq<Op>, op: Op, q: string)
    requires MatchedOn(c, ops, q) && op.Send? && c.nextID == SendCount(ops) + 1
    requires SendMoves(c, c', NewSend(op, c.nextID), q)
    ensures MatchedOn(c', ops + [op], q)
  {
    StepLists(ops, op, q);
    if q == op.ptr {
      SendInStep(SendQ(c, q), RecvQ(c, q), PairedOn(c.emitted, q), SendsOn(ops, q), RecvsOn(ops, q), NewSend(op, c.nextID));
    }
  }

  /** A send on op.ptr: the other pointers are not touched, its own lists move on together. */
  lemma SendMatches(st: Pairs, ops: seq<Op>, op: Op, p: Picks, q: string)
    requires Matched(st, ops) && PointerOps(ops) && op.Send? && OnPointer(op) && Alone(st.names, ops, op)
    requires ValidPicks(st, op, p)
    ensures MatchedOn(AfterSend(st.core, op, p), ops + [op], q)
  {
    assert MatchedOn(st.core, ops, q) && MatchedOn(st.core, ops, op.ptr);
    OwnSlot(st, ops, op, p);
    RecvsCarryPointer(ops, op.ptr);
    SendEffect(st.core, op, p, q);
    SentMatches(st.core, AfterSend(st.core, op, p), ops, op, q);
  }

  lemma SendCounts(st: Pairs, ops: seq<Op>, op: Op, p: Picks, q: string)
    requires Matched(st, ops) && PointerOps(ops) && op.Send? && OnPointer(op) && Alone(st.names, ops, op)
    requires ValidPicks(st, op, p)
    ensures Count(SendTally(st.core, st.tally, op, p).matched, q) == Min(|SendsOn(ops + [op], q)|, |RecvsOn(ops + [op], q)|)
    ensures SendTally(st.core, st.tally, op, p).unknown == 0
  {
    assert MatchedOn(st.core, ops, op.ptr);
    StepLists(ops, op, q);
    OwnSlot(st, ops, op, p);
  }

  lemma RecvEventsOn(c: Core, op: Op, p: Picks, q: string)
    requires op.Recv?
    ensures PairedOn(RecvEvents(c, {}, op, p), q) == []
  {
    var events := RecvEvents(c, {}, op, p);
    if Takes(c, p) {
      PairedOnConcat([events[0]], [events[1]], q);
      assert events == [events[0]] + [events[1]];
    }
  }

  ghost predicate RecvMoves(c: Core, c': Core, y: RecvRec, q: string) {
    if q != y.ptr then SendQ(c', q) == SendQ(c, q) && RecvQ(c', q) == RecvQ(c, q) && PairedOn(c'.emitted, q) == PairedOn(c.emitted, q)
    else if SendQ(c, q) == [] then
      SendQ(c', q) == [] && RecvQ(c', q) == RecvQ(c, q) + [y] && PairedOn(c'.emitted, q) == PairedOn(c.emitted, q)
    else
      && SendQ(c', q) == SendQ(c, q)[1..] && RecvQ(c', q) == RecvQ(c, q)
      && PairedOn(c'.emitted, q) == PairedOn(c.emitted, q) + [Match(y, SendQ(c, q)[0])]
  }

  /** A receive that takes the head of its queue emits one receipt; one that waits emits none. */
  lemma RecvReceipts(c: Core, op: Op, p: Picks, q: string)
    requires op.Recv?
    ensures PairedOn(AfterRecv(c, {}, op, p).emitted, q) ==
            PairedOn(c.emitted, q) + if Takes(c, p) then PairedOn([Receipt(c, op, p)], q) else []
  {
    RecvEventsOn(c, op, p, q);
    var events := RecvEvents(c, {}, op, p);
    PairedOnConcat(c.emitted, events, q);
    if Takes(c, p) { PairedOnConcat(c.emitted + events, [Receipt(c, op, p)], q); }
  }

  lemma ReceiptIsMatch(c: Core, op: Op, p: Picks)
    requires op.Recv? && OnPointer(op) && Takes(c, p)
    ensures Receipt(c, op, p) == Match(NewRecv(op), Head(c, p))
  {
  }

  lemma RecvEffect(c: Core, op: Op, p: Picks, q: string)
    requires op.Recv? && OnPointer(op)
    requires p.send == (if SendQ(c, op.ptr) != [] then Some(op.ptr) else None)
    requires SendQ(c, op.ptr) != [] ==> SendQ(c, op.ptr)[0].id > 0
    ensures RecvMoves(c, AfterRecv(c, {}, op, p), NewRecv(op), q)
  {
    var c' := AfterRecv(c, {}, op, p);
    RecvReceipts(c, op, p, q);
    if SendQ(c, op.ptr) != [] {
      var e := Match(NewRecv(op), SendQ(c, op.ptr)[0]);
      ReceiptIsMatch(c, op, p);
    }
  }

  lemma ReceivedMatches(c: Core, c': Core, ops: seq<Op>, op: Op, q: string)
    requires MatchedOn(c, ops, q) && op.Recv? && RecvMoves(c, c', NewRecv(op), q)
    ensures MatchedOn(c', ops + [op], q)
  {
    StepLists(ops, op, q);
    if q == op.ptr {
      RecvInStep(SendQ(c, q), RecvQ(c, q), PairedOn(c.emitted, q), SendsOn(ops, q), RecvsOn(ops, q), NewRecv(op));
    }
  }

  lemma RecvMatches(st: Pairs, ops: seq<Op>, op: Op, p: Picks, q: string)
    requires Matched(st, ops) && PointerOps(ops) && op.Recv? && OnPointer(op) && ValidPicks(st, op, p)
    ensures MatchedOn(AfterRecv(st.core, st.skip, op, p), ops + [op], q)
  {
    assert MatchedOn(st.core, ops, q) && MatchedOn(st.core, ops, op.ptr);
    SendIdsPositive(ops, op.ptr);
    RecvEffect(st.core, op, p, q);
    ReceivedMatches(st.core, AfterRecv(st.core, st.skip, op, p), ops, op, q);
  }

  lemma RecvCounts(st: Pairs, ops: seq<Op>, op: Op, p: Picks, q: string)
    requires Matched(st, ops) && PointerOps(ops) && op.Recv? && OnPointer(op) && ValidPicks(st, op, p)
    ensures Count(RecvTally(st.core, st.tally, st.skip, op, p).matched, q) ==
            Min(|SendsOn(ops + [op], q)|, |RecvsOn(ops + [op], q)|)
    ensures RecvTally(st.core, st.tally, st.skip, op, p).unknown == 0
  {
    assert MatchedOn(st.core, ops, op.ptr);
    StepLists(ops, op, q);
  }

  lemma {:induction false} SendIdsPositive(ops: seq<Op>, p: string)
    ensures forall k :: 0 <= k < |SendsOn(ops, p)| ==> 0 < SendsOn(ops, p)[k].id <= SendCount(ops)
    ensures forall j, k :: 0 <= j < k < |SendsOn(ops, p)| ==> SendsOn(ops, p)[j].id < SendsOn(ops, p)[k].id
  {
    if ops != [] { SendIdsPositive(ops[..|ops| - 1], p); }
  }

  lemma StepMatchesOn(st: Pairs, ops: seq<Op>, op: Op, p: Picks, q: string)
    requires Matched(st, ops) && PointerOps(ops) && (OnPointer(op) || op.Learn?) && ValidPicks(st, op, p)
    requires OnPointer(op) ==> Alone(st.names, ops, op)
    ensures MatchedOn(Perform(st, op, p).core, ops + [op], q)
  {
    if op.Send? {
      SendMatches(st, ops, op, p, q);
    } else if op.Recv? {
      RecvMatches(st, ops, op, p, q);
    } else {
      StepLists(ops, op, q);
      assert MatchedOn(st.core, ops, q);
    }
  }

  lemma StepCounts(st: Pairs, ops: seq<Op>, op: Op, p: Picks, q: string)
    requires Matched(st, ops) && PointerOps(ops) && (OnPointer(op) || op.Learn?) && ValidPicks(st, op, p)
    requires OnPointer(op) ==> Alone(st.names, ops, op)
    ensures Count(Perform(st, op, p).tally.matched, q) == Min(|SendsOn(ops + [op], q)|, |RecvsOn(ops + [op], q)|)
    ensures Perform(st, op, p).tally.unknown == 0
  {
    if op.Send? {
      SendCounts(st, ops, op, p, q);
    } else if op.Recv? {
      RecvCounts(st, ops, op, p, q);
    } else {
      StepLists(ops, op, q);
    }
  }

  lemma StepMatches(st: Pairs, ops: seq<Op>, op: Op, p: Picks)
    requires Matched(st, ops) && PointerOps(ops) && (OnPointer(op) || op.Learn?) && ValidPicks(st, op, p)
    requires OnPointer(op) ==> Alone(st.names, ops, op)
    ensures Matched(Perform(st, op, p), ops + [op])
  {
    var st' := Perform(st, op, p);
    forall q ensures MatchedOn(st'.core, ops + [op], q) {
      StepMatchesOn(st, ops, op, p, q);
    }
    forall q ensures Count(st'.tally.matched, q) == Min(|SendsOn(ops + [op], q)|, |RecvsOn(ops + [op], q)|) {
      StepCounts(st, ops, op, p, q);
    }
    StepCounts(st, ops, op, p, "");
  }

  lemma SeparateLast(ops: seq<Op>, states: seq<Pairs>)
    requires |states| == |ops| + 1 && Separate(ops, states) && ops != [] && OnPointer(ops[|ops| - 1])
    ensures Alone(states[|ops| - 1].names, ops[..|ops| - 1], ops[|ops| - 1])
  {
    var init, op := ops[..|ops| - 1], ops[|ops| - 1];
    forall j | 0 <= j < |init| && OnPointer(init[j]) && init[j].ptr != op.ptr
      ensures !Answers(states[|ops| - 1].names, init[j].ptr, op.site.wanted)
    {
      assert OnPointer(ops[j]);
    }
  }

  lemma {:induction false} PointerRunsMatch(ops: seq<Op>, states: seq<Pairs>)
    requires Run({}, ops, states) && PointerOps(ops) && Separate(ops, states)
    ensures Matched(states[|ops|], ops)
    decreases |ops|
  {
    if ops != [] {
      RunPrefix({}, ops, states);
      var init, op, st := ops[..|ops| - 1], ops[|ops| - 1], states[|ops| - 1];
      PointerRunsMatch(init, states[..|ops|]);
      var p :| ValidPicks(st, op, p) && states[|ops|] == Perform(st, op, p);
      if OnPointer(op) { SeparateLast(ops, states); }
      StepMatches(st, init, op, p);
      assert ops == init + [op];
    }
  }

  /**
   Main result: in every interleaving, whatever the searches by name try first,
   receive k on a pointer is emitted paired with the id and the goroutine of
   send k on that pointer; the unmatched rest waits in order.
   */
  lemma IndexPairing(ops: seq<Op>, states: seq<Pairs>, ptr: string, k: nat)
    requires Run({}, ops, states) && PointerOps(ops) && Separate(ops, states)
    ensures var c, s, r := states[|ops|].core, SendsOn(ops, ptr), RecvsOn(ops, ptr);
            && |PairedOn(c.emitted, ptr)| == Min(|s|, |r|)
            && (k < |s| && k < |r| ==> PairedOn(c.emitted, ptr)[k] == Match(r[k], s[k]))
            && SendQ(c, ptr) == s[Min(|s|, |r|)..] && RecvQ(c, ptr) == r[Min(|s|, |r|)..]
  {
    PointerRunsMatch(ops, states);
    assert MatchedOn(states[|ops|].core, ops, ptr);
  }

  /** Some receive waits on another pointer that answers to the name of the send. */
  ghost predicate OtherAnswers(st: Pairs, s: Op)
    requires s.Send? && OnPointer(s)
  {
    s.site.wanted != "" && exists k :: k in st.core.recvs && k != s.ptr && RecvQ(st.core, k) != [] && Answers(st.names, k, s.site.wanted)
  }

  /**
   Names that are not apart do cross channels. In every state a send meets a
   receive on its own pointer if one waits there; otherwise it is paired with a
   receive of another pointer exactly if one waits that answers to its name.
   */
  lemma CrossPairingExactly(st: Pairs, s: Op, p: Picks)
    requires s.Send? && OnPointer(s) && ValidPicks(st, s, p)
    ensures var slot := SlotFor(st.core, s, p);
            && (slot == Early(s.ptr) <==> RecvQ(st.core, s.ptr) != [])
            && (slot.Early? && slot.key != s.ptr <==> RecvQ(st.core, s.ptr) == [] && OtherAnswers(st, s))
            && (slot.Early? && slot.key != s.ptr ==> Answers(st.names, slot.key, s.site.wanted))
  {
    var slot := SlotFor(st.core, s, p);
    if RecvQ(st.core, s.ptr) == [] && OtherAnswers(st, s) {
      var k :| k in st.core.recvs && k != s.ptr && RecvQ(st.core, k) != [] && Answers(st.names, k, s.site.wanted);
      assert p.recv.Some?;
    }
    if slot.Early? && slot.key != s.ptr {
      assert slot.key in st.core.recvs && RecvQ(st.core, slot.key) != [];
    }
  }
}
