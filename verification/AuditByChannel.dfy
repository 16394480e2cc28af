/** On pointer runs the kept counters and the recomputed audit agree channel by channel. */
module AuditByChannel {
  import opened Shared
  import opened Pairing
  import opened MessageIds
  import opened UnmatchedAudit
  import opened IndexMatching
  import opened AuditAgreement

  /** Message events carry an id and their pointer as channel; the id of a send is one of that pointer. */
  ghost predicate Labelled(e: Emitted, ops: seq<Op>) {
    e.kind.ChanSend? || e.kind.ChanRecv? ==>
      e.channelKey == e.chPtr != "" && e.msgID != 0 && (e.kind.ChanSend? ==> HasId(SendsOn(ops, e.chPtr), e.msgID))
  }

  ghost predicate AllLabelled(events: seq<Emitted>, ops: seq<Op>) {
    forall i :: 0 <= i < |events| ==> Labelled(events[i], ops)
  }

  lemma LabelsStay(e: Emitted, ops: seq<Op>, op: Op)
    requires Labelled(e, ops)
    ensures Labelled(e, ops + [op])
  {
    StepLists(ops, op, e.chPtr);
    var s, t := SendsOn(ops, e.chPtr), SendsOn(ops + [op], e.chPtr);
    if e.kind.ChanSend? {
      var i :| 0 <= i < |s| && s[i].id == e.msgID;
      assert t[i].id == e.msgID;
    }
  }

  lemma SendLabels(st: Pairs, ops: seq<Op>, op: Op, p: Picks)
    requires Matched(st, ops) && PointerOps(ops) && op.Send? && OnPointer(op) && Alone(st.names, ops, op)
    requires ValidPicks(st, op, p)
    ensures AllLabelled(SendEvents(st.core, op, p), ops + [op])
  {
    var c := st.core;
    StepLists(ops, op, op.ptr);
    var t := SendsOn(ops + [op], op.ptr);
    assert t[|t| - 1].id == c.nextID;
    assert Labelled(SentEvent(op, c.nextID), ops + [op]);
    OwnSlot(st, ops, op, p);
    if RecvQ(c, op.ptr) != [] {
      assert MatchedOn(c, ops, op.ptr);
      RecvsCarryPointer(ops, op.ptr);
      assert Labelled(EarlyReceipt(op, RecvQ(c, op.ptr)[0], c.nextID), ops + [op]);
    }
  }

  lemma RecvLabels(st: Pairs, ops: seq<Op>, op: Op, p: Picks)
    requires Matched(st, ops) && PointerOps(ops) && op.Recv? && OnPointer(op) && ValidPicks(st, op, p)
    ensures AllLabelled(RecvEvents(st.core, {}, op, p), ops + [op])
    ensures Takes(st.core, p) ==> Labelled(Receipt(st.core, op, p), ops + [op])
  {
    OwnQueue(st, ops, op, p);
    if Takes(st.core, p) {
      assert MatchedOn(st.core, ops, op.ptr);
      SendIdsPositive(ops, op.ptr);
      ReceiptIsMatch(st.core, op, p);
    }
  }

  lemma JoinLabels(events: seq<Emitted>, more: seq<Emitted>, ops: seq<Op>, op: Op)
    requires AllLabelled(events, ops) && AllLabelled(more, ops + [op])
    ensures AllLabelled(events + more, ops + [op])
  {
    forall i | 0 <= i < |events + more| ensures Labelled((events + more)[i], ops + [op]) {
      if i < |events| { LabelsStay(events[i], ops, op); } else { assert (events + more)[i] == more[i - |events|]; }
    }
  }

  lemma StepLabels(st: Pairs, ops: seq<Op>, op: Op, p: Picks)
    requires Matched(st, ops) && PointerOps(ops) && (OnPointer(op) || op.Learn?) && ValidPicks(st, op, p)
    requires OnPointer(op) ==> Alone(st.names, ops, op)
    requires AllLabelled(st.core.emitted, ops)
    ensures AllLabelled(Perform(st, op, p).core.emitted, ops + [op])
  {
    var c := st.core;
    if op.Send? {
      SendLabels(st, ops, op, p);
      SendEmits(c, op, p);
      JoinLabels(c.emitted, SendEvents(c, op, p), ops, op);
    } else if op.Recv? {
      RecvLabels(st, ops, op, p);
      var events := RecvEvents(c, {}, op, p);
      if Takes(c, p) {
        JoinLabels(c.emitted, events + [Receipt(c, op, p)], ops, op);
        assert c.emitted + (events + [Receipt(c, op, p)]) == c.emitted + events + [Receipt(c, op, p)];
      } else {
        JoinLabels(c.emitted, events, ops, op);
      }
    } else {
      JoinLabels(c.emitted, [], ops, op);
      assert c.emitted + [] == c.emitted;
    }
  }

  lemma {:induction false} PointerRunsAreLabelled(ops: seq<Op>, states: seq<Pairs>)
    requires Run({}, ops, states) && PointerOps(ops) && Separate(ops, states)
    ensures AllLabelled(states[|ops|].core.emitted, ops)
    decreases |ops|
  {
    if ops != [] {
      RunPrefix({}, ops, states);
      var init, op, st := ops[..|ops| - 1], ops[|ops| - 1], states[|ops| - 1];
      PointerRunsAreLabelled(init, states[..|ops|]);
      PointerRunsMatch(init, states[..|ops|]);
      var p :| ValidPicks(st, op, p) && states[|ops|] == Perform(st, op, p);
      if OnPointer(op) { SeparateLast(ops, states); }
      StepLabels(st, init, op, p);
      assert ops == init + [op];
    }
  }

  // ----- ids of different pointers -----

  /** An id is given to one send on one pointer. */
  lemma {:induction false} IdsApart(ops: seq<Op>, p: string, q: string, id: nat)
    requires HasId(SendsOn(ops, p), id) && HasId(SendsOn(ops, q), id)
    ensures p == q
  {
    var init, op := ops[..|ops| - 1], ops[|ops| - 1];
    SendIdsPositive(init, p);
    SendIdsPositive(init, q);
    var s, t := SendsOn(ops, p), SendsOn(ops, q);
    var i :| 0 <= i < |s| && s[i].id == id;
    var j :| 0 <= j < |t| && t[j].id == id;
    if i < |SendsOn(init, p)| && j < |SendsOn(init, q)| {
      assert SendsOn(init, p)[i].id == id && SendsOn(init, q)[j].id == id;
      IdsApart(init, p, q, id);
    }
  }

  lemma {:induction false} PairedOnMeans(events: seq<Emitted>, q: string, e: Emitted)
    ensures e in PairedOn(events, q) <==> e in events && e.kind == ChanRecv && e.msgID != 0 && e.chPtr == q
  {
    if events != [] {
      var init := events[..|events| - 1];
      PairedOnMeans(init, q, e);
      assert events == init + [events[|events| - 1]];
    }
  }

  /** The message of an announced id has the pointer of its send as channel. */
  lemma SentOnPointer(events: seq<Emitted>, ops: seq<Op>, q: string, id: nat)
    requires AllLabelled(events, ops)
    requires HasId(SendsOn(ops, q), id) ==> HasSend(events, id) && id != 0
    ensures ByMsg(id) in Sent(events) && Sent(events)[ByMsg(id)] == q <==> HasId(SendsOn(ops, q), id)
  {
    var k := ByMsg(id);
    SentMeans(events, k);
    if k in Sent(events) {
      var i :| 0 <= i < |events| && SendsId(events[i], id) && Identity(Observed(events[i])) == Sent(events)[k];
      assert Labelled(events[i], ops);
      if HasId(SendsOn(ops, q), id) { IdsApart(ops, q, events[i].chPtr, id); }
    }
  }

  /** Send k of a pointer counts as received exactly if the pointer has a receive k. */
  lemma GotOnPointer(c: Core, ops: seq<Op>, q: string, k: nat)
    requires AllLabelled(c.emitted, ops) && (forall p :: MatchedOn(c, ops, p)) && k < |SendsOn(ops, q)|
    ensures Received(Got(c.emitted), ByMsg(SendsOn(ops, q)[k].id)) <==> k < |RecvsOn(ops, q)|
  {
    var s, r, events := SendsOn(ops, q), RecvsOn(ops, q), c.emitted;
    var id := s[k].id;
    GotMeans(events, ByMsg(id));
    assert MatchedOn(c, ops, q);
    SendIdsPositive(ops, q);
    if k < |r| {
      var e := Match(r[k], s[k]);
      RecvsCarryPointer(ops, q);
      assert PairedOn(events, q)[k] == e;
      PairedOnMeans(events, q, e);
      var i :| 0 <= i < |events| && events[i] == e;
      assert ReceivesId(events[i], id);
    }
    if ByMsg(id) in Got(events) {
      var i :| 0 <= i < |events| && ReceivesId(events[i], id) && Identity(Observed(events[i])) == Got(events)[ByMsg(id)];
      assert Labelled(events[i], ops);
      ReceivedIsMatched(c, ops, q, k, i);
    }
  }

  lemma ReceivedIsMatched(c: Core, ops: seq<Op>, q: string, k: nat, i: nat)
    requires (forall p :: MatchedOn(c, ops, p)) && k < |SendsOn(ops, q)|
    requires i < |c.emitted| && ReceivesId(c.emitted[i], SendsOn(ops, q)[k].id)
    ensures k < |RecvsOn(ops, q)|
  {
    var e := c.emitted[i];
    var p := e.chPtr;
    SendIdsPositive(ops, q);
    PairedOnMeans(c.emitted, p, e);
    assert MatchedOn(c, ops, p);
    var j :| 0 <= j < |PairedOn(c.emitted, p)| && PairedOn(c.emitted, p)[j] == e;
    assert e == Match(RecvsOn(ops, p)[j], SendsOn(ops, p)[j]);
    assert HasId(SendsOn(ops, p), e.msgID) && HasId(SendsOn(ops, q), e.msgID);
    IdsApart(ops, p, q, e.msgID);
  }

  // ----- counting -----

  /** The keys of a list of sends. */
  ghost function Keys(s: seq<SendRec>): set<MsgKey> {
    if s == [] then {} else Keys(s[..|s| - 1]) + {ByMsg(s[|s| - 1].id)}
  }

  lemma {:induction false} KeysMean(s: seq<SendRec>, k: MsgKey)
    ensures k in Keys(s) <==> k.ByMsg? && k.number >= 0 && HasId(s, k.number)
  {
    if s != [] {
      var init, last := s[..|s| - 1], s[|s| - 1];
      KeysMean(init, k);
      assert s == init + [last];
      if k.ByMsg? && k.number >= 0 {
        StillThere(init, last, k.number);
        if i :| 0 <= i < |s| && s[i].id == k.number {
          if i < |init| { assert init[i].id == k.number; }
        }
      }
    }
  }

  lemma {:induction false} KeysCount(s: seq<SendRec>)
    requires forall i, j :: 0 <= i < j < |s| ==> s[i].id < s[j].id
    ensures |Keys(s)| == |s|
  {
    if s != [] {
      KeysCount(s[..|s| - 1]);
      KeysMean(s[..|s| - 1], ByMsg(s[|s| - 1].id));
      assert !HasId(s[..|s| - 1], s[|s| - 1].id);
    }
  }

  /** Number id is the id of a send on q that has (or has not) its receive. */
  lemma IdOnPointer(c: Core, ops: seq<Op>, q: string, id: nat)
    requires AllLabelled(c.emitted, ops) && (forall p :: MatchedOn(c, ops, p)) && c.nextID == SendCount(ops) + 1
    requires forall id :: 1 <= id < c.nextID ==> HasSend(c.emitted, id)
    ensures var s, r, k, all := Sent(c.emitted), Got(c.emitted), ByMsg(id), SendsOn(ops, q);
            var m := Min(|all|, |RecvsOn(ops, q)|);
            && (k in s && s[k] == q && !Received(r, k) <==> HasId(all[m..], id))
            && (k in s && s[k] == q && Received(r, k) <==> HasId(all[..m], id))
  {
    var all := SendsOn(ops, q);
    var m := Min(|all|, |RecvsOn(ops, q)|);
    SendIdsPositive(ops, q);
    SentMeans(c.emitted, ByMsg(id));
    HasIdParts(all, m, id);
    if HasId(all, id) {
      var i :| 0 <= i < |all| && all[i].id == id;
      SentOnPointer(c.emitted, ops, q, id);
      GotOnPointer(c, ops, q, i);
      if i < m { assert all[..m][i].id == id; } else { assert all[m..][i - m].id == id; }
    } else {
      SentOnPointer(c.emitted, ops, q, id);
    }
  }

  lemma HasIdParts(all: seq<SendRec>, m: nat, id: nat)
    requires m <= |all| && forall i, j :: 0 <= i < j < |all| ==> all[i].id < all[j].id
    ensures HasId(all, id) <==> HasId(all[..m], id) || HasId(all[m..], id)
    ensures !(HasId(all[..m], id) && HasId(all[m..], id))
  {
    if i :| 0 <= i < |all| && all[i].id == id {
      if i < m { assert all[..m][i].id == id; } else { assert all[m..][i - m].id == id; }
    }
    if i :| 0 <= i < |all[..m]| && all[..m][i].id == id { assert all[i].id == id; }
    if i :| 0 <= i < |all[m..]| && all[m..][i].id == id { assert all[m + i].id == id; }
  }

  lemma KeyOnPointer(c: Core, ops: seq<Op>, q: string, k: MsgKey)
    requires AllLabelled(c.emitted, ops) && (forall p :: MatchedOn(c, ops, p)) && c.nextID == SendCount(ops) + 1
    requires forall id :: 1 <= id < c.nextID ==> HasSend(c.emitted, id)
    ensures var m := Min(|SendsOn(ops, q)|, |RecvsOn(ops, q)|);
            && (k in UnmatchedKeys(Sent(c.emitted), Got(c.emitted), q) <==> k in Keys(SendsOn(ops, q)[m..]))
            && (k in MatchedKeys(Sent(c.emitted), Got(c.emitted), q) <==> k in Keys(SendsOn(ops, q)[..m]))
  {
    var all := SendsOn(ops, q);
    var m := Min(|all|, |RecvsOn(ops, q)|);
    SentMeans(c.emitted, k);
    KeysMean(all[m..], k);
    KeysMean(all[..m], k);
    if k.ByMsg? && k.number >= 0 { IdOnPointer(c, ops, q, k.number); }
  }

  /** The keys that count for pointer q: its later sends as unmatched, its first ones as matched. */
  lemma KeysOfPointer(c: Core, ops: seq<Op>, q: string)
    requires AllLabelled(c.emitted, ops) && (forall p :: MatchedOn(c, ops, p)) && c.nextID == SendCount(ops) + 1
    requires forall id :: 1 <= id < c.nextID ==> HasSend(c.emitted, id)
    ensures var m := Min(|SendsOn(ops, q)|, |RecvsOn(ops, q)|);
            && UnmatchedKeys(Sent(c.emitted), Got(c.emitted), q) == Keys(SendsOn(ops, q)[m..])
            && MatchedKeys(Sent(c.emitted), Got(c.emitted), q) == Keys(SendsOn(ops, q)[..m])
  {
    var m := Min(|SendsOn(ops, q)|, |RecvsOn(ops, q)|);
    var unmatched, matched := UnmatchedKeys(Sent(c.emitted), Got(c.emitted), q), MatchedKeys(Sent(c.emitted), Got(c.emitted), q);
    var late, first := Keys(SendsOn(ops, q)[m..]), Keys(SendsOn(ops, q)[..m]);
    forall k ensures k in unmatched <==> k in late
             ensures k in matched <==> k in first
    {
      KeyOnPointer(c, ops, q, k);
    }
  }

  // ----- main results -----

  /** On pointer runs the recomputed audit gives each channel its waiting sends and its matched pairs. */
  lemma ChannelsAgree(ops: seq<Op>, states: seq<Pairs>, acc: map<string, ChannelAudit>, ch: string)
    requires Run({}, ops, states) && PointerOps(ops) && Separate(ops, states) && ch != ""
    requires AuditOf(Sent(states[|ops|].core.emitted), Got(states[|ops|].core.emitted), acc)
    ensures Entry(acc, ch) == ChannelAudit(|SendQ(states[|ops|].core, ch)|, 0, Count(states[|ops|].tally.matched, ch))
  {
    var c := states[|ops|].core;
    PointerTotalsAgree(ops, states);
    PointerRunsMatch(ops, states);
    PointerRunsAreLabelled(ops, states);
    forall id | 1 <= id < c.nextID ensures HasSend(c.emitted, id) {
      RunsAnnounce({}, ops, states, id);
    }
    var all := SendsOn(ops, ch);
    var m := Min(|all|, |RecvsOn(ops, ch)|);
    KeysOfPointer(c, ops, ch);
    SendIdsPositive(ops, ch);
    KeysCount(all[m..]);
    KeysCount(all[..m]);
    assert MatchedOn(c, ops, ch);
    assert LoneKeys(Sent(c.emitted), Got(c.emitted), ch) <= OpenRecvs(Sent(c.emitted), Got(c.emitted)) == {};
  }

  /**
   On pointer runs the audit kept while pairing and the one recomputed from the
   events list the same sends and pairs for each channel; only the kept one
   knows of waiting receives.
   */
  lemma AuditsAgree(ops: seq<Op>, states: seq<Pairs>, kept: map<string, ChannelAudit>, told: map<string, ChannelAudit>, ch: string)
    requires Run({}, ops, states) && PointerOps(ops) && Separate(ops, states) && ch != ""
    requires Summarizes(states[|ops|].core, states[|ops|].tally, kept)
    requires AuditOf(Sent(states[|ops|].core.emitted), Got(states[|ops|].core.emitted), told)
    ensures Entry(kept, ch) == Entry(told, ch).(recvs := |RecvQ(states[|ops|].core, ch)|) && Entry(told, ch).recvs == 0
  {
    ChannelsAgree(ops, states, told, ch);
  }

  /** On pointer runs no channel is unknown and the send totals of audit and summary are the same. */
  lemma PointerTotalsAgree(ops: seq<Op>, states: seq<Pairs>)
    requires Run({}, ops, states) && PointerOps(ops) && Separate(ops, states)
    ensures var c := states[|ops|].core;
            && UnknownIn(ObservedAll(c.emitted)) == 0 == states[|ops|].tally.unknown
            && |OpenSends(Sent(c.emitted), Got(c.emitted))| == Total(Lengths(c.sends))
            && |OpenRecvs(Sent(c.emitted), Got(c.emitted))| == 0
  {
    var c := states[|ops|].core;
    PointerRunsMatch(ops, states);
    PointerRunsAreLabelled(ops, states);
    var all := ObservedAll(c.emitted);
    UnknownMeans(all);
    forall i | 0 <= i < |all| && IsPaired(all[i]) ensures Identity(all[i]) != "" {
      assert Labelled(c.emitted[i], ops);
    }
    var picks := RunHasPicks({}, ops, states);
    TotalsAgree({}, ops, states, picks);
    RunsConserveIds({}, ops, states, picks);
    forall i | 0 <= i < |c.emitted| && c.emitted[i].kind.ChanRecv? ensures c.emitted[i].msgID != 0 {
      assert Labelled(c.emitted[i], ops);
    }
    NoEarlySelects(c.emitted);
  }
}
