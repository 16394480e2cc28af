/** The counters kept while pairing against the audit recomputed from the emitted events. */
module AuditAgreement {
  import opened Shared
  import opened AuditOrder
  import opened Pairing
  import opened MessageIds
  import opened UnmatchedAudit
  import opened IndexMatching

  // ----- the summary of the kept counters -----

  ghost function Waiting(recvs: map<string, seq<RecvRec>>): map<string, nat> {
    map k | k in recvs :: |recvs[k]|
  }

  function AddEntry(acc: map<string, ChannelAudit>, ch: string, sends: nat, recvs: nat, matched: nat): map<string, ChannelAudit> {
    var entry := Entry(acc, ch);
    acc[ch := ChannelAudit(entry.sends + sends, entry.recvs + recvs, entry.matched + matched)]
  }

  method SummarizeSends(c: Core) returns (acc: map<string, ChannelAudit>, total: nat)
    ensures forall ch :: ch in acc <==> ch != "" && SendQ(c, ch) != []
    ensures forall ch :: ch != "" ==> Entry(acc, ch) == ChannelAudit(|SendQ(c, ch)|, 0, 0)
    ensures total == Total(Lengths(c.sends))
  {
    acc, total := map[], 0;
    var todo := c.sends.Keys;
    ghost var rest := Lengths(c.sends);
    while todo != {}
      invariant todo == rest.Keys && todo <= c.sends.Keys
      invariant forall k :: k in rest ==> rest[k] == |c.sends[k]|
      invariant total + Total(rest) == Total(Lengths(c.sends))
      invariant forall ch :: ch in acc <==> ch != "" && SendQ(c, ch) != [] && ch !in todo
      invariant forall ch :: ch in acc ==> acc[ch] == ChannelAudit(|SendQ(c, ch)|, 0, 0)
    {
      var k :| k in todo;
      todo := todo - {k};
      TotalWithout(rest, k);
      rest := rest - {k};
      var n := |c.sends[k]|;
      if n > 0 {
        total := total + n;
        if k != "" { acc := AddEntry(acc, k, n, 0, 0); }
      }
    }
  }

  function WithRecvs(entry: ChannelAudit, n: nat): ChannelAudit {
    entry.(recvs := entry.recvs + n)
  }

  /** bySend with the receive queues added, except those still to do. */
  ghost predicate RecvsAdded(c: Core, bySend: map<string, ChannelAudit>, acc: map<string, ChannelAudit>, todo: set<string>) {
    && (forall ch :: ch in acc <==> ch in bySend || (ch != "" && RecvQ(c, ch) != [] && ch !in todo))
    && forall ch :: ch != "" ==> Entry(acc, ch) == WithRecvs(Entry(bySend, ch), if ch in todo then 0 else |RecvQ(c, ch)|)
  }

  lemma RecvsStep(c: Core, bySend: map<string, ChannelAudit>, acc: map<string, ChannelAudit>, todo: set<string>, k: string)
    requires RecvsAdded(c, bySend, acc, todo) && k in todo && k in c.recvs
    ensures var n := |c.recvs[k]|;
            RecvsAdded(c, bySend, if n > 0 && k != "" then AddEntry(acc, k, 0, n, 0) else acc, todo - {k})
  {
  }

  method SummarizeRecvs(c: Core, bySend: map<string, ChannelAudit>) returns (acc: map<string, ChannelAudit>, total: nat)
    requires "" !in bySend
    ensures RecvsAdded(c, bySend, acc, {})
    ensures total == Total(Waiting(c.recvs))
  {
    acc, total := bySend, 0;
    var todo := c.recvs.Keys;
    ghost var rest := Waiting(c.recvs);
    while todo != {}
      invariant todo == rest.Keys && todo <= c.recvs.Keys
      invariant forall k :: k in rest ==> rest[k] == |c.recvs[k]|
      invariant total + Total(rest) == Total(Waiting(c.recvs))
      invariant RecvsAdded(c, bySend, acc, todo)
    {
      var k :| k in todo;
      RecvsStep(c, bySend, acc, todo, k);
      todo := todo - {k};
      TotalWithout(rest, k);
      rest := rest - {k};
      var n := |c.recvs[k]|;
      if n > 0 {
        total := total + n;
        if k != "" { acc := AddEntry(acc, k, 0, n, 0); }
      }
    }
  }

  method SummarizePairs(t: Tally, byQueue: map<string, ChannelAudit>) returns (acc: map<string, ChannelAudit>)
    requires "" !in byQueue
    ensures forall ch :: ch in acc <==> ch in byQueue || (ch != "" && ch in t.matched)
    ensures forall ch :: ch != "" ==> Entry(acc, ch) == Entry(byQueue, ch).(matched := Entry(byQueue, ch).matched + Count(t.matched, ch))
  {
    acc := byQueue;
    var todo := t.matched.Keys;
    while todo != {}
      invariant todo <= t.matched.Keys
      invariant forall ch :: ch in acc <==> ch in byQueue || (ch != "" && ch in t.matched && ch !in todo)
      invariant forall ch :: ch != "" ==>
                  Entry(acc, ch) == Entry(byQueue, ch).(matched := Entry(byQueue, ch).matched + if ch in todo then 0 else Count(t.matched, ch))
    {
      var k :| k in todo;
      todo := todo - {k};
      if k != "" { acc := AddEntry(acc, k, 0, 0, t.matched[k]); }
    }
  }

  /** The entries of the kept counters: one for each named channel with a queue or a count. */
  ghost predicate Summarizes(c: Core, t: Tally, acc: map<string, ChannelAudit>) {
    && (forall ch :: ch in acc <==> ch != "" && (SendQ(c, ch) != [] || RecvQ(c, ch) != [] || ch in t.matched))
    && forall ch :: ch != "" ==> Entry(acc, ch) == ChannelAudit(|SendQ(c, ch)|, |RecvQ(c, ch)|, Count(t.matched, ch))
  }

  method SummaryEntries(c: Core, t: Tally) returns (acc: map<string, ChannelAudit>, sends: nat, recvs: nat)
    ensures Summarizes(c, t, acc)
    ensures sends == Total(Lengths(c.sends)) && recvs == Total(Waiting(c.recvs))
  {
    var bySend, byQueue;
    bySend, sends := SummarizeSends(c);
    byQueue, recvs := SummarizeRecvs(c, bySend);
    acc := SummarizePairs(t, byQueue);
  }

  /** The audit of the kept counters, listed by channel. */
  method AuditSummary(c: Core, t: Tally) returns (ordered: seq<Line<ChannelAudit>>, totals: Totals)
    ensures exists acc :: Summarizes(c, t, acc) && Listing(acc, ordered)
    ensures totals == Totals(Total(Lengths(c.sends)), Total(Waiting(c.recvs)), t.unknown)
  {
    var acc, sends, recvs := SummaryEntries(c, t);
    ordered := ListEntries(acc);
    totals := Totals(sends, recvs, t.unknown);
  }

  // ----- what the recomputation reads -----

  function Observed(e: Emitted): AuditEvent {
    var kind := if e.kind.ChanSend? then SendEvent else if e.kind.ChanRecv? then RecvEvent else OtherEvent;
    AuditEvent(kind, e.source, "", "", e.msgID, e.channelKey, e.channel, e.time)
  }

  function ObservedAll(events: seq<Emitted>): seq<AuditEvent> {
    seq(|events|, i requires 0 <= i < |events| => Observed(events[i]))
  }

  ghost function Sent(events: seq<Emitted>): map<MsgKey, string> {
    ChannelsOf(ObservedAll(events), SendEvent)
  }

  ghost function Got(events: seq<Emitted>): map<MsgKey, string> {
    ChannelsOf(ObservedAll(events), RecvEvent)
  }

  predicate SendsId(e: Emitted, id: int) {
    e.kind.ChanSend? && e.msgID == id
  }

  predicate ReceivesId(e: Emitted, id: int) {
    e.kind.ChanRecv? && e.msgID == id
  }

  lemma SentMeans(events: seq<Emitted>, k: MsgKey)
    ensures k in Sent(events) <==> k.ByMsg? && k.number != 0 && exists i :: 0 <= i < |events| && SendsId(events[i], k.number)
    ensures k in Sent(events) ==>
              exists i :: 0 <= i < |events| && SendsId(events[i], k.number) && Identity(Observed(events[i])) == Sent(events)[k]
  {
    var all := ObservedAll(events);
    ChannelsOfMeans(all, SendEvent, k);
    if k in Sent(events) {
      var i :| 0 <= i < |all| && Carries(all[i], SendEvent, k) && Identity(all[i]) == Sent(events)[k];
      assert SendsId(events[i], k.number);
    } else if k.ByMsg? && k.number != 0 {
      forall i | 0 <= i < |events| ensures !SendsId(events[i], k.number) {
        assert !Carries(all[i], SendEvent, k);
      }
    }
  }

  lemma GotMeans(events: seq<Emitted>, k: MsgKey)
    ensures k in Got(events) <==> k.ByMsg? && k.number != 0 && exists i :: 0 <= i < |events| && ReceivesId(events[i], k.number)
    ensures k in Got(events) ==>
              exists i :: 0 <= i < |events| && ReceivesId(events[i], k.number) && Identity(Observed(events[i])) == Got(events)[k]
  {
    var all := ObservedAll(events);
    ChannelsOfMeans(all, RecvEvent, k);
    if k in Got(events) {
      var i :| 0 <= i < |all| && Carries(all[i], RecvEvent, k) && Identity(all[i]) == Got(events)[k];
      assert ReceivesId(events[i], k.number);
    } else if k.ByMsg? && k.number != 0 {
      forall i | 0 <= i < |events| ensures !ReceivesId(events[i], k.number) {
        assert !Carries(all[i], RecvEvent, k);
      }
    }
  }

  /** No event without a channel is reported: every paired event names its channel. */
  lemma {:induction false} UnknownMeans(events: seq<AuditEvent>)
    ensures UnknownIn(events) == 0 <==> forall i :: 0 <= i < |events| && IsPaired(events[i]) ==> Identity(events[i]) != ""
  {
    if events != [] {
      var init := events[..|events| - 1];
      UnknownMeans(init);
      assert forall i :: 0 <= i < |init| ==> init[i] == events[i];
    }
  }

  lemma {:induction false} ReceiptsMean(events: seq<Emitted>, id: nat)
    ensures Receipts(events, id) > 0 <==> exists i :: 0 <= i < |events| && ReceivesId(events[i], id)
  {
    if events != [] {
      var init, n := events[..|events| - 1], |events| - 1;
      ReceiptsMean(init, id);
      assert forall i :: 0 <= i < n ==> init[i] == events[i];
      if i :| 0 <= i < |events| && ReceivesId(events[i], id) {
        assert i < n ==> ReceivesId(init[i], id);
      }
    }
  }

  // ----- every id is announced -----

  ghost predicate HasSend(events: seq<Emitted>, id: int) {
    exists i :: 0 <= i < |events| && SendsId(events[i], id)
  }

  lemma HasSendExtends(events: seq<Emitted>, more: seq<Emitted>, id: int)
    requires HasSend(events, id)
    ensures HasSend(events + more, id)
  {
    var i :| 0 <= i < |events| && SendsId(events[i], id);
    assert SendsId((events + more)[i], id);
  }

  lemma SendIsAnnounced(c: Core, op: Op, p: Picks)
    requires op.IsSend()
    ensures HasSend(AfterSend(c, op, p).emitted, c.nextID)
  {
    SendEmits(c, op, p);
    var events := SendEvents(c, op, p);
    var i := if op.Send? then 1 else |events| - 1;
    assert events[i] == SentEvent(op, c.nextID);
    assert SendsId((c.emitted + events)[|c.emitted| + i], c.nextID);
  }

  lemma StepEmits(st: Pairs, op: Op, p: Picks) returns (more: seq<Emitted>)
    ensures Perform(st, op, p).core.emitted == st.core.emitted + more
  {
    if op.IsSend() {
      SendEmits(st.core, op, p);
      more := SendEvents(st.core, op, p);
    } else if op.IsRecv() {
      more := RecvEvents(st.core, st.skip, op, p);
      if Takes(st.core, p) && !Skips(st.skip, op) { more := more + [Receipt(st.core, op, p)]; }
    } else {
      more := [];
    }
  }

  lemma {:induction false} RunsAnnounce(skip: set<string>, ops: seq<Op>, states: seq<Pairs>, id: nat)
    requires Run(skip, ops, states) && 1 <= id < states[|ops|].core.nextID
    ensures HasSend(states[|ops|].core.emitted, id)
    decreases |ops|
  {
    RunPrefix(skip, ops, states);
    var st, op := states[|ops| - 1], ops[|ops| - 1];
    var p :| ValidPicks(st, op, p) && states[|ops|] == Perform(st, op, p);
    if id == st.core.nextID {
      SendIsAnnounced(st.core, op, p);
    } else {
      RunsAnnounce(skip, ops[..|ops| - 1], states[..|ops|], id);
      var more := StepEmits(st, op, p);
      HasSendExtends(st.core.emitted, more, id);
    }
  }

  // ----- totals, over every run -----

  /** The keys of the messages that no paired receive took. */
  ghost function Unpaired(l: Ledger): set<MsgKey> {
    if l == [] then {} else Unpaired(l[..|l| - 1]) + if l[|l| - 1].fate.Paired? then {} else {ByMsg(|l|)}
  }

  lemma {:induction false} UnpairedMeans(l: Ledger, k: MsgKey)
    ensures k in Unpaired(l) <==> k.ByMsg? && 1 <= k.number <= |l| && !l[k.number - 1].fate.Paired?
  {
    if l != [] { UnpairedMeans(l[..|l| - 1], k); }
  }

  lemma {:induction false} UnpairedCount(l: Ledger)
    ensures |Unpaired(l)| == |l| - InPlace(l, AtPair)
  {
    if l != [] {
      UnpairedCount(l[..|l| - 1]);
      UnpairedMeans(l[..|l| - 1], ByMsg(|l|));
    }
  }

  lemma PairedIsGot(c: Core, l: Ledger, k: MsgKey)
    requires Accounts(c, l) && UnknownIn(ObservedAll(c.emitted)) == 0
    ensures Received(Got(c.emitted), k) <==> k.ByMsg? && 1 <= k.number <= |l| && l[k.number - 1].fate.Paired?
    ensures k in Got(c.emitted) ==> k.ByMsg? && 1 <= k.number <= |l|
  {
    GotMeans(c.emitted, k);
    UnknownMeans(ObservedAll(c.emitted));
    if k.ByMsg? && 1 <= k.number { ReceiptsMean(c.emitted, k.number); }
    if k in Got(c.emitted) {
      var i :| 0 <= i < |c.emitted| && ReceivesId(c.emitted[i], k.number) && Identity(Observed(c.emitted[i])) == Got(c.emitted)[k];
      assert IsPaired(ObservedAll(c.emitted)[i]);
    }
  }

  lemma IssuedIsSent(c: Core, l: Ledger, k: MsgKey)
    requires Accounts(c, l) && UnknownIn(ObservedAll(c.emitted)) == 0
    requires k.ByMsg? && 1 <= k.number <= |l| ==> HasSend(c.emitted, k.number)
    ensures k in Sent(c.emitted) <==> k.ByMsg? && 1 <= k.number <= |l|
    ensures k in Sent(c.emitted) ==> Sent(c.emitted)[k] != ""
  {
    SentMeans(c.emitted, k);
    UnknownMeans(ObservedAll(c.emitted));
    if k in Sent(c.emitted) {
      var i :| 0 <= i < |c.emitted| && SendsId(c.emitted[i], k.number) && Identity(Observed(c.emitted[i])) == Sent(c.emitted)[k];
      assert IsPaired(ObservedAll(c.emitted)[i]);
    }
  }

  /**
   Over every run, selects and skipped names included: if no paired event lacks
   a channel, the recomputed audit never counts a receive as unmatched, and its
   unmatched sends are the waiting ones that the summary counts, plus those
   absorbed by early selects, plus those skipped.
   */
  lemma TotalsAgree(skip: set<string>, ops: seq<Op>, states: seq<Pairs>, picks: seq<Picks>)
    requires Run(skip, ops, states) && Explains(ops, states, picks)
    requires UnknownIn(ObservedAll(states[|ops|].core.emitted)) == 0
    ensures var c, l := states[|ops|].core, LedgerOf(ops, states, picks);
            && |OpenRecvs(Sent(c.emitted), Got(c.emitted))| == 0
            && |OpenSends(Sent(c.emitted), Got(c.emitted))| ==
               Total(Lengths(c.sends)) + InPlace(l, AtCredit) + InPlace(l, AtSkip)
            && (skip == {} ==> InPlace(l, AtSkip) == 0)
  {
    RunsConserveIds(skip, ops, states, picks);
    var c, l := states[|ops|].core, LedgerOf(ops, states, picks);
    var s, r := Sent(c.emitted), Got(c.emitted);
    forall k ensures k in OpenSends(s, r) <==> k in Unpaired(l)
             ensures k !in OpenRecvs(s, r)
    {
      if k.ByMsg? && 1 <= k.number <= |l| { RunsAnnounce(skip, ops, states, k.number); }
      IssuedIsSent(c, l, k);
      PairedIsGot(c, l, k);
      UnpairedMeans(l, k);
    }
    assert OpenSends(s, r) == Unpaired(l) && OpenRecvs(s, r) == {};
    UnpairedCount(l);
    PlacesCoverLedger(l);
  }
}
