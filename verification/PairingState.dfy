/** The pairing part of the parser's state: the maps and counters that each operation updates in place. */
module ParseState {
  import opened Shared
  import opened ChannelKeys
  import opened ChannelNames
  import opened Pairing
  import SelectLogs

  function EndOp(send: bool, ch: string, chPtr: string, g: int, role: string, t: nat): Op {
    if send then Send(ch, SiteOf(ch), chPtr, g, role, t) else Recv(ch, SiteOf(ch), chPtr, g, role, t)
  }

  /** A chosen case without a pointer is matched by its key if that is one. */
  function ChosenOp(info: SelectLogs.CaseInfo, g: int, role: string, t: nat): Op {
    var ptr := if info.chPtr == "" && IsPointerString(info.chKey) then info.chKey else info.chPtr;
    if info.kind == "send" then SelectSend(info.chName, SiteOf(info.chName), ptr, g, role, t, info.chKey, info.chPtr)
    else SelectRecv(info.chName, SiteOf(info.chName), ptr, g, role, t, info.chKey, info.chPtr)
  }

  /** A chosen case that is neither a send nor a receive is only announced. */
  function Announcement(info: SelectLogs.CaseInfo, g: int, role: string, t: nat): Emitted {
    Emitted(ChanRecv, t, info.chName, info.chKey, info.chPtr, g, role, "select", 0, 0)
  }

  /** The events after: those before, some others, and e. */
  ghost predicate EndsWith(before: seq<Emitted>, after: seq<Emitted>, e: Emitted) {
    after != [] && before <= after[..|after| - 1] && after[|after| - 1] == e
  }

  /** What a chosen send does to ids and events. */
  lemma ChosenSendFields(st: Pairs, info: SelectLogs.CaseInfo, g: int, role: string, t: nat, p: Picks)
    requires info.kind == "send"
    ensures var c := Perform(st, ChosenOp(info, g, role, t), p).core;
            && c.nextID == st.core.nextID + 1
            && EndsWith(st.core.emitted, c.emitted,
                        Emitted(ChanSend, t, info.chName, info.chKey, info.chPtr, g, role, "paired", 0, st.core.nextID))
  {
    var op := ChosenOp(info, g, role, t);
    var events := SendEvents(st.core, op, p);
    assert events[|events| - 1] == SentEvent(op, st.core.nextID);
    assert AfterSend(st.core, op, p).emitted == st.core.emitted + events;
  }

  /** And to its queue, if nobody was there. */
  lemma ChosenSendWaits(st: Pairs, info: SelectLogs.CaseInfo, g: int, role: string, t: nat, p: Picks)
    requires info.kind == "send" && p.recv.None? && p.credit.None?
    ensures var c := Perform(st, ChosenOp(info, g, role, t), p).core;
            var ptr := if info.chPtr == "" && IsPointerString(info.chKey) then info.chKey else info.chPtr;
            var key := if ptr != "" then ptr else FullName(ParseChKey(info.chName));
            SendQ(c, key) == SendQ(st.core, key) + [SendRec(t, g, role, ptr, st.core.nextID)]
  {
    var op := ChosenOp(info, g, role, t);
    assert SlotFor(st.core, op, p) == Waiting(KeyFor(op.site, op.ptr));
  }

  lemma ChosenRecvFields(st: Pairs, info: SelectLogs.CaseInfo, g: int, role: string, t: nat, p: Picks)
    requires info.kind == "recv"
    ensures var c := Perform(st, ChosenOp(info, g, role, t), p).core;
            && c.nextID == st.core.nextID && c.emitted != []
            && var e := c.emitted[|c.emitted| - 1];
               && EndsWith(st.core.emitted, c.emitted, e)
               && e == Emitted(ChanRecv, t, info.chName, info.chKey, info.chPtr, g, role, e.source, e.peerG, e.msgID)
  {
  }

  class PairingState {
    var sendsByKey: map<string, seq<SendRec>>
    var pendingRecvByKey: map<string, seq<RecvRec>>
    var pendingSelectRecv: map<string, nat>
    var nextMsgID: nat
    var emitted: seq<Emitted>
    var matchedPairsByChannel: map<string, nat>
    var unknownChannelID: nat
    var channelNameByPtr: map<string, string>
    const skip: set<string>

    function Queues(): Core
      reads this
    {
      Core(sendsByKey, pendingRecvByKey, pendingSelectRecv, nextMsgID, emitted)
    }

    function Counters(): Tally
      reads this
    {
      Tally(matchedPairsByChannel, unknownChannelID)
    }

    function View(): Pairs
      reads this
    {
      Pairs(Queues(), Counters(), channelNameByPtr, skip)
    }

    constructor (skip: set<string>)
      ensures View() == Fresh(skip)
    {
      sendsByKey, pendingRecvByKey, pendingSelectRecv := map[], map[], map[];
      nextMsgID, emitted, matchedPairsByChannel, unknownChannelID, channelNameByPtr := 1, [], map[], 0, map[];
      this.skip := skip;
    }

    /** The queue of sends, among those answering to the name, whose first send is the earliest. */
    method FindSendQueueByName(site: Site) returns (pick: Option<string>)
      ensures NamedSendPick(Queues(), channelNameByPtr, site, pick)
    {
      pick := None;
      if site.wanted == "" { return; }
      var bestTime := -1;
      var todo := sendsByKey.Keys;
      while todo != {}
        invariant todo <= sendsByKey.Keys
        invariant pick.None? <==> bestTime == -1
        invariant pick.Some? ==> SendQ(Queues(), pick.value) != [] && Answers(channelNameByPtr, pick.value, site.wanted)
                                 && SendQ(Queues(), pick.value)[0].time == bestTime
        invariant forall k :: k in sendsByKey && k !in todo && sendsByKey[k] != [] && Answers(channelNameByPtr, k, site.wanted) ==>
                    pick.Some? && bestTime <= sendsByKey[k][0].time
      {
        var k :| k in todo;
        todo := todo - {k};
        var q := sendsByKey[k];
        if q != [] && Answers(channelNameByPtr, k, site.wanted) && (bestTime < 0 || q[0].time < bestTime) {
          bestTime, pick := q[0].time, Some(k);
        }
      }
    }

    /** The key of an early select receive that a send can use up. */
    method ResolvePendingSelectRecv(site: Site, ptr: string) returns (pick: Option<string>)
      ensures CreditPick(Queues(), channelNameByPtr, site, ptr, pick)
    {
      var opKey := KeyFor(site, ptr);
      if opKey in pendingSelectRecv && pendingSelectRecv[opKey] > 0 { return Some(opKey); }
      if site.wanted == "" { return None; }
      var todo := pendingSelectRecv.Keys;
      while todo != {}
        invariant todo <= pendingSelectRecv.Keys
        invariant forall k :: k in pendingSelectRecv && k !in todo && pendingSelectRecv[k] > 0 ==>
                    !Answers(channelNameByPtr, k, site.wanted)
      {
        var k :| k in todo;
        todo := todo - {k};
        if pendingSelectRecv[k] > 0 && Answers(channelNameByPtr, k, site.wanted) { return Some(k); }
      }
      return None;
    }

    /** The key of a queue with an early receive. */
    method FindPendingRecv(site: Site, ptr: string) returns (pick: Option<string>)
      ensures RecvPick(Queues(), channelNameByPtr, site, ptr, pick)
    {
      var opKey := KeyFor(site, ptr);
      if opKey in pendingRecvByKey && pendingRecvByKey[opKey] != [] { return Some(opKey); }
      if site.wanted == "" { return None; }
      var todo := pendingRecvByKey.Keys;
      while todo != {}
        invariant todo <= pendingRecvByKey.Keys
        invariant forall k :: k in pendingRecvByKey && k !in todo && pendingRecvByKey[k] != [] ==>
                    !Answers(channelNameByPtr, k, site.wanted)
      {
        var k :| k in todo;
        todo := todo - {k};
        if pendingRecvByKey[k] != [] && Answers(channelNameByPtr, k, site.wanted) { return Some(k); }
      }
      return None;
    }

    method PopPendingRecv(site: Site, ptr: string) returns (pick: Option<string>, rec: RecvRec)
      modifies this`pendingRecvByKey
      ensures RecvPick(old(Queues()), channelNameByPtr, site, ptr, pick)
      ensures pick.None? ==> pendingRecvByKey == old(pendingRecvByKey)
      ensures pick.Some? ==> var q := RecvQ(old(Queues()), pick.value);
                q != [] && rec == q[0] && pendingRecvByKey == old(pendingRecvByKey)[pick.value := q[1..]]
    {
      pick := FindPendingRecv(site, ptr);
      if pick.Some? {
        var q := pendingRecvByKey[pick.value];
        rec := q[0];
        pendingRecvByKey := pendingRecvByKey[pick.value := q[1..]];
      } else {
        rec := RecvRec(0, 0, "", "", "");
      }
    }

    method CountMatch(channelID: string)
      modifies this`matchedPairsByChannel, this`unknownChannelID
      ensures Counters() == CountPair(old(Counters()), channelID)
    {
      if channelID == "" {
        unknownChannelID := unknownChannelID + 1;
      } else {
        matchedPairsByChannel := matchedPairsByChannel[channelID := Count(matchedPairsByChannel, channelID) + 1];
      }
    }

    /**
     The end of a region send or receive. It is announced first; a send takes the
     next message id and announces the message, a receive takes none.
     */
    method HandleRegionOp(send: bool, ch: string, chPtr: string, g: int, role: string, t: nat) returns (ghost p: Picks)
      modifies this
      ensures ValidPicks(old(View()), EndOp(send, ch, chPtr, g, role, t), p)
      ensures View() == Perform(old(View()), EndOp(send, ch, chPtr, g, role, t), p)
      ensures var key := if chPtr != "" then chPtr else FullName(ParseChKey(ch));
              var complete := if send then SendComplete else RecvComplete;
              var done := Emitted(complete, t, ch, key, chPtr, g, role, "region", 0, 0);
              if send
              then && nextMsgID == old(nextMsgID) + 1
                   && old(emitted) + [done, Emitted(ChanSend, t, ch, key, chPtr, g, role, "paired", 0, old(nextMsgID))] <= emitted
              else nextMsgID == old(nextMsgID) && old(emitted) + [done] <= emitted
    {
      p := Complete(EndOp(send, ch, chPtr, g, role, t));
    }

    /**
     A chosen select case; without any channel identity it is dropped. A send
     takes the next message id, and the case itself is announced last. A case
     without a pointer is matched under its key, if that is a pointer.
     */
    method EmitSelectChosenCase(info: SelectLogs.CaseInfo, g: int, role: string, t: nat) returns (ghost p: Picks)
      modifies this
      ensures info.chPtr == "" && info.chKey == "" && info.chName == "" ==> View() == old(View())
      ensures SelectLogs.HasIdentity(info) && (info.kind == "send" || info.kind == "recv") ==>
                && ValidPicks(old(View()), ChosenOp(info, g, role, t), p)
                && View() == Perform(old(View()), ChosenOp(info, g, role, t), p)
      ensures (info.chPtr != "" || info.chKey != "" || info.chName != "") && info.kind == "send" ==>
                && nextMsgID == old(nextMsgID) + 1
                && EndsWith(old(emitted), emitted,
                            Emitted(ChanSend, t, info.chName, info.chKey, info.chPtr, g, role, "paired", 0, old(nextMsgID)))
                && (p.recv.None? && p.credit.None? ==>
                      var ptr := if info.chPtr == "" && IsPointerString(info.chKey) then info.chKey else info.chPtr;
                      var key := if ptr != "" then ptr else FullName(ParseChKey(info.chName));
                      SendQ(Queues(), key) == old(SendQ(Queues(), key)) + [SendRec(t, g, role, ptr, old(nextMsgID))])
      ensures (info.chPtr != "" || info.chKey != "" || info.chName != "") && info.kind == "recv" ==>
                && nextMsgID == old(nextMsgID) && emitted != []
                && var e := emitted[|emitted| - 1];
                   && EndsWith(old(emitted), emitted, e)
                   && e == Emitted(ChanRecv, t, info.chName, info.chKey, info.chPtr, g, role, e.source, e.peerG, e.msgID)
      ensures (info.chPtr != "" || info.chKey != "" || info.chName != "") && info.kind != "send" && info.kind != "recv" ==>
                var e := Emitted(ChanRecv, t, info.chName, info.chKey, info.chPtr, g, role, "select", 0, 0);
                View() == old(View()).(core := old(Queues()).(emitted := old(emitted) + [e]))
    {
      p := Picks(None, None, None);
      if !SelectLogs.HasIdentity(info) { return; }
      if info.kind == "send" || info.kind == "recv" {
        p := Complete(ChosenOp(info, g, role, t));
        if info.kind == "send" {
          ChosenSendFields(old(View()), info, g, role, t, p);
          if p.recv.None? && p.credit.None? { ChosenSendWaits(old(View()), info, g, role, t, p); }
        } else {
          ChosenRecvFields(old(View()), info, g, role, t, p);
        }
      } else {
        emitted := emitted + [Announcement(info, g, role, t)];
      }
    }

    /** One operation, whatever it is. */
    method Complete(op: Op) returns (ghost p: Picks)
      modifies this
      ensures ValidPicks(old(View()), op, p) && View() == Perform(old(View()), op, p)
    {
      match op
      case Send(_, _, _, _, _, _) => p := CompleteSend(op);
      case SelectSend(_, _, _, _, _, _, _, _) => p := CompleteSend(op);
      case Recv(_, _, _, _, _, _) => p := RegionRecv(op);
      case SelectRecv(_, _, _, _, _, _, _, _) => p := SelectReceive(op);
      case Learn(ptr, name) =>
        channelNameByPtr := channelNameByPtr[ptr := name];
        p := Picks(None, None, None);
    }

    /**
     A new send takes an early receive, or a credit, or goes to its queue. The
     search for a credit changes nothing, so it may be made in any case.
     */
    method PlaceSend(op: Op, mid: nat) returns (slot: Slot, rec: RecvRec, ghost p: Picks)
      requires op.IsSend()
      modifies this`sendsByKey, this`pendingRecvByKey, this`pendingSelectRecv
      ensures ValidPicks(old(View()), op, p) && slot == SlotFor(old(Queues()), op, p)
      ensures slot.Early? ==> RecvQ(old(Queues()), slot.key) != [] && rec == RecvQ(old(Queues()), slot.key)[0]
      ensures mid == old(Queues()).nextID ==>
                Queues() == AfterSend(old(Queues()), op, p).(nextID := nextMsgID, emitted := emitted)
    {
      var pick;
      pick, rec := PopPendingRecv(op.site, op.ptr);
      var credit := ResolvePendingSelectRecv(op.site, op.ptr);
      p := Picks(pick, credit, None);
      if pick.Some? {
        slot := Early(pick.value);
      } else if credit.Some? {
        slot := OnCredit(credit.value);
        pendingSelectRecv := pendingSelectRecv[credit.value := pendingSelectRecv[credit.value] - 1];
      } else {
        var k := KeyFor(op.site, op.ptr);
        slot := Waiting(k);
        sendsByKey := sendsByKey[k := (if k in sendsByKey then sendsByKey[k] else []) + [NewSend(op, mid)]];
      }
    }

    /** A region announces the send before the early receipt, a select after it. */
    method EmitSend(op: Op, mid: nat, slot: Slot, rec: RecvRec, ghost c: Core, ghost p: Picks)
      requires op.IsSend() && mid == c.nextID && slot == SlotFor(c, op, p)
      requires slot.Early? ==> RecvQ(c, slot.key) != [] && rec == RecvQ(c, slot.key)[0]
      modifies this`emitted
      ensures emitted == old(emitted) + SendEvents(c, op, p)
    {
      var receipt := if slot.Early? then [EarlyReceipt(op, rec, mid)] else [];
      if op.Send? {
        emitted := emitted + [DoneEvent(op), SentEvent(op, mid)] + receipt;
      } else {
        emitted := emitted + receipt + [SentEvent(op, mid)];
      }
    }

    /** A region send or a chosen select send. */
    method CompleteSend(op: Op) returns (ghost p: Picks)
      requires op.IsSend()
      modifies this
      ensures ValidPicks(old(View()), op, p) && channelNameByPtr == old(channelNameByPtr)
      ensures Queues() == AfterSend(old(Queues()), op, p)
      ensures Counters() == SendTally(old(Queues()), old(Counters()), op, p)
    {
      var mid := nextMsgID;
      var slot, rec;
      slot, rec, p := PlaceSend(op, mid);
      nextMsgID := nextMsgID + 1;
      EmitSend(op, mid, slot, rec, old(Queues()), p);
      CountSend(op, slot);
    }

    /** A send without a channel is counted as unknown; one that is received is counted for its channel. */
    method CountSend(op: Op, slot: Slot)
      requires op.IsSend()
      modifies this`matchedPairsByChannel, this`unknownChannelID
      ensures forall c, p :: slot == SlotFor(c, op, p) ==> Counters() == SendTally(c, old(Counters()), op, p)
    {
      var channelID := if op.SelectSend? && op.chKey != "" then op.chKey else ChannelID(op.site, op.ptr);
      if channelID == "" { unknownChannelID := unknownChannelID + 1; }
      if !slot.Waiting? && !(op.SelectSend? && channelID == "") { CountMatch(channelID); }
    }

    /** The queue of sends a receive may take from: its own, or one found by name. */
    method QueueForRecv(site: Site, ptr: string, byName: bool) returns (opKey: string, q: seq<SendRec>, ghost pick: Option<string>)
      ensures SendPick(Queues(), channelNameByPtr, site, ptr, byName, pick)
      ensures q == SendQ(Queues(), opKey) && opKey == if pick.Some? then pick.value else KeyFor(site, ptr)
      ensures pick.Some? <==> q != []
    {
      opKey := KeyFor(site, ptr);
      q := if opKey in sendsByKey then sendsByKey[opKey] else [];
      pick := if q != [] then Some(opKey) else None;
      if q == [] && byName {
        var alt := FindSendQueueByName(site);
        pick := alt;
        if alt.Some? { opKey, q := alt.value, sendsByKey[alt.value]; }
      }
    }

    method RegionRecv(op: Op) returns (ghost p: Picks)
      requires op.Recv?
      modifies this
      ensures ValidPicks(old(View()), op, p) && channelNameByPtr == old(channelNameByPtr)
      ensures Queues() == AfterRecv(old(Queues()), skip, op, p)
      ensures Counters() == RecvTally(old(Queues()), old(Counters()), skip, op, p)
    {
      var own, chPtr := KeyFor(op.site, op.ptr), op.ptr;
      var opKey, q;
      ghost var pick;
      opKey, q, pick := QueueForRecv(op.site, op.ptr, op.ptr == "");
      p := Picks(None, None, pick);
      emitted := emitted + [DoneEvent(op)];
      if q == [] {
        var waiting := if opKey in pendingRecvByKey then pendingRecvByKey[opKey] else [];
        pendingRecvByKey := pendingRecvByKey[opKey := waiting + [RecvRec(op.t, op.g, op.role, op.ch, chPtr)]];
        return;
      }
      var sr := q[0];
      if opKey != own && chPtr == "" { chPtr := sr.ptr; }
      sendsByKey := sendsByKey[opKey := q[1..]];
      if op.site.base in skip { return; }
      PairRecv(op, sr, chPtr);
    }

    /** The matched completion of the send is emitted again, then the receive with the id of the send. */
    method PairRecv(op: Op, sr: SendRec, chPtr: string)
      requires op.Recv?
      modifies this`matchedPairsByChannel, this`unknownChannelID, this`emitted
      ensures Counters() == CountPair(old(Counters()), ChannelID(op.site, chPtr))
      ensures emitted == old(emitted)
                + [Emitted(SendComplete, sr.time, op.ch, KeyFor(op.site, sr.ptr), sr.ptr, sr.g, sr.role, "region", 0, 0)]
                + [Emitted(ChanRecv, op.t, op.ch, KeyFor(op.site, chPtr), chPtr, op.g, op.role, "paired", sr.g, sr.id)]
    {
      CountMatch(ChannelID(op.site, chPtr));
      emitted := emitted + [Emitted(SendComplete, sr.time, op.ch, KeyFor(op.site, sr.ptr), sr.ptr, sr.g, sr.role, "region", 0, 0)];
      emitted := emitted + [Emitted(ChanRecv, op.t, op.ch, KeyFor(op.site, chPtr), chPtr, op.g, op.role, "paired", sr.g, sr.id)];
    }

    /** A select receive, paired if it found a send. */
    method SelectReceive(op: Op) returns (ghost p: Picks)
      requires op.SelectRecv?
      modifies this
      ensures ValidPicks(old(View()), op, p) && View() == Perform(old(View()), op, p)
    {
      var found;
      found, p := MatchSelectRecv(op);
      var e := match found
        case Some(head) => Emitted(ChanRecv, op.t, op.ch, op.chKey, op.chPtr, op.g, op.role, "paired", head.g, head.id)
        case None => Emitted(ChanRecv, op.t, op.ch, op.chKey, op.chPtr, op.g, op.role, "select", 0, 0);
      emitted := emitted + [e];
      assert found.None? ==> Queues() == AfterRecv(old(Queues()), skip, op, p);
      assert found.Some? ==> Queues() == AfterRecv(old(Queues()), skip, op, p);
    }

    /** The send that a select receive takes; without one the receive is remembered as credit. */
    method MatchSelectRecv(op: Op) returns (found: Option<SendRec>, ghost p: Picks)
      requires op.SelectRecv?
      modifies this`sendsByKey, this`pendingSelectRecv, this`matchedPairsByChannel, this`unknownChannelID
      ensures ValidPicks(old(View()), op, p)
      ensures found == if Takes(old(Queues()), p) then Some(Head(old(Queues()), p)) else None
      ensures Queues() == AfterRecv(old(Queues()), skip, op, p).(emitted := emitted)
      ensures Counters() == RecvTally(old(Queues()), old(Counters()), skip, op, p)
    {
      var opKey, q;
      ghost var pick;
      opKey, q, pick := QueueForRecv(op.site, op.ptr, true);
      p := Picks(None, None, pick);
      if q == [] {
        pendingSelectRecv := AddCredit(pendingSelectRecv, opKey);
        if op.site.base != "" { pendingSelectRecv := AddCredit(pendingSelectRecv, op.site.full); }
        return None, p;
      }
      found := Some(q[0]);
      sendsByKey := sendsByKey[opKey := q[1..]];
      CountMatch(if op.chKey != "" then op.chKey else KeyFor(op.site, op.chPtr));
    }
  }

  /** Every sequence of operations that the parser performs is a run. */
  method Replay(skip: set<string>, ops: seq<Op>) returns (st: PairingState, ghost states: seq<Pairs>)
    ensures Run(skip, ops, states) && st.View() == states[|ops|]
  {
    st := new PairingState(skip);
    states := [st.View()];
    for i := 0 to |ops|
      invariant fresh(st)
      invariant Run(skip, ops[..i], states) && st.View() == states[i]
    {
      ghost var before := st.View();
      ghost var p := st.Complete(ops[i]);
      assert ValidPicks(before, ops[i], p) && st.View() == Perform(before, ops[i], p);
      assert ops[..i + 1] == ops[..i] + [ops[i]];
      states := states + [st.View()];
    }
    assert ops[..|ops|] == ops;
  }
}
