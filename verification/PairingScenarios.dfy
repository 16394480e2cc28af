/** Two or three operations in any state of the pairing engine, with every event and count that they lead to. */
module PairingScenarios {
  import opened Text
  import opened Shared
  import opened ChannelKeys
  import opened Pairing
  import opened ParseState
  import opened ChannelNames
  import opened SelectLogs

  /** How a channel label is printed as a key, and looked up by. */
  function Printed(ch: string): string {
    FullName(ParseChKey(ch))
  }

  function LookedUp(ch: string): string {
    ToLower(TrimSpace(Printed(ch)))
  }

  function Matched(st: Pairs, channel: string): nat {
    Count(st.tally.matched, channel)
  }

  /** One pair more for this channel, and nothing else counted. */
  ghost predicate OnePairMore(st: Pairs, t: Pairs, channel: string) {
    t.tally.unknown == st.tally.unknown && forall ch :: Matched(t, ch) == Matched(st, ch) + if ch == channel then 1 else 0
  }

  // ----- on one channel -----

  /** A send that finds nobody waits, under its pointer or its printed name. */
  lemma SendWaits(st: Pairs, ptr: string, ch: string, g: int, role: string, t: nat, p: Picks)
    requires p.recv.None? && p.credit.None?
    ensures var after, key := Perform(st, EndOp(true, ch, ptr, g, role, t), p), if ptr != "" then ptr else Printed(ch);
            && after.core.emitted == st.core.emitted
                 + [Emitted(SendComplete, t, ch, key, ptr, g, role, "region", 0, 0),
                    Emitted(ChanSend, t, ch, key, ptr, g, role, "paired", 0, st.core.nextID)]
            && after.core.sends == st.core.sends[key := SendQ(st.core, key) + [SendRec(t, g, role, ptr, st.core.nextID)]]
            && after.core.recvs == st.core.recvs && after.names == st.names && after.skip == st.skip
            && after.tally == if key == "" then st.tally.(unknown := st.tally.unknown + 1) else st.tally
  {
  }

  /** A receive takes the first waiting send of its channel: both are announced, then the receipt with sender and id. */
  lemma ReceiveTakes(st: Pairs, ptr: string, head: SendRec, ch: string, g: int, role: string, t: nat, q: Picks)
    requires ParseChKey(ch).name !in st.skip && head.ptr == ptr && (ptr == "" ==> Printed(ch) != "")
    requires var key := if ptr != "" then ptr else Printed(ch);
             SendQ(st.core, key) != [] && SendQ(st.core, key)[0] == head && q.send == Some(key)
    ensures var after, key := Perform(st, EndOp(false, ch, ptr, g, role, t), q), if ptr != "" then ptr else Printed(ch);
            && after.core.emitted == st.core.emitted
                 + [Emitted(RecvComplete, t, ch, key, ptr, g, role, "region", 0, 0),
                    Emitted(SendComplete, head.time, ch, key, ptr, head.g, head.role, "region", 0, 0)]
                 + [Emitted(ChanRecv, t, ch, key, ptr, g, role, "paired", head.g, head.id)]
            && after.core.sends == st.core.sends[key := SendQ(st.core, key)[1..]]
            && after.core.recvs == st.core.recvs && OnePairMore(st, after, key)
  {
  }

  /**
   A send that finds nobody, then a receive on the same channel - the same
   pointer, or the same printed name where both have none: every event, and one
   pair more.
   */
  lemma SendThenReceive(st: Pairs, ptr: string, ch1: string, g1: int, role1: string, t1: nat, p: Picks,
                        ch2: string, g2: int, role2: string, t2: nat, q: Picks)
    requires ParseChKey(ch2).name !in st.skip && (ptr == "" ==> Printed(ch1) == Printed(ch2) != "")
    requires SendQ(st.core, if ptr != "" then ptr else Printed(ch2)) == [] && p.recv.None? && p.credit.None?
    requires ValidPicks(Perform(st, EndOp(true, ch1, ptr, g1, role1, t1), p), EndOp(false, ch2, ptr, g2, role2, t2), q)
    ensures var id, key := st.core.nextID, if ptr != "" then ptr else Printed(ch2);
            var t := Perform(Perform(st, EndOp(true, ch1, ptr, g1, role1, t1), p), EndOp(false, ch2, ptr, g2, role2, t2), q);
            && t.core.emitted == st.core.emitted
                 + [Emitted(SendComplete, t1, ch1, key, ptr, g1, role1, "region", 0, 0),
                    Emitted(ChanSend, t1, ch1, key, ptr, g1, role1, "paired", 0, id)]
                 + [Emitted(RecvComplete, t2, ch2, key, ptr, g2, role2, "region", 0, 0),
                    Emitted(SendComplete, t1, ch2, key, ptr, g1, role1, "region", 0, 0)]
                 + [Emitted(ChanRecv, t2, ch2, key, ptr, g2, role2, "paired", g1, id)]
            && SendQ(t.core, key) == [] && OnePairMore(st, t, key)
  {
    var st1 := Perform(st, EndOp(true, ch1, ptr, g1, role1, t1), p);
    SendWaits(st, ptr, ch1, g1, role1, t1, p);
    ReceiveTakes(st1, ptr, SendRec(t1, g1, role1, ptr, st.core.nextID), ch2, g2, role2, t2, q);
  }

  /** The same with a receive on a channel that is excluded from pairing: the message is used up, and not received. */
  lemma SendThenSkippedReceive(st: Pairs, ptr: string, ch1: string, g1: int, role1: string, t1: nat, p: Picks,
                               ch2: string, g2: int, role2: string, t2: nat, q: Picks)
    requires ptr != "" && SendQ(st.core, ptr) == [] && ParseChKey(ch2).name in st.skip
    requires ValidPicks(st, EndOp(true, ch1, ptr, g1, role1, t1), p) && p.recv.None? && p.credit.None?
    requires ValidPicks(Perform(st, EndOp(true, ch1, ptr, g1, role1, t1), p), EndOp(false, ch2, ptr, g2, role2, t2), q)
    ensures var t := Perform(Perform(st, EndOp(true, ch1, ptr, g1, role1, t1), p), EndOp(false, ch2, ptr, g2, role2, t2), q);
            && t.core.emitted == st.core.emitted
                 + [Emitted(SendComplete, t1, ch1, ptr, ptr, g1, role1, "region", 0, 0),
                    Emitted(ChanSend, t1, ch1, ptr, ptr, g1, role1, "paired", 0, st.core.nextID)]
                 + [Emitted(RecvComplete, t2, ch2, ptr, ptr, g2, role2, "region", 0, 0)]
            && SendQ(t.core, ptr) == [] && t.tally == st.tally
  {
  }

  /** A receive that has a pointer waits on it, whatever waits under other names. */
  lemma PointerReceiveWaits(st: Pairs, ptr: string, ch: string, g: int, role: string, t: nat, p: Picks)
    requires ptr != "" && SendQ(st.core, ptr) == [] && ValidPicks(st, EndOp(false, ch, ptr, g, role, t), p)
    ensures var after := Perform(st, EndOp(false, ch, ptr, g, role, t), p);
            && RecvQ(after.core, ptr) == RecvQ(st.core, ptr) + [RecvRec(t, g, role, ch, ptr)]
            && after.core.sends == st.core.sends && after.tally == st.tally
            && after.core.emitted == st.core.emitted + [Emitted(RecvComplete, t, ch, ptr, ptr, g, role, "region", 0, 0)]
  {
  }

  /** A send meets the first early receive of its channel. */
  lemma SendMeets(st: Pairs, ptr: string, rec: RecvRec, ch: string, g: int, role: string, t: nat, p: Picks)
    requires ptr != "" && RecvQ(st.core, ptr) != [] && RecvQ(st.core, ptr)[0] == rec && rec.ptr == ptr && p.recv == Some(ptr)
    ensures var after := Perform(st, EndOp(true, ch, ptr, g, role, t), p);
            && after.core.emitted == st.core.emitted
                 + [Emitted(SendComplete, t, ch, ptr, ptr, g, role, "region", 0, 0),
                    Emitted(ChanSend, t, ch, ptr, ptr, g, role, "paired", 0, st.core.nextID),
                    Emitted(ChanRecv, rec.time, rec.ch, ptr, ptr, rec.g, rec.role, "paired", g, st.core.nextID)]
            && after.core.recvs == st.core.recvs[ptr := RecvQ(st.core, ptr)[1..]]
            && after.core.sends == st.core.sends && OnePairMore(st, after, ptr)
  {
  }

  /** A receive that finds nothing, then a send: the receipt comes last, at the time and place of the receive. */
  lemma ReceiveThenSend(st: Pairs, ptr: string, ch1: string, g1: int, role1: string, t1: nat, p: Picks,
                        ch2: string, g2: int, role2: string, t2: nat, q: Picks)
    requires ptr != "" && SendQ(st.core, ptr) == [] && RecvQ(st.core, ptr) == []
    requires ValidPicks(st, EndOp(false, ch1, ptr, g1, role1, t1), p)
    requires ValidPicks(Perform(st, EndOp(false, ch1, ptr, g1, role1, t1), p), EndOp(true, ch2, ptr, g2, role2, t2), q)
    ensures var id := st.core.nextID;
            var t := Perform(Perform(st, EndOp(false, ch1, ptr, g1, role1, t1), p), EndOp(true, ch2, ptr, g2, role2, t2), q);
            && t.core.emitted == st.core.emitted
                 + [Emitted(RecvComplete, t1, ch1, ptr, ptr, g1, role1, "region", 0, 0)]
                 + [Emitted(SendComplete, t2, ch2, ptr, ptr, g2, role2, "region", 0, 0),
                    Emitted(ChanSend, t2, ch2, ptr, ptr, g2, role2, "paired", 0, id),
                    Emitted(ChanRecv, t1, ch1, ptr, ptr, g1, role1, "paired", g2, id)]
            && SendQ(t.core, ptr) == [] && RecvQ(t.core, ptr) == [] && OnePairMore(st, t, ptr)
  {
    PointerReceiveWaits(st, ptr, ch1, g1, role1, t1, p);
    SendMeets(Perform(st, EndOp(false, ch1, ptr, g1, role1, t1), p), ptr, RecvRec(t1, g1, role1, ch1, ptr), ch2, g2, role2, t2, q);
  }

  // ----- by name -----

  /** A key answers to a name itself, or as a pointer that was logged under it; case does not matter. */
  predicate GoesBy(st: Pairs, k: string, wanted: string) {
    ToLower(k) == wanted || (HasPrefix(k, "0x") && k in st.names && ToLower(st.names[k]) == wanted)
  }

  /** Sends wait under no other key that answers to this name. */
  ghost predicate OnlyOne(st: Pairs, wanted: string, ptr: string) {
    forall k :: k in st.core.sends && SendQ(st.core, k) != [] && k != ptr ==> !GoesBy(st, k, wanted)
  }

  lemma OnlyPick(st: Pairs, ch: string, g: int, role: string, t: nat, ptr: string, q: Picks)
    requires LookedUp(ch) != "" && SendQ(st.core, Printed(ch)) == [] && SendQ(st.core, ptr) != []
    requires OnlyOne(st, LookedUp(ch), ptr) && GoesBy(st, ptr, LookedUp(ch))
    requires ValidPicks(st, EndOp(false, ch, "", g, role, t), q)
    ensures q.send == Some(ptr)
  {
    assert ptr in st.core.sends && Answers(st.names, ptr, LookedUp(ch));
  }

  /** A receive without a pointer takes the send it found by name, and its pointer. */
  lemma TakenByName(st: Pairs, ptr: string, head: SendRec, ch: string, g: int, role: string, t: nat, q: Picks)
    requires SendQ(st.core, ptr) == [head] && head.ptr == ptr != "" && ptr != Printed(ch) && ParseChKey(ch).name !in st.skip
    requires q.send == Some(ptr)
    ensures var after := Perform(st, EndOp(false, ch, "", g, role, t), q);
            && after.core.emitted == st.core.emitted
                 + [Emitted(RecvComplete, t, ch, Printed(ch), "", g, role, "region", 0, 0),
                    Emitted(SendComplete, head.time, ch, ptr, ptr, head.g, head.role, "region", 0, 0)]
                 + [Emitted(ChanRecv, t, ch, ptr, ptr, g, role, "paired", head.g, head.id)]
            && SendQ(after.core, ptr) == [] && OnePairMore(st, after, ptr)
  {
  }

  /**
   A pointer is logged under a name, and somebody sends on it; a receive that
   only knows the name, in any case and spacing, gets the message.
   */
  lemma NamedReceiveTakesPointer(st: Pairs, ptr: string, name: string, ch1: string, g1: int, role1: string, t1: nat, p: Picks,
                                 ch2: string, g2: int, role2: string, t2: nat, q: Picks)
    requires HasPrefix(ptr, "0x") && ToLower(name) == LookedUp(ch2) != "" && ParseChKey(ch2).name !in st.skip
    requires SendQ(st.core, ptr) == [] && SendQ(st.core, Printed(ch2)) == [] && ptr != Printed(ch2)
    requires OnlyOne(st, LookedUp(ch2), ptr) && p.recv.None? && p.credit.None?
    requires var st1 := Perform(st, Learn(ptr, name), p);
             var st2 := Perform(st1, EndOp(true, ch1, ptr, g1, role1, t1), p);
             ValidPicks(st2, EndOp(false, ch2, "", g2, role2, t2), q)
    ensures var st1 := Perform(st, Learn(ptr, name), p);
            var st2 := Perform(st1, EndOp(true, ch1, ptr, g1, role1, t1), p);
            var t := Perform(st2, EndOp(false, ch2, "", g2, role2, t2), q);
            && t.core.emitted == st2.core.emitted
                 + [Emitted(RecvComplete, t2, ch2, Printed(ch2), "", g2, role2, "region", 0, 0),
                    Emitted(SendComplete, t1, ch2, ptr, ptr, g1, role1, "region", 0, 0)]
                 + [Emitted(ChanRecv, t2, ch2, ptr, ptr, g2, role2, "paired", g1, st.core.nextID)]
            && SendQ(t.core, ptr) == [] && OnePairMore(st, t, ptr)
  {
    var st1 := Perform(st, Learn(ptr, name), p);
    SendWaits(st1, ptr, ch1, g1, role1, t1, p);
    var st2 := Perform(st1, EndOp(true, ch1, ptr, g1, role1, t1), p);
    OnlyPick(st2, ch2, g2, role2, t2, ptr, q);
    TakenByName(st2, ptr, SendRec(t1, g1, role1, ptr, st.core.nextID), ch2, g2, role2, t2, q);
  }

  /** Of two pointers logged under the name the one with the earlier send is taken. */
  lemma EarlierSendFirst(st: Pairs, first: string, second: string, a: SendRec, b: SendRec,
                         ch: string, g: int, role: string, t: nat, q: Picks)
    requires LookedUp(ch) != "" && SendQ(st.core, Printed(ch)) == [] && first != second
    requires SendQ(st.core, first) == [a] && SendQ(st.core, second) == [b] && a.time < b.time
    requires GoesBy(st, first, LookedUp(ch)) && GoesBy(st, second, LookedUp(ch))
    requires forall k :: k in st.core.sends && SendQ(st.core, k) != [] && k != first && k != second ==> !GoesBy(st, k, LookedUp(ch))
    requires ValidPicks(st, EndOp(false, ch, "", g, role, t), q)
    ensures q.send == Some(first)
  {
    assert first in st.core.sends && Answers(st.names, first, LookedUp(ch)) && Answers(st.names, second, LookedUp(ch));
  }

  /** Where nothing answers to the name the receive waits under its printed key. */
  lemma NamelessReceiveWaits(st: Pairs, ch: string, g: int, role: string, t: nat, q: Picks)
    requires SendQ(st.core, Printed(ch)) == []
    requires forall k :: k in st.core.sends && SendQ(st.core, k) != [] ==> LookedUp(ch) == "" || !GoesBy(st, k, LookedUp(ch))
    requires ValidPicks(st, EndOp(false, ch, "", g, role, t), q)
    ensures var after := Perform(st, EndOp(false, ch, "", g, role, t), q);
            && RecvQ(after.core, Printed(ch)) == RecvQ(st.core, Printed(ch)) + [RecvRec(t, g, role, ch, "")]
            && after.core.sends == st.core.sends && after.tally == st.tally
  {
  }

  // ----- selects -----

  /** What a chosen case is matched under. */
  function MatchPtr(info: CaseInfo): string {
    if info.chPtr == "" && IsPointerString(info.chKey) then info.chKey else info.chPtr
  }

  /** The channel a pair of a chosen case counts for. */
  function CountedFor(info: CaseInfo, ptr: string): string {
    if info.chKey != "" then info.chKey else if ptr != "" then ptr else Printed(info.chName)
  }

  /** A chosen receive takes a waiting send of its pointer. */
  lemma SelectReceiveTakes(st: Pairs, info: CaseInfo, head: SendRec, g: int, role: string, t: nat, q: Picks)
    requires info.kind == "recv" && MatchPtr(info) != "" && SendQ(st.core, MatchPtr(info)) == [head]
    requires CountedFor(info, info.chPtr) != "" && ValidPicks(st, ChosenOp(info, g, role, t), q)
    ensures var after := Perform(st, ChosenOp(info, g, role, t), q);
            && after.core.emitted == st.core.emitted
                 + [Emitted(ChanRecv, t, info.chName, info.chKey, info.chPtr, g, role, "paired", head.g, head.id)]
            && SendQ(after.core, MatchPtr(info)) == [] && OnePairMore(st, after, CountedFor(info, info.chPtr))
  {
  }

  /** With a pointer too a chosen receive looks under its name. */
  lemma SelectReceiveTakesByName(st: Pairs, info: CaseInfo, k: string, head: SendRec, g: int, role: string, t: nat, q: Picks)
    requires info.kind == "recv" && MatchPtr(info) != "" && SendQ(st.core, MatchPtr(info)) == []
    requires SendQ(st.core, k) == [head] && LookedUp(info.chName) != "" && GoesBy(st, k, LookedUp(info.chName))
    requires OnlyOne(st, LookedUp(info.chName), k) && ValidPicks(st, ChosenOp(info, g, role, t), q)
    ensures var after := Perform(st, ChosenOp(info, g, role, t), q);
            && after.core.emitted == st.core.emitted
                 + [Emitted(ChanRecv, t, info.chName, info.chKey, info.chPtr, g, role, "paired", head.g, head.id)]
            && SendQ(after.core, k) == []
  {
    assert k in st.core.sends && Answers(st.names, k, LookedUp(info.chName));
    assert q.send == Some(k);
  }

  /** A chosen receive that finds nothing is announced unpaired, and leaves credit. */
  lemma SelectReceiveLeavesCredit(st: Pairs, info: CaseInfo, g: int, role: string, t: nat, q: Picks)
    requires info.kind == "recv" && MatchPtr(info) != "" && SendQ(st.core, MatchPtr(info)) == []
    requires forall k :: k in st.core.sends && SendQ(st.core, k) != [] ==>
               LookedUp(info.chName) == "" || !GoesBy(st, k, LookedUp(info.chName))
    requires MatchPtr(info) != Printed(info.chName) && ValidPicks(st, ChosenOp(info, g, role, t), q)
    ensures var after := Perform(st, ChosenOp(info, g, role, t), q);
            && after.core.emitted == st.core.emitted
                 + [Emitted(ChanRecv, t, info.chName, info.chKey, info.chPtr, g, role, "select", 0, 0)]
            && Credit(after.core, MatchPtr(info)) == Credit(st.core, MatchPtr(info)) + 1
            && (ParseChKey(info.chName).name != "" ==>
                  Credit(after.core, Printed(info.chName)) == Credit(st.core, Printed(info.chName)) + 1)
            && after.core.sends == st.core.sends && after.tally == st.tally
  {
  }

  /** A chosen send that meets an early receive: the receipt comes first, then the message. */
  lemma SelectSendMeetsReceive(st: Pairs, info: CaseInfo, rec: RecvRec, g: int, role: string, t: nat, p: Picks)
    requires info.kind == "send" && MatchPtr(info) != "" && RecvQ(st.core, MatchPtr(info)) == [rec] && rec.ptr != ""
    requires CountedFor(info, MatchPtr(info)) != "" && ValidPicks(st, ChosenOp(info, g, role, t), p)
    ensures var id := st.core.nextID;
            var after := Perform(st, ChosenOp(info, g, role, t), p);
            && after.core.emitted == st.core.emitted
                 + [Emitted(ChanRecv, rec.time, rec.ch, rec.ptr, rec.ptr, rec.g, rec.role, "paired", g, id),
                    Emitted(ChanSend, t, info.chName, info.chKey, info.chPtr, g, role, "paired", 0, id)]
            && RecvQ(after.core, MatchPtr(info)) == [] && after.core.nextID == id + 1
            && OnePairMore(st, after, CountedFor(info, MatchPtr(info)))
  {
  }

  /** A credit is used up by one send, which then waits for nobody. */
  lemma SendUsesCredit(st: Pairs, ptr: string, ch: string, g: int, role: string, t: nat, p: Picks)
    requires ptr != "" && Credit(st.core, ptr) > 0 && RecvQ(st.core, ptr) == [] && p.recv.None?
    requires ValidPicks(st, EndOp(true, ch, ptr, g, role, t), p)
    ensures var after := Perform(st, EndOp(true, ch, ptr, g, role, t), p);
            && Credit(after.core, ptr) == Credit(st.core, ptr) - 1
            && after.core.sends == st.core.sends && OnePairMore(st, after, ptr)
  {
  }

  // ----- operations without a channel -----

  /** A region send without a channel counts as unknown, and once more when it is received; a chosen one only once. */
  lemma UnknownSends(st: Pairs, g: int, role: string, t: nat, p: Picks)
    requires ValidPicks(st, EndOp(true, "", "", g, role, t), p)
    ensures var after := Perform(st, EndOp(true, "", "", g, role, t), p);
            && after.tally.matched == st.tally.matched
            && after.tally.unknown == st.tally.unknown +
                 if RecvQ(st.core, "") != [] || Credit(st.core, "") > 0 then 2 else 1
  {
    NoName();
  }

  lemma NoName()
    ensures Printed("") == "" && LookedUp("") == ""
  {
  }
}
