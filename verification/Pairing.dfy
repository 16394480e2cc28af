/**
 The send/receive pairing engine: queues of unmatched sends and of early
 receives, credits for early select receives, fresh message ids. One operation
 is a function of the state and of the queue that the unordered search by name
 happens to find (its pick).
 */
module Pairing {
  import opened Text
  import opened Shared
  import opened ChannelKeys

  datatype SendRec = SendRec(time: nat, g: int, role: string, ptr: string, id: nat)

  datatype RecvRec = RecvRec(time: nat, g: int, role: string, ch: string, ptr: string)

  datatype EventKind = SendComplete | RecvComplete | ChanSend | ChanRecv

  /** An emitted timeline event; peerG and msgID are 0 when absent. */
  datatype Emitted = Emitted(kind: EventKind, time: nat, channel: string, channelKey: string, chPtr: string,
                             g: int, role: string, source: string, peerG: int, msgID: nat)

  /** What a channel label stands for: its printed key, its base name, and the name it is looked up by. */
  datatype Site = Site(full: string, base: string, wanted: string)

  function SiteOf(ch: string): Site {
    var key := ParseChKey(ch);
    Site(FullName(key), key.name, ToLower(TrimSpace(FullName(key))))
  }

  function KeyFor(site: Site, ptr: string): string {
    if ptr != "" then ptr else site.full
  }

  function ChannelID(site: Site, ptr: string): string {
    var k := KeyFor(site, ptr);
    if k == "" then site.base else k
  }

  /** The queues, the credits, the id counter and what has been emitted. */
  datatype Core = Core(sends: map<string, seq<SendRec>>, recvs: map<string, seq<RecvRec>>, credits: map<string, nat>,
                       nextID: nat, emitted: seq<Emitted>)

  /** The audit counters that are kept while pairing. */
  datatype Tally = Tally(matched: map<string, nat>, unknown: nat)

  /** names: the logged name of a channel pointer; skip: names excluded from pairing by the environment. */
  datatype Pairs = Pairs(core: Core, tally: Tally, names: map<string, string>, skip: set<string>)

  function Fresh(skip: set<string>): Pairs {
    Pairs(Core(map[], map[], map[], 1, []), Tally(map[], 0), map[], skip)
  }

  function SendQ(c: Core, k: string): seq<SendRec> {
    if k in c.sends then c.sends[k] else []
  }

  function RecvQ(c: Core, k: string): seq<RecvRec> {
    if k in c.recvs then c.recvs[k] else []
  }

  function Credit(c: Core, k: string): nat {
    if k in c.credits then c.credits[k] else 0
  }

  function Count(m: map<string, nat>, k: string): nat {
    if k in m then m[k] else 0
  }

  /** A queue key answers to a name directly, or as a pointer that was logged under it. */
  predicate Answers(names: map<string, string>, k: string, wanted: string) {
    ToLower(k) == wanted || (HasPrefix(k, "0x") && k in names && ToLower(names[k]) == wanted)
  }

  // ----- the picks of the unordered searches -----

  ghost predicate RecvPick(c: Core, names: map<string, string>, site: Site, ptr: string, pick: Option<string>) {
    if RecvQ(c, KeyFor(site, ptr)) != [] then pick == Some(KeyFor(site, ptr))
    else if site.wanted == "" then pick == None
    else
      match pick
      case None => forall k :: k in c.recvs && RecvQ(c, k) != [] ==> !Answers(names, k, site.wanted)
      case Some(k) => RecvQ(c, k) != [] && Answers(names, k, site.wanted)
  }

  ghost predicate CreditPick(c: Core, names: map<string, string>, site: Site, ptr: string, pick: Option<string>) {
    if Credit(c, KeyFor(site, ptr)) > 0 then pick == Some(KeyFor(site, ptr))
    else if site.wanted == "" then pick == None
    else
      match pick
      case None => forall k :: k in c.credits && Credit(c, k) > 0 ==> !Answers(names, k, site.wanted)
      case Some(k) => Credit(c, k) > 0 && Answers(names, k, site.wanted)
  }

  /** By name the earliest send wins. */
  ghost predicate NamedSendPick(c: Core, names: map<string, string>, site: Site, pick: Option<string>) {
    if site.wanted == "" then pick == None
    else
      match pick
      case None => forall k :: k in c.sends && SendQ(c, k) != [] ==> !Answers(names, k, site.wanted)
      case Some(k) =>
        && SendQ(c, k) != [] && Answers(names, k, site.wanted)
        && forall j :: j in c.sends && SendQ(c, j) != [] && Answers(names, j, site.wanted) ==>
             SendQ(c, k)[0].time <= SendQ(c, j)[0].time
  }

  /** The queue of sends a receive takes from: its own key, then (if allowed) by name. */
  ghost predicate SendPick(c: Core, names: map<string, string>, site: Site, ptr: string, byName: bool, pick: Option<string>) {
    if SendQ(c, KeyFor(site, ptr)) != [] then pick == Some(KeyFor(site, ptr))
    else if byName then NamedSendPick(c, names, site, pick)
    else pick == None
  }

  // ----- operations -----

  datatype Op =
    | Send(ch: string, site: Site, ptr: string, g: int, role: string, t: nat)
    | Recv(ch: string, site: Site, ptr: string, g: int, role: string, t: nat)
    | SelectSend(ch: string, site: Site, ptr: string, g: int, role: string, t: nat, chKey: string, chPtr: string)
    | SelectRecv(ch: string, site: Site, ptr: string, g: int, role: string, t: nat, chKey: string, chPtr: string)
      // a log tells the name of a channel pointer
    | Learn(ptr: string, name: string)
  {
    predicate IsSend() { Send? || SelectSend? }
    predicate IsRecv() { Recv? || SelectRecv? }
  }

  datatype Picks = Picks(recv: Option<string>, credit: Option<string>, send: Option<string>)

  ghost predicate ValidPicks(st: Pairs, op: Op, p: Picks) {
    if op.IsSend() then
      RecvPick(st.core, st.names, op.site, op.ptr, p.recv) && CreditPick(st.core, st.names, op.site, op.ptr, p.credit)
    else if op.IsRecv() then
      SendPick(st.core, st.names, op.site, op.ptr, op.SelectRecv? || op.ptr == "", p.send)
    else true
  }

  /** A completed pair is counted for its channel, or as unknown when the channel has no identity. */
  function CountPair(t: Tally, channelID: string): Tally {
    if channelID == "" then t.(unknown := t.unknown + 1)
    else t.(matched := t.matched[channelID := Count(t.matched, channelID) + 1])
  }

  /** Where a new send goes: to an early receive, to an early select receive, or to its queue. */
  datatype Slot = Early(key: string) | OnCredit(key: string) | Waiting(key: string)

  function SlotFor(c: Core, op: Op, p: Picks): Slot
    requires op.IsSend()
  {
    if p.recv.Some? && RecvQ(c, p.recv.value) != [] then Early(p.recv.value)
    else if p.credit.Some? && Credit(c, p.credit.value) > 0 then OnCredit(p.credit.value)
    else Waiting(KeyFor(op.site, op.ptr))
  }

  function NewSend(op: Op, id: nat): SendRec
    requires op.IsSend()
  {
    SendRec(op.t, op.g, op.role, op.ptr, id)
  }

  function SentEvent(op: Op, id: nat): Emitted
    requires op.IsSend()
  {
    if op.Send? then Emitted(ChanSend, op.t, op.ch, KeyFor(op.site, op.ptr), op.ptr, op.g, op.role, "paired", 0, id)
    else Emitted(ChanSend, op.t, op.ch, op.chKey, op.chPtr, op.g, op.role, "paired", 0, id)
  }

  /** The receive event of a receiver that was there before the send. */
  function EarlyReceipt(op: Op, first: RecvRec, id: nat): Emitted
    requires op.IsSend()
  {
    Emitted(ChanRecv, first.time, first.ch, KeyFor(op.site, first.ptr), first.ptr, first.g, first.role, "paired", op.g, id)
  }

  /** The completion event at the end of a region. */
  function DoneEvent(op: Op): Emitted
    requires op.Send? || op.Recv?
  {
    Emitted(if op.Send? then SendComplete else RecvComplete, op.t, op.ch, KeyFor(op.site, op.ptr), op.ptr,
            op.g, op.role, "region", 0, 0)
  }

  /** The events of a send; a region announces the message first, a select the receipt. */
  function SendEvents(c: Core, op: Op, p: Picks): seq<Emitted>
    requires op.IsSend()
  {
    var slot, sent := SlotFor(c, op, p), SentEvent(op, c.nextID);
    var receipt := if slot.Early? && RecvQ(c, slot.key) != [] then [EarlyReceipt(op, RecvQ(c, slot.key)[0], c.nextID)] else [];
    if op.Send? then [DoneEvent(op), sent] + receipt else receipt + [sent]
  }

  /** A send takes a fresh id and goes to its slot. */
  function AfterSend(c: Core, op: Op, p: Picks): Core
    requires op.IsSend()
  {
    var emitted := c.emitted + SendEvents(c, op, p);
    match SlotFor(c, op, p)
    case Early(k) => Core(c.sends, c.recvs[k := RecvQ(c, k)[1..]], c.credits, c.nextID + 1, emitted)
    case OnCredit(k) => Core(c.sends, c.recvs, c.credits[k := Credit(c, k) - 1], c.nextID + 1, emitted)
    case Waiting(k) => Core(c.sends[k := SendQ(c, k) + [NewSend(op, c.nextID)]], c.recvs, c.credits, c.nextID + 1, emitted)
  }

  function SendTally(c: Core, t: Tally, op: Op, p: Picks): Tally
    requires op.IsSend()
  {
    var channelID := if op.SelectSend? && op.chKey != "" then op.chKey else ChannelID(op.site, op.ptr);
    var t1 := if channelID == "" then t.(unknown := t.unknown + 1) else t;
    if SlotFor(c, op, p).Waiting? || (op.SelectSend? && channelID == "") then t1 else CountPair(t1, channelID)
  }

  /** A receive finds a send to pair with. */
  predicate Takes(c: Core, p: Picks) {
    p.send.Some? && SendQ(c, p.send.value) != []
  }

  predicate Skips(skip: set<string>, op: Op) {
    op.Recv? && op.site.base in skip
  }

  function Head(c: Core, p: Picks): SendRec
    requires Takes(c, p)
  {
    SendQ(c, p.send.value)[0]
  }

  /** A region receive without a pointer takes the pointer of the send it found by name. */
  function ReceivePtr(c: Core, op: Op, p: Picks): string
    requires op.Recv? && Takes(c, p)
  {
    if op.ptr == "" && p.send.value != KeyFor(op.site, op.ptr) then Head(c, p).ptr else op.ptr
  }

  /** The receive event that pairs the head of the picked queue. */
  function Receipt(c: Core, op: Op, p: Picks): Emitted
    requires op.IsRecv() && Takes(c, p)
  {
    var head := Head(c, p);
    if op.Recv? then
      var chPtr := ReceivePtr(c, op, p);
      Emitted(ChanRecv, op.t, op.ch, KeyFor(op.site, chPtr), chPtr, op.g, op.role, "paired", head.g, head.id)
    else
      Emitted(ChanRecv, op.t, op.ch, op.chKey, op.chPtr, op.g, op.role, "paired", head.g, head.id)
  }

  /** The events of a receive besides its receipt: completions, or a select receive that found no send. */
  function RecvEvents(c: Core, skip: set<string>, op: Op, p: Picks): seq<Emitted>
    requires op.IsRecv()
  {
    if op.SelectRecv? then
      if Takes(c, p) then [] else [Emitted(ChanRecv, op.t, op.ch, op.chKey, op.chPtr, op.g, op.role, "select", 0, 0)]
    else if !Takes(c, p) || Skips(skip, op) then [DoneEvent(op)]
    else
      // the matched send completion is emitted again
      var head := Head(c, p);
      [DoneEvent(op), Emitted(SendComplete, head.time, op.ch, KeyFor(op.site, head.ptr), head.ptr, head.g, head.role, "region", 0, 0)]
  }

  function AddCredit(credits: map<string, nat>, k: string): map<string, nat> {
    credits[k := Count(credits, k) + 1]
  }

  /** A receive takes the head of a queue of sends, or waits: a region in a queue, a select as credit. */
  function AfterRecv(c: Core, skip: set<string>, op: Op, p: Picks): Core
    requires op.IsRecv()
  {
    var emitted := c.emitted + RecvEvents(c, skip, op, p);
    var k := KeyFor(op.site, op.ptr);
    if Takes(c, p) then
      var sends := c.sends[p.send.value := SendQ(c, p.send.value)[1..]];
      Core(sends, c.recvs, c.credits, c.nextID, if Skips(skip, op) then emitted else emitted + [Receipt(c, op, p)])
    else if op.Recv? then
      Core(c.sends, c.recvs[k := RecvQ(c, k) + [RecvRec(op.t, op.g, op.role, op.ch, op.ptr)]], c.credits, c.nextID, emitted)
    else
      var credits := AddCredit(c.credits, k);
      Core(c.sends, c.recvs, if op.site.base != "" then AddCredit(credits, op.site.full) else credits, c.nextID, emitted)
  }

  function RecvTally(c: Core, t: Tally, skip: set<string>, op: Op, p: Picks): Tally
    requires op.IsRecv()
  {
    if !Takes(c, p) || Skips(skip, op) then t
    else if op.Recv? then CountPair(t, ChannelID(op.site, ReceivePtr(c, op, p)))
    else CountPair(t, if op.chKey != "" then op.chKey else KeyFor(op.site, op.chPtr))
  }

  function Perform(st: Pairs, op: Op, p: Picks): Pairs {
    if op.IsSend() then st.(core := AfterSend(st.core, op, p), tally := SendTally(st.core, st.tally, op, p))
    else if op.IsRecv() then
      st.(core := AfterRecv(st.core, st.skip, op, p), tally := RecvTally(st.core, st.tally, st.skip, op, p))
    else st.(names := st.names[op.ptr := op.name])
  }

  ghost predicate Next(st: Pairs, op: Op, st': Pairs) {
    exists p :: ValidPicks(st, op, p) && st' == Perform(st, op, p)
  }

  /** states[i] is the state before ops[i]; the last one is the state after the run. */
  ghost predicate Run(skip: set<string>, ops: seq<Op>, states: seq<Pairs>) {
    && |states| == |ops| + 1 && states[0] == Fresh(skip)
    && forall i :: 0 <= i < |ops| ==> Next(states[i], ops[i], states[i + 1])
  }

  lemma RunPrefix(skip: set<string>, ops: seq<Op>, states: seq<Pairs>)
    requires Run(skip, ops, states) && ops != []
    ensures Run(skip, ops[..|ops| - 1], states[..|ops|])
    ensures Next(states[|ops| - 1], ops[|ops| - 1], states[|ops|])
  {
    var o, s := ops[..|ops| - 1], states[..|ops|];
    forall i | 0 <= i < |o| ensures Next(s[i], o[i], s[i + 1]) {
      assert Next(states[i], ops[i], states[i + 1]);
    }
  }
}
