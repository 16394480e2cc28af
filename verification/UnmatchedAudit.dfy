/** The recomputation of the unmatched audit from a list of events. */
module UnmatchedAudit {
  import opened Text
  import opened Shared
  import opened AuditOrder

  datatype AuditKind = SendEvent | RecvEvent | OtherEvent

  datatype AuditEvent = AuditEvent(kind: AuditKind, source: string, attemptID: string, pairID: string, msgID: int,
                                   channelKey: string, channel: string, time: nat)

  /** What identifies a message: its id, or a pair id of a live trace. */
  datatype MsgKey = ByMsg(number: int) | ByPair(text: string)

  datatype ChannelAudit = ChannelAudit(sends: nat, recvs: nat, matched: nat)

  const Nothing := ChannelAudit(0, 0, 0)

  datatype Totals = Totals(sends: nat, recvs: nat, unknown: nat)

  datatype Warning = MissingPairingID(kind: AuditKind, time: nat)

  predicate PairedSource(e: AuditEvent) {
    ToLower(e.source) == "paired"
  }

  predicate IsPaired(e: AuditEvent) {
    !e.kind.OtherEvent? && (PairedSource(e) || e.attemptID != "" || e.pairID != "" || e.msgID != 0)
  }

  function Identity(e: AuditEvent): string {
    if e.channelKey != "" then e.channelKey else e.channel
  }

  function KeyOf(e: AuditEvent): Option<MsgKey> {
    if e.msgID != 0 then Some(ByMsg(e.msgID))
    else if e.pairID != "" then Some(ByPair(e.pairID))
    else None
  }

  // ----- what the events say -----

  /** A paired event of the given kind that carries the key. */
  predicate Carries(e: AuditEvent, kind: AuditKind, key: MsgKey) {
    IsPaired(e) && e.kind == kind && KeyOf(e) == Some(key)
  }

  /** The channel of each message sent (or received): that of its last event. */
  ghost function ChannelsOf(events: seq<AuditEvent>, kind: AuditKind): map<MsgKey, string> {
    if events == [] then map[]
    else
      var m, e := ChannelsOf(events[..|events| - 1], kind), events[|events| - 1];
      if IsPaired(e) && e.kind == kind && KeyOf(e).Some? then m[KeyOf(e).value := Identity(e)] else m
  }

  ghost function UnknownIn(events: seq<AuditEvent>): nat {
    if events == [] then 0
    else
      var e := events[|events| - 1];
      UnknownIn(events[..|events| - 1]) + if IsPaired(e) && Identity(e) == "" then 1 else 0
  }

  ghost function WarningsIn(events: seq<AuditEvent>): seq<Warning> {
    if events == [] then []
    else
      var e := events[|events| - 1];
      WarningsIn(events[..|events| - 1]) +
      if IsPaired(e) && KeyOf(e).None? && !PairedSource(e) then [MissingPairingID(e.kind, e.time)] else []
  }

  lemma {:induction false} ChannelsOfMeans(events: seq<AuditEvent>, kind: AuditKind, key: MsgKey)
    ensures key in ChannelsOf(events, kind) <==> exists i :: 0 <= i < |events| && Carries(events[i], kind, key)
    ensures key in ChannelsOf(events, kind) ==>
              exists i :: 0 <= i < |events| && Carries(events[i], kind, key) && Identity(events[i]) == ChannelsOf(events, kind)[key]
                          && forall j :: i < j < |events| ==> !Carries(events[j], kind, key)
  {
    if events != [] {
      var init, n := events[..|events| - 1], |events| - 1;
      ChannelsOfMeans(init, kind, key);
      if Carries(events[n], kind, key) {
        assert Identity(events[n]) == ChannelsOf(events, kind)[key];
      } else if key in ChannelsOf(init, kind) {
        var i :| 0 <= i < |init| && Carries(init[i], kind, key) && Identity(init[i]) == ChannelsOf(init, kind)[key]
                 && forall j :: i < j < |init| ==> !Carries(init[j], kind, key);
        assert events[i] == init[i];
        forall j | i < j < |events| ensures !Carries(events[j], kind, key) {
          if j < n { assert events[j] == init[j]; }
        }
      }
    }
  }

  predicate Received(r: map<MsgKey, string>, k: MsgKey) {
    k in r && r[k] != ""
  }

  ghost function MatchedKeys(s: map<MsgKey, string>, r: map<MsgKey, string>, ch: string): set<MsgKey> {
    set k | k in s && s[k] == ch && k in r && r[k] != ""
  }

  ghost function UnmatchedKeys(s: map<MsgKey, string>, r: map<MsgKey, string>, ch: string): set<MsgKey> {
    set k | k in s && s[k] == ch && !(k in r && r[k] != "")
  }

  /** Received on ch but never sent. */
  ghost function LoneKeys(s: map<MsgKey, string>, r: map<MsgKey, string>, ch: string): set<MsgKey> {
    set k | k in r && r[k] == ch && k !in s
  }

  /** Sent without a channel, or not received on a channel. */
  ghost function OpenSends(s: map<MsgKey, string>, r: map<MsgKey, string>): set<MsgKey> {
    set k | k in s && (s[k] == "" || !(k in r && r[k] != ""))
  }

  ghost function OpenRecvs(s: map<MsgKey, string>, r: map<MsgKey, string>): set<MsgKey> {
    set k | k in r && k !in s
  }

  function Entry(acc: map<string, ChannelAudit>, ch: string): ChannelAudit {
    if ch in acc then acc[ch] else Nothing
  }

  /** The audit of the sends s and receives r: an entry for each named channel with something to count. */
  ghost predicate AuditOf(s: map<MsgKey, string>, r: map<MsgKey, string>, acc: map<string, ChannelAudit>) {
    && "" !in acc && (forall ch :: ch in acc ==> acc[ch] != Nothing)
    && forall ch :: ch != "" ==>
         Entry(acc, ch) == ChannelAudit(|UnmatchedKeys(s, r, ch)|, |LoneKeys(s, r, ch)|, |MatchedKeys(s, r, ch)|)
  }

  // ----- steps of the counting -----

  lemma Grows(a: set<MsgKey>, b: set<MsgKey>, k: MsgKey, grows: bool)
    requires k !in a && (forall x :: x in b <==> x in a || (grows && x == k))
    ensures |b| == |a| + if grows then 1 else 0
  {
    if grows { assert b == a + {k}; } else { assert b == a; }
  }

  lemma CountMatched(s: map<MsgKey, string>, r: map<MsgKey, string>, k: MsgKey, c: string, ch: string)
    requires k !in s
    ensures |MatchedKeys(s[k := c], r, ch)| == |MatchedKeys(s, r, ch)| + if ch == c && Received(r, k) then 1 else 0
  {
    Grows(MatchedKeys(s, r, ch), MatchedKeys(s[k := c], r, ch), k, ch == c && Received(r, k));
  }

  lemma CountUnmatched(s: map<MsgKey, string>, r: map<MsgKey, string>, k: MsgKey, c: string, ch: string)
    requires k !in s
    ensures |UnmatchedKeys(s[k := c], r, ch)| == |UnmatchedKeys(s, r, ch)| + if ch == c && !Received(r, k) then 1 else 0
  {
    Grows(UnmatchedKeys(s, r, ch), UnmatchedKeys(s[k := c], r, ch), k, ch == c && !Received(r, k));
  }

  lemma CountOpenSend(s: map<MsgKey, string>, r: map<MsgKey, string>, k: MsgKey, c: string)
    requires k !in s
    ensures |OpenSends(s[k := c], r)| == |OpenSends(s, r)| + if c == "" || !Received(r, k) then 1 else 0
  {
    Grows(OpenSends(s, r), OpenSends(s[k := c], r), k, c == "" || !Received(r, k));
  }

  lemma CountLone(s: map<MsgKey, string>, r: map<MsgKey, string>, k: MsgKey, c: string, ch: string)
    requires k !in r
    ensures |LoneKeys(s, r[k := c], ch)| == |LoneKeys(s, r, ch)| + if ch == c && k !in s then 1 else 0
  {
    Grows(LoneKeys(s, r, ch), LoneKeys(s, r[k := c], ch), k, ch == c && k !in s);
  }

  lemma CountOpenRecv(s: map<MsgKey, string>, r: map<MsgKey, string>, k: MsgKey, c: string)
    requires k !in r
    ensures |OpenRecvs(s, r[k := c])| == |OpenRecvs(s, r)| + if k !in s then 1 else 0
  {
    Grows(OpenRecvs(s, r), OpenRecvs(s, r[k := c]), k, k !in s);
  }

  /** Progress of a loop that takes the keys of m in any order. */
  ghost predicate Split(m: map<MsgKey, string>, done: map<MsgKey, string>, todo: set<MsgKey>) {
    done.Keys !! todo && done.Keys + todo == m.Keys && forall k :: k in done ==> done[k] == m[k]
  }

  lemma SplitEnds(m: map<MsgKey, string>, done: map<MsgKey, string>)
    requires Split(m, done, {})
    ensures done == m
  {
  }

  ghost predicate SendsCounted(s: map<MsgKey, string>, r: map<MsgKey, string>, acc: map<string, ChannelAudit>, n: nat) {
    && "" !in acc && (forall ch :: ch in acc ==> acc[ch] != Nothing) && n == |OpenSends(s, r)|
    && forall ch :: ch != "" ==> Entry(acc, ch) == ChannelAudit(|UnmatchedKeys(s, r, ch)|, 0, |MatchedKeys(s, r, ch)|)
  }

  /** One more send on a named channel changes the entry of that channel only. */
  lemma SendCounted(s: map<MsgKey, string>, r: map<MsgKey, string>, acc: map<string, ChannelAudit>, n: nat, k: MsgKey, ch: string)
    requires SendsCounted(s, r, acc, n) && k !in s && ch != ""
    ensures var entry := Entry(acc, ch);
            if Received(r, k) then SendsCounted(s[k := ch], r, acc[ch := entry.(matched := entry.matched + 1)], n)
            else SendsCounted(s[k := ch], r, acc[ch := entry.(sends := entry.sends + 1)], n + 1)
  {
    var was, t := Entry(acc, ch), s[k := ch];
    var entry := if Received(r, k) then was.(matched := was.matched + 1) else was.(sends := was.sends + 1);
    CountOpenSend(s, r, k, ch);
    forall c | c != ""
      ensures Entry(acc[ch := entry], c) == ChannelAudit(|UnmatchedKeys(t, r, c)|, 0, |MatchedKeys(t, r, c)|)
    {
      CountMatched(s, r, k, ch, c);
      CountUnmatched(s, r, k, ch, c);
    }
  }

  lemma NamelessSendCounted(s: map<MsgKey, string>, r: map<MsgKey, string>, acc: map<string, ChannelAudit>, n: nat, k: MsgKey)
    requires SendsCounted(s, r, acc, n) && k !in s
    ensures SendsCounted(s[k := ""], r, acc, n + 1)
  {
    CountOpenSend(s, r, k, "");
    forall c | c != ""
      ensures Entry(acc, c) == ChannelAudit(|UnmatchedKeys(s[k := ""], r, c)|, 0, |MatchedKeys(s[k := ""], r, c)|)
    {
      CountMatched(s, r, k, "", c);
      CountUnmatched(s, r, k, "", c);
    }
  }

  method CountSends(s: map<MsgKey, string>, r: map<MsgKey, string>) returns (acc: map<string, ChannelAudit>, n: nat)
    ensures SendsCounted(s, r, acc, n)
  {
    acc, n := map[], 0;
    var todo := s.Keys;
    ghost var done: map<MsgKey, string> := map[];
    while todo != {}
      invariant Split(s, done, todo)
      invariant SendsCounted(done, r, acc, n)
    {
      var k :| k in todo;
      var ch := s[k];
      todo := todo - {k};
      if ch == "" {
        NamelessSendCounted(done, r, acc, n, k);
        n := n + 1;
      } else {
        SendCounted(done, r, acc, n, k, ch);
        var entry := Entry(acc, ch);
        if Received(r, k) {
          acc := acc[ch := entry.(matched := entry.matched + 1)];
        } else {
          acc := acc[ch := entry.(sends := entry.sends + 1)];
          n := n + 1;
        }
      }
      done := done[k := ch];
    }
    SplitEnds(s, done);
  }

  /** The counts of the sends, with the receives in done added. */
  ghost predicate RecvsCounted(s: map<MsgKey, string>, r: map<MsgKey, string>, done: map<MsgKey, string>,
                               acc: map<string, ChannelAudit>, n: nat) {
    && "" !in acc && (forall ch :: ch in acc ==> acc[ch] != Nothing) && n == |OpenRecvs(s, done)|
    && forall ch :: ch != "" ==>
         Entry(acc, ch) == ChannelAudit(|UnmatchedKeys(s, r, ch)|, |LoneKeys(s, done, ch)|, |MatchedKeys(s, r, ch)|)
  }

  function AddRecv(acc: map<string, ChannelAudit>, ch: string): map<string, ChannelAudit> {
    var entry := Entry(acc, ch);
    if ch == "" then acc else acc[ch := entry.(recvs := entry.recvs + 1)]
  }

  lemma RecvCounted(s: map<MsgKey, string>, r: map<MsgKey, string>, done: map<MsgKey, string>,
                    acc: map<string, ChannelAudit>, n: nat, k: MsgKey, ch: string)
    requires RecvsCounted(s, r, done, acc, n) && k !in done
    ensures k in s ==> RecvsCounted(s, r, done[k := ch], acc, n)
    ensures k !in s ==> RecvsCounted(s, r, done[k := ch], AddRecv(acc, ch), n + 1)
  {
    var was := Entry(acc, ch);
    var entry := was.(recvs := was.recvs + 1);
    CountOpenRecv(s, done, k, ch);
    forall c | c != ""
      ensures |LoneKeys(s, done[k := ch], c)| == |LoneKeys(s, done, c)| + if c == ch && k !in s then 1 else 0
      ensures Entry(acc[ch := entry], c) == if c == ch then entry else Entry(acc, c)
    {
      CountLone(s, done, k, ch, c);
    }
  }

  lemma RecvsStart(s: map<MsgKey, string>, r: map<MsgKey, string>, acc: map<string, ChannelAudit>, n: nat)
    requires SendsCounted(s, r, acc, n)
    ensures RecvsCounted(s, r, map[], acc, 0)
  {
    assert OpenRecvs(s, map[]) == {};
    assert forall ch :: LoneKeys(s, map[], ch) == {};
  }

  lemma RecvsEnd(s: map<MsgKey, string>, r: map<MsgKey, string>, done: map<MsgKey, string>, acc: map<string, ChannelAudit>, n: nat)
    requires Split(r, done, {}) && RecvsCounted(s, r, done, acc, n)
    ensures AuditOf(s, r, acc) && n == |OpenRecvs(s, r)|
  {
    SplitEnds(r, done);
  }

  method CountRecvs(s: map<MsgKey, string>, r: map<MsgKey, string>, bySend: map<string, ChannelAudit>, ghost sends: nat)
    returns (acc: map<string, ChannelAudit>, n: nat)
    requires SendsCounted(s, r, bySend, sends)
    ensures AuditOf(s, r, acc) && n == |OpenRecvs(s, r)|
  {
    acc, n := bySend, 0;
    RecvsStart(s, r, bySend, sends);
    var todo := r.Keys;
    ghost var done: map<MsgKey, string> := map[];
    while todo != {}
      invariant Split(r, done, todo)
      invariant RecvsCounted(s, r, done, acc, n)
    {
      var k :| k in todo;
      var ch := r[k];
      todo := todo - {k};
      RecvCounted(s, r, done, acc, n, k, ch);
      if k !in s {
        acc, n := AddRecv(acc, ch), n + 1;
      }
      done := done[k := ch];
    }
    RecvsEnd(s, r, done, acc, n);
  }

  /** The entries of acc are those of an audit of the events. */
  ghost predicate Audits(events: seq<AuditEvent>, acc: map<string, ChannelAudit>) {
    AuditOf(ChannelsOf(events, SendEvent), ChannelsOf(events, RecvEvent), acc)
  }

  /** The recomputed audit: by channel the messages sent and not received, received and not sent, and both. */
  method ComputeUnmatchedAuditFromEvents(events: seq<AuditEvent>)
    returns (ordered: seq<Line<ChannelAudit>>, totals: Totals, warnings: seq<Warning>)
    ensures exists acc :: Audits(events, acc) && Listing(acc, ordered)
    ensures totals.sends == |OpenSends(ChannelsOf(events, SendEvent), ChannelsOf(events, RecvEvent))|
    ensures totals.recvs == |OpenRecvs(ChannelsOf(events, SendEvent), ChannelsOf(events, RecvEvent))|
    ensures totals.unknown == UnknownIn(events) && warnings == WarningsIn(events)
  {
    var sendByKey: map<MsgKey, string>, recvByKey: map<MsgKey, string> := map[], map[];
    var unknown := 0;
    warnings := [];
    for i := 0 to |events|
      invariant sendByKey == ChannelsOf(events[..i], SendEvent) && recvByKey == ChannelsOf(events[..i], RecvEvent)
      invariant unknown == UnknownIn(events[..i]) && warnings == WarningsIn(events[..i])
    {
      var ev := events[i];
      assert events[..i + 1][..i] == events[..i];
      if IsPaired(ev) {
        var chID := Identity(ev);
        if chID == "" { unknown := unknown + 1; }
        match KeyOf(ev)
        case None =>
          if !PairedSource(ev) { warnings := warnings + [MissingPairingID(ev.kind, ev.time)]; }
        case Some(key) =>
          if ev.kind.SendEvent? {
            sendByKey := sendByKey[key := chID];
          } else {
            recvByKey := recvByKey[key := chID];
          }
      }
    }
    assert events[..|events|] == events;
    var bySend, sends := CountSends(sendByKey, recvByKey);
    var acc, recvs := CountRecvs(sendByKey, recvByKey, bySend, sends);
    ordered := ListEntries(acc);
    totals := Totals(sends, recvs, unknown);
    assert Audits(events, acc);
  }

  /** An audit is decided by the events: neither the order of the maps nor anything else matters. */
  lemma AuditIsUnique(events: seq<AuditEvent>, a: seq<Line<ChannelAudit>>, b: seq<Line<ChannelAudit>>)
    requires exists acc :: Audits(events, acc) && Listing(acc, a)
    requires exists acc :: Audits(events, acc) && Listing(acc, b)
    ensures a == b
  {
    var m :| Audits(events, m) && Listing(m, a);
    var n :| Audits(events, n) && Listing(n, b);
    forall ch ensures ch in m <==> ch in n
              ensures ch in m && ch in n ==> m[ch] == n[ch]
    {
      assert ch != "" ==> Entry(m, ch) == Entry(n, ch);
    }
    assert m == n;
    ListingIsUnique(m, a, b);
  }

  // ----- told from the fields of the events -----

  /** A send or receive with a message id, or without one with a pair id; sources and attempts do not matter. */
  predicate Bears(e: AuditEvent, kind: AuditKind, key: MsgKey) {
    e.kind == kind && if e.msgID != 0 then key == ByMsg(e.msgID) else e.pairID != "" && key == ByPair(e.pairID)
  }

  /** A message counts as sent (received) on the channel of the last send (receive) event that bears it. */
  lemma MessageChannel(events: seq<AuditEvent>, kind: AuditKind, key: MsgKey, ch: string)
    requires !kind.OtherEvent?
    ensures key in ChannelsOf(events, kind) && ChannelsOf(events, kind)[key] == ch <==>
            exists i :: 0 <= i < |events| && Bears(events[i], kind, key) && (forall j :: i < j < |events| ==> !Bears(events[j], kind, key))
                        && ch == if events[i].channelKey != "" then events[i].channelKey else events[i].channel
  {
    ChannelsOfMeans(events, kind, key);
    forall i | 0 <= i < |events| ensures Carries(events[i], kind, key) <==> Bears(events[i], kind, key) {
    }
  }

  /** A send or receive that is marked as paired, in any letter case, or has an id of any kind. */
  predicate Counted(e: AuditEvent) {
    !e.kind.OtherEvent? && (ToLower(e.source) == "paired" || e.msgID != 0 || e.pairID != "" || e.attemptID != "")
  }

  ghost function Unnamed(events: seq<AuditEvent>): set<nat> {
    set i: nat | i < |events| && Counted(events[i]) && events[i].channelKey == "" && events[i].channel == ""
  }

  lemma {:induction false} UnknownExactly(events: seq<AuditEvent>)
    ensures UnknownIn(events) == |Unnamed(events)|
  {
    if events != [] {
      var n := |events| - 1;
      UnknownExactly(events[..n]);
      var last := if Counted(events[n]) && events[n].channelKey == "" && events[n].channel == "" then {n} else {};
      assert Unnamed(events) == Unnamed(events[..n]) + last;
    }
  }

  /** A warning is given exactly for an event with nothing but an attempt id. */
  lemma {:induction false} WarnedExactly(events: seq<AuditEvent>, w: Warning)
    ensures w in WarningsIn(events) <==>
            exists i :: 0 <= i < |events| && !events[i].kind.OtherEvent? && events[i].attemptID != ""
                        && events[i].msgID == 0 && events[i].pairID == "" && ToLower(events[i].source) != "paired"
                        && w == MissingPairingID(events[i].kind, events[i].time)
  {
    if events != [] {
      var n := |events| - 1;
      WarnedExactly(events[..n], w);
      assert forall i :: 0 <= i < n ==> events[..n][i] == events[i];
    }
  }
}
