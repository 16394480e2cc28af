/** Conservation of message ids over every run of the pairing engine, selects included. */
module MessageIds {
  import opened Shared
  import opened Pairing

  /** Where a message is: in a queue, in a paired receive, taken by an early select receive, or skipped. */
  datatype Fate = Queued(key: string) | Paired | Absorbed | Skipped

  datatype Message = Message(sender: int, fate: Fate)

  /** Entry i is the message with id i + 1. */
  type Ledger = seq<Message>

  /** The ledger entry an operation adds or changes. */
  function Track(l: Ledger, c: Core, skip: set<string>, op: Op, p: Picks): Ledger {
    if op.IsSend() then l + [Message(op.g, FateOf(SlotFor(c, op, p)))]
    else if op.IsRecv() && Takes(c, p) && 1 <= Head(c, p).id <= |l| then
      Settle(l, Head(c, p).id, if Skips(skip, op) then Skipped else Paired)
    else l
  }

  function FateOf(slot: Slot): Fate {
    match slot
    case Early(_) => Paired
    case OnCredit(_) => Absorbed
    case Waiting(k) => Queued(k)
  }

  function Settle(l: Ledger, id: nat, fate: Fate): Ledger
    requires 1 <= id <= |l|
  {
    l[id - 1 := l[id - 1].(fate := fate)]
  }

  /** How many paired receives carry the id. */
  function Receipts(events: seq<Emitted>, id: nat): nat {
    if events == [] then 0
    else
      var e := events[|events| - 1];
      Receipts(events[..|events| - 1], id) + if e.kind == ChanRecv && e.msgID == id then 1 else 0
  }

  /** A queue holds messages that the ledger places there, oldest first. */
  ghost predicate QueueOk(k: string, q: seq<SendRec>, l: Ledger) {
    && (forall i :: 0 <= i < |q| ==> 1 <= q[i].id <= |l| && l[q[i].id - 1] == Message(q[i].g, Queued(k)))
    && (forall i, j :: 0 <= i < j < |q| ==> q[i].id < q[j].id)
  }

  ghost predicate HasId(q: seq<SendRec>, id: nat) {
    exists i :: 0 <= i < |q| && q[i].id == id
  }

  /** Every queued message is in its queue and nowhere else. */
  ghost predicate QueuesOk(sends: map<string, seq<SendRec>>, l: Ledger) {
    && (forall k :: k in sends ==> QueueOk(k, sends[k], l))
    && (forall n :: 0 <= n < |l| && l[n].fate.Queued? ==>
          l[n].fate.key in sends && HasId(sends[l[n].fate.key], n + 1))
  }

  /** Paired receives name the sender; each id is received once if paired and never otherwise. */
  ghost predicate EventsOk(events: seq<Emitted>, l: Ledger) {
    && (forall i :: 0 <= i < |events| && events[i].kind.ChanRecv? && events[i].msgID != 0 ==>
          events[i].msgID <= |l| && events[i].peerG == l[events[i].msgID - 1].sender)
    && (forall i :: 0 <= i < |events| && events[i].kind.ChanSend? ==>
          1 <= events[i].msgID <= |l| && events[i].g == l[events[i].msgID - 1].sender)
    && (forall id :: 1 <= id <= |l| ==> Receipts(events, id) == if l[id - 1].fate.Paired? then 1 else 0)
  }

  /** No key has both a waiting send and a waiting receive. */
  ghost predicate NoStandOff(sends: map<string, seq<SendRec>>, recvs: map<string, seq<RecvRec>>) {
    forall k :: k in sends && k in recvs ==> sends[k] == [] || recvs[k] == []
  }

  ghost predicate Books(sends: map<string, seq<SendRec>>, recvs: map<string, seq<RecvRec>>, nextID: nat,
                        events: seq<Emitted>, l: Ledger) {
    nextID == |l| + 1 && QueuesOk(sends, l) && EventsOk(events, l) && NoStandOff(sends, recvs)
  }

  /** The books of a state. */
  ghost predicate Accounts(c: Core, l: Ledger) {
    Books(c.sends, c.recvs, c.nextID, c.emitted, l)
  }

  // ----- single changes -----

  lemma {:induction false} NoReceiptsBeyond(events: seq<Emitted>, n: nat, id: nat)
    requires id > n && id > 0
    requires forall i :: 0 <= i < |events| && events[i].kind.ChanRecv? && events[i].msgID != 0 ==> events[i].msgID <= n
    ensures Receipts(events, id) == 0
  {
    if events != [] {
      NoReceiptsBeyond(events[..|events| - 1], n, id);
    }
  }

  /** Events that neither send nor receive a message change nothing. */
  lemma QuietEvent(events: seq<Emitted>, l: Ledger, e: Emitted)
    requires EventsOk(events, l) && !e.kind.ChanSend? && (e.kind.ChanRecv? ==> e.msgID == 0)
    ensures EventsOk(events + [e], l)
  {
    forall id | 1 <= id <= |l| ensures Receipts(events + [e], id) == Receipts(events, id) {
    }
  }

  /** A new message that is not received yet. */
  lemma IssueEvent(events: seq<Emitted>, l: Ledger, m: Message)
    requires EventsOk(events, l) && !m.fate.Paired?
    ensures EventsOk(events, l + [m])
  {
    NoReceiptsBeyond(events, |l|, |l| + 1);
  }

  /** The receive that pairs a message turns its fate to paired. */
  lemma PairEvent(events: seq<Emitted>, l: Ledger, id: nat, e: Emitted)
    requires EventsOk(events, l) && 1 <= id <= |l| && !l[id - 1].fate.Paired?
    requires e.kind.ChanRecv? && e.msgID == id && e.peerG == l[id - 1].sender
    ensures EventsOk(events + [e], Settle(l, id, Paired))
  {
    forall j | 1 <= j <= |l| ensures Receipts(events + [e], j) == Receipts(events, j) + if j == id then 1 else 0 {
    }
  }

  /** A new message that is not queued. */
  lemma IssueElsewhere(sends: map<string, seq<SendRec>>, l: Ledger, m: Message)
    requires QueuesOk(sends, l) && !m.fate.Queued?
    ensures QueuesOk(sends, l + [m])
  {
    forall k | k in sends ensures QueueOk(k, sends[k], l + [m]) {
    }
  }

  lemma QueueAppends(k: string, q: seq<SendRec>, l: Ledger, rec: SendRec)
    requires QueueOk(k, q, l) && rec.id == |l| + 1
    ensures QueueOk(k, q + [rec], l + [Message(rec.g, Queued(k))])
  {
  }

  lemma StillThere(q: seq<SendRec>, rec: SendRec, id: nat)
    ensures HasId(q, id) ==> HasId(q + [rec], id)
    ensures HasId(q + [rec], rec.id)
  {
    if HasId(q, id) {
      var i :| 0 <= i < |q| && q[i].id == id;
      assert (q + [rec])[i].id == id;
    }
    assert (q + [rec])[|q|] == rec;
  }

  lemma IssueQueued(sends: map<string, seq<SendRec>>, l: Ledger, k: string, rec: SendRec)
    requires QueuesOk(sends, l) && rec.id == |l| + 1
    ensures QueuesOk(sends[k := (if k in sends then sends[k] else []) + [rec]], l + [Message(rec.g, Queued(k))])
  {
    var q := if k in sends then sends[k] else [];
    var s, m := sends[k := q + [rec]], l + [Message(rec.g, Queued(k))];
    assert QueueOk(k, q, l);
    forall j | j in s ensures QueueOk(j, s[j], m) {
      if j == k { QueueAppends(k, q, l, rec); }
    }
    forall n | 0 <= n < |m| && m[n].fate.Queued? ensures m[n].fate.key in s && HasId(s[m[n].fate.key], n + 1) {
      if n == |l| {
        StillThere(q, rec, rec.id);
      } else {
        QueuedStays(sends, l, k, rec, n);
      }
    }
  }

  lemma QueuedStays(sends: map<string, seq<SendRec>>, l: Ledger, k: string, rec: SendRec, n: nat)
    requires n < |l| && l[n].fate.Queued? && l[n].fate.key in sends && HasId(sends[l[n].fate.key], n + 1)
    ensures var s := sends[k := (if k in sends then sends[k] else []) + [rec]];
            l[n].fate.key in s && HasId(s[l[n].fate.key], n + 1)
  {
    if l[n].fate.key == k { StillThere(sends[k], rec, n + 1); }
  }

  lemma StillInTail(q: seq<SendRec>, id: nat)
    requires HasId(q, id) && q[0].id != id
    ensures HasId(q[1..], id)
  {
    var i :| 0 <= i < |q| && q[i].id == id;
    assert q[1..][i - 1].id == id;
  }

  lemma QueueTail(k: string, q: seq<SendRec>, l: Ledger, fate: Fate)
    requires QueueOk(k, q, l) && q != []
    ensures QueueOk(k, q[1..], l[q[0].id - 1 := l[q[0].id - 1].(fate := fate)])
  {
    var m := l[q[0].id - 1 := l[q[0].id - 1].(fate := fate)];
    forall i | 0 <= i < |q[1..]| ensures 1 <= q[1..][i].id <= |m| && m[q[1..][i].id - 1] == Message(q[1..][i].g, Queued(k)) {
      assert q[1..][i] == q[i + 1];
    }
  }

  lemma QueueElsewhere(j: string, q: seq<SendRec>, l: Ledger, id: nat, m: Message)
    requires QueueOk(j, q, l) && 1 <= id <= |l| && l[id - 1].fate != Queued(j)
    ensures QueueOk(j, q, l[id - 1 := m])
  {
  }

  /** Taking the head of a queue moves its message, and only it, out of the queues. */
  lemma TakeHead(sends: map<string, seq<SendRec>>, l: Ledger, k: string, fate: Fate)
    requires QueuesOk(sends, l) && k in sends && sends[k] != [] && !fate.Queued?
    ensures var id := sends[k][0].id;
            1 <= id <= |l| && l[id - 1] == Message(sends[k][0].g, Queued(k)) &&
            QueuesOk(sends[k := sends[k][1..]], l[id - 1 := l[id - 1].(fate := fate)])
  {
    assert QueueOk(k, sends[k], l);
    var id := sends[k][0].id;
    var s, m := sends[k := sends[k][1..]], l[id - 1 := l[id - 1].(fate := fate)];
    forall j | j in s ensures QueueOk(j, s[j], m) {
      if j == k { QueueTail(k, sends[k], l, fate); } else { QueueElsewhere(j, sends[j], l, id, m[id - 1]); }
    }
    forall n | 0 <= n < |m| && m[n].fate.Queued? ensures m[n].fate.key in s && HasId(s[m[n].fate.key], n + 1) {
      var j := l[n].fate.key;
      assert HasId(sends[j], n + 1);
      if j == k { StillInTail(sends[k], n + 1); }
    }
  }

  // ----- entries in the books -----

  /** What the validity of the picks is needed for: nothing waits where something could have matched. */
  ghost predicate Guarded(c: Core, op: Op, p: Picks) {
    && (op.IsSend() && SlotFor(c, op, p).Waiting? ==> RecvQ(c, KeyFor(op.site, op.ptr)) == [])
    && (op.IsRecv() && !Takes(c, p) ==> SendQ(c, KeyFor(op.site, op.ptr)) == [])
  }

  lemma SendGuard(c: Core, names: map<string, string>, op: Op, p: Picks)
    requires op.IsSend() && RecvPick(c, names, op.site, op.ptr, p.recv)
    ensures Guarded(c, op, p)
  {
  }

  lemma RecvGuard(c: Core, names: map<string, string>, op: Op, p: Picks)
    requires op.IsRecv() && SendPick(c, names, op.site, op.ptr, op.SelectRecv? || op.ptr == "", p.send)
    ensures Guarded(c, op, p)
  {
  }

  ghost predicate AllQuiet(events: seq<Emitted>) {
    forall i :: 0 <= i < |events| ==> !events[i].kind.ChanSend? && (events[i].kind.ChanRecv? ==> events[i].msgID == 0)
  }

  lemma {:induction false} QuietEvents(events: seq<Emitted>, l: Ledger, quiet: seq<Emitted>)
    requires EventsOk(events, l) && AllQuiet(quiet)
    ensures EventsOk(events + quiet, l)
  {
    if quiet == [] {
      assert events + quiet == events;
    } else {
      var init := quiet[..|quiet| - 1];
      QuietEvents(events, l, init);
      QuietEvent(events + init, l, quiet[|quiet| - 1]);
      assert events + quiet == events + init + [quiet[|quiet| - 1]];
    }
  }

  lemma BookQueued(sends: map<string, seq<SendRec>>, recvs: map<string, seq<RecvRec>>, nextID: nat,
                   events: seq<Emitted>, l: Ledger, k: string, rec: SendRec, quiet: seq<Emitted>, sent: Emitted)
    requires Books(sends, recvs, nextID, events, l) && rec.id == nextID
    requires k in recvs ==> recvs[k] == []
    requires AllQuiet(quiet) && sent.kind.ChanSend? && sent.msgID == nextID && sent.g == rec.g
    ensures Books(sends[k := (if k in sends then sends[k] else []) + [rec]], recvs, nextID + 1,
                  events + quiet + [sent], l + [Message(rec.g, Queued(k))])
  {
    IssueQueued(sends, l, k, rec);
    IssueEvent(events, l, Message(rec.g, Queued(k)));
    QuietEvents(events, l + [Message(rec.g, Queued(k))], quiet);
  }

  lemma BookAbsorbed(sends: map<string, seq<SendRec>>, recvs: map<string, seq<RecvRec>>, nextID: nat,
                     events: seq<Emitted>, l: Ledger, g: int, quiet: seq<Emitted>, sent: Emitted)
    requires Books(sends, recvs, nextID, events, l)
    requires AllQuiet(quiet) && sent.kind.ChanSend? && sent.msgID == nextID && sent.g == g
    ensures Books(sends, recvs, nextID + 1, events + quiet + [sent], l + [Message(g, Absorbed)])
  {
    IssueElsewhere(sends, l, Message(g, Absorbed));
    IssueEvent(events, l, Message(g, Absorbed));
    QuietEvents(events, l + [Message(g, Absorbed)], quiet);
  }

  /** A region emits the receipt after the send event. */
  lemma BookPaired(sends: map<string, seq<SendRec>>, recvs: map<string, seq<RecvRec>>, nextID: nat,
                   events: seq<Emitted>, l: Ledger, g: int, quiet: seq<Emitted>, sent: Emitted, got: Emitted, k: string)
    requires Books(sends, recvs, nextID, events, l) && k in recvs && recvs[k] != []
    requires AllQuiet(quiet) && sent.kind.ChanSend? && sent.msgID == nextID && sent.g == g
    requires got.kind.ChanRecv? && got.msgID == nextID && got.peerG == g
    ensures Books(sends, recvs[k := recvs[k][1..]], nextID + 1, events + quiet + [sent] + [got], l + [Message(g, Paired)])
  {
    var l0, m := l + [Message(g, Absorbed)], l + [Message(g, Paired)];
    IssueElsewhere(sends, l, Message(g, Paired));
    IssueEvent(events, l, Message(g, Absorbed));
    QuietEvents(events, l0, quiet);
    PairEvent(events + quiet + [sent], l0, |l| + 1, got);
    assert Settle(l0, |l| + 1, Paired) == m;
  }

  /** A select emits the receipt before the send event. */
  lemma BookPairedFirst(sends: map<string, seq<SendRec>>, recvs: map<string, seq<RecvRec>>, nextID: nat,
                        events: seq<Emitted>, l: Ledger, g: int, sent: Emitted, got: Emitted, k: string)
    requires Books(sends, recvs, nextID, events, l) && k in recvs && recvs[k] != []
    requires sent.kind.ChanSend? && sent.msgID == nextID && sent.g == g
    requires got.kind.ChanRecv? && got.msgID == nextID && got.peerG == g
    ensures Books(sends, recvs[k := recvs[k][1..]], nextID + 1, events + [got] + [sent], l + [Message(g, Paired)])
  {
    var l0, m := l + [Message(g, Absorbed)], l + [Message(g, Paired)];
    IssueElsewhere(sends, l, Message(g, Paired));
    IssueEvent(events, l, Message(g, Absorbed));
    PairEvent(events, l0, |l| + 1, got);
    assert Settle(l0, |l| + 1, Paired) == m;
  }

  lemma BookSkipped(sends: map<string, seq<SendRec>>, recvs: map<string, seq<RecvRec>>, nextID: nat,
                    events: seq<Emitted>, l: Ledger, k: string, quiet: seq<Emitted>)
    requires Books(sends, recvs, nextID, events, l) && k in sends && sends[k] != [] && AllQuiet(quiet)
    ensures 1 <= sends[k][0].id <= |l|
    ensures Books(sends[k := sends[k][1..]], recvs, nextID, events + quiet, Settle(l, sends[k][0].id, Skipped))
  {
    TakeHead(sends, l, k, Skipped);
    QuietEvents(events, l, quiet);
    SkipEvent(events + quiet, l, sends[k][0].id);
  }

  lemma SkipEvent(events: seq<Emitted>, l: Ledger, id: nat)
    requires EventsOk(events, l) && 1 <= id <= |l| && l[id - 1].fate.Queued?
    ensures EventsOk(events, Settle(l, id, Skipped))
  {
  }

  lemma BookReceived(sends: map<string, seq<SendRec>>, recvs: map<string, seq<RecvRec>>, nextID: nat,
                     events: seq<Emitted>, l: Ledger, k: string, quiet: seq<Emitted>, got: Emitted)
    requires Books(sends, recvs, nextID, events, l) && k in sends && sends[k] != [] && AllQuiet(quiet)
    requires got.kind.ChanRecv? && got.msgID == sends[k][0].id && got.peerG == sends[k][0].g
    ensures 1 <= sends[k][0].id <= |l|
    ensures Books(sends[k := sends[k][1..]], recvs, nextID, events + quiet + [got], Settle(l, sends[k][0].id, Paired))
  {
    TakeHead(sends, l, k, Paired);
    QuietEvents(events, l, quiet);
    PairEvent(events + quiet, l, sends[k][0].id, got);
  }

  lemma BookWaiting(sends: map<string, seq<SendRec>>, recvs: map<string, seq<RecvRec>>, nextID: nat,
                    events: seq<Emitted>, l: Ledger, k: string, q: seq<RecvRec>, quiet: seq<Emitted>)
    requires Books(sends, recvs, nextID, events, l) && AllQuiet(quiet)
    requires k in sends ==> sends[k] == []
    ensures Books(sends, recvs[k := q], nextID, events + quiet, l)
  {
    QuietEvents(events, l, quiet);
  }

  // ----- operations -----

  lemma SendKeeps(c: Core, l: Ledger, op: Op, p: Picks)
    requires Accounts(c, l) && op.IsSend() && Guarded(c, op, p)
    ensures Accounts(AfterSend(c, op, p), l + [Message(op.g, FateOf(SlotFor(c, op, p)))])
  {
    var id, sent := c.nextID, SentEvent(op, c.nextID);
    var quiet := if op.Send? then [DoneEvent(op)] else [];
    match SlotFor(c, op, p)
    case Early(k) =>
      var got := EarlyReceipt(op, RecvQ(c, k)[0], id);
      if op.Send? {
        BookPaired(c.sends, c.recvs, id, c.emitted, l, op.g, quiet, sent, got, k);
        assert c.emitted + SendEvents(c, op, p) == c.emitted + quiet + [sent] + [got];
      } else {
        BookPairedFirst(c.sends, c.recvs, id, c.emitted, l, op.g, sent, got, k);
        assert c.emitted + SendEvents(c, op, p) == c.emitted + [got] + [sent];
      }
    case OnCredit(_) =>
      BookAbsorbed(c.sends, c.recvs, id, c.emitted, l, op.g, quiet, sent);
      assert c.emitted + SendEvents(c, op, p) == c.emitted + quiet + [sent];
    case Waiting(k) =>
      BookQueued(c.sends, c.recvs, id, c.emitted, l, k, NewSend(op, id), quiet, sent);
      assert c.emitted + SendEvents(c, op, p) == c.emitted + quiet + [sent];
  }

  lemma RecvKeeps(c: Core, l: Ledger, skip: set<string>, op: Op, p: Picks)
    requires Accounts(c, l) && op.IsRecv() && Guarded(c, op, p)
    ensures Accounts(AfterRecv(c, skip, op, p), Track(l, c, skip, op, p))
  {
    var quiet := RecvEvents(c, skip, op, p);
    assert AllQuiet(quiet);
    if Takes(c, p) {
      var k := p.send.value;
      if Skips(skip, op) {
        BookSkipped(c.sends, c.recvs, c.nextID, c.emitted, l, k, quiet);
      } else {
        BookReceived(c.sends, c.recvs, c.nextID, c.emitted, l, k, quiet, Receipt(c, op, p));
      }
    } else if op.Recv? {
      var k := KeyFor(op.site, op.ptr);
      BookWaiting(c.sends, c.recvs, c.nextID, c.emitted, l, k,
                  RecvQ(c, k) + [RecvRec(op.t, op.g, op.role, op.ch, op.ptr)], quiet);
    } else {
      QuietEvents(c.emitted, l, quiet);
    }
  }

  // ----- credits and queue lengths -----

  ghost function Total(m: map<string, nat>): nat
    decreases |m|
  {
    if m == map[] then 0
    else
      var k :| k in m;
      m[k] + Total(m - {k})
  }

  /** The sum may be taken in any order. */
  lemma {:induction false} TotalWithout(m: map<string, nat>, k: string)
    requires k in m
    ensures Total(m) == m[k] + Total(m - {k})
    decreases |m|
  {
    var j :| j in m && Total(m) == m[j] + Total(m - {j});
    if j != k {
      TotalWithout(m - {j}, k);
      TotalWithout(m - {k}, j);
      assert m - {j} - {k} == m - {k} - {j};
    }
  }

  lemma TotalUpdate(m: map<string, nat>, k: string, v: nat)
    ensures Total(m[k := v]) == Total(m) + v - Count(m, k)
  {
    TotalWithout(m[k := v], k);
    assert m[k := v] - {k} == m - {k};
    if k in m { TotalWithout(m, k); } else { assert m - {k} == m; }
  }

  datatype Place = AtQueue | AtPair | AtCredit | AtSkip

  function PlaceOf(fate: Fate): Place {
    match fate
    case Queued(_) => AtQueue
    case Paired => AtPair
    case Absorbed => AtCredit
    case Skipped => AtSkip
  }

  /** How many messages are at a place. */
  function InPlace(l: Ledger, place: Place): nat {
    if l == [] then 0 else InPlace(l[..|l| - 1], place) + if PlaceOf(l[|l| - 1].fate) == place then 1 else 0
  }

  lemma {:induction false} PlacesCoverLedger(l: Ledger)
    ensures InPlace(l, AtQueue) + InPlace(l, AtPair) + InPlace(l, AtCredit) + InPlace(l, AtSkip) == |l|
  {
    if l != [] { PlacesCoverLedger(l[..|l| - 1]); }
  }

  lemma IssuePlaces(l: Ledger, m: Message, place: Place)
    ensures InPlace(l + [m], place) == InPlace(l, place) + if PlaceOf(m.fate) == place then 1 else 0
  {
    assert (l + [m])[..|l|] == l;
  }

  /** The number of waiting sends. */
  ghost function Lengths(sends: map<string, seq<SendRec>>): map<string, nat> {
    map k | k in sends :: |sends[k]|
  }

  lemma LengthsUpdate(sends: map<string, seq<SendRec>>, k: string, q: seq<SendRec>)
    ensures Total(Lengths(sends[k := q])) == Total(Lengths(sends)) + |q| - if k in sends then |sends[k]| else 0
  {
    assert Lengths(sends[k := q]) == Lengths(sends)[k := |q|];
    TotalUpdate(Lengths(sends), k, |q|);
  }

  /** Select receives that found no send. */
  function EarlySelects(events: seq<Emitted>): nat {
    if events == [] then 0
    else
      var e := events[|events| - 1];
      EarlySelects(events[..|events| - 1]) + if e.kind == ChanRecv && e.msgID == 0 then 1 else 0
  }

  lemma {:induction false} EarlySelectsConcat(a: seq<Emitted>, b: seq<Emitted>)
    ensures EarlySelects(a + b) == EarlySelects(a) + EarlySelects(b)
  {
    if b == [] {
      assert a + b == a;
    } else {
      EarlySelectsConcat(a, b[..|b| - 1]);
      assert (a + b)[..|a + b| - 1] == a + b[..|b| - 1];
    }
  }

  lemma {:induction false} NoEarlySelects(events: seq<Emitted>)
    requires forall i :: 0 <= i < |events| && events[i].kind.ChanRecv? ==> events[i].msgID != 0
    ensures EarlySelects(events) == 0
  {
    if events != [] { NoEarlySelects(events[..|events| - 1]); }
  }

  lemma {:induction false} SettlePlaces(l: Ledger, id: nat, fate: Fate, place: Place)
    requires 1 <= id <= |l|
    ensures InPlace(Settle(l, id, fate), place) + (if PlaceOf(l[id - 1].fate) == place then 1 else 0) ==
            InPlace(l, place) + if PlaceOf(fate) == place then 1 else 0
  {
    if id < |l| {
      assert Settle(l, id, fate)[..|l| - 1] == Settle(l[..|l| - 1], id, fate);
      SettlePlaces(l[..|l| - 1], id, fate, place);
    } else {
      assert Settle(l, id, fate)[..|l| - 1] == l[..|l| - 1];
    }
  }

  /** A select receive that finds no send. */
  predicate IsEarly(c: Core, op: Op, p: Picks) {
    op.SelectRecv? && !Takes(c, p)
  }

  /** The early select receives of a run, and how many of them are on a channel with a name. */
  datatype EarlyCount = EarlyCount(all: nat, named: nat)

  function CountEarly(e: EarlyCount, c: Core, op: Op, p: Picks): EarlyCount {
    if !IsEarly(c, op, p) then e else EarlyCount(e.all + 1, if op.site.base != "" then e.named + 1 else e.named)
  }

  /** One credit for each early select receive and a second one if its channel has a name: left, or used by a send. */
  ghost predicate CreditsOk(c: Core, l: Ledger, e: EarlyCount) {
    && EarlySelects(c.emitted) == e.all && e.named <= e.all
    && Total(c.credits) + InPlace(l, AtCredit) == e.all + e.named
  }

  lemma SendKeepsCredits(c: Core, l: Ledger, e: EarlyCount, op: Op, p: Picks)
    requires c.nextID >= 1 && CreditsOk(c, l, e) && op.IsSend()
    ensures CreditsOk(AfterSend(c, op, p), l + [Message(op.g, FateOf(SlotFor(c, op, p)))], e)
  {
    var slot := SlotFor(c, op, p);
    SendIsNotEarly(c, op, p);
    IssuePlaces(l, Message(op.g, FateOf(slot)), AtCredit);
    if slot.OnCredit? { TotalUpdate(c.credits, slot.key, Credit(c, slot.key) - 1); }
  }

  lemma NotEarly(events: seq<Emitted>, more: seq<Emitted>)
    requires forall i :: 0 <= i < |more| && more[i].kind.ChanRecv? ==> more[i].msgID != 0
    ensures EarlySelects(events + more) == EarlySelects(events)
  {
    NoEarlySelects(more);
    EarlySelectsConcat(events, more);
  }

  lemma SendEmits(c: Core, op: Op, p: Picks)
    requires op.IsSend()
    ensures AfterSend(c, op, p).emitted == c.emitted + SendEvents(c, op, p)
  {
  }

  lemma SendIsNotEarly(c: Core, op: Op, p: Picks)
    requires c.nextID >= 1 && op.IsSend()
    ensures EarlySelects(AfterSend(c, op, p).emitted) == EarlySelects(c.emitted)
  {
    SendEmits(c, op, p);
    SentWithId(c, op, p);
    NotEarly(c.emitted, SendEvents(c, op, p));
  }

  lemma SentWithId(c: Core, op: Op, p: Picks)
    requires c.nextID >= 1 && op.IsSend()
    ensures var events := SendEvents(c, op, p);
            forall i :: 0 <= i < |events| && events[i].kind.ChanRecv? ==> events[i].msgID != 0
  {
    var slot, sent := SlotFor(c, op, p), SentEvent(op, c.nextID);
    assert sent.kind.ChanSend?;
    if slot.Early? && RecvQ(c, slot.key) != [] {
      var got := EarlyReceipt(op, RecvQ(c, slot.key)[0], c.nextID);
      assert SendEvents(c, op, p) == if op.Send? then [DoneEvent(op), sent, got] else [got, sent];
    } else {
      assert SendEvents(c, op, p) == if op.Send? then [DoneEvent(op), sent] else [sent];
    }
  }

  lemma TakeKeepsCredits(c: Core, l: Ledger, e: EarlyCount, skip: set<string>, op: Op, p: Picks)
    requires CreditsOk(c, l, e) && op.IsRecv() && Takes(c, p)
    requires 1 <= Head(c, p).id <= |l| && l[Head(c, p).id - 1].fate.Queued?
    ensures CreditsOk(AfterRecv(c, skip, op, p), Track(l, c, skip, op, p), e)
  {
    EarlyEvents(c, skip, op, p);
    SettlePlaces(l, Head(c, p).id, if Skips(skip, op) then Skipped else Paired, AtCredit);
  }

  lemma RecvKeepsCredits(c: Core, l: Ledger, e: EarlyCount, skip: set<string>, op: Op, p: Picks)
    requires CreditsOk(c, l, e) && op.IsRecv()
    requires Takes(c, p) ==> 1 <= Head(c, p).id <= |l| && l[Head(c, p).id - 1].fate.Queued?
    ensures CreditsOk(AfterRecv(c, skip, op, p), Track(l, c, skip, op, p), CountEarly(e, c, op, p))
  {
    if Takes(c, p) {
      TakeKeepsCredits(c, l, e, skip, op, p);
    } else {
      EarlyEvents(c, skip, op, p);
      if op.SelectRecv? { GrantedCredits(c, op); }
    }
  }

  /** Only a select receive that finds no send adds to the early selects. */
  lemma EarlyEvents(c: Core, skip: set<string>, op: Op, p: Picks)
    requires op.IsRecv() && (Takes(c, p) ==> Head(c, p).id >= 1)
    ensures EarlySelects(AfterRecv(c, skip, op, p).emitted) ==
            EarlySelects(c.emitted) + if op.SelectRecv? && !Takes(c, p) then 1 else 0
  {
    var events := RecvEvents(c, skip, op, p);
    EarlySelectsConcat(c.emitted, events);
    if op.SelectRecv? && !Takes(c, p) {
      assert events[..0] == [];
    } else {
      NoEarlySelects(events);
    }
    if Takes(c, p) {
      NoEarlySelects([Receipt(c, op, p)]);
      EarlySelectsConcat(c.emitted + events, [Receipt(c, op, p)]);
    }
  }

  /** Such a receive grants a credit for its key, and another one for its name if it has one. */
  lemma GrantedCredits(c: Core, op: Op)
    requires op.SelectRecv?
    ensures var once := AddCredit(c.credits, KeyFor(op.site, op.ptr));
            && Total(once) == Total(c.credits) + 1
            && Total(AddCredit(once, op.site.full)) == Total(c.credits) + 2
  {
    var k := KeyFor(op.site, op.ptr);
    TotalUpdate(c.credits, k, Count(c.credits, k) + 1);
    var once := AddCredit(c.credits, k);
    TotalUpdate(once, op.site.full, Count(once, op.site.full) + 1);
  }

  /** The sends that wait are the queued messages. */
  ghost predicate PendingOk(c: Core, l: Ledger) {
    Total(Lengths(c.sends)) == InPlace(l, AtQueue)
  }

  lemma SendKeepsPending(c: Core, l: Ledger, op: Op, p: Picks)
    requires PendingOk(c, l) && op.IsSend()
    ensures PendingOk(AfterSend(c, op, p), l + [Message(op.g, FateOf(SlotFor(c, op, p)))])
  {
    var slot := SlotFor(c, op, p);
    IssuePlaces(l, Message(op.g, FateOf(slot)), AtQueue);
    if slot.Waiting? { LengthsUpdate(c.sends, slot.key, SendQ(c, slot.key) + [NewSend(op, c.nextID)]); }
  }

  lemma RecvKeepsPending(c: Core, l: Ledger, skip: set<string>, op: Op, p: Picks)
    requires PendingOk(c, l) && op.IsRecv()
    requires Takes(c, p) ==> 1 <= Head(c, p).id <= |l| && l[Head(c, p).id - 1].fate.Queued?
    ensures PendingOk(AfterRecv(c, skip, op, p), Track(l, c, skip, op, p))
  {
    if Takes(c, p) {
      var k := p.send.value;
      SettlePlaces(l, Head(c, p).id, if Skips(skip, op) then Skipped else Paired, AtQueue);
      LengthsUpdate(c.sends, k, c.sends[k][1..]);
    }
  }

  /** Ids, credits and queue lengths agree with the ledger. */
  ghost predicate Conserved(c: Core, l: Ledger, e: EarlyCount) {
    Accounts(c, l) && CreditsOk(c, l, e) && PendingOk(c, l)
  }

  lemma SendConserves(c: Core, names: map<string, string>, l: Ledger, e: EarlyCount, op: Op, p: Picks)
    requires Conserved(c, l, e) && op.IsSend()
    requires RecvPick(c, names, op.site, op.ptr, p.recv)
    ensures Conserved(AfterSend(c, op, p), l + [Message(op.g, FateOf(SlotFor(c, op, p)))], e)
  {
    SendGuard(c, names, op, p);
    SendKeeps(c, l, op, p);
    SendKeepsCredits(c, l, e, op, p);
    SendKeepsPending(c, l, op, p);
  }

  lemma HeadIsQueued(c: Core, l: Ledger, p: Picks)
    requires Accounts(c, l) && Takes(c, p)
    ensures 1 <= Head(c, p).id <= |l| && l[Head(c, p).id - 1].fate.Queued?
  {
    assert QueueOk(p.send.value, c.sends[p.send.value], l);
  }

  lemma RecvConserves(c: Core, names: map<string, string>, l: Ledger, e: EarlyCount, skip: set<string>, op: Op, p: Picks)
    requires Conserved(c, l, e) && op.IsRecv()
    requires SendPick(c, names, op.site, op.ptr, op.SelectRecv? || op.ptr == "", p.send)
    ensures Conserved(AfterRecv(c, skip, op, p), Track(l, c, skip, op, p), CountEarly(e, c, op, p))
  {
    RecvGuard(c, names, op, p);
    RecvKeeps(c, l, skip, op, p);
    if Takes(c, p) { HeadIsQueued(c, l, p); }
    RecvKeepsCredits(c, l, e, skip, op, p);
    RecvKeepsPending(c, l, skip, op, p);
  }

  lemma StepConserves(st: Pairs, l: Ledger, e: EarlyCount, op: Op, p: Picks)
    requires Conserved(st.core, l, e) && ValidPicks(st, op, p)
    ensures Conserved(Perform(st, op, p).core, Track(l, st.core, st.skip, op, p), CountEarly(e, st.core, op, p))
  {
    if op.IsSend() {
      SendConserves(st.core, st.names, l, e, op, p);
    } else if op.IsRecv() {
      RecvConserves(st.core, st.names, l, e, st.skip, op, p);
    }
  }

  lemma NothingSkipped(l: Ledger, c: Core, op: Op, p: Picks)
    ensures InPlace(Track(l, c, {}, op, p), AtSkip) <= InPlace(l, AtSkip)
  {
    if op.IsSend() {
      IssuePlaces(l, Message(op.g, FateOf(SlotFor(c, op, p))), AtSkip);
    } else if op.IsRecv() && Takes(c, p) && 1 <= Head(c, p).id <= |l| {
      SettlePlaces(l, Head(c, p).id, Paired, AtSkip);
    }
  }

  lemma SkipStays(skip: set<string>, ops: seq<Op>, states: seq<Pairs>, i: nat)
    requires Run(skip, ops, states) && i < |states|
    ensures states[i].skip == skip
  {
    if i > 0 {
      SkipStays(skip, ops, states, i - 1);
      assert Next(states[i - 1], ops[i - 1], states[i]);
    }
  }

  // ----- runs -----

  /** The picks with which each step of the run was made. */
  ghost predicate Explains(ops: seq<Op>, states: seq<Pairs>, picks: seq<Picks>) {
    && |states| == |ops| + 1 && |picks| == |ops|
    && forall i :: 0 <= i < |ops| ==>
         ValidPicks(states[i], ops[i], picks[i]) && states[i + 1] == Perform(states[i], ops[i], picks[i])
  }

  lemma {:induction false} RunHasPicks(skip: set<string>, ops: seq<Op>, states: seq<Pairs>) returns (picks: seq<Picks>)
    requires Run(skip, ops, states)
    ensures Explains(ops, states, picks)
    decreases |ops|
  {
    if ops == [] {
      picks := [];
    } else {
      RunPrefix(skip, ops, states);
      var n := |ops| - 1;
      var before := RunHasPicks(skip, ops[..n], states[..n + 1]);
      var p :| ValidPicks(states[n], ops[n], p) && states[n + 1] == Perform(states[n], ops[n], p);
      picks := before + [p];
      forall i | 0 <= i < |ops|
        ensures ValidPicks(states[i], ops[i], picks[i]) && states[i + 1] == Perform(states[i], ops[i], picks[i])
      {
        if i < n {
          assert states[..n + 1][i] == states[i] && ops[..n][i] == ops[i] && states[..n + 1][i + 1] == states[i + 1];
        }
      }
    }
  }

  /** The ledger that the run writes step by step. */
  function LedgerOf(ops: seq<Op>, states: seq<Pairs>, picks: seq<Picks>): Ledger
    requires |states| == |ops| + 1 && |picks| == |ops|
  {
    if ops == [] then []
    else
      var n := |ops| - 1;
      Track(LedgerOf(ops[..n], states[..n + 1], picks[..n]), states[n].core, states[n].skip, ops[n], picks[n])
  }

  function EarlyOf(ops: seq<Op>, states: seq<Pairs>, picks: seq<Picks>): EarlyCount
    requires |states| == |ops| + 1 && |picks| == |ops|
  {
    if ops == [] then EarlyCount(0, 0)
    else
      var n := |ops| - 1;
      CountEarly(EarlyOf(ops[..n], states[..n + 1], picks[..n]), states[n].core, ops[n], picks[n])
  }

  lemma ExplainsPrefix(ops: seq<Op>, states: seq<Pairs>, picks: seq<Picks>)
    requires Explains(ops, states, picks) && ops != []
    ensures Explains(ops[..|ops| - 1], states[..|ops|], picks[..|ops| - 1])
  {
  }

  // ----- main results -----

  /**
   Over every run - any interleaving of sends, receives and selects, any picks
   of the unordered searches - the ledger written along the run gives each
   issued id exactly one place: its queue, one paired receive that names its
   sender, an early select receive, or the skip list; no key has both a waiting
   send and a waiting receive; as many sends wait as there are queued messages;
   and credits left and sends absorbed make up one for each early select receive
   and another one for each of them on a channel with a name.
   */
  lemma {:induction false} RunsConserveIds(skip: set<string>, ops: seq<Op>, states: seq<Pairs>, picks: seq<Picks>)
    requires Run(skip, ops, states) && Explains(ops, states, picks)
    ensures Conserved(states[|ops|].core, LedgerOf(ops, states, picks), EarlyOf(ops, states, picks))
    ensures skip == {} ==> InPlace(LedgerOf(ops, states, picks), AtSkip) == 0
    decreases |ops|
  {
    if ops != [] {
      var n := |ops| - 1;
      RunPrefix(skip, ops, states);
      ExplainsPrefix(ops, states, picks);
      RunsConserveIds(skip, ops[..n], states[..n + 1], picks[..n]);
      SkipStays(skip, ops, states, n);
      var l := LedgerOf(ops[..n], states[..n + 1], picks[..n]);
      StepConserves(states[n], l, EarlyOf(ops[..n], states[..n + 1], picks[..n]), ops[n], picks[n]);
      NothingSkipped(l, states[n].core, ops[n], picks[n]);
    }
  }

  lemma {:induction false} NamedEarly(ops: seq<Op>, states: seq<Pairs>, picks: seq<Picks>)
    requires |states| == |ops| + 1 && |picks| == |ops|
    ensures EarlyOf(ops, states, picks).named == 0 <==>
            forall i :: 0 <= i < |ops| && IsEarly(states[i].core, ops[i], picks[i]) ==> ops[i].site.base == ""
  {
    if ops != [] {
      var n := |ops| - 1;
      NamedEarly(ops[..n], states[..n + 1], picks[..n]);
      assert forall i :: 0 <= i < n ==> ops[..n][i] == ops[i] && states[..n + 1][i] == states[i] && picks[..n][i] == picks[i];
    }
  }

  /**
   Credits match receives - each early select receive is used up by one send at
   most - exactly if no early select receive of the run is on a channel with a name.
   */
  lemma CreditsMatchReceivesExactly(skip: set<string>, ops: seq<Op>, states: seq<Pairs>, picks: seq<Picks>)
    requires Run(skip, ops, states) && Explains(ops, states, picks)
    ensures var c := states[|ops|].core;
            Total(c.credits) + InPlace(LedgerOf(ops, states, picks), AtCredit) == EarlySelects(c.emitted) <==>
            forall i :: 0 <= i < |ops| && IsEarly(states[i].core, ops[i], picks[i]) ==> ops[i].site.base == ""
  {
    RunsConserveIds(skip, ops, states, picks);
    NamedEarly(ops, states, picks);
  }

  /** One receive: it grants a single credit exactly if its channel has no name, and two otherwise. */
  lemma SingleCreditExactly(st: Pairs, op: Op, p: Picks)
    requires IsEarly(st.core, op, p)
    ensures var granted := Total(Perform(st, op, p).core.credits) - Total(st.core.credits);
            1 <= granted <= 2 && (granted == 1 <==> op.site.base == "")
  {
    GrantedCredits(st.core, op);
  }

  /**
   Both credits of a named channel can be used: a single select receive on a named channel that
   finds nothing waiting makes the next two sends on that channel count as received.
   */
  lemma OneReceiveAbsorbsTwoSends(skip: set<string>, r: Op, s: Op, t: Op)
    requires r.SelectRecv? && s.Send? && t.Send? && r.site == s.site == t.site && r.ptr == s.ptr == t.ptr == ""
    requires r.site.base != ""
    ensures var none := Picks(None, None, None);
            var credit := Picks(None, Some(r.site.full), None);
            var st1 := Perform(Fresh(skip), r, none);
            var st2 := Perform(st1, s, credit);
            && ValidPicks(Fresh(skip), r, none) && EarlySelects(st1.core.emitted) == 1
            && ValidPicks(st1, s, credit) && SlotFor(st1.core, s, credit) == OnCredit(r.site.full)
            && ValidPicks(st2, t, credit) && SlotFor(st2.core, t, credit) == OnCredit(r.site.full)
  {
    var st1 := Perform(Fresh(skip), r, Picks(None, None, None));
    assert st1.core.emitted[..0] == [];
    assert st1.core.credits[r.site.full] == 2;
  }
}
