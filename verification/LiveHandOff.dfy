/**
 The live hand-off: a reader numbers and records events, a buffering goroutine
 holds them back until a snapshot has been sent, and a sender delivers the
 snapshot and then the live stream. The goroutines are interleaved step by step.
 */
module LiveHandOff {
  import opened Shared

  /** An event is represented by the sequence number it was given: 1, 2, 3, ... */
  type Event = nat

  // ----- the ring history -----

  const RUN_HISTORY_CAPACITY: nat := 2000

  /** The last max events, oldest first. */
  function Recorded(events: seq<Event>, max: nat, ev: Event): seq<Event> {
    if |events| == max && max > 0 then events[1..] + [ev] else events + [ev]
  }

  class RunHistory {
    const events: array<Event>
    var len: nat

    ghost predicate Valid()
      reads this
    {
      0 < events.Length && len <= events.Length
    }

    ghost function Contents(): seq<Event>
      requires Valid()
      reads this, events
    {
      events[..len]
    }

    constructor (max: int)
      ensures Valid() && fresh(events) && Contents() == []
      ensures events.Length == if max <= 0 then 2000 else max
    {
      var size := if max <= 0 then RUN_HISTORY_CAPACITY else max;
      events := new Event[size](_ => 0);
      len := 0;
    }

    method Add(ev: Event)
      requires Valid()
      modifies this`len, events
      ensures Valid() && Contents() == Recorded(old(Contents()), events.Length, ev)
    {
      if len == events.Length {
        for i := 0 to len - 1
          invariant len == old(len)
          invariant forall j :: 0 <= j < i ==> events[j] == old(events[j + 1])
          invariant forall j :: i <= j < len ==> events[j] == old(events[j])
        {
          events[i] := events[i + 1];
        }
        events[len - 1] := ev;
      } else {
        events[len] := ev;
        len := len + 1;
      }
    }

    method Snapshot() returns (out: seq<Event>)
      requires Valid()
      ensures out == Contents()
    {
      out := events[..len];
    }

    method LastSeq() returns (n: nat)
      requires Valid()
      ensures n == if Contents() == [] then 0 else Contents()[|Contents()| - 1]
    {
      n := if len == 0 then 0 else events[len - 1];
    }
  }

  // ----- the protocol -----

  /** total bounds what the reader will emit; the channel capacities and the history size. */
  datatype Config = Config(total: nat, eventCap: nat, liveCap: nat, historyMax: nat)
  {
    predicate Valid() {
      eventCap >= 1 && liveCap >= 1 && historyMax >= 1
    }
  }

  /** holding: the last event is recorded but not yet in the event channel; done: that channel is closed. */
  datatype Reader = Reader(produced: nat, holding: bool, done: bool, posted: bool, history: seq<Event>)

  /** The buffering goroutine, with the channel it reads; closed: the live channel is closed. */
  datatype Buffer = Buffer(eventCh: seq<Event>, current: Option<Event>, pending: seq<Event>, buffering: bool, closed: bool)

  /** Before the snapshot, sending it, streaming, finished. */
  datatype Phase = Waiting | Sending(next: nat) | Streaming | Ended

  /** The sender, with the channel it reads; ready: the buffering goroutine may go. */
  datatype Sender = Sender(liveCh: seq<Event>, ready: bool, phase: Phase, snapshot: seq<Event>,
                           lastSeq: nat, failed: bool, sent: seq<Event>)

  datatype State = State(rd: Reader, bf: Buffer, sn: Sender)

  function Init(): State {
    State(Reader(0, false, false, false, []), Buffer([], None, [], true, false),
          Sender([], false, Waiting, [], 0, false, []))
  }

  datatype Step =
    | Produce        // number the next event and record it
    | Emit           // hand it to the event channel
    | CloseTrace     // end of trace or read error: close the event channel
    | PostResult     // report to the error channel
    | Receive        // take an event off the event channel
    | Gate           // while buffering: look whether the snapshot is out
    | Flush          // move one held-back event to the live channel
    | Forward        // pass the current event on
    | Release        // event channel closed while buffering: wait for the snapshot
    | CloseLive
    | TakeSnapshot
    | SendSnapshot   // one snapshot event
    | OpenGate       // snapshot sent: let the buffering goroutine go
    | Deliver        // take a live event: skip it or send it
    | FailWrite      // take a live event: the write fails
    | End

  predicate Drained(s: State) {
    s.rd.done && s.bf.eventCh == [] && s.bf.current.None?
  }

  predicate Enabled(c: Config, s: State, step: Step) {
    var State(rd, bf, sn) := s;
    match step
    case Produce => !rd.done && !rd.holding && rd.produced < c.total
    case Emit => rd.holding && |bf.eventCh| < c.eventCap
    case CloseTrace => !rd.done && !rd.holding
    case PostResult => rd.done && !rd.posted
    case Receive => bf.current.None? && bf.eventCh != [] && (bf.buffering || bf.pending == [])
    case Gate => bf.buffering && bf.current.Some?
    case Flush => !bf.buffering && bf.pending != [] && |sn.liveCh| < c.liveCap
    case Forward => !bf.buffering && bf.pending == [] && bf.current.Some? && |sn.liveCh| < c.liveCap
    case Release => Drained(s) && bf.buffering && sn.ready
    case CloseLive => !bf.closed && Drained(s) && !bf.buffering && bf.pending == []
    case TakeSnapshot => sn.phase.Waiting?
    case SendSnapshot => sn.phase.Sending? && sn.phase.next < |sn.snapshot|
    case OpenGate => sn.phase.Sending? && sn.phase.next >= |sn.snapshot|
    case Deliver => sn.phase.Streaming? && sn.liveCh != []
    case FailWrite => sn.phase.Streaming? && sn.liveCh != [] && sn.liveCh[0] > sn.lastSeq && !sn.failed
    case End => sn.phase.Streaming? && sn.liveCh == [] && bf.closed && rd.posted
  }

  function LastOf(events: seq<Event>): nat {
    if events == [] then 0 else events[|events| - 1]
  }

  function Apply(c: Config, s: State, step: Step): State
    requires Enabled(c, s, step)
  {
    var State(rd, bf, sn) := s;
    match step
    case Produce =>
      s.(rd := rd.(produced := rd.produced + 1, holding := true,
                   history := Recorded(rd.history, c.historyMax, rd.produced + 1)))
    case Emit => State(rd.(holding := false), bf.(eventCh := bf.eventCh + [rd.produced]), sn)
    case CloseTrace => s.(rd := rd.(done := true))
    case PostResult => s.(rd := rd.(posted := true))
    case Receive => s.(bf := bf.(current := Some(bf.eventCh[0]), eventCh := bf.eventCh[1..]))
    case Gate =>
      if sn.ready then s.(bf := bf.(buffering := false))
      else s.(bf := bf.(pending := bf.pending + [bf.current.value], current := None))
    case Flush => State(rd, bf.(pending := bf.pending[1..]), sn.(liveCh := sn.liveCh + [bf.pending[0]]))
    case Forward => State(rd, bf.(current := None), sn.(liveCh := sn.liveCh + [bf.current.value]))
    case Release => s.(bf := bf.(buffering := false))
    case CloseLive => s.(bf := bf.(closed := true))
    case TakeSnapshot => s.(sn := sn.(snapshot := rd.history, phase := Sending(0)))
    case SendSnapshot =>
      s.(sn := sn.(sent := sn.sent + [sn.snapshot[sn.phase.next]], phase := Sending(sn.phase.next + 1)))
    case OpenGate => s.(sn := sn.(lastSeq := LastOf(sn.snapshot), ready := true, phase := Streaming))
    case Deliver =>
      var ev, rest := sn.liveCh[0], sn.(liveCh := sn.liveCh[1..]);
      s.(sn := if ev <= sn.lastSeq || sn.failed then rest else rest.(sent := sn.sent + [ev], lastSeq := ev))
    case FailWrite => s.(sn := sn.(liveCh := sn.liveCh[1..], failed := true))
    case End => s.(sn := sn.(phase := Ended))
  }

  ghost predicate Next(c: Config, s: State, t: State) {
    exists step :: Enabled(c, s, step) && t == Apply(c, s, step)
  }

  ghost predicate Behaviour(c: Config, run: seq<State>) {
    run != [] && run[0] == Init() && forall i :: 0 <= i < |run| - 1 ==> Next(c, run[i], run[i + 1])
  }

  // ----- the invariant -----

  /** The events lo + 1, lo + 2, ... in order. */
  ghost predicate From(q: seq<Event>, lo: int) {
    forall i :: 0 <= i < |q| ==> q[i] == lo + i + 1
  }

  /** How many events entered the event channel, were received by the buffering goroutine, and so on down the line. */
  function Emitted(s: State): int { s.rd.produced - if s.rd.holding then 1 else 0 }

  function Received(s: State): int { Emitted(s) - |s.bf.eventCh| }

  function Kept(s: State): int { Received(s) - if s.bf.current.Some? then 1 else 0 }

  function Passed(s: State): int { Kept(s) - |s.bf.pending| }

  function Taken(s: State): int { Passed(s) - |s.sn.liveCh| }

  /** Every queue holds exactly the events between the counters at its two ends. */
  ghost predicate LineOk(s: State) {
    && 0 <= Taken(s)
    && From(s.sn.liveCh, Taken(s)) && From(s.bf.pending, Passed(s)) && From(s.bf.eventCh, Received(s))
    && (s.bf.current.Some? ==> s.bf.current.value == Received(s))
  }

  /** The last historyMax events, or all. */
  ghost predicate HistoryOk(c: Config, rd: Reader) {
    && rd.produced <= c.total
    && |rd.history| == (if rd.produced < c.historyMax then rd.produced else c.historyMax)
    && From(rd.history, rd.produced - |rd.history|)
  }

  ghost predicate ControlOk(c: Config, s: State) {
    var State(rd, bf, sn) := s;
    && |bf.eventCh| <= c.eventCap && |sn.liveCh| <= c.liveCap
    && (bf.buffering ==> Passed(s) == 0 && !bf.closed)
    && (!bf.buffering ==> sn.ready)
    && (sn.ready <==> sn.phase.Streaming? || sn.phase.Ended?)
    && (bf.closed ==> Drained(s) && bf.pending == [])
    && (rd.done ==> !rd.holding) && (rd.posted ==> rd.done)
    && (sn.phase.Ended? ==> bf.closed && rd.posted && sn.liveCh == [])
  }

  /** The number of events before the first one that is sent. */
  function First(sn: Sender): int {
    if sn.snapshot == [] then 0 else sn.snapshot[0] as int - 1
  }

  /** What has been sent, phase by phase. */
  ghost predicate SentOk(c: Config, sn: Sender, produced: nat, taken: int) {
    var last := LastOf(sn.snapshot);
    && 0 <= First(sn) && From(sn.snapshot, First(sn)) && last <= produced && |sn.snapshot| <= c.historyMax
    && (First(sn) > 0 ==> |sn.snapshot| == c.historyMax)
    && From(sn.sent, First(sn))
    && match sn.phase
       case Waiting => sn.sent == [] && sn.snapshot == [] && sn.lastSeq == 0 && !sn.failed
       case Sending(k) => k == |sn.sent| <= |sn.snapshot| && sn.lastSeq == 0 && !sn.failed
       case _ =>
         && First(sn) + |sn.sent| == sn.lastSeq && last <= sn.lastSeq
         && (last < sn.lastSeq ==> sn.lastSeq <= taken)
         && (!sn.failed ==> taken <= sn.lastSeq)
  }

  ghost predicate Inv(c: Config, s: State) {
    LineOk(s) && HistoryOk(c, s.rd) && ControlOk(c, s) && SentOk(c, s.sn, s.rd.produced, Taken(s))
  }

  predicate ReaderStep(step: Step) {
    step.Produce? || step.Emit? || step.CloseTrace? || step.PostResult?
  }

  predicate SenderStep(step: Step) {
    step.TakeSnapshot? || step.SendSnapshot? || step.OpenGate? || step.Deliver? || step.FailWrite? || step.End?
  }

  lemma ReaderKeepsLine(c: Config, s: State, step: Step)
    requires Inv(c, s) && Enabled(c, s, step) && ReaderStep(step)
    ensures var t := Apply(c, s, step); LineOk(t) && Taken(t) == Taken(s) && t.sn == s.sn
  {
  }

  lemma BufferKeepsLine(c: Config, s: State, step: Step)
    requires Inv(c, s) && Enabled(c, s, step) && !ReaderStep(step) && !SenderStep(step)
    ensures var t := Apply(c, s, step);
            LineOk(t) && Taken(t) == Taken(s) && t.rd == s.rd && t.sn == s.sn.(liveCh := t.sn.liveCh)
  {
  }

  lemma SenderKeepsLine(c: Config, s: State, step: Step)
    requires Inv(c, s) && Enabled(c, s, step) && SenderStep(step)
    ensures var t := Apply(c, s, step);
            && LineOk(t) && t.rd == s.rd && t.bf == s.bf
            && Taken(t) == Taken(s) + if step.Deliver? || step.FailWrite? then 1 else 0
  {
  }

  lemma LineKept(c: Config, s: State, step: Step)
    requires Inv(c, s) && Enabled(c, s, step)
    ensures LineOk(Apply(c, s, step))
  {
    if ReaderStep(step) { ReaderKeepsLine(c, s, step); }
    else if SenderStep(step) { SenderKeepsLine(c, s, step); }
    else { BufferKeepsLine(c, s, step); }
  }

  lemma ControlKept(c: Config, s: State, step: Step)
    requires c.Valid() && Inv(c, s) && Enabled(c, s, step)
    ensures HistoryOk(c, Apply(c, s, step).rd) && ControlOk(c, Apply(c, s, step))
  {
  }

  /** What has been sent stays right while the reader goes on. */
  lemma SentGrows(c: Config, sn: Sender, produced: nat, more: nat, taken: int)
    requires SentOk(c, sn, produced, taken) && produced <= more
    ensures SentOk(c, sn, more, taken)
    ensures forall q :: SentOk(c, sn.(liveCh := q), more, taken)
  {
  }

  /** The snapshot is a copy of the history. */
  lemma SnapshotSent(c: Config, s: State, step: Step)
    requires c.Valid() && Inv(c, s) && Enabled(c, s, step) && step.TakeSnapshot?
    ensures SentOk(c, Apply(c, s, step).sn, s.rd.produced, Taken(s))
  {
  }

  lemma OpeningSent(c: Config, s: State, step: Step)
    requires c.Valid() && Inv(c, s) && Enabled(c, s, step) && (step.SendSnapshot? || step.OpenGate?)
    ensures SentOk(c, Apply(c, s, step).sn, s.rd.produced, Taken(s))
  {
    assert s.sn.phase.Sending?;
    assert s.bf.buffering;
  }

  lemma LiveSent(c: Config, s: State, step: Step)
    requires c.Valid() && Inv(c, s) && Enabled(c, s, step) && (step.Deliver? || step.FailWrite? || step.End?)
    ensures SentOk(c, Apply(c, s, step).sn, s.rd.produced, Taken(s) + if step.End? then 0 else 1)
  {
    assert !step.End? ==> s.sn.liveCh[0] == Taken(s) + 1;
  }

  /** Reader and buffer leave what has been sent alone. */
  lemma OthersKeepSent(c: Config, s: State, step: Step)
    requires Inv(c, s) && Enabled(c, s, step) && !SenderStep(step)
    ensures var t := Apply(c, s, step); SentOk(c, t.sn, t.rd.produced, Taken(t))
  {
    SentGrows(c, s.sn, s.rd.produced, Apply(c, s, step).rd.produced, Taken(s));
    if ReaderStep(step) { ReaderKeepsLine(c, s, step); } else { BufferKeepsLine(c, s, step); }
  }

  lemma SenderKeepsSent(c: Config, s: State, step: Step)
    requires c.Valid() && Inv(c, s) && Enabled(c, s, step) && SenderStep(step)
    ensures var t := Apply(c, s, step); SentOk(c, t.sn, t.rd.produced, Taken(t))
  {
    SenderKeepsLine(c, s, step);
    if step.TakeSnapshot? { SnapshotSent(c, s, step); }
    else if step.SendSnapshot? || step.OpenGate? { OpeningSent(c, s, step); }
    else { LiveSent(c, s, step); }
  }

  lemma StepKeepsInv(c: Config, s: State, step: Step)
    requires c.Valid() && Inv(c, s) && Enabled(c, s, step)
    ensures Inv(c, Apply(c, s, step))
  {
    LineKept(c, s, step);
    ControlKept(c, s, step);
    if SenderStep(step) { SenderKeepsSent(c, s, step); } else { OthersKeepSent(c, s, step); }
  }

  lemma {:induction false} BehavioursKeepInv(c: Config, run: seq<State>)
    requires c.Valid() && Behaviour(c, run)
    ensures Inv(c, run[|run| - 1])
    decreases |run|
  {
    if |run| > 1 {
      BehavioursKeepInv(c, run[..|run| - 1]);
      var step := LastStep(c, run);
      StepKeepsInv(c, run[|run| - 2], step);
    }
  }

  lemma LastStep(c: Config, run: seq<State>) returns (step: Step)
    requires Behaviour(c, run) && |run| > 1
    ensures Enabled(c, run[|run| - 2], step) && run[|run| - 1] == Apply(c, run[|run| - 2], step)
  {
    var s := run[|run| - 2];
    assert Next(c, s, run[|run| - 2 + 1]);
    step :| Enabled(c, s, step) && run[|run| - 1] == Apply(c, s, step);
  }

  // ----- main results -----

  /**
   In every state of every interleaving what has been sent is a gap-free run of
   events, in order and without repetition: from event 1 on if the history never
   overflowed. When the sender ends without a write error it has reached the
   last event produced, and nothing is missing but what the history had dropped.
   */
  lemma DeliveryIsExact(c: Config, run: seq<State>)
    requires c.Valid() && Behaviour(c, run)
    ensures var State(rd, bf, sn) := run[|run| - 1];
            && (forall i :: 0 <= i < |sn.sent| ==> 1 <= sn.sent[i] <= rd.produced && sn.sent[i] == sn.sent[0] + i)
            && (rd.produced <= c.historyMax ==> forall i :: 0 <= i < |sn.sent| ==> sn.sent[i] == i + 1)
            && (sn.phase.Ended? && !sn.failed ==>
                  && (sn.sent != [] ==> sn.sent[|sn.sent| - 1] == rd.produced)
                  && (if rd.produced <= c.historyMax then |sn.sent| == rd.produced else |sn.sent| >= c.historyMax))
  {
    BehavioursKeepInv(c, run);
  }

  /** How many of the events produced so far the history has dropped. */
  function Overflow(c: Config, produced: nat): nat {
    if produced <= c.historyMax then 0 else produced - c.historyMax
  }

  /** The snapshot is the history of its moment. */
  lemma SnapshotIsHistory(c: Config, s: State, step: Step)
    requires c.Valid() && Inv(c, s) && Enabled(c, s, step) && s.sn.phase.Waiting? && !Apply(c, s, step).sn.phase.Waiting?
    ensures var sn := Apply(c, s, step).sn;
            First(sn) == Overflow(c, s.rd.produced) && LastOf(sn.snapshot) == s.rd.produced
  {
  }

  lemma StepAt(c: Config, run: seq<State>, i: nat) returns (step: Step)
    requires Behaviour(c, run) && i < |run| - 1
    ensures Enabled(c, run[i], step) && run[i + 1] == Apply(c, run[i], step) && Behaviour(c, run[..i + 1])
  {
    assert Next(c, run[i], run[i + 1]);
    step :| Enabled(c, run[i], step) && run[i + 1] == Apply(c, run[i], step);
  }

  lemma StepKeepsSnapshot(c: Config, s: State, step: Step)
    requires Enabled(c, s, step) && !s.sn.phase.Waiting?
    ensures var sn := Apply(c, s, step).sn; !sn.phase.Waiting? && sn.snapshot == s.sn.snapshot
  {
  }

  lemma {:induction false} SnapshotStays(c: Config, run: seq<State>, i: nat, j: nat)
    requires Behaviour(c, run) && i <= j < |run| && !run[i].sn.phase.Waiting?
    ensures !run[j].sn.phase.Waiting? && run[j].sn.snapshot == run[i].sn.snapshot
  {
    if i < j {
      SnapshotStays(c, run, i, j - 1);
      var step := StepAt(c, run, j - 1);
      StepKeepsSnapshot(c, run[j - 1], step);
    }
  }

  /**
   Exactly what is delivered, told from the moment i of the snapshot: the events
   after those the history had dropped by then, the whole snapshot before the
   live stream begins, and all up to the last one at an end without a write error.
   */
  lemma DeliveryFromSnapshot(c: Config, run: seq<State>, i: nat)
    requires c.Valid() && Behaviour(c, run) && i < |run| - 1 && run[i].sn.phase.Waiting? && !run[i + 1].sn.phase.Waiting?
    ensures var State(rd, bf, sn) := run[|run| - 1];
            var dropped := Overflow(c, run[i].rd.produced);
            && (forall k :: 0 <= k < |sn.sent| ==> sn.sent[k] == dropped + k + 1)
            && (sn.phase.Streaming? || sn.phase.Ended? ==> dropped + |sn.sent| >= run[i].rd.produced)
            && (sn.phase.Ended? && !sn.failed ==> dropped + |sn.sent| == rd.produced)
  {
    var step := StepAt(c, run, i);
    BehavioursKeepInv(c, run[..i + 1]);
    SnapshotIsHistory(c, run[i], step);
    SnapshotStays(c, run, i + 1, |run| - 1);
    BehavioursKeepInv(c, run);
  }

  /**
   Nothing is passed on to the live channel before the snapshot has been sent,
   and nothing more is held back after that.
   */
  lemma HeldBackUntilSnapshot(c: Config, run: seq<State>, step: Step)
    requires c.Valid() && Behaviour(c, run) && Enabled(c, run[|run| - 1], step)
    ensures var s, t := run[|run| - 1], Apply(c, run[|run| - 1], step);
            && (s.sn.phase.Waiting? || s.sn.phase.Sending? ==> s.sn.liveCh == [] && s.bf.pending <= t.bf.pending)
            && (s.sn.phase.Streaming? ==> t.bf.pending == s.bf.pending || exists ev :: s.bf.pending == [ev] + t.bf.pending)
  {
    BehavioursKeepInv(c, run);
  }

  /** The work that is left. */
  function Measure(c: Config, s: State): int {
    var State(rd, bf, sn) := s;
    var phase := match sn.phase
                 case Waiting => c.historyMax + 3
                 case Sending(k) => |sn.snapshot| - k + 2
                 case Streaming => 1
                 case Ended => 0;
    6 * (c.total - rd.produced) + (if rd.holding then 5 else 0) + 4 * |bf.eventCh|
    + (if bf.current.Some? then 3 else 0) + 2 * |bf.pending| + |sn.liveCh| + phase
    + (if rd.done then 0 else 1) + (if rd.posted then 0 else 1)
    + (if bf.buffering then 1 else 0) + (if bf.closed then 0 else 1)
  }

  lemma MeasureIsNat(c: Config, s: State)
    requires Inv(c, s)
    ensures 0 <= Measure(c, s)
  {
  }

  /** Every step does work. */
  lemma EveryStepCounts(c: Config, s: State, step: Step)
    requires c.Valid() && Inv(c, s) && Enabled(c, s, step)
    ensures Measure(c, Apply(c, s, step)) < Measure(c, s)
  {
  }

  /** Nobody waits for ever: until the sender has ended some goroutine can take a step. */
  lemma SomeStepEnabled(c: Config, s: State) returns (step: Step)
    requires c.Valid() && Inv(c, s) && !s.sn.phase.Ended?
    ensures Enabled(c, s, step)
  {
    var State(rd, bf, sn) := s;
    step :=
      if sn.phase.Waiting? then TakeSnapshot
      else if sn.phase.Sending? then (if sn.phase.next < |sn.snapshot| then SendSnapshot else OpenGate)
      else if sn.liveCh != [] then Deliver
      else if bf.buffering && bf.current.Some? then Gate
      else if !bf.buffering && bf.pending != [] then Flush
      else if bf.current.Some? then Forward
      else if bf.eventCh != [] then Receive
      else if rd.holding then Emit
      else if !rd.done then CloseTrace
      else if !rd.posted then PostResult
      else if bf.buffering then Release
      else if !bf.closed then CloseLive
      else End;
  }

  ghost predicate Stuck(c: Config, s: State) {
    forall step: Step :: !Enabled(c, s, step)
  }

  /**
   The hand-off cannot get stuck: a run that cannot be continued has reached the
   end with both channels and the pending buffer empty, and no run is longer
   than the initial amount of work.
   */
  lemma MaximalRunsEnd(c: Config, run: seq<State>)
    requires c.Valid() && Behaviour(c, run)
    ensures |run| - 1 <= Measure(c, Init())
    ensures var State(rd, bf, sn) := run[|run| - 1];
            Stuck(c, run[|run| - 1]) ==>
              sn.phase.Ended? && sn.liveCh == [] && bf.eventCh == [] && bf.pending == [] && bf.current.None? && rd.posted
  {
    BehavioursKeepInv(c, run);
    RunLength(c, run);
    MeasureIsNat(c, run[|run| - 1]);
    if !run[|run| - 1].sn.phase.Ended? {
      var step := SomeStepEnabled(c, run[|run| - 1]);
    }
  }

  lemma {:induction false} RunLength(c: Config, run: seq<State>)
    requires c.Valid() && Behaviour(c, run)
    ensures |run| - 1 <= Measure(c, Init()) - Measure(c, run[|run| - 1])
    decreases |run|
  {
    if |run| > 1 {
      var init := run[..|run| - 1];
      RunLength(c, init);
      BehavioursKeepInv(c, init);
      var step := LastStep(c, run);
      EveryStepCounts(c, init[|init| - 1], step);
    }
  }
}
