/** The select log machine: case logs and the chosen log may come in any order before the end log. */
module SelectLogs {
  import opened Shared

  /** A logged case; an empty kind is a gap in the list of cases. */
  datatype CaseInfo = CaseInfo(kind: string, chPtr: string, chKey: string, chName: string)

  const Gap := CaseInfo("", "", "", "")

  predicate HasIdentity(info: CaseInfo) {
    info.chPtr != "" || info.chKey != "" || info.chName != ""
  }

  datatype Log =
    | Begin(id: string, newID: string)
    | Case(id: string, index: int, info: CaseInfo)
    | Chosen(id: string, index: int)
    | End(id: string)
      // a select_send or select_recv log of the goroutine: the operation itself was seen
    | Direct(id: string, named: bool)

  datatype Emission = Emission(sid: string, info: CaseInfo)

  datatype Machine = Machine(active: map<Gid, string>, cases: map<string, seq<CaseInfo>>, chosenIdx: map<string, int>,
                             pending: set<string>, emitted: set<string>, out: seq<Emission>, missingCase: nat)

  /** The select a log is about: the one it names, else the active one of its goroutine. */
  function Target(active: map<Gid, string>, g: Gid, log: Log): string {
    if log.id != "" && !log.Direct? then log.id else if g in active then active[g] else ""
  }

  function CasesOf(cases: map<string, seq<CaseInfo>>, sid: string): seq<CaseInfo> {
    if sid in cases then cases[sid] else []
  }

  /** A case with an index goes to its place, growing the list with gaps; one without is appended. */
  function Put(cases: seq<CaseInfo>, index: int, info: CaseInfo): (r: seq<CaseInfo>)
    ensures index >= 0 ==> index < |r|
  {
    if index < 0 then cases + [info]
    else
      var grown := if |cases| <= index then cases + seq(index + 1 - |cases|, _ => Gap) else cases;
      grown[index := info]
  }

  /** The case for the chosen index; without an index only a single case will do. */
  function CaseForChosen(cases: seq<CaseInfo>, index: int): Option<CaseInfo> {
    if 0 <= index < |cases| && cases[index].kind != "" then Some(cases[index])
    else if index < 0 && |cases| == 1 && cases[0].kind != "" then Some(cases[0])
    else None
  }

  // ----- one select -----

  /** What the machine holds about one select, and the operations emitted for it. */
  datatype One = One(cases: seq<CaseInfo>, chosen: Option<int>, pending: bool, emitted: bool, out: seq<CaseInfo>)

  datatype Ev = CaseEv(index: int, info: CaseInfo) | ChosenEv(index: int) | DirectEv(named: bool) | EndEv

  function Quiet(out: seq<CaseInfo>): One {
    One([], None, false, false, out)
  }

  /** Emit the case unless it has no channel identity. */
  function TryEmit(o: One, info: CaseInfo): One {
    if HasIdentity(info) then o.(pending := false, emitted := true, out := o.out + [info]) else o
  }

  function StepOne(o: One, e: Ev): One {
    match e
    case CaseEv(index, info) =>
      var o1 := o.(cases := Put(o.cases, index, info));
      var chosen := CaseForChosen(o1.cases, if o.chosen.Some? then o.chosen.value else 0);
      if o.pending && !o.emitted && chosen.Some? then TryEmit(o1, chosen.value) else o1
    case ChosenEv(index) =>
      var o1, chosen := o.(chosen := Some(index)), CaseForChosen(o.cases, index);
      if o.emitted then o1 else if chosen.Some? then TryEmit(o1, chosen.value) else o1.(pending := true)
    case DirectEv(named) => if named then o.(emitted := true) else o
    case EndEv => Quiet(o.out)
  }

  function RunOne(o: One, evs: seq<Ev>): One {
    if evs == [] then o else StepOne(RunOne(o, evs[..|evs| - 1]), evs[|evs| - 1])
  }

  // ----- the machine -----

  function Emit(m: Machine, sid: string, info: CaseInfo): Machine {
    if HasIdentity(info) then
      m.(pending := m.pending - {sid}, emitted := m.emitted + {sid}, out := m.out + [Emission(sid, info)])
    else m
  }

  function ChosenIndex(m: Machine, sid: string): int {
    if sid in m.chosenIdx then m.chosenIdx[sid] else 0
  }

  function StepCase(m: Machine, sid: string, index: int, info: CaseInfo): Machine {
    if sid == "" then m
    else
      var m1 := m.(cases := m.cases[sid := Put(CasesOf(m.cases, sid), index, info)]);
      var chosen := CaseForChosen(m1.cases[sid], ChosenIndex(m, sid));
      if sid in m.pending && sid !in m.emitted && chosen.Some? then Emit(m1, sid, chosen.value) else m1
  }

  function StepChosen(m: Machine, sid: string, index: int): Machine {
    var m1, chosen := m.(chosenIdx := m.chosenIdx[sid := index]), CaseForChosen(CasesOf(m.cases, sid), index);
    if sid == "" || sid in m.emitted then m1
    else if chosen.Some? then Emit(m1, sid, chosen.value)
    else m1.(pending := m.pending + {sid})
  }

  function StepEnd(m: Machine, g: Gid, sid: string): Machine {
    Machine(m.active - {g}, m.cases - {sid}, m.chosenIdx - {sid}, m.pending - {sid}, m.emitted - {sid}, m.out,
            m.missingCase + if sid != "" && sid in m.pending && sid !in m.emitted then 1 else 0)
  }

  function Step(m: Machine, g: Gid, log: Log): Machine {
    var sid := Target(m.active, g, log);
    match log
    case Begin(_, newID) => m.(active := m.active[g := if sid == "" then newID else sid])
    case Case(_, index, info) => StepCase(m, sid, index, info)
    case Chosen(_, index) => StepChosen(m, sid, index)
    case End(_) => StepEnd(m, g, sid)
    case Direct(_, named) => if named && sid != "" then m.(emitted := m.emitted + {sid}) else m
  }

  function RunMachine(m: Machine, logs: seq<(Gid, Log)>): Machine {
    if logs == [] then m else Step(RunMachine(m, logs[..|logs| - 1]), logs[|logs| - 1].0, logs[|logs| - 1].1)
  }

  function OutOf(out: seq<Emission>, sid: string): seq<CaseInfo> {
    if out == [] then []
    else
      var e := out[|out| - 1];
      OutOf(out[..|out| - 1], sid) + if e.sid == sid then [e.info] else []
  }

  function On(m: Machine, sid: string): One {
    One(CasesOf(m.cases, sid), if sid in m.chosenIdx then Some(m.chosenIdx[sid]) else None,
        sid in m.pending, sid in m.emitted, OutOf(m.out, sid))
  }

  /** What a log means for the select it is about; a begin log changes nothing there. */
  function EvOf(log: Log): Option<Ev> {
    match log
    case Begin(_, _) => None
    case Case(_, index, info) => Some(CaseEv(index, info))
    case Chosen(_, index) => Some(ChosenEv(index))
    case End(_) => Some(EndEv)
    case Direct(_, named) => Some(DirectEv(named))
  }

  /** The events of one select among all logs. */
  function EventsOf(m: Machine, logs: seq<(Gid, Log)>, sid: string): seq<Ev> {
    if logs == [] then []
    else
      var before, g, log := logs[..|logs| - 1], logs[|logs| - 1].0, logs[|logs| - 1].1;
      EventsOf(m, before, sid) +
      if Target(RunMachine(m, before).active, g, log) == sid && EvOf(log).Some? then [EvOf(log).value] else []
  }

  lemma EmitOn(m: Machine, sid: string, info: CaseInfo, s: string)
    ensures On(Emit(m, sid, info), s) == if s == sid then TryEmit(On(m, s), info) else On(m, s)
  {
  }

  lemma CaseOn(m: Machine, sid: string, index: int, info: CaseInfo, s: string)
    requires s != "" && (sid in m.pending ==> sid in m.chosenIdx)
    ensures On(StepCase(m, sid, index, info), s) == if s == sid then StepOne(On(m, s), CaseEv(index, info)) else On(m, s)
  {
    if sid != "" {
      var m1 := m.(cases := m.cases[sid := Put(CasesOf(m.cases, sid), index, info)]);
      var chosen := CaseForChosen(m1.cases[sid], ChosenIndex(m, sid));
      if chosen.Some? { EmitOn(m1, sid, chosen.value, s); }
    }
  }

  lemma ChosenOn(m: Machine, sid: string, index: int, s: string)
    requires s != ""
    ensures On(StepChosen(m, sid, index), s) == if s == sid then StepOne(On(m, s), ChosenEv(index)) else On(m, s)
  {
    var chosen := CaseForChosen(CasesOf(m.cases, sid), index);
    if chosen.Some? { EmitOn(m.(chosenIdx := m.chosenIdx[sid := index]), sid, chosen.value, s); }
  }

  /** A pending select has a chosen index. */
  ghost predicate PendingChosen(m: Machine) {
    forall t :: t in m.pending ==> t in m.chosenIdx
  }

  /** A log acts on its own select alone. */
  lemma StepActsOnTarget(m: Machine, g: Gid, log: Log, s: string)
    requires s != "" && PendingChosen(m)
    ensures On(Step(m, g, log), s) ==
            if Target(m.active, g, log) == s && EvOf(log).Some? then StepOne(On(m, s), EvOf(log).value) else On(m, s)
  {
    var sid := Target(m.active, g, log);
    match log
    case Case(_, index, info) => CaseOn(m, sid, index, info, s);
    case Chosen(_, index) => ChosenOn(m, sid, index, s);
    case _ =>
  }

  lemma {:induction false} RunKeepsPending(m: Machine, logs: seq<(Gid, Log)>)
    requires PendingChosen(m)
    ensures PendingChosen(RunMachine(m, logs))
  {
    if logs != [] {
      var before := logs[..|logs| - 1];
      RunKeepsPending(m, before);
    }
  }

  lemma RunOneExtends(o: One, evs: seq<Ev>, e: Ev)
    ensures RunOne(o, evs + [e]) == StepOne(RunOne(o, evs), e)
  {
    assert (evs + [e])[..|evs|] == evs;
  }

  /** Each select runs as if its logs were the only ones. */
  lemma {:induction false} SelectsDoNotInterfere(m: Machine, logs: seq<(Gid, Log)>, s: string)
    requires s != "" && PendingChosen(m)
    ensures On(RunMachine(m, logs), s) == RunOne(On(m, s), EventsOf(m, logs, s))
  {
    if logs != [] {
      var before, g, log := logs[..|logs| - 1], logs[|logs| - 1].0, logs[|logs| - 1].1;
      SelectsDoNotInterfere(m, before, s);
      RunKeepsPending(m, before);
      StepActsOnTarget(RunMachine(m, before), g, log, s);
      var evs := EventsOf(m, before, s);
      if EvOf(log).Some? { RunOneExtends(On(m, s), evs, EvOf(log).value); }
      assert evs + [] == evs;
    }
  }

  // ----- which select a log is about -----

  /** Logs that neither begin nor end a select of g. */
  ghost predicate KeepsActive(logs: seq<(Gid, Log)>, g: Gid) {
    forall i :: 0 <= i < |logs| && logs[i].0 == g ==> !logs[i].1.Begin? && !logs[i].1.End?
  }

  lemma StepKeepsActive(m: Machine, h: Gid, log: Log, g: Gid)
    requires h == g ==> !log.Begin? && !log.End?
    ensures g in Step(m, h, log).active <==> g in m.active
    ensures g in m.active ==> Step(m, h, log).active[g] == m.active[g]
  {
  }

  lemma {:induction false} ActiveStays(m: Machine, logs: seq<(Gid, Log)>, g: Gid)
    requires KeepsActive(logs, g)
    ensures g in RunMachine(m, logs).active <==> g in m.active
    ensures g in m.active ==> RunMachine(m, logs).active[g] == m.active[g]
  {
    if logs != [] {
      var init, last := logs[..|logs| - 1], logs[|logs| - 1];
      ActiveStays(m, init, g);
      StepKeepsActive(RunMachine(m, init), last.0, last.1, g);
    }
  }

  /** The select that a begin log opens: the one it names, else the one its goroutine is in, else a new one. */
  function Opened(m: Machine, g: Gid, id: string, newID: string): string {
    if id != "" then id else if g in m.active && m.active[g] != "" then m.active[g] else newID
  }

  /** A log that names its select acts on that one. */
  lemma NamedLogActsThere(m: Machine, g: Gid, log: Log, s: string)
    requires PendingChosen(m) && log.id == s != "" && (log.Case? || log.Chosen? || log.End?)
    ensures On(Step(m, g, log), s) == StepOne(On(m, s), EvOf(log).value)
  {
    StepActsOnTarget(m, g, log, s);
  }

  /**
   After a begin log of a goroutine every log of it that names no select acts
   on the opened one, whatever other goroutines log in between.
   */
  lemma LogsBelongToBegun(m: Machine, g: Gid, id: string, newID: string, logs: seq<(Gid, Log)>, log: Log)
    requires PendingChosen(m) && Opened(m, g, id, newID) != "" && KeepsActive(logs, g)
    requires log.id == "" && !log.Begin?
    ensures var before, s := RunMachine(Step(m, g, Begin(id, newID)), logs), Opened(m, g, id, newID);
            On(Step(before, g, log), s) == StepOne(On(before, s), EvOf(log).value)
  {
    var begun, s := Step(m, g, Begin(id, newID)), Opened(m, g, id, newID);
    ActiveStays(begun, logs, g);
    RunKeepsPending(begun, logs);
    StepActsOnTarget(RunMachine(begun, logs), g, log, s);
  }

  /** The end log closes it: a log without a name is about no select then. */
  lemma EndCloses(m: Machine, g: Gid, id: string, logs: seq<(Gid, Log)>, log: Log, s: string)
    requires PendingChosen(m) && KeepsActive(logs, g) && log.id == "" && !log.Begin? && s != ""
    ensures var before := RunMachine(Step(m, g, End(id)), logs);
            On(Step(before, g, log), s) == On(before, s)
  {
    var ended := Step(m, g, End(id));
    ActiveStays(ended, logs, g);
    RunKeepsPending(ended, logs);
    StepActsOnTarget(RunMachine(ended, logs), g, log, s);
  }

  /** A choice whose case never comes is counted at the end. */
  lemma MissingCaseIsCounted(m: Machine, g: Gid, s: string, index: int)
    requires s != "" && s !in m.emitted && CaseForChosen(CasesOf(m.cases, s), index) == None
    ensures var after := Step(Step(m, g, Chosen(s, index)), g, End(s));
            after.missingCase == m.missingCase + 1 && after.out == m.out
  {
  }

  // ----- the parser's fields -----

  class SelectState {
    var activeSelect: map<Gid, string>
    var selectCases: map<string, seq<CaseInfo>>
    var selChosenIdx: map<string, int>
    var selPending: set<string>
    var selectEmitted: set<string>
    var emitted: seq<Emission>
    var chosenMissingCase: nat

    function View(): Machine
      reads this
    {
      Machine(activeSelect, selectCases, selChosenIdx, selPending, selectEmitted, emitted, chosenMissingCase)
    }

    constructor ()
      ensures View() == Machine(map[], map[], map[], {}, {}, [], 0) && PendingChosen(View())
    {
      activeSelect, selectCases, selChosenIdx := map[], map[], map[];
      selPending, selectEmitted, emitted, chosenMissingCase := {}, {}, [], 0;
    }

    method HandleSelectLog(g: Gid, log: Log)
      modifies this
      ensures View() == Step(old(View()), g, log)
    {
      var sid := Target(activeSelect, g, log);
      match log
      case Begin(_, newID) =>
        activeSelect := activeSelect[g := if sid == "" then newID else sid];
      case Case(_, index, info) => LogCase(sid, index, info);
      case Chosen(_, index) => LogChosen(sid, index);
      case End(_) =>
        if sid != "" && sid in selPending && sid !in selectEmitted { chosenMissingCase := chosenMissingCase + 1; }
        activeSelect, selectCases, selChosenIdx := activeSelect - {g}, selectCases - {sid}, selChosenIdx - {sid};
        selPending, selectEmitted := selPending - {sid}, selectEmitted - {sid};
      case Direct(_, named) =>
        if named && sid != "" { selectEmitted := selectEmitted + {sid}; }
    }

    /** A case is put at its place, and emitted if it was waited for. */
    method LogCase(sid: string, index: int, info: CaseInfo)
      modifies this`selectCases, this`selPending, this`selectEmitted, this`emitted
      ensures View() == StepCase(old(View()), sid, index, info)
    {
      if sid == "" { return; }
      var cases := CasesOf(selectCases, sid);
      if index >= 0 {
        if |cases| <= index { cases := cases + seq(index + 1 - |cases|, _ => Gap); }
        cases := cases[index := info];
      } else {
        cases := cases + [info];
      }
      selectCases := selectCases[sid := cases];
      if sid in selPending && sid !in selectEmitted {
        match CaseForChosen(cases, if sid in selChosenIdx then selChosenIdx[sid] else 0)
        case Some(chosen) => EmitChosen(sid, chosen);
        case None =>
      }
    }

    method LogChosen(sid: string, index: int)
      modifies this`selChosenIdx, this`selPending, this`selectEmitted, this`emitted
      ensures View() == StepChosen(old(View()), sid, index)
    {
      selChosenIdx := selChosenIdx[sid := index];
      if sid != "" && sid !in selectEmitted {
        match CaseForChosen(CasesOf(selectCases, sid), index)
        case Some(chosen) => EmitChosen(sid, chosen);
        case None => selPending := selPending + {sid};
      }
    }

    method EmitChosen(sid: string, info: CaseInfo)
      modifies this`selPending, this`selectEmitted, this`emitted
      ensures View() == Emit(old(View()), sid, info)
    {
      if !HasIdentity(info) { return; }
      emitted := emitted + [Emission(sid, info)];
      selectEmitted := selectEmitted + {sid};
      selPending := selPending - {sid};
    }
  }
}
