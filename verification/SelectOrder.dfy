/** When the order of the case logs and the chosen log does not matter. */
module SelectOrder {
  import opened Shared
  import opened SelectLogs

  /** A case that is emitted when it is chosen. */
  predicate Good(info: CaseInfo) {
    info.kind != "" && (info.chPtr != "" || info.chKey != "" || info.chName != "")
  }

  /** Cases with one non-negative index each, and at most one chosen log. */
  ghost predicate Well(ms: multiset<Ev>) {
    && (forall e :: e in ms ==> ms[e] == 1 && (e.ChosenEv? || (e.CaseEv? && e.index >= 0)))
    && (forall e, f :: e in ms && f in ms && e.CaseEv? && f.CaseEv? && e.index == f.index ==> e == f)
    && (forall e, f :: e in ms && f in ms && e.ChosenEv? && f.ChosenEv? ==> e == f)
  }

  /** A good first case beside another one: only its order against the chosen log tells whether it is single. */
  ghost predicate Torn(ms: multiset<Ev>) {
    exists e, f :: e in ms && f in ms && e.CaseEv? && f.CaseEv? && e.index == 0 && f.index != 0 && Good(e.info)
  }

  /** A missing index stands for the first case. */
  function Effective(index: int): nat {
    if index < 0 then 0 else index
  }

  function At(cases: seq<CaseInfo>, i: nat): CaseInfo {
    if i < |cases| then cases[i] else Gap
  }

  /** The list holds the logged cases at their places, and gaps. */
  ghost predicate Table(cases: seq<CaseInfo>, ms: multiset<Ev>) {
    && (forall e :: e in ms && e.CaseEv? && e.index >= 0 ==> e.index < |cases| && cases[e.index] == e.info)
    && (forall i :: 0 <= i < |cases| && cases[i] != Gap ==> CaseEv(i, cases[i]) in ms)
    && (cases != [] ==> CaseEv(|cases| - 1, cases[|cases| - 1]) in ms)
  }

  /** What was emitted so far: nothing before the chosen log, then the chosen case as soon as it is there. */
  ghost predicate Told(o: One, out: seq<CaseInfo>) {
    match o.chosen
    case None => !o.pending && !o.emitted && o.out == out
    case Some(c) =>
      var w := At(o.cases, Effective(c));
      if Good(w) then o.emitted && o.out == out + [w]
      else !o.emitted && o.out == out && (w.kind == "" ==> o.pending)
  }

  ghost predicate Inv(o: One, ms: multiset<Ev>, out: seq<CaseInfo>) {
    && Table(o.cases, ms) && Told(o, out)
    && (forall c :: ChosenEv(c) in ms <==> o.chosen == Some(c))
  }

  lemma LoggedAt(cases: seq<CaseInfo>, ms: multiset<Ev>, i: nat)
    requires Table(cases, ms)
    ensures At(cases, i) == Gap || CaseEv(i, At(cases, i)) in ms
  {
  }

  lemma ChosenLogged(o: One, ms: multiset<Ev>)
    requires forall c :: ChosenEv(c) in ms <==> o.chosen == Some(c)
    ensures o.chosen.Some? ==> ChosenEv(o.chosen.value) in ms
  {
  }

  lemma TornWith(ms: multiset<Ev>, e: Ev, f: Ev)
    requires e in ms && f in ms && e.CaseEv? && f.CaseEv? && e.index == 0 && Good(e.info)
    ensures f.index == 0 || Torn(ms)
  {
  }

  lemma PutTable(cases: seq<CaseInfo>, ms: multiset<Ev>, e: Ev)
    requires Table(cases, ms) && e.CaseEv? && e.index >= 0 && e !in ms
    requires forall f :: f in ms && f.CaseEv? ==> f.index != e.index
    ensures Table(Put(cases, e.index, e.info), ms + multiset{e}) && At(cases, e.index) == Gap
    ensures forall i: nat :: i != e.index ==> At(Put(cases, e.index, e.info), i) == At(cases, i)
  {
    var put, ms1 := Put(cases, e.index, e.info), ms + multiset{e};
    LoggedAt(cases, ms, e.index);
    forall i | 0 <= i < |put| && put[i] != Gap ensures CaseEv(i, put[i]) in ms1 {
      if i != e.index { assert i < |cases| && put[i] == cases[i]; }
    }
    assert put[e.index] == e.info;
  }

  /** Without a torn first case a list with a good first case has no other, so no index means the first. */
  lemma ChosenOfTable(cases: seq<CaseInfo>, ms: multiset<Ev>, c: int)
    requires Table(cases, ms) && (c >= 0 || !Torn(ms))
    ensures Good(At(cases, Effective(c))) ==> CaseForChosen(cases, c) == Some(At(cases, Effective(c)))
    ensures CaseForChosen(cases, c).Some? ==> CaseForChosen(cases, c).value == At(cases, Effective(c))
    ensures At(cases, Effective(c)).kind == "" ==> CaseForChosen(cases, c).None?
  {
    if c < 0 && cases != [] && Good(cases[0]) {
      var n := |cases| - 1;
      TornWith(ms, CaseEv(0, cases[0]), CaseEv(n, cases[n]));
    }
  }

  lemma CaseKeeps(o: One, ms: multiset<Ev>, out: seq<CaseInfo>, e: Ev)
    requires Inv(o, ms, out) && e.CaseEv? && Well(ms + multiset{e}) && e !in ms
    requires o.chosen.Some? ==> o.chosen.value >= 0 || !Torn(ms + multiset{e})
    ensures Inv(StepOne(o, e), ms + multiset{e}, out)
  {
    var ms1 := ms + multiset{e};
    assert e in ms1;
    forall f | f in ms && f.CaseEv? ensures f.index != e.index {
      assert f in ms1;
    }
    PutTable(o.cases, ms, e);
    if o.chosen.Some? {
      ChosenOfTable(Put(o.cases, e.index, e.info), ms1, o.chosen.value);
    }
  }

  lemma ChosenTold(o: One, ms: multiset<Ev>, out: seq<CaseInfo>, c: int)
    requires Table(o.cases, ms) && o.chosen.None? && Told(o, out) && (c >= 0 || !Torn(ms))
    ensures var o1 := StepOne(o, ChosenEv(c));
            Told(o1, out) && o1.cases == o.cases && o1.chosen == Some(c)
  {
    ChosenOfTable(o.cases, ms, c);
  }

  lemma ChosenKeeps(o: One, ms: multiset<Ev>, out: seq<CaseInfo>, c: int)
    requires Inv(o, ms, out) && Well(ms + multiset{ChosenEv(c)}) && ChosenEv(c) !in ms
    requires c >= 0 || !Torn(ms)
    ensures Inv(StepOne(o, ChosenEv(c)), ms + multiset{ChosenEv(c)}, out)
  {
    var e := ChosenEv(c);
    assert e in ms + multiset{e};
    ChosenLogged(o, ms);
    assert forall f :: f in ms ==> f in ms + multiset{e};
    assert o.chosen.None?;
    ChosenTold(o, ms, out, c);
  }

  lemma SubWell(ms: multiset<Ev>, e: Ev)
    requires Well(ms + multiset{e})
    ensures Well(ms) && e !in ms
  {
    assert (ms + multiset{e})[e] == 1;
    forall f | f in ms ensures f in ms + multiset{e} && ms[f] == 1 {
      assert (ms + multiset{e})[f] == 1;
    }
  }

  lemma SubTorn(ms: multiset<Ev>, e: Ev)
    ensures Torn(ms) ==> Torn(ms + multiset{e})
  {
    if Torn(ms) {
      var f, g :| f in ms && g in ms && f.CaseEv? && g.CaseEv? && f.index == 0 && g.index != 0 && Good(f.info);
      assert f in ms + multiset{e} && g in ms + multiset{e};
    }
  }

  lemma {:induction false} RunKeepsInv(evs: seq<Ev>, out: seq<CaseInfo>)
    requires Well(multiset(evs))
    requires forall c :: ChosenEv(c) in multiset(evs) ==> c >= 0 || !Torn(multiset(evs))
    ensures Inv(RunOne(Quiet(out), evs), multiset(evs), out)
  {
    if evs != [] {
      var init, e := evs[..|evs| - 1], evs[|evs| - 1];
      LastOff(evs);
      RunKeepsInv(init, out);
      StepKeepsInv(RunOne(Quiet(out), init), multiset(init), out, e);
    }
  }

  lemma LastOff(evs: seq<Ev>)
    requires evs != [] && Well(multiset(evs))
    requires forall c :: ChosenEv(c) in multiset(evs) ==> c >= 0 || !Torn(multiset(evs))
    ensures var init, e := multiset(evs[..|evs| - 1]), evs[|evs| - 1];
            && multiset(evs) == init + multiset{e} && Well(init) && e !in init
            && forall c :: ChosenEv(c) in init ==> c >= 0 || !Torn(init)
  {
    var init, e := evs[..|evs| - 1], evs[|evs| - 1];
    assert evs == init + [e];
    SubWell(multiset(init), e);
    SubTorn(multiset(init), e);
    assert forall c :: ChosenEv(c) in multiset(init) ==> ChosenEv(c) in multiset(evs);
  }

  lemma StepKeepsInv(o: One, ms: multiset<Ev>, out: seq<CaseInfo>, e: Ev)
    requires Inv(o, ms, out) && Well(ms + multiset{e}) && e !in ms
    requires forall c :: ChosenEv(c) in ms + multiset{e} ==> c >= 0 || !Torn(ms + multiset{e})
    ensures Inv(StepOne(o, e), ms + multiset{e}, out)
  {
    assert e in ms + multiset{e};
    SubTorn(ms, e);
    if e.CaseEv? {
      ChosenLogged(o, ms);
      CaseKeeps(o, ms, out, e);
    } else {
      ChosenKeeps(o, ms, out, e.index);
    }
  }

  /**
   Main result, one direction: in any order the chosen case is emitted exactly
   once if it has a kind and a channel identity, and nothing otherwise.
   */
  lemma ChosenIsEmittedOnce(evs: seq<Ev>, c: int, out: seq<CaseInfo>)
    requires Well(multiset(evs)) && ChosenEv(c) in multiset(evs) && (c >= 0 || !Torn(multiset(evs)))
    ensures forall info :: CaseEv(Effective(c), info) in multiset(evs) && Good(info) ==>
              RunOne(Quiet(out), evs).out == out + [info]
    ensures (forall info :: CaseEv(Effective(c), info) in multiset(evs) ==> !Good(info)) ==>
              RunOne(Quiet(out), evs).out == out
  {
    RunKeepsInv(evs, out);
    var o := RunOne(Quiet(out), evs);
    var w := At(o.cases, Effective(c));
    assert Good(w) ==> CaseEv(Effective(c), w) in multiset(evs);
  }

  // ----- the other direction -----

  lemma {:induction false} EmittedStays(o: One, evs: seq<Ev>)
    requires o.emitted && forall i :: 0 <= i < |evs| ==> !evs[i].EndEv?
    ensures RunOne(o, evs).emitted && RunOne(o, evs).out == o.out
  {
    if evs != [] { EmittedStays(o, evs[..|evs| - 1]); }
  }

  lemma {:induction false} RunConcat(o: One, a: seq<Ev>, b: seq<Ev>)
    ensures RunOne(o, a + b) == RunOne(RunOne(o, a), b)
  {
    if b == [] {
      assert a + b == a;
    } else {
      RunConcat(o, a, b[..|b| - 1]);
      assert (a + b)[..|a + b| - 1] == a + b[..|b| - 1];
    }
  }

  lemma RemoveOne(evs: seq<Ev>, e: Ev) returns (rest: seq<Ev>)
    requires e in evs
    ensures multiset(evs) == multiset(rest) + multiset{e}
  {
    var i :| 0 <= i < |evs| && evs[i] == e;
    rest := evs[..i] + evs[i + 1..];
    assert evs == evs[..i] + [e] + evs[i + 1..];
  }

  /** The cases besides e. */
  lemma OtherCases(evs: seq<Ev>, c: int, e: Ev) returns (rest: seq<Ev>)
    requires Well(multiset(evs)) && ChosenEv(c) in evs && e in evs && e.CaseEv?
    ensures multiset(evs) == multiset(rest + [e]) + multiset{ChosenEv(c)}
    ensures Well(multiset(rest + [e])) && forall i :: 0 <= i < |rest + [e]| ==> (rest + [e])[i].CaseEv?
    ensures forall i :: 0 <= i < |rest| ==> rest[i].CaseEv?
  {
    var some := RemoveOne(evs, ChosenEv(c));
    SubWell(multiset(some), ChosenEv(c));
    OnlyCases(some, c);
    assert e in multiset(some);
    rest := RemoveOne(some, e);
    SameCases(rest, e, some);
  }

  lemma FirstOrLast(rest: seq<Ev>, e: Ev, x: Ev)
    ensures multiset([e, x] + rest) == multiset((rest + [e]) + [x]) == multiset(rest + [e]) + multiset{x}
  {
  }

  /** A first case is emitted if it and then the chosen log come first, and not if they come last. */
  lemma TwoOrders(rest: seq<Ev>, e: Ev, f: Ev, c: int, out: seq<CaseInfo>)
    requires e.CaseEv? && f.CaseEv? && e.index == 0 && f.index != 0 && Good(e.info) && c < 0
    requires Well(multiset(rest + [e])) && f in rest + [e]
    requires (forall i :: 0 <= i < |rest| ==> rest[i].CaseEv?) && forall i :: 0 <= i < |rest + [e]| ==> (rest + [e])[i].CaseEv?
    ensures RunOne(Quiet(out), [e, ChosenEv(c)] + rest).out == out + [e.info]
    ensures RunOne(Quiet(out), (rest + [e]) + [ChosenEv(c)]).out == out
  {
    EmitsFirst(e, c, rest, out);
    EmitsNothing(rest + [e], c, e, f, out);
  }

  lemma OrderMatters(evs: seq<Ev>, c: int, out: seq<CaseInfo>) returns (a: seq<Ev>, b: seq<Ev>)
    requires Well(multiset(evs)) && ChosenEv(c) in evs && c < 0 && Torn(multiset(evs))
    ensures multiset(a) == multiset(b) == multiset(evs)
    ensures RunOne(Quiet(out), a).out != RunOne(Quiet(out), b).out
  {
    var e, f :| e in multiset(evs) && f in multiset(evs) && e.CaseEv? && f.CaseEv? && e.index == 0 && f.index != 0 && Good(e.info);
    var rest := OtherCases(evs, c, e);
    assert f in rest + [e] by {
      assert f in multiset(rest + [e]) + multiset{ChosenEv(c)};
    }
    a, b := [e, ChosenEv(c)] + rest, (rest + [e]) + [ChosenEv(c)];
    FirstOrLast(rest, e, ChosenEv(c));
    TwoOrders(rest, e, f, c, out);
  }

  lemma OnlyCases(some: seq<Ev>, c: int)
    requires Well(multiset(some) + multiset{ChosenEv(c)})
    ensures forall i :: 0 <= i < |some| ==> some[i].CaseEv?
  {
    SubWell(multiset(some), ChosenEv(c));
    forall i | 0 <= i < |some| ensures some[i].CaseEv? {
      assert some[i] in multiset(some) && some[i] in multiset(some) + multiset{ChosenEv(c)};
      assert ChosenEv(c) in multiset(some) + multiset{ChosenEv(c)};
    }
  }

  lemma SameCases(rest: seq<Ev>, e: Ev, some: seq<Ev>)
    requires multiset(some) == multiset(rest) + multiset{e} && forall i :: 0 <= i < |some| ==> some[i].CaseEv?
    ensures multiset(rest + [e]) == multiset(some)
    ensures forall i :: 0 <= i < |rest + [e]| ==> (rest + [e])[i].CaseEv?
    ensures forall i :: 0 <= i < |rest| ==> rest[i].CaseEv?
  {
    assert forall f :: f in multiset(some) ==> f.CaseEv?;
    forall i | 0 <= i < |rest| ensures rest[i].CaseEv? {
      assert rest[i] in multiset(rest) && rest[i] in multiset(some);
    }
  }

  lemma EmitsFirst(e: Ev, c: int, rest: seq<Ev>, out: seq<CaseInfo>)
    requires e.CaseEv? && e.index == 0 && Good(e.info) && c < 0
    requires forall i :: 0 <= i < |rest| ==> !rest[i].EndEv?
    ensures RunOne(Quiet(out), [e, ChosenEv(c)] + rest).out == out + [e.info]
  {
    RunConcat(Quiet(out), [e, ChosenEv(c)], rest);
    RunConcat(Quiet(out), [e], [ChosenEv(c)]);
    assert [e] + [ChosenEv(c)] == [e, ChosenEv(c)];
    RunOneExtends(Quiet(out), [], e);
    RunOneExtends(RunOne(Quiet(out), [e]), [], ChosenEv(c));
    assert [] + [e] == [e] && [] + [ChosenEv(c)] == [ChosenEv(c)];
    EmittedStays(RunOne(Quiet(out), [e, ChosenEv(c)]), rest);
  }

  lemma EmitsNothing(cases: seq<Ev>, c: int, e: Ev, f: Ev, out: seq<CaseInfo>)
    requires Well(multiset(cases)) && e in cases && f in cases && e.CaseEv? && f.CaseEv? && e.index == 0 && f.index != 0
    requires c < 0 && forall i :: 0 <= i < |cases| ==> !cases[i].ChosenEv?
    ensures RunOne(Quiet(out), cases + [ChosenEv(c)]).out == out
  {
    RunOneExtends(Quiet(out), cases, ChosenEv(c));
    RunKeepsInv(cases, out);
    var o := RunOne(Quiet(out), cases);
    assert f in multiset(cases) && f.index < |o.cases|;
    ChosenLogged(o, multiset(cases));
  }

  /**
   Every order gives the same emissions exactly when the chosen log has an
   index, or no good first case stands beside another case.
   */
  lemma OrderInsensitiveExactly(evs: seq<Ev>, c: int, out: seq<CaseInfo>)
    requires Well(multiset(evs)) && ChosenEv(c) in multiset(evs)
    ensures (forall other: seq<Ev> :: multiset(other) == multiset(evs) ==>
               RunOne(Quiet(out), other).out == RunOne(Quiet(out), evs).out)
            <==> c >= 0 || !Torn(multiset(evs))
  {
    if c >= 0 || !Torn(multiset(evs)) {
      forall other: seq<Ev> | multiset(other) == multiset(evs)
        ensures RunOne(Quiet(out), other).out == RunOne(Quiet(out), evs).out
      {
        ChosenIsEmittedOnce(evs, c, out);
        ChosenIsEmittedOnce(other, c, out);
      }
    } else {
      var a, b := OrderMatters(evs, c, out);
    }
  }

  /** The whole machine: among the logs of any other selects, the chosen case of select s is emitted exactly once. */
  lemma ChosenIsEmittedAmongOthers(m: Machine, logs: seq<(Gid, Log)>, s: string, c: nat)
    requires s != "" && PendingChosen(m) && On(m, s) == Quiet(OutOf(m.out, s))
    requires Well(multiset(EventsOf(m, logs, s))) && ChosenEv(c) in multiset(EventsOf(m, logs, s))
    ensures var evs, before, after := multiset(EventsOf(m, logs, s)), OutOf(m.out, s), OutOf(RunMachine(m, logs).out, s);
            && (forall info :: CaseEv(c, info) in evs && Good(info) ==> after == before + [info])
            && ((forall info :: CaseEv(c, info) in evs ==> !Good(info)) ==> after == before)
  {
    SelectsDoNotInterfere(m, logs, s);
    ChosenIsEmittedOnce(EventsOf(m, logs, s), c, OutOf(m.out, s));
  }

  /** After its end log a select is as before its first log, so its id may be used again. */
  lemma EndResets(m: Machine, g: Gid, log: Log)
    requires log.End? && Target(m.active, g, log) != ""
    ensures var s := Target(m.active, g, log);
            On(Step(m, g, log), s) == Quiet(OutOf(m.out, s)) && Step(m, g, log).out == m.out
  {
  }

  // ----- logs without an index -----

  /** A single case without an index is emitted for a choice without one, in either order. */
  lemma UnindexedPairIsEmitted(info: CaseInfo, out: seq<CaseInfo>)
    requires Good(info)
    ensures RunOne(Quiet(out), [CaseEv(-1, info), ChosenEv(-1)]).out == out + [info]
    ensures RunOne(Quiet(out), [ChosenEv(-1), CaseEv(-1, info)]).out == out + [info]
  {
    RunTwo(Quiet(out), CaseEv(-1, info), ChosenEv(-1));
    RunTwo(Quiet(out), ChosenEv(-1), CaseEv(-1, info));
  }

  /** Two cases without indices keep their order, and a choice without an index then tells nothing. */
  lemma UnindexedCasesAreAppended(a: CaseInfo, b: CaseInfo, out: seq<CaseInfo>)
    ensures RunOne(Quiet(out), [CaseEv(-1, a), CaseEv(-1, b)]).cases == [a, b]
    ensures StepOne(RunOne(Quiet(out), [CaseEv(-1, a), CaseEv(-1, b)]), ChosenEv(-1)).out == out
  {
    RunTwo(Quiet(out), CaseEv(-1, a), CaseEv(-1, b));
  }

  lemma RunTwo(o: One, a: Ev, b: Ev)
    ensures RunOne(o, [a, b]) == StepOne(StepOne(o, a), b)
  {
    RunOneExtends(o, [a], b);
    RunOneExtends(o, [], a);
    assert [] + [a] == [a] && [a] + [b] == [a, b];
  }

  // ----- operations that were seen themselves -----

  /** After the log of the operation itself nothing is emitted for the select until its end. */
  lemma SeenOperationIsNotRepeated(o: One, evs: seq<Ev>)
    requires forall i :: 0 <= i < |evs| ==> !evs[i].EndEv?
    ensures RunOne(StepOne(o, DirectEv(true)), evs).out == o.out
  {
    EmittedStays(StepOne(o, DirectEv(true)), evs);
  }
}
