/** Blocked-time accounting: intervals are opened, back-dated and charged as goroutines block and unblock. */
module BlockAccounting {
  import opened Text
  import opened Shared

  /** The start of a lock or wait region: a later block on it is dated back to here. */
  datatype Candidate = Candidate(kind: string, start: real)

  /** Totals of charged time, per goroutine and per reason. */
  datatype Totals = Totals(byG: map<Gid, real>, byReason: map<string, real>)

  datatype Blocks = Blocks(blocked: map<Gid, string>, blockedAt: map<Gid, real>, reasonByG: map<Gid, string>)

  datatype Acct = Acct(interested: set<Gid>, candidates: map<Gid, Candidate>, blocks: Blocks, totals: Totals)

  datatype Event =
    | Track(g: Gid)
    | BeginSync(g: Gid, kind: string)
    | EndSync(g: Gid, kind: string)
      // dropped: no channel could be inferred and such blocks are dropped
    | BlockChan(g: Gid, send: bool, dropped: bool)
      // runtimeKind: the kind that the runtime's own reason stands for, or empty
    | BlockSync(g: Gid, runtimeKind: string)
    | Unblock(g: Gid, runtimeKind: string)

  predicate IsSyncWaitKind(kind: string) {
    kind == "mutex_lock" || kind == "rwmutex_lock" || kind == "rwmutex_rlock" || kind == "wg_wait" || kind == "cond_wait"
  }

  function Empty(): Acct {
    Acct({}, map[], Blocks(map[], map[], map[]), Totals(map[], map[]))
  }

  function ReasonKey(reason: string): string {
    if TrimSpace(reason) == "" then "unknown" else reason
  }

  function Of<K>(m: map<K, real>, k: K): real {
    if k in m then m[k] else 0.0
  }

  function AddBlockedDuration(t: Totals, g: Gid, reason: string, delta: real): Totals {
    if delta <= 0.0 then t
    else
      Totals(t.byG[g := Of(t.byG, g) + delta], t.byReason[ReasonKey(reason) := Of(t.byReason, ReasonKey(reason)) + delta])
  }

  /** The kind of a wait: the candidate's, else the runtime's. */
  function SyncKind(s: Acct, g: Gid, runtimeKind: string): string {
    if g in s.candidates then s.candidates[g].kind else runtimeKind
  }

  /** A block opens an interval unless one is open; only the reason of the block itself is renewed. */
  function Open(b: Blocks, g: Gid, reason: string, start: real, reasonKey: string): Blocks {
    var b1 := b.(blocked := b.blocked[g := reason]);
    if g in b.blockedAt then b1
    else b1.(blockedAt := b.blockedAt[g := start], reasonByG := b.reasonByG[g := reasonKey])
  }

  /** A candidate's start is used if it is positive and not in the future. */
  predicate Usable(c: Candidate, t: real) {
    0.0 < c.start <= t
  }

  function SyncStart(s: Acct, g: Gid, kind: string, t: real): real {
    if g in s.candidates && s.candidates[g].kind == kind && Usable(s.candidates[g], t) then s.candidates[g].start else t
  }

  /** Why an unblocked goroutine was blocked. */
  function UnblockReason(s: Acct, g: Gid, runtimeKind: string): string {
    if g in s.blocks.blocked && s.blocks.blocked[g] != "" then s.blocks.blocked[g] else SyncKind(s, g, runtimeKind)
  }

  datatype Interval = Interval(g: Gid, from: real, upto: real, reason: string)

  /** The interval that ends with an unblock: the open one, else one that starts at the candidate. */
  function Closing(s: Acct, g: Gid, runtimeKind: string, t: real): seq<Interval> {
    var reason := UnblockReason(s, g, runtimeKind);
    if g in s.blocks.blockedAt then
      var key := if g in s.blocks.reasonByG && s.blocks.reasonByG[g] != "" then s.blocks.reasonByG[g] else reason;
      [Interval(g, s.blocks.blockedAt[g], t, key)]
    else if g in s.candidates && Usable(s.candidates[g], t) then
      [Interval(g, s.candidates[g].start, t, if reason != "" then reason else s.candidates[g].kind)]
    else []
  }

  /** What a step charges: intervals of no length are dropped. */
  function ChargedBy(s: Acct, t: real, e: Event): seq<Interval> {
    if !e.Unblock? || e.g !in s.interested then []
    else
      var closing := Closing(s, e.g, e.runtimeKind, t);
      if closing != [] && closing[0].from < closing[0].upto then closing else []
  }

  function Charge(t: Totals, charged: seq<Interval>): Totals {
    if charged == [] then t
    else AddBlockedDuration(t, charged[0].g, charged[0].reason, charged[0].upto - charged[0].from)
  }

  function StepUnblock(s: Acct, t: real, e: Event): Acct
    requires e.Unblock?
  {
    if e.g !in s.interested then s
    else
      Acct(s.interested, s.candidates - {e.g},
           Blocks(s.blocks.blocked - {e.g}, s.blocks.blockedAt - {e.g}, s.blocks.reasonByG - {e.g}),
           Charge(s.totals, ChargedBy(s, t, e)))
  }

  function Step(s: Acct, t: real, e: Event): Acct {
    match e
    case Track(g) => s.(interested := s.interested + {g})
    case BeginSync(g, kind) =>
      if IsSyncWaitKind(kind) then s.(candidates := s.candidates[g := Candidate(kind, t)]) else s
    case EndSync(g, kind) =>
      if g in s.candidates && (kind == "" || s.candidates[g].kind == kind) then s.(candidates := s.candidates - {g}) else s
    case BlockChan(g, send, dropped) =>
      if g !in s.interested || dropped then s
      else
        s.(blocks := if send then Open(s.blocks, g, "send", t, "chan_send") else Open(s.blocks, g, "recv", t, "chan_recv"))
    case BlockSync(g, runtimeKind) =>
      var kind := SyncKind(s, g, runtimeKind);
      if g !in s.interested || kind == "" then s
      else s.(blocks := Open(s.blocks, g, kind, SyncStart(s, g, kind, t), kind))
    case Unblock(_, _) => StepUnblock(s, t, e)
  }

  // ----- runs -----

  type Trace = seq<(real, Event)>

  ghost predicate Sorted(trace: Trace) {
    forall i, j :: 0 <= i < j < |trace| ==> trace[i].0 <= trace[j].0
  }

  function Run(trace: Trace): Acct {
    if trace == [] then Empty()
    else
      var n := |trace| - 1;
      Step(Run(trace[..n]), trace[n].0, trace[n].1)
  }

  /** All intervals charged, in the order of the unblocks. */
  function Charged(trace: Trace): seq<Interval> {
    if trace == [] then []
    else
      var n := |trace| - 1;
      Charged(trace[..n]) + ChargedBy(Run(trace[..n]), trace[n].0, trace[n].1)
  }

  function TimeOf(h: seq<Interval>, g: Gid): real {
    if h == [] then 0.0
    else
      var i := h[|h| - 1];
      TimeOf(h[..|h| - 1], g) + if i.g == g then i.upto - i.from else 0.0
  }

  function TimeFor(h: seq<Interval>, reason: string): real {
    if h == [] then 0.0
    else
      var i := h[|h| - 1];
      TimeFor(h[..|h| - 1], reason) + if ReasonKey(i.reason) == reason then i.upto - i.from else 0.0
  }

  function TimeInAll(h: seq<Interval>): real {
    if h == [] then 0.0 else TimeInAll(h[..|h| - 1]) + (h[|h| - 1].upto - h[|h| - 1].from)
  }

  /** When the last interval of g ended, or t0. */
  function LastEnd(h: seq<Interval>, g: Gid, t0: real): real {
    if h == [] then t0 else if h[|h| - 1].g == g then h[|h| - 1].upto else LastEnd(h[..|h| - 1], g, t0)
  }

  /** Intervals of one goroutine follow each other. */
  ghost predicate Disjoint(h: seq<Interval>) {
    forall i, j :: 0 <= i < j < |h| && h[i].g == h[j].g ==> h[i].upto <= h[j].from
  }

  ghost predicate SameKeys(b: Blocks) {
    b.blocked.Keys == b.blockedAt.Keys == b.reasonByG.Keys
  }

  /** Open intervals and candidates start after all that was charged. */
  ghost predicate Starts(s: Acct, h: seq<Interval>, t0: real, now: real) {
    && (forall g :: g in s.blocks.blockedAt ==> LastEnd(h, g, t0) <= s.blocks.blockedAt[g] <= now)
    && (forall g :: g in s.candidates ==> LastEnd(h, g, t0) <= s.candidates[g].start <= now)
    && (forall g :: LastEnd(h, g, t0) <= now)
  }

  /** The charged intervals fit between t0 and their last end. */
  ghost predicate History(h: seq<Interval>, t0: real) {
    && Disjoint(h)
    && (forall i :: 0 <= i < |h| ==> t0 <= h[i].from < h[i].upto <= LastEnd(h, h[i].g, t0))
    && (forall g :: 0.0 <= TimeOf(h, g) <= LastEnd(h, g, t0) - t0)
  }

  lemma HistoryGrows(h: seq<Interval>, t0: real, i: Interval)
    requires History(h, t0) && LastEnd(h, i.g, t0) <= i.from < i.upto && t0 <= i.from
    ensures History(h + [i], t0)
  {
    forall g ensures 0.0 <= TimeOf(h + [i], g) <= LastEnd(h + [i], g, t0) - t0 {
    }
    forall k | 0 <= k < |h + [i]| ensures t0 <= (h + [i])[k].from < (h + [i])[k].upto <= LastEnd(h + [i], (h + [i])[k].g, t0) {
    }
  }

  /** A step keeps the intervals apart. */
  lemma StepHistory(s: Acct, h: seq<Interval>, t0: real, now: real, t: real, e: Event)
    requires Starts(s, h, t0, now) && History(h, t0) && t0 <= now <= t
    ensures History(h + ChargedBy(s, t, e), t0)
  {
    var charged := ChargedBy(s, t, e);
    if charged != [] {
      FirstStart(h, t0, e.g);
      HistoryGrows(h, t0, charged[0]);
    } else {
      assert h + charged == h;
    }
  }

  lemma StepStarts(s: Acct, h: seq<Interval>, t0: real, now: real, t: real, e: Event)
    requires Starts(s, h, t0, now) && t0 <= now <= t
    ensures Starts(Step(s, t, e), h + ChargedBy(s, t, e), t0, t)
  {
    var charged := ChargedBy(s, t, e);
    if charged != [] {
      forall g ensures LastEnd(h + charged, g, t0) == if g == e.g then t else LastEnd(h, g, t0) {
      }
    } else {
      assert h + charged == h;
    }
  }

  lemma {:induction false} FirstStart(h: seq<Interval>, t0: real, g: Gid)
    requires forall i :: 0 <= i < |h| ==> t0 <= h[i].from < h[i].upto
    ensures t0 <= LastEnd(h, g, t0)
  {
    if h != [] { FirstStart(h[..|h| - 1], t0, g); }
  }

  lemma StepKeys(s: Acct, t: real, e: Event)
    requires SameKeys(s.blocks)
    ensures SameKeys(Step(s, t, e).blocks)
  {
  }

  // ----- totals -----

  ghost function Sum<K(!new)>(m: map<K, real>): real
    decreases |m|
  {
    if m == map[] then 0.0
    else
      var k :| k in m;
      m[k] + Sum(m - {k})
  }

  lemma {:induction false} SumWithout<K(!new)>(m: map<K, real>, k: K)
    requires k in m
    ensures Sum(m) == m[k] + Sum(m - {k})
    decreases |m|
  {
    var j :| j in m && Sum(m) == m[j] + Sum(m - {j});
    if j != k {
      SumWithout(m - {j}, k);
      SumWithout(m - {k}, j);
      assert m - {j} - {k} == m - {k} - {j};
    }
  }

  lemma SumUpdate<K(!new)>(m: map<K, real>, k: K, v: real)
    ensures Sum(m[k := v]) == Sum(m) + v - Of(m, k)
  {
    SumWithout(m[k := v], k);
    assert m[k := v] - {k} == m - {k};
    if k in m { SumWithout(m, k); } else { assert m - {k} == m; }
  }

  /** Time added to one key. */
  lemma OneMoreTotal<K(!new)>(totals: map<K, real>, k: K, time: real)
    ensures var after := totals[k := Of(totals, k) + time];
            && Sum(after) == Sum(totals) + time
            && forall x :: Of(after, x) == Of(totals, x) + if x == k then time else 0.0
  {
    SumUpdate(totals, k, Of(totals, k) + time);
  }

  /** The totals are those of the charged intervals, and sum up to the same amount both ways. */
  ghost predicate Balanced(t: Totals, h: seq<Interval>) {
    && (forall g :: Of(t.byG, g) == TimeOf(h, g))
    && (forall r :: Of(t.byReason, r) == TimeFor(h, r))
    && Sum(t.byG) == TimeInAll(h) == Sum(t.byReason)
  }

  lemma ChargeBalances(t: Totals, h: seq<Interval>, i: Interval)
    requires Balanced(t, h) && i.from < i.upto
    ensures Balanced(Charge(t, [i]), h + [i])
  {
    assert (h + [i])[..|h|] == h;
    var delta := i.upto - i.from;
    OneMoreTotal(t.byG, i.g, delta);
    OneMoreTotal(t.byReason, ReasonKey(i.reason), delta);
    assert Charge(t, [i]) == Totals(t.byG[i.g := Of(t.byG, i.g) + delta],
                                    t.byReason[ReasonKey(i.reason) := Of(t.byReason, ReasonKey(i.reason)) + delta]);
  }

  lemma StepBalances(s: Acct, h: seq<Interval>, t: real, e: Event)
    requires Balanced(s.totals, h)
    ensures Balanced(Step(s, t, e).totals, h + ChargedBy(s, t, e))
  {
    var charged := ChargedBy(s, t, e);
    if charged != [] {
      assert charged == [charged[0]];
      ChargeBalances(s.totals, h, charged[0]);
    } else {
      assert h + charged == h;
    }
  }

  // ----- main results -----

  ghost predicate Inv(s: Acct, h: seq<Interval>, t0: real, now: real) {
    SameKeys(s.blocks) && Starts(s, h, t0, now) && History(h, t0) && Balanced(s.totals, h)
  }

  function Now(trace: Trace, t0: real): real {
    if trace == [] then t0 else trace[|trace| - 1].0
  }

  lemma {:induction false} RunsKeepAccounts(trace: Trace, t0: real)
    requires Sorted(trace) && (trace != [] ==> t0 <= trace[0].0)
    ensures Inv(Run(trace), Charged(trace), t0, Now(trace, t0)) && t0 <= Now(trace, t0)
  {
    if trace != [] {
      var n := |trace| - 1;
      var before := trace[..n];
      RunsKeepAccounts(before, t0);
      var s, h, now, t, e := Run(before), Charged(before), Now(before, t0), trace[n].0, trace[n].1;
      StepKeys(s, t, e);
      StepHistory(s, h, t0, now, t, e);
      StepStarts(s, h, t0, now, t, e);
      StepBalances(s, h, t, e);
    }
  }

  /** The time since an open interval began. */
  function Running(s: Acct, g: Gid, now: real): real {
    if g in s.blocks.blockedAt && s.blocks.blockedAt[g] <= now then now - s.blocks.blockedAt[g] else 0.0
  }

  /**
   For every trace in time order: what is charged to a goroutine, with what is
   still running, fits into the time of the trace; its charged intervals do not
   overlap, nor does an open one begin before they end; totals by goroutine and
   by reason are the same time; and the three maps of open blocks agree.
   */
  lemma BlockedTimeIsBounded(trace: Trace, g: Gid)
    requires Sorted(trace) && trace != []
    ensures var s, h, now := Run(trace), Charged(trace), trace[|trace| - 1].0;
            && 0.0 <= Of(s.totals.byG, g) && (g in s.blocks.blockedAt ==> s.blocks.blockedAt[g] <= now)
            && Of(s.totals.byG, g) + Running(s, g, now) <= now - trace[0].0
            && Disjoint(h) && (g in s.blocks.blockedAt ==> LastEnd(h, g, trace[0].0) <= s.blocks.blockedAt[g])
            && Sum(s.totals.byG) == Sum(s.totals.byReason) && SameKeys(s.blocks)
  {
    RunsKeepAccounts(trace, trace[0].0);
  }

  // ----- the parser's fields -----

  class BlockState {
    var interested: set<Gid>
    var blocked: map<Gid, string>
    var blockedAt: map<Gid, real>
    var blockedReasonByG: map<Gid, string>
    var blockedTotalMs: map<Gid, real>
    var blockedTotalByReason: map<string, real>
    var syncWaitCandidateByG: map<Gid, Candidate>

    function View(): Acct
      reads this
    {
      Acct(interested, syncWaitCandidateByG, Blocks(blocked, blockedAt, blockedReasonByG),
           Totals(blockedTotalMs, blockedTotalByReason))
    }

    constructor ()
      ensures View() == Empty()
    {
      interested, blocked, blockedAt, blockedReasonByG := {}, map[], map[], map[];
      blockedTotalMs, blockedTotalByReason, syncWaitCandidateByG := map[], map[], map[];
    }

    method SetSyncWaitCandidate(g: Gid, kind: string, t: real)
      modifies this`syncWaitCandidateByG
      ensures View() == Step(old(View()), t, BeginSync(g, kind))
    {
      if !IsSyncWaitKind(kind) { return; }
      syncWaitCandidateByG := syncWaitCandidateByG[g := Candidate(kind, t)];
    }

    method ClearSyncWaitCandidate(g: Gid, kind: string)
      modifies this`syncWaitCandidateByG
      ensures forall t :: View() == Step(old(View()), t, EndSync(g, kind))
    {
      if g !in syncWaitCandidateByG { return; }
      if kind != "" && syncWaitCandidateByG[g].kind != kind { return; }
      syncWaitCandidateByG := syncWaitCandidateByG - {g};
    }

    method ChargeBlocked(g: Gid, reason: string, delta: real)
      modifies this`blockedTotalMs, this`blockedTotalByReason
      ensures Totals(blockedTotalMs, blockedTotalByReason) ==
              AddBlockedDuration(old(Totals(blockedTotalMs, blockedTotalByReason)), g, reason, delta)
    {
      if delta <= 0.0 { return; }
      blockedTotalMs := blockedTotalMs[g := Of(blockedTotalMs, g) + delta];
      var key := if TrimSpace(reason) == "" then "unknown" else reason;
      blockedTotalByReason := blockedTotalByReason[key := Of(blockedTotalByReason, key) + delta];
    }

    /** A goroutine starts waiting on a channel. */
    method OnBlockChan(g: Gid, send: bool, dropped: bool, t: real)
      modifies this`blocked, this`blockedAt, this`blockedReasonByG
      ensures View() == Step(old(View()), t, BlockChan(g, send, dropped))
    {
      if g !in interested || dropped { return; }
      blocked := blocked[g := if send then "send" else "recv"];
      if g !in blockedAt {
        blockedAt := blockedAt[g := t];
        blockedReasonByG := blockedReasonByG[g := if send then "chan_send" else "chan_recv"];
      }
    }

    /** A goroutine starts waiting on a lock, a wait group or a condition. */
    method OnBlockSync(g: Gid, runtimeKind: string, t: real)
      modifies this`blocked, this`blockedAt, this`blockedReasonByG
      ensures View() == Step(old(View()), t, BlockSync(g, runtimeKind))
    {
      if g !in interested { return; }
      var kind := if g in syncWaitCandidateByG then syncWaitCandidateByG[g].kind else runtimeKind;
      if kind == "" { return; }
      blocked := blocked[g := kind];
      if g !in blockedAt {
        var start := t;
        if g in syncWaitCandidateByG {
          var cand := syncWaitCandidateByG[g];
          if cand.kind == kind && 0.0 < cand.start <= t { start := cand.start; }
        }
        blockedAt := blockedAt[g := start];
        blockedReasonByG := blockedReasonByG[g := kind];
      }
    }

    /** Open an interval at the candidate if there is none. */
    method OpenAtCandidate(g: Gid, reason: string, t: real)
      modifies this`blockedAt, this`blockedReasonByG
      ensures if g !in old(blockedAt) && g in syncWaitCandidateByG && Usable(syncWaitCandidateByG[g], t)
              then && blockedAt == old(blockedAt)[g := syncWaitCandidateByG[g].start]
                   && blockedReasonByG ==
                      old(blockedReasonByG)[g := if reason != "" then reason else syncWaitCandidateByG[g].kind]
              else blockedAt == old(blockedAt) && blockedReasonByG == old(blockedReasonByG)
    {
      if g !in blockedAt && g in syncWaitCandidateByG {
        var cand := syncWaitCandidateByG[g];
        if 0.0 < cand.start <= t {
          blockedAt := blockedAt[g := cand.start];
          blockedReasonByG := blockedReasonByG[g := if reason != "" then reason else cand.kind];
        }
      }
    }

    /** Charge the open interval, opening one at the candidate if there is none. */
    method CloseInterval(g: Gid, runtimeKind: string, t: real)
      requires g in interested
      modifies this`blockedAt, this`blockedReasonByG, this`blockedTotalMs, this`blockedTotalByReason
      ensures blockedAt == old(blockedAt) - {g} && blockedReasonByG - {g} == old(blockedReasonByG) - {g}
      ensures Totals(blockedTotalMs, blockedTotalByReason) ==
              Charge(old(Totals(blockedTotalMs, blockedTotalByReason)), ChargedBy(old(View()), t, Unblock(g, runtimeKind)))
    {
      var reason := if g in blocked then blocked[g] else "";
      if reason == "" {
        reason := if g in syncWaitCandidateByG then syncWaitCandidateByG[g].kind else runtimeKind;
      }
      assert reason == UnblockReason(View(), g, runtimeKind);
      OpenAtCandidate(g, reason, t);
      if g in blockedAt {
        var key := if g in blockedReasonByG then blockedReasonByG[g] else "";
        if key == "" && reason != "" { key := reason; }
        ChargeBlocked(g, key, t - blockedAt[g]);
        blockedAt := blockedAt - {g};
      }
    }

    /** A waiting goroutine becomes runnable. */
    method OnUnblock(g: Gid, runtimeKind: string, t: real)
      modifies this
      ensures View() == Step(old(View()), t, Unblock(g, runtimeKind))
    {
      if g !in interested { return; }
      CloseInterval(g, runtimeKind, t);
      blockedReasonByG := blockedReasonByG - {g};
      blocked := blocked - {g};
      syncWaitCandidateByG := syncWaitCandidateByG - {g};
    }
  }
}
