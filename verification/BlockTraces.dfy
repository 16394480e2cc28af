/** What a whole trace charges for one wait: from where it began to where it ends, for its reason. */
module BlockTraces {
  import opened Text
  import opened Shared
  import opened RegionLabels
  import opened BlockAccounting

  /** The state before event n. */
  function Before(trace: Trace, n: nat): Acct
    requires n <= |trace|
  {
    Run(trace[..n])
  }

  lemma OneStep(trace: Trace, n: nat)
    requires n < |trace|
    ensures Before(trace, n + 1) == Step(Before(trace, n), trace[n].0, trace[n].1)
    ensures Charged(trace[..n + 1]) == Charged(trace[..n]) + ChargedBy(Before(trace, n), trace[n].0, trace[n].1)
  {
    assert trace[..n + 1][..n] == trace[..n];
  }

  // ----- told from the events alone -----

  ghost predicate Tracked(trace: Trace, n: nat, g: Gid)
    requires n <= |trace|
  {
    exists i :: 0 <= i < n && trace[i].1 == Track(g)
  }

  /** Event n ends what g waits for. */
  ghost predicate Unblocks(trace: Trace, n: nat, g: Gid)
    requires n < |trace|
  {
    trace[n].1.Unblock? && trace[n].1.g == g && Tracked(trace, n, g)
  }

  ghost predicate NoUnblock(trace: Trace, i: nat, j: nat, g: Gid)
    requires j <= |trace|
  {
    forall n :: i <= n < j ==> !Unblocks(trace, n, g)
  }

  /** Event n begins a lock or wait region of g. */
  ghost predicate Begins(trace: Trace, n: nat, g: Gid, kind: string)
    requires n < |trace|
  {
    trace[n].1 == BeginSync(g, kind) && IsSyncWaitKind(kind)
  }

  /** Event n closes or replaces a region of g. */
  ghost predicate Closes(trace: Trace, n: nat, g: Gid, kind: string)
    requires n < |trace|
  {
    || Unblocks(trace, n, g) || trace[n].1 == EndSync(g, "") || trace[n].1 == EndSync(g, kind)
    || exists other :: Begins(trace, n, g, other)
  }

  /** The region that g began at event a is still open before event b. */
  ghost predicate InRegion(trace: Trace, a: nat, b: nat, g: Gid, kind: string)
    requires b <= |trace|
  {
    a < b && Begins(trace, a, g, kind) && forall n :: a < n < b ==> !Closes(trace, n, g, kind)
  }

  /** Event n makes g wait: a channel block, or a sync block whose kind is known. */
  ghost predicate Blocks(trace: Trace, n: nat, g: Gid)
    requires n < |trace|
  {
    && trace[n].1.g == g && Tracked(trace, n, g)
    && ((trace[n].1.BlockChan? && !trace[n].1.dropped)
        || (trace[n].1.BlockSync? && (trace[n].1.runtimeKind != "" || exists a: nat, kind :: InRegion(trace, a, n, g, kind))))
  }

  /** g waits before event b. */
  ghost predicate Waiting(trace: Trace, b: nat, g: Gid)
    requires b <= |trace|
  {
    exists n :: 0 <= n < b && Blocks(trace, n, g) && NoUnblock(trace, n + 1, b, g)
  }

  /** Event c charges exactly this interval, to its goroutine and its reason. */
  ghost predicate Charges(trace: Trace, c: nat, i: Interval)
    requires c < |trace|
  {
    var s, t := Before(trace, c).totals, Before(trace, c + 1).totals;
    && Charged(trace[..c + 1]) == Charged(trace[..c]) + [i]
    && (forall g :: Of(t.byG, g) == Of(s.byG, g) + if g == i.g then i.upto - i.from else 0.0)
    && forall r :: Of(t.byReason, r) ==
                   Of(s.byReason, r) + if r == (if TrimSpace(i.reason) == "" then "unknown" else i.reason) then i.upto - i.from else 0.0
  }

  /** Of the operations in region labels, those that lock or wait are waited for. */
  lemma WaitRegions(family: string, action: string)
    requires SyncAction(family, action)
    ensures IsSyncWaitKind(family + "_" + action) <==> action in {"lock", "rlock", "wait"}
  {
    var kind := family + "_" + action;
    assert family == "mutex" ==> kind == "mutex_lock" || kind == "mutex_unlock";
    assert family == "rwmutex" ==>
             kind == "rwmutex_lock" || kind == "rwmutex_unlock" || kind == "rwmutex_rlock" || kind == "rwmutex_runlock";
    assert family == "wg" ==> kind == "wg_add" || kind == "wg_done" || kind == "wg_wait";
    assert family == "cond" ==> kind == "cond_wait" || kind == "cond_signal" || kind == "cond_broadcast";
  }

  // ----- the fields are what the events tell -----

  lemma StepTracks(s: Acct, t: real, e: Event, g: Gid)
    ensures g in Step(s, t, e).interested <==> g in s.interested || e == Track(g)
  {
  }

  lemma {:induction false} TrackedExactly(trace: Trace, n: nat, g: Gid)
    requires n <= |trace|
    ensures g in Before(trace, n).interested <==> Tracked(trace, n, g)
  {
    if n > 0 {
      TrackedExactly(trace, n - 1, g);
      OneStep(trace, n - 1);
      StepTracks(Before(trace, n - 1), trace[n - 1].0, trace[n - 1].1, g);
    }
  }

  /** A step replaces a candidate, clears it, or leaves it. */
  lemma StepCandidate(s: Acct, t: real, e: Event, g: Gid)
    ensures var c := Step(s, t, e).candidates;
            if e.BeginSync? && e.g == g && IsSyncWaitKind(e.kind) then g in c && c[g] == Candidate(e.kind, t)
            else if g !in s.candidates then g !in c
            else if (e.Unblock? && e.g == g && g in s.interested) || e == EndSync(g, "") || e == EndSync(g, s.candidates[g].kind)
            then g !in c
            else g in c && c[g] == s.candidates[g]
  {
  }

  lemma InRegionStep(trace: Trace, a: nat, b: nat, g: Gid, kind: string)
    requires b < |trace|
    ensures InRegion(trace, a, b + 1, g, kind) <==>
            if a == b then Begins(trace, b, g, kind) else InRegion(trace, a, b, g, kind) && !Closes(trace, b, g, kind)
  {
    assert a < b && InRegion(trace, a, b + 1, g, kind) ==> !Closes(trace, b, g, kind);
  }

  /** c is a region of g that is open before event b. */
  ghost predicate OpenRegion(trace: Trace, b: nat, g: Gid, c: Candidate)
    requires b <= |trace|
  {
    exists a: nat :: InRegion(trace, a, b, g, c.kind) && trace[a].0 == c.start
  }

  lemma OpenRegionStep(trace: Trace, b: nat, g: Gid, c: Candidate)
    requires b < |trace|
    ensures OpenRegion(trace, b + 1, g, c) <==>
            || (Begins(trace, b, g, c.kind) && trace[b].0 == c.start)
            || (OpenRegion(trace, b, g, c) && !Closes(trace, b, g, c.kind))
  {
    forall a: nat ensures InRegion(trace, a, b + 1, g, c.kind) <==>
                          if a == b then Begins(trace, b, g, c.kind)
                          else InRegion(trace, a, b, g, c.kind) && !Closes(trace, b, g, c.kind)
    {
      InRegionStep(trace, a, b, g, c.kind);
    }
    if OpenRegion(trace, b, g, c) && !Closes(trace, b, g, c.kind) {
      var a: nat :| InRegion(trace, a, b, g, c.kind) && trace[a].0 == c.start;
      assert InRegion(trace, a, b + 1, g, c.kind);
    }
    if Begins(trace, b, g, c.kind) && trace[b].0 == c.start {
      assert InRegion(trace, b, b + 1, g, c.kind);
    }
  }

  /** A step closes a region exactly if its event does. */
  lemma CandidateStep(trace: Trace, b: nat, g: Gid, c: Candidate)
    requires b < |trace| && (g in Before(trace, b).interested <==> Tracked(trace, b, g))
    ensures var s, t := Before(trace, b), Step(Before(trace, b), trace[b].0, trace[b].1);
            g in t.candidates && t.candidates[g] == c <==>
            || (Begins(trace, b, g, c.kind) && trace[b].0 == c.start)
            || (g in s.candidates && s.candidates[g] == c && !Closes(trace, b, g, c.kind))
  {
    StepCandidate(Before(trace, b), trace[b].0, trace[b].1, g);
    var e := trace[b].1;
    if e.BeginSync? && e.g == g && IsSyncWaitKind(e.kind) { assert Begins(trace, b, g, e.kind); }
  }

  /** The candidate of a goroutine is its open region. */
  lemma {:induction false} CandidateExactly(trace: Trace, b: nat, g: Gid, c: Candidate)
    requires b <= |trace|
    ensures g in Before(trace, b).candidates && Before(trace, b).candidates[g] == c <==> OpenRegion(trace, b, g, c)
  {
    if b > 0 {
      CandidateExactly(trace, b - 1, g, c);
      TrackedExactly(trace, b - 1, g);
      OneStep(trace, b - 1);
      CandidateStep(trace, b - 1, g, c);
      OpenRegionStep(trace, b - 1, g, c);
    }
  }

  lemma SomeRegion(trace: Trace, b: nat, g: Gid)
    requires b <= |trace|
    ensures g in Before(trace, b).candidates <==> exists a: nat, kind :: InRegion(trace, a, b, g, kind)
  {
    var s := Before(trace, b);
    if g in s.candidates {
      CandidateExactly(trace, b, g, s.candidates[g]);
    }
    if a: nat, kind :| InRegion(trace, a, b, g, kind) {
      CandidateExactly(trace, b, g, Candidate(kind, trace[a].0));
      assert OpenRegion(trace, b, g, Candidate(kind, trace[a].0));
    }
  }

  lemma StepUnblocks(s: Acct, t: real, e: Event, g: Gid)
    requires e.Unblock?
    ensures g in Step(s, t, e).blocks.blockedAt <==> g in s.blocks.blockedAt && !(e.g == g && g in s.interested)
  {
  }

  lemma StepBlocks(s: Acct, t: real, e: Event, g: Gid)
    requires !e.Unblock?
    ensures g in Step(s, t, e).blocks.blockedAt <==>
            || g in s.blocks.blockedAt
            || (e.BlockChan? && e.g == g && g in s.interested && !e.dropped)
            || (e.BlockSync? && e.g == g && g in s.interested && SyncKind(s, g, e.runtimeKind) != "")
  {
  }

  /** Candidates are of wait kinds. */
  lemma {:induction false} KindsKnown(trace: Trace, b: nat, g: Gid)
    requires b <= |trace|
    ensures g in Before(trace, b).candidates ==> Before(trace, b).candidates[g].kind != ""
  {
    var s := Before(trace, b);
    if g in s.candidates {
      CandidateExactly(trace, b, g, s.candidates[g]);
    }
  }

  lemma WaitingStep(trace: Trace, b: nat, g: Gid)
    requires b < |trace|
    ensures Waiting(trace, b + 1, g) <==> Blocks(trace, b, g) || (Waiting(trace, b, g) && !Unblocks(trace, b, g))
  {
    if Waiting(trace, b, g) && !Unblocks(trace, b, g) {
      var n :| 0 <= n < b && Blocks(trace, n, g) && NoUnblock(trace, n + 1, b, g);
      assert NoUnblock(trace, n + 1, b + 1, g);
    }
    if Waiting(trace, b + 1, g) && !Blocks(trace, b, g) {
      var n :| 0 <= n < b + 1 && Blocks(trace, n, g) && NoUnblock(trace, n + 1, b + 1, g);
      assert n < b && !Unblocks(trace, b, g) && NoUnblock(trace, n + 1, b, g);
    }
    if Blocks(trace, b, g) { assert NoUnblock(trace, b + 1, b + 1, g); }
  }

  /** The open intervals are those of the waiting goroutines. */
  lemma {:induction false} WaitingExactly(trace: Trace, b: nat, g: Gid)
    requires b <= |trace|
    ensures g in Before(trace, b).blocks.blockedAt <==> Waiting(trace, b, g)
  {
    if b > 0 {
      WaitingExactly(trace, b - 1, g);
      TrackedExactly(trace, b - 1, g);
      SomeRegion(trace, b - 1, g);
      KindsKnown(trace, b - 1, g);
      OneStep(trace, b - 1);
      var s, t, e := Before(trace, b - 1), trace[b - 1].0, trace[b - 1].1;
      if e.Unblock? { StepUnblocks(s, t, e, g); } else { StepBlocks(s, t, e, g); }
      WaitingStep(trace, b - 1, g);
    }
  }

  // ----- one wait -----

  /** g is blocked since start, for a reason. */
  ghost predicate OpenSince(s: Acct, g: Gid, start: real, reason: string) {
    && g in s.blocks.blockedAt && s.blocks.blockedAt[g] == start
    && g in s.blocks.reasonByG && s.blocks.reasonByG[g] == reason
  }

  lemma StepKeepsOpen(s: Acct, t: real, e: Event, g: Gid, start: real, reason: string)
    requires OpenSince(s, g, start, reason) && !(e.Unblock? && e.g == g && g in s.interested)
    ensures OpenSince(Step(s, t, e), g, start, reason)
  {
  }

  lemma {:induction false} OpenStays(trace: Trace, b: nat, c: nat, g: Gid, start: real, reason: string)
    requires b <= c <= |trace| && NoUnblock(trace, b, c, g) && OpenSince(Before(trace, b), g, start, reason)
    ensures OpenSince(Before(trace, c), g, start, reason)
  {
    if b < c {
      OpenStays(trace, b, c - 1, g, start, reason);
      OneStep(trace, c - 1);
      TrackedExactly(trace, c - 1, g);
      assert !Unblocks(trace, c - 1, g);
      StepKeepsOpen(Before(trace, c - 1), trace[c - 1].0, trace[c - 1].1, g, start, reason);
    }
  }

  lemma AddedTimes(t: Totals, i: Interval)
    requires i.from < i.upto
    ensures var u, key := Charge(t, [i]), if TrimSpace(i.reason) == "" then "unknown" else i.reason;
            && (forall g :: Of(u.byG, g) == Of(t.byG, g) + if g == i.g then i.upto - i.from else 0.0)
            && forall r :: Of(u.byReason, r) == Of(t.byReason, r) + if r == key then i.upto - i.from else 0.0
  {
  }

  lemma UnblockStep(s: Acct, t: real, e: Event)
    requires e.Unblock? && e.g in s.interested
    ensures Step(s, t, e).totals == Charge(s.totals, ChargedBy(s, t, e))
  {
  }

  lemma ChargeMeans(trace: Trace, c: nat, i: Interval)
    requires c < |trace| && Unblocks(trace, c, i.g) && i.from < i.upto
    requires ChargedBy(Before(trace, c), trace[c].0, trace[c].1) == [i]
    ensures Charges(trace, c, i)
  {
    TrackedExactly(trace, c, i.g);
    OneStep(trace, c);
    UnblockStep(Before(trace, c), trace[c].0, trace[c].1);
    AddedTimes(Before(trace, c).totals, i);
  }

  /** The unblock of an open interval. */
  lemma UnblockCharges(trace: Trace, c: nat, g: Gid, start: real, reason: string)
    requires c < |trace| && Unblocks(trace, c, g)
    requires OpenSince(Before(trace, c), g, start, reason) && start < trace[c].0 && reason != ""
    ensures Charges(trace, c, Interval(g, start, trace[c].0, reason))
  {
    TrackedExactly(trace, c, g);
    ChargeMeans(trace, c, Interval(g, start, trace[c].0, reason));
  }

  lemma BlockToUnblock(trace: Trace, b: nat, c: nat, g: Gid, start: real, reason: string)
    requires b < c < |trace| && OpenSince(Before(trace, b + 1), g, start, reason)
    requires NoUnblock(trace, b + 1, c, g) && Unblocks(trace, c, g) && start < trace[c].0 && reason != ""
    ensures Charges(trace, c, Interval(g, start, trace[c].0, reason))
  {
    OpenStays(trace, b + 1, c, g, start, reason);
    UnblockCharges(trace, c, g, start, reason);
  }

  // ----- main results -----

  /**
   A wait for a lock, a wait group or a condition is charged from the begin of
   its region: g began the region at event a, blocks in it at event b, not having
   waited before, and is unblocked at event c. A begin at time zero does not count.
   */
  lemma SyncWaitIsChargedFromRegion(trace: Trace, a: nat, b: nat, c: nat, g: Gid, kind: string)
    requires b < c < |trace| && InRegion(trace, a, b, g, kind)
    requires trace[b].1.BlockSync? && Blocks(trace, b, g) && !Waiting(trace, b, g)
    requires NoUnblock(trace, b + 1, c, g) && Unblocks(trace, c, g) && trace[a].0 <= trace[b].0
    requires (if trace[a].0 > 0.0 then trace[a].0 else trace[b].0) < trace[c].0
    ensures Charges(trace, c, Interval(g, if trace[a].0 > 0.0 then trace[a].0 else trace[b].0, trace[c].0, kind))
  {
    CandidateExactly(trace, b, g, Candidate(kind, trace[a].0));
    TrackedExactly(trace, b, g);
    WaitingExactly(trace, b, g);
    OneStep(trace, b);
    BlockToUnblock(trace, b, c, g, if trace[a].0 > 0.0 then trace[a].0 else trace[b].0, kind);
  }

  /** Without a region it is charged from the block on, as the kind that the block tells. */
  lemma SyncWaitIsChargedFromBlock(trace: Trace, b: nat, c: nat, g: Gid)
    requires b < c < |trace| && (forall a: nat, kind :: !InRegion(trace, a, b, g, kind)) && trace[b].0 < trace[c].0
    requires trace[b].1.BlockSync? && Blocks(trace, b, g) && !Waiting(trace, b, g)
    requires NoUnblock(trace, b + 1, c, g) && Unblocks(trace, c, g)
    ensures Charges(trace, c, Interval(g, trace[b].0, trace[c].0, trace[b].1.runtimeKind))
  {
    SomeRegion(trace, b, g);
    TrackedExactly(trace, b, g);
    WaitingExactly(trace, b, g);
    OneStep(trace, b);
    BlockToUnblock(trace, b, c, g, trace[b].0, trace[b].1.runtimeKind);
  }

  /** A wait on a channel is charged from the block on, whatever region is open. */
  lemma ChannelWaitIsCharged(trace: Trace, b: nat, c: nat, g: Gid)
    requires b < c < |trace| && trace[b].0 < trace[c].0
    requires trace[b].1.BlockChan? && Blocks(trace, b, g) && !Waiting(trace, b, g)
    requires NoUnblock(trace, b + 1, c, g) && Unblocks(trace, c, g)
    ensures Charges(trace, c, Interval(g, trace[b].0, trace[c].0, if trace[b].1.send then "chan_send" else "chan_recv"))
  {
    TrackedExactly(trace, b, g);
    WaitingExactly(trace, b, g);
    OneStep(trace, b);
    BlockToUnblock(trace, b, c, g, trace[b].0, if trace[b].1.send then "chan_send" else "chan_recv");
  }

  /** A goroutine that is unblocked in a region, but was not seen to block, is charged from the begin of the region. */
  lemma RegionAloneIsCharged(trace: Trace, a: nat, c: nat, g: Gid, kind: string)
    requires c < |trace| && InRegion(trace, a, c, g, kind) && 0.0 < trace[a].0 < trace[c].0
    requires !Waiting(trace, c, g) && Unblocks(trace, c, g)
    ensures Charges(trace, c, Interval(g, trace[a].0, trace[c].0, kind))
  {
    CandidateExactly(trace, c, g, Candidate(kind, trace[a].0));
    TrackedExactly(trace, c, g);
    WaitingExactly(trace, c, g);
    KeysAgree(trace, c);
    CandidateCharges(Before(trace, c), trace[c].0, trace[c].1, trace[a].0, kind);
    ChargeMeans(trace, c, Interval(g, trace[a].0, trace[c].0, kind));
  }

  lemma CandidateCharges(s: Acct, t: real, e: Event, start: real, kind: string)
    requires e.Unblock? && e.g in s.interested && e.g !in s.blocks.blocked && e.g !in s.blocks.blockedAt
    requires e.g in s.candidates && s.candidates[e.g] == Candidate(kind, start) && 0.0 < start < t && kind != ""
    ensures ChargedBy(s, t, e) == [Interval(e.g, start, t, kind)]
  {
  }

  lemma {:induction false} KeysAgree(trace: Trace, n: nat)
    requires n <= |trace|
    ensures SameKeys(Before(trace, n).blocks)
  {
    if n > 0 {
      KeysAgree(trace, n - 1);
      OneStep(trace, n - 1);
      StepKeys(Before(trace, n - 1), trace[n - 1].0, trace[n - 1].1);
    }
  }

  /** Only the unblock of a goroutine that waits or is in a region charges anything. */
  lemma NothingElseIsCharged(trace: Trace, c: nat)
    requires c < |trace|
    ensures Charged(trace[..c + 1]) != Charged(trace[..c]) ==>
              var g := trace[c].1.g;
              Unblocks(trace, c, g) && (Waiting(trace, c, g) || exists a: nat, kind :: InRegion(trace, a, c, g, kind))
  {
    var g := trace[c].1.g;
    OneStep(trace, c);
    TrackedExactly(trace, c, g);
    WaitingExactly(trace, c, g);
    SomeRegion(trace, c, g);
  }

  // ----- what g waits for -----

  /** Event n is the last one that made g wait before event b, and it still does. */
  ghost predicate LastBlock(trace: Trace, n: nat, b: nat, g: Gid)
    requires b <= |trace|
  {
    n < b && Blocks(trace, n, g) && NoUnblock(trace, n + 1, b, g) && forall j :: n < j < b ==> !Blocks(trace, j, g)
  }

  lemma StepKeepsReason(s: Acct, t: real, e: Event, g: Gid)
    requires g in s.blocks.blocked && !(e.Unblock? && e.g == g && g in s.interested)
    requires !(e.g == g && g in s.interested && ((e.BlockChan? && !e.dropped) || (e.BlockSync? && SyncKind(s, g, e.runtimeKind) != "")))
    ensures var b := Step(s, t, e).blocks.blocked; g in b && b[g] == s.blocks.blocked[g]
  {
  }

  /** The reason that event n tells: the direction, the kind of the region, or the kind of the block. */
  ghost predicate ReasonOf(trace: Trace, n: nat, g: Gid, reason: string)
    requires n < |trace|
  {
    var e := trace[n].1;
    && (e.BlockChan? ==> reason == if e.send then "send" else "recv")
    && (e.BlockSync? && (forall a: nat, kind :: !InRegion(trace, a, n, g, kind)) ==> reason == e.runtimeKind)
    && (e.BlockSync? ==> forall a: nat, kind :: InRegion(trace, a, n, g, kind) ==> reason == kind)
  }

  lemma BlockTellsReason(trace: Trace, n: nat, g: Gid)
    requires n < |trace| && Blocks(trace, n, g)
    ensures var s := Before(trace, n + 1).blocks.blocked; g in s && ReasonOf(trace, n, g, s[g])
  {
    OneStep(trace, n);
    TrackedExactly(trace, n, g);
    SomeRegion(trace, n, g);
    forall a: nat, kind | InRegion(trace, a, n, g, kind)
      ensures g in Before(trace, n).candidates && Before(trace, n).candidates[g].kind == kind
    {
      CandidateExactly(trace, n, g, Candidate(kind, trace[a].0));
      assert OpenRegion(trace, n, g, Candidate(kind, trace[a].0));
    }
  }

  lemma OtherEventsKeepReason(trace: Trace, n: nat, g: Gid)
    requires n < |trace| && g in Before(trace, n).blocks.blocked && !Blocks(trace, n, g) && !Unblocks(trace, n, g)
    ensures var s := Before(trace, n + 1).blocks.blocked; g in s && s[g] == Before(trace, n).blocks.blocked[g]
  {
    OneStep(trace, n);
    TrackedExactly(trace, n, g);
    SomeRegion(trace, n, g);
    KindsKnown(trace, n, g);
    StepKeepsReason(Before(trace, n), trace[n].0, trace[n].1, g);
  }

  /** The parser knows a goroutine as blocked for the reason of its last block: this is what a deadlock is told from. */
  lemma {:induction false} BlockedForLastReason(trace: Trace, n: nat, b: nat, g: Gid)
    requires b <= |trace| && LastBlock(trace, n, b, g)
    ensures var s := Before(trace, b).blocks.blocked; g in s && ReasonOf(trace, n, g, s[g])
    decreases b
  {
    if n == b - 1 {
      BlockTellsReason(trace, n, g);
    } else {
      BlockedForLastReason(trace, n, b - 1, g);
      OtherEventsKeepReason(trace, b - 1, g);
    }
  }
}
