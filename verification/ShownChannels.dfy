/** What a normalized timeline shows as the channel of an event. */
module ShownChannels {
  import opened Text
  import opened Shared
  import opened ChannelKeys
  import opened ChannelNames
  import opened Topology
  import opened Aliasing

  /** A name that somebody gave: neither empty nor a pointer nor given by a normalization. */
  predicate Proper(channel: string) {
    var low := ToLower(TrimSpace(channel));
    channel != "" && !IsPointerString(channel) && !HasPrefix(low, "ch#") && !HasPrefix(low, "unknown:")
  }

  /** The event tells a proper name of the pointer. */
  predicate Tells(ev: TEvent, ptr: string) {
    ev.ptr != "" && NormalizePointer(ev.ptr) == ptr != "" && Proper(ev.channel)
  }

  /** Event i is the first that tells a name of the pointer. */
  ghost predicate FirstTold(events: seq<TEvent>, i: nat, ptr: string) {
    i < |events| && Tells(events[i], ptr) && forall j :: 0 <= j < i ==> !Tells(events[j], ptr)
  }

  lemma {:induction false} WhoTold(events: seq<TEvent>, ptr: string) returns (i: nat)
    requires ptr in NameByPtr(events)
    ensures FirstTold(events, i, ptr) && events[i].channel == NameByPtr(events)[ptr]
  {
    var init := events[..|events| - 1];
    LastTells(events, ptr);
    if ptr in NameByPtr(init) {
      i := WhoTold(init, ptr);
      assert forall j :: 0 <= j <= i ==> init[j] == events[j];
    } else {
      i := |init|;
      NobodyTold(init, ptr);
      assert forall j :: 0 <= j < |init| ==> init[j] == events[j];
    }
  }

  /** A pointer is known by the first name told. */
  lemma NameIsFirstTold(events: seq<TEvent>, ptr: string, name: string)
    ensures ptr in NameByPtr(events) && NameByPtr(events)[ptr] == name <==>
            exists i: nat :: FirstTold(events, i, ptr) && events[i].channel == name
  {
    if ptr in NameByPtr(events) {
      var i := WhoTold(events, ptr);
      assert forall j: nat :: FirstTold(events, j, ptr) ==> j == i;
    } else {
      NobodyTold(events, ptr);
    }
  }

  lemma LastTells(events: seq<TEvent>, ptr: string)
    requires events != []
    ensures var before, after, last := NameByPtr(events[..|events| - 1]), NameByPtr(events), events[|events| - 1];
            if ptr in before then ptr in after && after[ptr] == before[ptr]
            else if Tells(last, ptr) then ptr in after && after[ptr] == last.channel
            else ptr !in after
  {
  }

  lemma {:induction false} NobodyTold(events: seq<TEvent>, ptr: string)
    requires ptr !in NameByPtr(events)
    ensures forall i :: 0 <= i < |events| ==> !Tells(events[i], ptr)
  {
    if events != [] {
      var init := events[..|events| - 1];
      LastTells(events, ptr);
      NobodyTold(init, ptr);
      forall i | 0 <= i < |events| ensures !Tells(events[i], ptr) {
        if i < |init| { assert events[i] == init[i]; }
      }
    }
  }

  // ----- one event -----

  /** The proper name stays, else the name of the pointer is shown, else what the event has. */
  lemma ResolvedChannel(ev: TEvent, names: map<string, string>)
    ensures var r, p := Resolve(ev, names), NormalizePointer(ev.ptr);
            && r.ptr == p && r.name == ev.name && r.g == ev.g && r.seqNo == ev.seqNo
            && r.channel == (if !Proper(ev.channel) && p != "" && p in names then names[p] else ev.channel)
            && r.key == (if NormalizeChannelKey(ev.key) != "" then NormalizeChannelKey(ev.key) else NormalizeChannelKey(r.channel))
  {
  }

  /** Unnamed pointers are shown by their alias, in key and channel. */
  lemma AliasIsShown(r: TEvent, m: map<string, string>)
    requires AliasesOk(m) && (r.channel == "" || IsPointerString(r.channel))
    requires IsPointerString(if r.key != "" then NormalizePointer(r.key) else r.ptr) && (r.key == "" ==> r.ptr != "")
    ensures var first := AliasKey(r, m);
            var e := Identify(AliasPointer(first.0, first.1).0);
            exists k: nat :: e.key == e.channel == AliasName(k)
  {
    if r.key != "" {
      var k := AliasKeyIs(r, m);
      AliasIsNoPointer(k);
      AliasIsPlain(k);
    } else {
      AddAliasKeeps(m, r.ptr);
      AliasNumbered(m, r.ptr);
    }
  }

  lemma AliasIsPlain(k: nat)
    ensures AliasName(k) != "" && !IsPointerString(AliasName(k))
  {
    AliasIsNoPointer(k);
  }

  lemma AliasNumbered(m: map<string, string>, p: string)
    requires AliasesOk(m)
    ensures exists k: nat :: AliasOf(m, p) == AliasName(k)
    ensures AliasOf(m, p) != ""
  {
    if p in m {
      var k: nat :| k <= |m| && m[p] == AliasName(k);
      AliasIsPlain(k);
    } else {
      AliasIsPlain(|m| + 1);
    }
  }

  /** Every other channel text stays. */
  lemma OtherChannelStays(r: TEvent, m: map<string, string>)
    requires r.channel != "" && !IsPointerString(r.channel)
    ensures var first := AliasKey(r, m); Identify(AliasPointer(first.0, first.1).0).channel == r.channel
  {
  }

  /** What has nothing to go by is told apart by goroutine and number. */
  lemma UnknownIsShown(r: TEvent, m: map<string, string>)
    requires r.key == r.channel == r.ptr == "" && IsChannelEvent(r.name)
    ensures var first := AliasKey(r, m);
            var e := Identify(AliasPointer(first.0, first.1).0);
            e.key == e.channel == UnknownName(r.g, r.seqNo)
  {
    assert NormalizeChannelKey("") == "";
  }

  // ----- whole timelines -----

  lemma StepKeepsAliases(r: TEvent, m: map<string, string>)
    requires AliasesOk(m)
    ensures var first := AliasKey(r, m); AliasesOk(first.1) && AliasesOk(AliasPointer(first.0, first.1).1)
  {
    var q := NormalizePointer(r.key);
    if IsPointerString(q) { AddAliasKeeps(m, q); }
    var first := AliasKey(r, m);
    if IsPointerString(first.0.ptr) { AddAliasKeeps(first.1, first.0.ptr); }
  }

  lemma NormalizeSteps(events: seq<TEvent>, names: map<string, string>)
    requires events != []
    ensures var n, all := |events| - 1, NormalizeAll(events, names);
            var before := NormalizeAll(events[..n], names);
            && |before.0| == n && |all.0| == n + 1 && AliasesOk(before.1)
            && all.0[n] == Normalize(events[n], names, before.1).0
            && forall i :: 0 <= i < n ==> all.0[i] == before.0[i]
  {
    AllAliasesOk(events[..|events| - 1], names);
    NormalizeLast(events, names);
  }

  /** Event i is normalized by itself, under the aliases m. */
  ghost predicate NormalizedUnder(events: seq<TEvent>, names: map<string, string>, i: nat, m: map<string, string>) {
    var all := NormalizeAll(events, names).0;
    i < |events| && |all| == |events| && all[i] == Normalize(events[i], names, m).0
  }

  lemma StaysNormalized(events: seq<TEvent>, names: map<string, string>, i: nat, m: map<string, string>)
    requires events != [] && NormalizedUnder(events[..|events| - 1], names, i, m)
    ensures NormalizedUnder(events, names, i, m)
  {
    NormalizeSteps(events, names);
    assert events[..|events| - 1][i] == events[i];
  }

  lemma {:induction false} NormalizedAt(events: seq<TEvent>, names: map<string, string>, i: nat) returns (m: map<string, string>)
    requires i < |events|
    ensures AliasesOk(m) && NormalizedUnder(events, names, i, m)
  {
    var n := |events| - 1;
    if i < n {
      m := NormalizedAt(events[..n], names, i);
      StaysNormalized(events, names, i, m);
    } else {
      NormalizeSteps(events, names);
      m := NormalizeAll(events[..n], names).1;
    }
  }

  lemma {:induction false} AllAliasesOk(events: seq<TEvent>, names: map<string, string>)
    ensures AliasesOk(NormalizeAll(events, names).1) && |NormalizeAll(events, names).0| == |events|
  {
    if events != [] {
      var n := |events| - 1;
      AllAliasesOk(events[..n], names);
      NormalizeLast(events, names);
      StepKeepsAliases(Resolve(events[n], names), NormalizeAll(events[..n], names).1);
    }
  }

  /** The key an event goes by after its channel is known. */
  function KeyText(ev: TEvent, channel: string): string {
    if NormalizeChannelKey(ev.key) != "" then NormalizeChannelKey(ev.key) else NormalizeChannelKey(channel)
  }

  /**
   The channel of every event in a normalized timeline. A proper name stays, else
   the first name told of the pointer is shown. Else an unnamed pointer is shown
   by its alias, in channel and key alike; an event with nothing to go by by its
   goroutine and number; and any other text stays.
   */
  lemma ShownChannel(events: seq<TEvent>, i: nat, told: nat)
    requires i < |events|
    ensures |Normalized(events)| == |events| &&
            var ev, e, p := events[i], Normalized(events)[i], NormalizePointer(events[i].ptr);
            && (Proper(ev.channel) ==> e.channel == ev.channel)
            && (!Proper(ev.channel) && FirstTold(events, told, p) ==> e.channel == events[told].channel)
            && (!Proper(ev.channel) && (forall j :: 0 <= j < |events| ==> !Tells(events[j], p)) ==>
                  if ev.channel != "" && !IsPointerString(ev.channel) then e.channel == ev.channel
                  else
                    var key := KeyText(ev, ev.channel);
                    && (IsPointerString(if key != "" then NormalizePointer(key) else p) && (key == "" ==> p != "") ==>
                          exists k: nat :: e.key == e.channel == AliasName(k))
                    && (key == ev.channel == p == "" && IsChannelEvent(ev.name) ==>
                          e.key == e.channel == UnknownName(ev.g, ev.seqNo)))
  {
    var names, ev, p := NameByPtr(events), events[i], NormalizePointer(events[i].ptr);
    var m := NormalizedAt(events, names, i);
    var r := Resolve(ev, names);
    ResolvedChannel(ev, names);
    if p in names {
      NameIsFirstTold(events, p, names[p]);
      var j := WhoTold(events, p);
      OtherChannelStays(r, m);
    } else {
      NobodyTold(events, p);
      UnnamedChannel(ev, r, m);
    }
  }

  lemma UnnamedChannel(ev: TEvent, r: TEvent, m: map<string, string>)
    requires AliasesOk(m) && r.channel == ev.channel && r.key == KeyText(ev, ev.channel)
    requires r.ptr == NormalizePointer(ev.ptr) && r.name == ev.name && r.g == ev.g && r.seqNo == ev.seqNo
    ensures var first := AliasKey(r, m);
            var e := Identify(AliasPointer(first.0, first.1).0);
            if ev.channel != "" && !IsPointerString(ev.channel) then e.channel == ev.channel
            else
              && (IsPointerString(if r.key != "" then NormalizePointer(r.key) else r.ptr) && (r.key == "" ==> r.ptr != "") ==>
                    exists k: nat :: e.key == e.channel == AliasName(k))
              && (r.key == ev.channel == r.ptr == "" && IsChannelEvent(ev.name) ==>
                    e.key == e.channel == UnknownName(ev.g, ev.seqNo))
  {
    if ev.channel != "" && !IsPointerString(ev.channel) {
      OtherChannelStays(r, m);
    } else {
      if IsPointerString(if r.key != "" then NormalizePointer(r.key) else r.ptr) && (r.key == "" ==> r.ptr != "") {
        AliasIsShown(r, m);
      }
      if r.key == ev.channel == r.ptr == "" && IsChannelEvent(ev.name) { UnknownIsShown(r, m); }
    }
  }
}
