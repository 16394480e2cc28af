/** After normalization each pointer has one identity of its own, and what the validator can still report. */
module Aliasing {
  import opened Text
  import opened Shared
  import opened ChannelKeys
  import opened ChannelNames
  import opened Topology

  /** The key an event goes by. */
  function OwnKey(ev: TEvent): string {
    var key := NormalizeChannelKey(ev.key);
    if key == "" then NormalizeChannelKey(ev.channel) else key
  }

  /** The key equals the pointer where there is one, and the pointer is more than a goroutine suffix. */
  predicate Keyed(ev: TEvent) {
    ev.ptr != "" ==> ev.key == ev.ptr && (NormalizeChannelKey(ev.ptr) == "" ==> NormalizePointer(ev.ptr) == "")
  }

  /** What the key stands for, if that is a pointer. */
  function KeyPointer(ev: TEvent): string {
    NormalizePointer(OwnKey(ev))
  }

  /** The pointer that the validator sees, told from the event alone. */
  function Target(ev: TEvent): string {
    if NormalizePointer(ev.ptr) != "" then NormalizePointer(NormalizePointer(ev.ptr))
    else if IsPointerString(KeyPointer(ev)) then NormalizePointer(KeyPointer(ev))
    else ""
  }

  /** The identity it gets: the alias of a pointer, or a text. */
  datatype Ident = ByAlias(pointer: string) | ByText(text: string)

  function IdentOf(ev: TEvent): Ident {
    if IsPointerString(KeyPointer(ev)) then ByAlias(KeyPointer(ev)) else ByText(NormalizeChannelKey(OwnKey(ev)))
  }

  /** An event has something to go by, or is a channel event that will be given an identity. */
  predicate Named(ev: TEvent) {
    OwnKey(ev) != "" || (IsChannelEvent(ev.name) && ev.channel == "")
  }

  /** One pointer under two identities. */
  ghost predicate Clash(events: seq<TEvent>) {
    exists i, j :: 0 <= i < |events| && 0 <= j < |events| && Target(events[i]) == Target(events[j]) != ""
                   && IdentOf(events[i]) != IdentOf(events[j])
  }

  /** The seen pointer and the key of an event are pointers together. */
  lemma TargetIsPointer(ev: TEvent)
    requires Keyed(ev)
    ensures Target(ev) != "" ==> (StartsHex(Target(ev)) <==> IsPointerString(KeyPointer(ev)))
    ensures NormalizePointer(ev.ptr) != "" ==> (IsPointerString(NormalizePointer(ev.ptr)) <==> IsPointerString(KeyPointer(ev)))
    ensures IsPointerString(KeyPointer(ev)) ==> Target(ev) != ""
  {
    if NormalizePointer(ev.ptr) != "" { SuffixKeepsPointer(ev.ptr); }
  }

  // ----- the alias map -----

  /** Aliases are numbered in order, and only pointers have one. */
  ghost predicate AliasesOk(m: map<string, string>) {
    && (forall p :: p in m ==> IsPointerString(p) && exists k: nat :: k <= |m| && m[p] == AliasName(k))
    && (forall p, q :: p in m && q in m && m[p] == m[q] ==> p == q)
  }

  ghost predicate Extends(m: map<string, string>, m': map<string, string>) {
    forall p :: p in m ==> p in m' && m'[p] == m[p]
  }

  /** The next alias is not taken. */
  lemma NextAliasIsNew(m: map<string, string>, q: string)
    requires AliasesOk(m) && q in m
    ensures m[q] != AliasName(|m| + 1)
  {
    var k: nat :| k <= |m| && m[q] == AliasName(k);
    if AliasName(k) == AliasName(|m| + 1) { AliasesDiffer(k, |m| + 1); }
  }

  lemma AddAliasKeeps(m: map<string, string>, p: string)
    requires AliasesOk(m) && IsPointerString(p)
    ensures AliasesOk(AddAlias(m, p)) && Extends(m, AddAlias(m, p))
    ensures p in AddAlias(m, p) && AddAlias(m, p)[p] == AliasOf(m, p)
  {
    if p !in m {
      forall q | q in m ensures m[q] != AliasName(|m| + 1) {
        NextAliasIsNew(m, q);
      }
      forall q | q in AddAlias(m, p) ensures exists k: nat :: k <= |m| + 1 && AddAlias(m, p)[q] == AliasName(k) {
      }
    }
  }

  /** How an event is seen by the validator under the aliases m. */
  ghost predicate SeenWell(s: Sight, ev: TEvent, m: map<string, string>) {
    && s.ptr == Target(ev) && (s.id != "" <==> Named(ev)) && s.needed == (EventKind(ev.name) != NoDirection)
    && match IdentOf(ev)
       case ByAlias(q) => q in m && s.id == m[q]
       case ByText(text) => s.ptr != "" ==> s.id == text
  }

  /** An alias is a key and not a pointer. */
  lemma AliasIsNoPointer(k: nat)
    ensures NormalizeChannelKey(AliasName(k)) == AliasName(k) != "" && !IsPointerString(AliasName(k))
  {
    AliasIsKey(k);
    TrimKeepsStart(AliasName(k));
  }

  /** Where the key is an alias already, the pointer only gets one of its own. */
  lemma AliasStaysKey(e: TEvent, m: map<string, string>, k: nat)
    requires AliasesOk(m) && e.key == AliasName(k)
    ensures var (e2, m2) := AliasPointer(e, m);
            && AliasesOk(m2) && Extends(m, m2) && Identify(e2).key == AliasName(k)
            && Identify(e2).ptr == e.ptr && e2.name == e.name
  {
    AliasIsNoPointer(k);
    if e.ptr != "" && IsPointerString(e.ptr) { AddAliasKeeps(m, e.ptr); }
  }

  /** A key that stands for a pointer gets the pointer's alias. */
  lemma AliasKeyIs(r: TEvent, m: map<string, string>) returns (k: nat)
    requires AliasesOk(m) && r.key != "" && IsPointerString(NormalizePointer(r.key))
    ensures var next, q := AliasKey(r, m), NormalizePointer(r.key);
            && AliasesOk(next.1) && Extends(m, next.1) && q in next.1 && next.1[q] == AliasName(k) == next.0.key
            && next.0.ptr == (if r.ptr == "" then q else r.ptr) && next.0.name == r.name
  {
    var q := NormalizePointer(r.key);
    AddAliasKeeps(m, q);
    k :| k <= |AddAlias(m, q)| && AddAlias(m, q)[q] == AliasName(k);
  }

  lemma AliasedSight(f: TEvent, ev: TEvent, m: map<string, string>, k: nat)
    requires Keyed(ev) && IsPointerString(KeyPointer(ev)) && OwnKey(ev) != ""
    requires KeyPointer(ev) in m && m[KeyPointer(ev)] == f.key == AliasName(k) && f.name == ev.name
    requires f.ptr == if NormalizePointer(ev.ptr) == "" then KeyPointer(ev) else NormalizePointer(ev.ptr)
    ensures SeenWell(SightOf(f), ev, m)
  {
    AliasIsNoPointer(k);
    TargetIsPointer(ev);
  }

  /** An event whose key stands for a pointer. */
  lemma AliasedEvent(ev: TEvent, names: map<string, string>, m: map<string, string>)
    requires AliasesOk(m) && Keyed(ev) && IsPointerString(KeyPointer(ev))
    ensures var (e, m') := Normalize(ev, names, m);
            AliasesOk(m') && Extends(m, m') && SeenWell(SightOf(e), ev, m')
  {
    var r := Resolve(ev, names);
    ResolvedKey(ev, names);
    NoPointerInNothing();
    var k := AliasKeyIs(r, m);
    var first := AliasKey(r, m);
    AliasStaysKey(first.0, first.1, k);
    var second := AliasPointer(first.0, first.1);
    AliasedSight(Identify(second.0), ev, second.1, k);
  }

  lemma ResolvedKey(ev: TEvent, names: map<string, string>)
    requires Keyed(ev)
    ensures var r := Resolve(ev, names);
            && r.key == OwnKey(ev) && r.ptr == NormalizePointer(ev.ptr) && r.name == ev.name
            && (NormalizePointer(ev.ptr) == "" ==> r.channel == ev.channel)
  {
  }

  lemma NoPointerInNothing()
    ensures !IsPointerString(NormalizePointer(""))
  {
  }

  /** An event without any pointer in its key. */
  lemma TextEvent(ev: TEvent, names: map<string, string>, m: map<string, string>)
    requires AliasesOk(m) && Keyed(ev) && !IsPointerString(KeyPointer(ev))
    ensures var (e, m') := Normalize(ev, names, m);
            m' == m && SeenWell(SightOf(e), ev, m')
  {
    var r := Resolve(ev, names);
    assert r.key == OwnKey(ev) && r.ptr == NormalizePointer(ev.ptr);
    TargetIsPointer(ev);
    if IsPointerString(OwnKey(ev)) { PointerOfPointer(OwnKey(ev)); }
    assert AliasKey(r, m) == (r, m) && AliasPointer(r, m) == (r, m);
    TextSight(r, ev);
  }

  lemma TextSight(r: TEvent, ev: TEvent)
    requires Keyed(ev) && !IsPointerString(KeyPointer(ev)) && !IsPointerString(OwnKey(ev))
    requires r.key == OwnKey(ev) && r.ptr == NormalizePointer(ev.ptr) && r.name == ev.name
    requires NormalizePointer(ev.ptr) == "" ==> r.channel == ev.channel
    ensures var s := SightOf(Identify(r));
            && s.ptr == Target(ev) && (s.id != "" <==> Named(ev)) && s.needed == (EventKind(ev.name) != NoDirection)
            && (s.ptr != "" ==> s.id == NormalizeChannelKey(OwnKey(ev)))
  {
    if OwnKey(ev) != "" {
      KeyedSight(r, OwnKey(ev), if NormalizeChannelKey(ev.key) == "" then ev.channel else ev.key);
    } else if IsChannelEvent(ev.name) && ev.channel == "" {
      UnknownSight(r);
    } else {
      NamelessSight(r);
    }
  }

  lemma KeyedSight(r: TEvent, key: string, x: string)
    requires r.key == key == NormalizeChannelKey(x) && key != "" && !IsPointerString(key)
    ensures Identify(r) == r && SightOf(r).ptr == NormalizePointer(r.ptr) && SightOf(r).id == NormalizeChannelKey(key) != ""
  {
    KeyTwicePointer(x);
    KeyStaysNamed(x);
  }

  lemma UnknownSight(r: TEvent)
    requires r.key == "" && r.ptr == "" && r.channel == "" && IsChannelEvent(r.name)
    ensures Identify(r).name == r.name && SightOf(Identify(r)).ptr == "" && SightOf(Identify(r)).id != ""
  {
    UnknownIsKey(r.g, r.seqNo);
  }

  lemma NamelessSight(r: TEvent)
    requires r.key == "" && r.ptr == "" && NormalizeChannelKey(r.channel) == "" && (r.channel == "" ==> !IsChannelEvent(r.name))
    ensures Identify(r) == r && SightOf(r).ptr == "" && SightOf(r).id == ""
  {
  }

  lemma EventSeenWell(ev: TEvent, names: map<string, string>, m: map<string, string>)
    requires AliasesOk(m) && Keyed(ev)
    ensures var (e, m') := Normalize(ev, names, m);
            AliasesOk(m') && Extends(m, m') && SeenWell(SightOf(e), ev, m')
  {
    if IsPointerString(KeyPointer(ev)) { AliasedEvent(ev, names, m); } else { TextEvent(ev, names, m); }
  }

  // ----- whole timelines -----

  lemma WellStays(s: Sight, ev: TEvent, m: map<string, string>, m': map<string, string>)
    requires SeenWell(s, ev, m) && Extends(m, m') && AliasesOk(m')
    ensures SeenWell(s, ev, m')
  {
  }

  ghost predicate AllSeenWell(s: seq<Sight>, events: seq<TEvent>, m: map<string, string>) {
    |s| == |events| && forall i :: 0 <= i < |events| ==> SeenWell(s[i], events[i], m)
  }

  lemma OneMoreSeen(s: seq<Sight>, events: seq<TEvent>, m: map<string, string>, x: Sight, ev: TEvent, m': map<string, string>)
    requires AllSeenWell(s, events, m) && SeenWell(x, ev, m') && Extends(m, m') && AliasesOk(m')
    ensures AllSeenWell(s + [x], events + [ev], m')
  {
    forall i | 0 <= i < |events| ensures SeenWell(s[i], events[i], m') {
      WellStays(s[i], events[i], m, m');
    }
  }

  lemma StepSeenWell(done: seq<TEvent>, events: seq<TEvent>, m: map<string, string>, names: map<string, string>, ev: TEvent)
    requires AliasesOk(m) && AllSeenWell(Sights(done), events, m) && Keyed(ev)
    ensures var next := Normalize(ev, names, m);
            AliasesOk(next.1) && AllSeenWell(Sights(done + [next.0]), events + [ev], next.1)
  {
    EventSeenWell(ev, names, m);
    var next := Normalize(ev, names, m);
    OneMoreSeen(Sights(done), events, m, SightOf(next.0), ev, next.1);
    assert Sights(done + [next.0]) == Sights(done) + [SightOf(next.0)];
  }

  lemma NormalizeLast(events: seq<TEvent>, names: map<string, string>)
    requires events != []
    ensures var before := NormalizeAll(events[..|events| - 1], names);
            var next := Normalize(events[|events| - 1], names, before.1);
            NormalizeAll(events, names) == (before.0 + [next.0], next.1)
  {
  }

  ghost predicate TimelineWell(events: seq<TEvent>, names: map<string, string>) {
    var all := NormalizeAll(events, names);
    AliasesOk(all.1) && AllSeenWell(Sights(all.0), events, all.1)
  }

  lemma OneMoreEvent(events: seq<TEvent>, names: map<string, string>)
    requires events != [] && Keyed(events[|events| - 1]) && TimelineWell(events[..|events| - 1], names)
    ensures TimelineWell(events, names)
  {
    var init, ev := events[..|events| - 1], events[|events| - 1];
    NormalizeLast(events, names);
    var before := NormalizeAll(init, names);
    StepSeenWell(before.0, init, before.1, names, ev);
    assert init + [ev] == events;
  }

  lemma {:induction false} TimelineSeenWell(events: seq<TEvent>, names: map<string, string>)
    requires forall i :: 0 <= i < |events| ==> Keyed(events[i])
    ensures TimelineWell(events, names)
  {
    if events != [] {
      TimelineSeenWell(events[..|events| - 1], names);
      OneMoreEvent(events, names);
    } else {
      assert NormalizeAll(events, names) == ([], map[]);
    }
  }

  /** Seen pointers that are equal have equal identities exactly if the events do not clash. */
  lemma IdentitiesCompare(s: Sight, t: Sight, a: TEvent, b: TEvent, m: map<string, string>)
    requires AliasesOk(m) && SeenWell(s, a, m) && SeenWell(t, b, m) && Keyed(a) && Keyed(b)
    ensures s.ptr == t.ptr != "" ==> (s.id == t.id <==> IdentOf(a) == IdentOf(b))
    ensures StartsHex(s.ptr) && StartsHex(t.ptr) ==> (s.id == t.id <==> KeyPointer(a) == KeyPointer(b))
  {
    TargetIsPointer(a);
    TargetIsPointer(b);
  }

  lemma OneIdentityExactly(s: seq<Sight>, events: seq<TEvent>, m: map<string, string>)
    requires AliasesOk(m) && AllSeenWell(s, events, m) && forall k :: 0 <= k < |events| ==> Keyed(events[k])
    ensures OneIdentity(s) <==> !Clash(events)
  {
    forall i, j | 0 <= i < |events| && 0 <= j < |events|
      ensures s[i].ptr == Target(events[i]) && s[j].ptr == Target(events[j])
      ensures s[i].ptr == s[j].ptr != "" ==> (s[i].id == s[j].id <==> IdentOf(events[i]) == IdentOf(events[j]))
    {
      IdentitiesCompare(s[i], s[j], events[i], events[j], m);
    }
    if i, j :| 0 <= i < |events| && 0 <= j < |events| && Target(events[i]) == Target(events[j]) != ""
               && IdentOf(events[i]) != IdentOf(events[j]) {
      assert s[i].ptr == s[j].ptr != "" && s[i].id != s[j].id;
    }
  }

  lemma FineExactly(s: seq<Sight>, events: seq<TEvent>, m: map<string, string>)
    requires AllSeenWell(s, events, m) && forall k :: 0 <= k < |events| ==> Keyed(events[k])
    ensures (forall i :: 0 <= i < |s| ==> Fine(s[i])) <==>
            forall i :: 0 <= i < |events| && EventKind(events[i].name) != NoDirection ==> Named(events[i])
  {
    forall i | 0 <= i < |events|
      ensures Fine(s[i]) <==> (EventKind(events[i].name) != NoDirection ==> Named(events[i]))
    {
      assert SeenWell(s[i], events[i], m);
    }
  }

  // ----- main results -----

  /**
   Every pointer of a timeline whose keys equal the pointers is seen with an
   identity; two pointers have the same one exactly if their keys stand for the
   same pointer.
   */
  lemma PointersKeepTheirIdentity(events: seq<TEvent>, i: nat, j: nat)
    requires i < |events| && j < |events| && forall k :: 0 <= k < |events| ==> Keyed(events[k])
    ensures var out := Sights(Normalized(events));
            |out| == |events| &&
            var s, t := out[i], out[j];
            && s.ptr == Target(events[i]) && (s.ptr != "" ==> s.id != "")
            && (s.ptr == t.ptr != "" ==> (s.id == t.id <==> IdentOf(events[i]) == IdentOf(events[j])))
            && (StartsHex(s.ptr) && StartsHex(t.ptr) ==> (s.id == t.id <==> KeyPointer(events[i]) == KeyPointer(events[j])))
  {
    var all := NormalizeAll(events, NameByPtr(events));
    TimelineSeenWell(events, NameByPtr(events));
    assert SeenWell(Sights(all.0)[i], events[i], all.1) && SeenWell(Sights(all.0)[j], events[j], all.1);
    IdentitiesCompare(Sights(all.0)[i], Sights(all.0)[j], events[i], events[j], all.1);
  }

  /** A pointer gets two identities exactly if two events show it under keys that stand for different things. */
  lemma PointersSplitExactly(events: seq<TEvent>)
    requires forall k :: 0 <= k < |events| ==> Keyed(events[k])
    ensures OneIdentity(Sights(Normalized(events))) <==> !Clash(events)
  {
    var all := NormalizeAll(events, NameByPtr(events));
    TimelineSeenWell(events, NameByPtr(events));
    OneIdentityExactly(Sights(all.0), events, all.1);
  }

  /**
   The validator reports nothing about a normalized timeline exactly if no
   pointer is shown under two keys and every send or receive is named.
   */
  lemma ValidatorIsSilentExactly(events: seq<TEvent>)
    requires forall k :: 0 <= k < |events| ==> Keyed(events[k])
    ensures Consistent(Sights(Normalized(events))) <==>
            && !Clash(events)
            && forall i :: 0 <= i < |events| && EventKind(events[i].name) != NoDirection ==> Named(events[i])
  {
    var all := NormalizeAll(events, NameByPtr(events));
    TimelineSeenWell(events, NameByPtr(events));
    OneIdentityExactly(Sights(all.0), events, all.1);
    FineExactly(Sights(all.0), events, all.1);
  }

  /** Pointers and keys as the tracer prints them: no prefix to take off twice, no goroutine suffix. */
  predicate Printed(ev: TEvent) {
    && (ev.ptr != "" ==> ev.key == ev.ptr && NormalizePointer(ev.ptr) == ev.ptr == NormalizeChannelKey(ev.ptr))
    && NormalizePointer(KeyPointer(ev)) == KeyPointer(ev)
  }

  /** What a printed pointer is seen as, and by which identity. */
  lemma PrintedTarget(ev: TEvent)
    requires Printed(ev)
    ensures Keyed(ev) && NormalizePointer(KeyPointer(ev)) == KeyPointer(ev)
    ensures Target(ev) != "" ==>
              && Target(ev) == KeyPointer(ev)
              && (IdentOf(ev) == if StartsHex(Target(ev)) then ByAlias(Target(ev)) else ByText(Target(ev)))
  {
  }

  lemma PrintedPointersDoNotClash(events: seq<TEvent>)
    requires forall k :: 0 <= k < |events| ==> Printed(events[k])
    ensures !Clash(events) && forall k :: 0 <= k < |events| ==> Keyed(events[k])
  {
    forall k | 0 <= k < |events|
      ensures Keyed(events[k])
      ensures Target(events[k]) != "" ==>
                IdentOf(events[k]) ==
                if StartsHex(Target(events[k])) then ByAlias(Target(events[k])) else ByText(Target(events[k]))
    {
      PrintedTarget(events[k]);
    }
  }

  /** Such timelines are consistent: equal pointers have equal identities, distinct pointers distinct ones. */
  lemma PrintedPointersNeverSplit(events: seq<TEvent>, i: nat, j: nat)
    requires i < |events| && j < |events| && forall k :: 0 <= k < |events| ==> Printed(events[k])
    ensures !Clash(events) && |Sights(Normalized(events))| == |events|
    ensures var s, t := Sights(Normalized(events))[i], Sights(Normalized(events))[j];
            StartsHex(s.ptr) && StartsHex(t.ptr) ==> (s.ptr == t.ptr <==> s.id == t.id)
  {
    PrintedPointersDoNotClash(events);
    PointersKeepTheirIdentity(events, i, j);
    PointersKeepTheirIdentity(events, j, i);
    PrintedTarget(events[i]);
    PrintedTarget(events[j]);
  }

  /**
   Sorting, filtering and renaming events cannot make a pointer be reported:
   kept is any selection of the normalized events, in any order.
   */
  lemma SelectionsKeepPointers(events: seq<TEvent>, kept: seq<TEvent>, from: seq<nat>)
    requires (forall k :: 0 <= k < |events| ==> Keyed(events[k])) && !Clash(events)
    requires |from| == |kept| && |Normalized(events)| == |events|
    requires forall i :: 0 <= i < |kept| ==>
               from[i] < |events| && kept[i] == Normalized(events)[from[i]].(name := kept[i].name)
    ensures forall i :: 0 <= i < |kept| && SightOf(kept[i]).ptr != "" ==> SightOf(kept[i]).id != ""
    ensures OneIdentity(Sights(kept))
  {
    var out := Sights(Normalized(events));
    PointersSplitExactly(events);
    forall i | 0 <= i < |kept|
      ensures SightOf(kept[i]).ptr == out[from[i]].ptr && SightOf(kept[i]).id == out[from[i]].id
      ensures SightOf(kept[i]).ptr != "" ==> SightOf(kept[i]).id != ""
    {
      PointersKeepTheirIdentity(events, from[i], from[i]);
      NameDoesNotMatter(Normalized(events)[from[i]], kept[i]);
    }
    SelectedIdentities(out, Sights(kept), from);
  }

  lemma NameDoesNotMatter(e: TEvent, f: TEvent)
    requires f == e.(name := f.name)
    ensures SightOf(f).ptr == SightOf(e).ptr && SightOf(f).id == SightOf(e).id
  {
  }

  lemma SelectedIdentities(all: seq<Sight>, kept: seq<Sight>, from: seq<nat>)
    requires OneIdentity(all) && |from| == |kept|
    requires forall i :: 0 <= i < |kept| ==>
               from[i] < |all| && kept[i].ptr == all[from[i]].ptr && kept[i].id == all[from[i]].id
    ensures OneIdentity(kept)
  {
  }

  // ----- a pointer that does split -----

  lemma PlainPointer(p: string)
    requires NoSpace(p) && HasPrefix(p, "0x") && FirstMark(p) < 0
    ensures NormalizePointer(p) == p && NormalizeChannelKey(p) == p && IsPointerString(p)
  {
    FieldsOfNoSpace(p);
  }

  /** A prefix is taken off once, and is no part of a goroutine suffix. */
  lemma PrefixedPointer(p: string)
    requires NoSpace(p) && p != "" && p[0] != 'g' && FirstMark(p) < 0
    ensures NormalizePointer("ptr=" + p) == p && NormalizeChannelKey("ptr=" + p) == "ptr=" + p
    ensures NoSpace("ptr=" + p) && FirstMark("ptr=" + p) < 0
  {
    var s := "ptr=" + p;
    forall i | 0 <= i < |s| ensures !IsSpace(s[i]) && (i >= 4 ==> s[i] == p[i - 4]) {
    }
    FieldsOfNoSpace(s);
    FieldsOfNoSpace(p);
    assert s[4..] == p;
    assert FirstMark(s) < 0;
  }

  lemma DoublePrefixTargets(p: string, a: TEvent, b: TEvent)
    requires NoSpace(p) && HasPrefix(p, "0x") && FirstMark(p) < 0
    requires a.ptr == b.ptr == "" && a.key == "ptr=" + ("ptr=" + p) && b.key == p
    ensures Target(a) == Target(b) == p && KeyPointer(a) == "ptr=" + p && KeyPointer(b) == p
    ensures IdentOf(a) == ByAlias("ptr=" + p) && IdentOf(b) == ByAlias(p)
  {
    var q := "ptr=" + p;
    PlainPointer(p);
    assert p[0] == '0';
    PrefixedPointer(p);
    assert q[0] == 'p';
    PrefixedPointer(q);
  }

  /** Two events without a pointer field, one with the prefix twice: the pointer gets two identities. */
  lemma DoublePrefixSplitsPointer(p: string, a: TEvent, b: TEvent)
    requires NoSpace(p) && HasPrefix(p, "0x") && FirstMark(p) < 0
    requires a.ptr == b.ptr == "" && a.key == "ptr=" + ("ptr=" + p) && b.key == p
    ensures Clash([a, b]) && !Consistent(Sights(Normalized([a, b])))
  {
    DoublePrefixTargets(p, a, b);
    var events := [a, b];
    assert |"ptr=" + p| != |p|;
    assert Target(events[0]) == Target(events[1]) != "" && IdentOf(events[0]) != IdentOf(events[1]);
    PointersSplitExactly(events);
  }
}
