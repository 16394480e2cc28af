/** Channel identities of a timeline: pointers get aliases when it is normalized, and are checked when it is validated. */
module Topology {
  import opened Text
  import opened Shared
  import opened ChannelKeys
  import opened ChannelNames

  datatype Direction = NoDirection | SendSide | RecvSide

  /** The event names that matter for channels; other names are told apart by their direction and the teaching filter. */
  datatype EventName =
    | ChanMake | ChanClose | ChanSend | ChanRecv | ChanDepth
    | SendComplete | RecvAttempt | RecvComplete
    | ChanSendAttempt | ChanRecvAttempt | ChanSendCommit | ChanRecvCommit
    | BlockedSend | BlockedReceive | BlockSend | BlockRecv | Block | Unblock | SelectCase
      // an allowed name of the teaching filter that is not about a channel
    | Lesson
    | Other(direction: Direction)

  predicate IsChannelEvent(name: EventName) {
    !name.Lesson? && !name.Other?
  }

  function EventKind(name: EventName): Direction {
    match name
    case ChanSend | SendComplete | ChanSendAttempt | ChanSendCommit | BlockSend => SendSide
    case ChanRecv | RecvAttempt | RecvComplete | ChanRecvAttempt | ChanRecvCommit | BlockRecv => RecvSide
    case Other(direction) => direction
    case _ => NoDirection
  }

  datatype TEvent = TEvent(name: EventName, key: string, channel: string, ptr: string, g: nat, seqNo: nat)

  // ----- normalization -----

  function AddName(names: map<string, string>, ev: TEvent): map<string, string> {
    var ptr := NormalizePointer(ev.ptr);
    if ev.ptr != "" && ev.channel != "" && ptr != "" && !IsPointerString(ev.channel) && !IsAliasName(ev.channel) && ptr !in names
    then names[ptr := ev.channel]
    else names
  }

  /** The first proper name seen with each pointer. */
  function NameByPtr(events: seq<TEvent>): map<string, string> {
    if events == [] then map[] else AddName(NameByPtr(events[..|events| - 1]), events[|events| - 1])
  }

  /** Normal forms, and the name of the pointer where the channel has no proper one. */
  function Resolve(ev: TEvent, names: map<string, string>): TEvent {
    var ptr := NormalizePointer(ev.ptr);
    var channel :=
      if (ev.channel == "" || IsPointerString(ev.channel) || IsAliasName(ev.channel)) && ptr != "" && ptr in names
      then names[ptr] else ev.channel;
    var key := NormalizeChannelKey(ev.key);
    ev.(ptr := ptr, channel := channel, key := if key == "" then NormalizeChannelKey(channel) else key)
  }

  function AddAlias(m: map<string, string>, ptr: string): map<string, string> {
    if ptr in m then m else m[ptr := AliasName(|m| + 1)]
  }

  function AliasOf(m: map<string, string>, ptr: string): string {
    if ptr in m then m[ptr] else AliasName(|m| + 1)
  }

  /** A key that is a pointer is replaced by the pointer's alias. */
  function AliasKey(ev: TEvent, m: map<string, string>): (TEvent, map<string, string>) {
    var q := NormalizePointer(ev.key);
    if ev.key == "" || q == "" || !IsPointerString(q) then (ev, m)
    else
      var alias := AliasOf(m, q);
      (ev.(ptr := if ev.ptr == "" then q else ev.ptr, key := alias,
           channel := if ev.channel == "" || IsPointerString(ev.channel) then alias else ev.channel),
       AddAlias(m, q))
  }

  /** An event with a pointer takes the pointer's alias where it has no key or channel of its own. */
  function AliasPointer(ev: TEvent, m: map<string, string>): (TEvent, map<string, string>) {
    if ev.ptr == "" || !IsPointerString(ev.ptr) then (ev, m)
    else
      var alias := AliasOf(m, ev.ptr);
      (ev.(key := if ev.key == "" || IsPointerString(ev.key) then alias else ev.key,
           channel := if ev.channel == "" || IsPointerString(ev.channel) then alias else ev.channel),
       AddAlias(m, ev.ptr))
  }

  /** A channel event without any identity is given one of its own. */
  function Identify(ev: TEvent): TEvent {
    if !IsChannelEvent(ev.name) then ev
    else
      var e := if ev.key == "" then ev.(key := NormalizeChannelKey(ev.channel)) else ev;
      if e.key == "" && e.channel == "" then e.(key := UnknownName(e.g, e.seqNo), channel := UnknownName(e.g, e.seqNo)) else e
  }

  function Normalize(ev: TEvent, names: map<string, string>, m: map<string, string>): (TEvent, map<string, string>) {
    var (e1, m1) := AliasKey(Resolve(ev, names), m);
    var (e2, m2) := AliasPointer(e1, m1);
    (Identify(e2), m2)
  }

  function NormalizeAll(events: seq<TEvent>, names: map<string, string>): (seq<TEvent>, map<string, string>) {
    if events == [] then ([], map[])
    else
      var (done, m) := NormalizeAll(events[..|events| - 1], names);
      var (e, m') := Normalize(events[|events| - 1], names, m);
      (done + [e], m')
  }

  function Normalized(events: seq<TEvent>): seq<TEvent> {
    NormalizeAll(events, NameByPtr(events)).0
  }

  method CollectNames(events: seq<TEvent>) returns (names: map<string, string>)
    ensures names == NameByPtr(events)
  {
    names := map[];
    for i := 0 to |events|
      invariant names == NameByPtr(events[..i])
    {
      assert events[..i + 1][..i] == events[..i];
      names := AddName(names, events[i]);
    }
    assert events[..|events|] == events;
  }

  method NormalizeTimeline(events: seq<TEvent>) returns (out: seq<TEvent>)
    ensures out == Normalized(events)
  {
    var names := CollectNames(events);
    out := [];
    var aliases: map<string, string> := map[];
    for i := 0 to |events|
      invariant (out, aliases) == NormalizeAll(events[..i], names)
    {
      assert events[..i + 1][..i] == events[..i];
      var (aliased, withKey) := AliasKey(Resolve(events[i], names), aliases);
      var (e, withPtr) := AliasPointer(aliased, withKey);
      out, aliases := out + [Identify(e)], withPtr;
    }
    assert events[..|events|] == events;
  }

  // ----- validation -----

  function PointerFromEvent(ev: TEvent): string {
    if NormalizePointer(ev.ptr) != "" then NormalizePointer(ev.ptr)
    else
      var key := NormalizeChannelKey(ev.key);
      if key != "" && IsPointerString(key) then key else ""
  }

  function ChannelIdentity(ev: TEvent): string {
    if NormalizeChannelKey(ev.key) != "" then NormalizeChannelKey(ev.key)
    else if NormalizeChannelKey(ev.channel) != "" then NormalizeChannelKey(ev.channel)
    else NormalizePointer(ev.ptr)
  }

  /** What the validator looks at: the pointer, the identity, and whether one is needed in any case. */
  datatype Sight = Sight(ptr: string, id: string, needed: bool)

  function SightOf(ev: TEvent): Sight {
    Sight(PointerFromEvent(ev), ChannelIdentity(ev), EventKind(ev.name) != NoDirection)
  }

  function Sights(events: seq<TEvent>): (s: seq<Sight>)
    ensures |s| == |events|
  {
    seq(|events|, i requires 0 <= i < |events| => SightOf(events[i]))
  }

  datatype Fault = NoIdentity(index: nat) | TwoIdentities(index: nat, ptr: string) | MissingIdentity(index: nat)

  /** A pointer or a send or receive has an identity. */
  predicate Fine(s: Sight) {
    (s.ptr != "" || s.needed) ==> s.id != ""
  }

  /** Every pointer has one identity. */
  ghost predicate OneIdentity(s: seq<Sight>) {
    forall i, j :: 0 <= i < |s| && 0 <= j < |s| && s[i].ptr != "" && s[i].ptr == s[j].ptr ==> s[i].id == s[j].id
  }

  ghost predicate Consistent(s: seq<Sight>) {
    (forall i :: 0 <= i < |s| ==> Fine(s[i])) && OneIdentity(s)
  }

  /** What the validator knows: the identity seen with each pointer. */
  ghost predicate Known(known: map<string, string>, s: seq<Sight>) {
    && (forall i :: 0 <= i < |s| && s[i].ptr != "" ==> s[i].ptr in known && known[s[i].ptr] == s[i].id)
    && (forall p :: p in known ==> p != "" && exists i :: 0 <= i < |s| && s[i].ptr == p)
  }

  /** One event against what is known; a pointer's identity is remembered unless it is a fault. */
  method Observe(s: Sight, index: nat, before: map<string, string>) returns (fault: Option<Fault>, known: map<string, string>)
    ensures fault.None? <==> Fine(s) && (s.ptr in before ==> s.ptr == "" || before[s.ptr] == s.id)
    ensures fault.None? ==> known == if s.ptr != "" then before[s.ptr := s.id] else before
    ensures fault.Some? ==> fault.value.index == index
    ensures fault == Some(NoIdentity(index)) <==> s.ptr != "" && s.id == ""
    ensures fault == Some(MissingIdentity(index)) <==> s.ptr == "" && s.id == "" && s.needed
  {
    known := before;
    if s.ptr != "" {
      if s.id == "" { return Some(NoIdentity(index)), known; }
      if s.ptr in known && known[s.ptr] != s.id { return Some(TwoIdentities(index, s.ptr)), known; }
      known := known[s.ptr := s.id];
    } else if s.needed && s.id == "" {
      return Some(MissingIdentity(index)), known;
    }
    return None, known;
  }

  /** What is known after these, or nothing after a fault. */
  function Judge(s: seq<Sight>): Option<map<string, string>> {
    if s == [] then Some(map[])
    else
      var before, last := Judge(s[..|s| - 1]), s[|s| - 1];
      if before.None? || !Fine(last) || (last.ptr != "" && last.ptr in before.value && before.value[last.ptr] != last.id) then None
      else if last.ptr != "" then Some(before.value[last.ptr := last.id])
      else before
  }

  /** The faults of what is seen, one after the other. */
  method ValidateSights(s: seq<Sight>) returns (faults: seq<Fault>)
    ensures faults == [] <==> Consistent(s)
    ensures forall f :: f in faults && f.NoIdentity? ==> f.index < |s| && s[f.index].ptr != "" && s[f.index].id == ""
  {
    faults := [];
    var known: map<string, string> := map[];
    for i := 0 to |s|
      invariant faults == [] <==> Judge(s[..i]).Some?
      invariant faults == [] ==> Judge(s[..i]) == Some(known)
      invariant forall f :: f in faults && f.NoIdentity? ==> f.index < i && s[f.index].ptr != "" && s[f.index].id == ""
    {
      assert s[..i + 1][..i] == s[..i];
      var fault;
      fault, known := Observe(s[i], i, known);
      if fault.Some? { faults := faults + [fault.value]; }
    }
    assert s[..|s|] == s;
    JudgeDecides(s);
  }

  /** A pointer is an identity itself where there is nothing else. */
  lemma PointersAreNeverNameless(ev: TEvent)
    ensures SightOf(ev).ptr != "" ==> SightOf(ev).id != ""
    ensures NormalizePointer(ev.ptr) != "" && NormalizeChannelKey(ev.key) == "" && NormalizeChannelKey(ev.channel) == "" ==>
              SightOf(ev).id == NormalizePointer(ev.ptr)
  {
  }

  /**
   The faults of a timeline: none exactly if every pointer has one identity and
   nothing lacks one. A pointer without any identity is never among them.
   */
  method ValidateTopology(events: seq<TEvent>) returns (faults: seq<Fault>)
    ensures faults == [] <==> Consistent(Sights(events))
    ensures forall f :: f in faults ==> !f.NoIdentity?
  {
    faults := ValidateSights(Sights(events));
    forall ev | ev in events ensures SightOf(ev).ptr != "" ==> SightOf(ev).id != "" {
      PointersAreNeverNameless(ev);
    }
  }

  /** A timeline passes exactly if it is consistent. */
  lemma {:induction false} JudgeDecides(s: seq<Sight>)
    ensures Judge(s).Some? <==> Consistent(s)
    ensures Judge(s).Some? ==> Known(Judge(s).value, s)
  {
    if s != [] {
      var init, last := s[..|s| - 1], s[|s| - 1];
      JudgeDecides(init);
      assert s == init + [last];
      ShorterIsConsistent(init, last);
      if Judge(init).Some? { LastDecides(init, last, Judge(init).value); }
    }
  }

  /** One more event is a fault exactly if it breaks the consistency of what was seen. */
  lemma LastDecides(a: seq<Sight>, s: Sight, known: map<string, string>)
    requires Known(known, a) && Consistent(a)
    ensures var clean := Fine(s) && (s.ptr in known ==> s.ptr == "" || known[s.ptr] == s.id);
            && (clean <==> Consistent(a + [s]))
            && (clean ==> Known(if s.ptr != "" then known[s.ptr := s.id] else known, a + [s]))
  {
    if s.ptr in known && known[s.ptr] != s.id {
      SeenOtherwise(a, s, known);
    } else if Fine(s) {
      SeenAlike(a, s, known);
    } else {
      ShorterIsConsistent(a, s);
    }
  }

  lemma ShorterIsConsistent(a: seq<Sight>, s: Sight)
    ensures Consistent(a + [s]) ==> Consistent(a) && Fine(s)
  {
    var b := a + [s];
    assert b[|a|] == s && forall j :: 0 <= j < |a| ==> b[j] == a[j];
  }

  lemma SeenOtherwise(a: seq<Sight>, s: Sight, known: map<string, string>)
    requires Known(known, a) && s.ptr in known && known[s.ptr] != s.id
    ensures !Consistent(a + [s])
  {
    var j :| 0 <= j < |a| && a[j].ptr == s.ptr;
    var b := a + [s];
    assert b[j] == a[j] && b[|a|] == s;
  }

  lemma SeenAlike(a: seq<Sight>, s: Sight, known: map<string, string>)
    requires Known(known, a) && Consistent(a) && Fine(s) && (s.ptr in known ==> known[s.ptr] == s.id)
    ensures Consistent(a + [s])
    ensures Known(if s.ptr != "" then known[s.ptr := s.id] else known, a + [s])
  {
    OneMoreSight(a, s);
    KnownStays(a, s, known);
    assert (a + [s])[|a|] == s && forall j :: 0 <= j < |a| ==> (a + [s])[j] == a[j];
  }

  lemma OneMoreSight(a: seq<Sight>, s: Sight)
    requires Consistent(a) && Fine(s) && forall j :: 0 <= j < |a| && s.ptr != "" && a[j].ptr == s.ptr ==> a[j].id == s.id
    ensures Consistent(a + [s])
  {
    var b := a + [s];
    assert b[|a|] == s && forall j :: 0 <= j < |a| ==> b[j] == a[j];
  }

  lemma KnownStays(a: seq<Sight>, s: Sight, known: map<string, string>)
    requires Known(known, a)
    ensures forall q :: q in known ==> q != "" && exists j :: 0 <= j < |a + [s]| && (a + [s])[j].ptr == q
  {
    forall q | q in known ensures q != "" && exists j :: 0 <= j < |a + [s]| && (a + [s])[j].ptr == q {
      var j :| 0 <= j < |a| && a[j].ptr == q;
      assert (a + [s])[j].ptr == q;
    }
  }
}
