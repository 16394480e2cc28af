/**
 Region labels: what the instrumenter writes in front of channel and sync
 operations, and what the trace parser reads back.
 */
module RegionLabels {
  import opened Shared
  import opened Text

  /** A recognised operation and the channel or object it names. */
  datatype RegionOp = RegionOp(kind: string, ch: string)

  // ----- the parser -----

  predicate SyncAction(family: string, action: string) {
    match family
    case "mutex" => action in {"lock", "unlock"}
    case "rwmutex" => action in {"lock", "unlock", "rlock", "runlock"}
    case "wg" => action in {"add", "done", "wait"}
    case "cond" => action in {"wait", "signal", "broadcast"}
    case _ => false
  }

  /** "<family>.<action> <label>" for one family of sync objects. */
  function ParseSync(lt: string, family: string): Option<RegionOp> {
    var prefix := family + ".";
    if !HasPrefix(lt, prefix) then None
    else
      var parts := Fields(lt);
      if |parts| == 0 then None
      else
        var action := if HasPrefix(parts[0], prefix) then parts[0][|prefix|..] else parts[0];
        if !SyncAction(family, action) then None
        else
          var ch := if |parts| > 1 then family + ":" + parts[1] else family;
          Some(RegionOp(family + "_" + action, ch))
  }

  const FAMILIES: seq<string> := ["mutex", "rwmutex", "wg", "cond"]

  function ParseAnySync(lt: string, families: seq<string>): Option<RegionOp> {
    if families == [] then None
    else
      var op := ParseSync(lt, families[0]);
      if op.Some? then op else ParseAnySync(lt, families[1..])
  }

  /** The first word after the last occurrence of mark. */
  function WordAfter(lt: string, mark: string): Option<string> {
    var i := LastIndex(lt, mark);
    if i < 0 then None
    else
      var rest := TrimSpace(lt[i + |mark|..]);
      if rest == "" then None
      else
        TrimHasWord(lt[i + |mark|..]);
        Some(Fields(rest)[0])
  }

  function FirstWord(lt: string, marks: seq<string>): Option<string> {
    if marks == [] then None
    else
      var w := WordAfter(lt, marks[0]);
      if w.Some? then w else FirstWord(lt, marks[1..])
  }

  /** One phrasing of a channel operation: a keyword and the marks before the channel. */
  function ParsePhrase(lt: string, keyword: string, kind: string, marks: seq<string>): Option<RegionOp> {
    if !Contains(lt, keyword) then None
    else
      match FirstWord(lt, marks)
      case None => None
      case Some(ch) => Some(RegionOp(kind, ch))
  }

  function OrElse<T>(a: Option<T>, b: Option<T>): Option<T> {
    if a.Some? then a else b
  }

  function ParseChannelOp(lt: string): Option<RegionOp> {
    OrElse(ParsePhrase(lt, "receive", "recv", [" from ", "receive "]),
    OrElse(ParsePhrase(lt, "recv", "recv", [" from ", "recv "]),
           ParsePhrase(lt, "send", "send", [" to ", " on ", "send "])))
  }

  function ParseRegionOp(typ: string): Option<RegionOp> {
    var lt := ToLower(typ);
    if lt == "chan.close" || lt == "chan_close" || HasPrefix(lt, "chan.close ") then
      Some(RegionOp("chan_close", ""))
    else
      OrElse(ParseAnySync(lt, FAMILIES), ParseChannelOp(lt))
  }

  // ----- the builders -----

  /** A channel expression; an index is known by the text it prints as. */
  datatype ChanExpr =
    | Named(name: string)
    | Anonymous
    | Indexed(base: string, index: string)
    | ComputedIndex(base: string)

  function LabelFromChan(e: ChanExpr): string {
    match e
    case Named(name) => ToLower(name)
    case Anonymous => "chan"
    case Indexed(base, index) => ToLower(base) + "[" + index + "]"
    case ComputedIndex(base) => ToLower(base)
  }

  /** The label of an operation: a role, a verb that ends in a space, a channel. */
  function Phrase(r: string, verb: string, c: string): string {
    r + verb + c
  }

  const SEND_VERB := ": send to "
  const RECV_VERB := ": receive from "

  function RoleText(role: string): string {
    if role == "" then "worker" else role
  }

  function SendLabel(role: string, ch: string): string {
    Phrase(RoleText(role), SEND_VERB, ch)
  }

  function RecvLabel(role: string, ch: string): string {
    Phrase(RoleText(role), RECV_VERB, ch)
  }

  /** method is the Go method name, e.g. RLock. */
  function SyncLabel(family: string, method_: string, name: string): string {
    family + "." + ToLower(method_) + " " + name
  }

  // ----- reading a phrase -----

  /** Every word found is non-empty and space-free. */
  lemma {:induction false} FirstWordIsWord(lt: string, marks: seq<string>)
    ensures var w := FirstWord(lt, marks); w.Some? ==> w.value != "" && NoSpace(w.value)
  {
    if marks != [] {
      FirstWordIsWord(lt, marks[1..]);
      var i := LastIndex(lt, marks[0]);
      if i >= 0 {
        var rest := TrimSpace(lt[i + |marks[0]|..]);
        assert forall k :: 0 <= k < |Fields(rest)| ==> Fields(rest)[k] != "" && NoSpace(Fields(rest)[k]);
        if rest != "" { TrimHasWord(lt[i + |marks[0]|..]); }
      }
    }
  }

  lemma ChannelOpIsWord(lt: string)
    ensures var op := ParseChannelOp(lt); op.Some? ==> op.value.ch != "" && NoSpace(op.value.ch)
  {
    FirstWordIsWord(lt, [" from ", "receive "]);
    FirstWordIsWord(lt, [" from ", "recv "]);
    FirstWordIsWord(lt, [" to ", " on ", "send "]);
  }

  lemma FirstWords(lt: string, a: string, b: string)
    ensures FirstWord(lt, [a, b]) == OrElse(WordAfter(lt, a), WordAfter(lt, b))
  {
    assert [a, b][1..] == [b];
    assert FirstWord(lt, [b]) == WordAfter(lt, b) by { assert [b][1..] == []; }
  }

  /** In a phrase around space-free text every space belongs to the verb. */
  lemma SpacesInVerb(r: string, verb: string, c: string, p: int)
    requires NoSpace(r) && NoSpace(c) && 0 <= p < |Phrase(r, verb, c)|
    ensures IsSpace(Phrase(r, verb, c)[p]) ==> |r| <= p < |r| + |verb| && IsSpace(verb[p - |r|])
  {
  }

  /** A mark that ends the verb is found there, and the channel is read after it. */
  lemma WordAfterVerb(r: string, verb: string, c: string, mark: string)
    requires 0 < |mark| <= |verb| && verb[|verb| - |mark|..] == mark && IsSpace(mark[|mark| - 1])
    requires NoSpace(r) && NoSpace(c) && c != ""
    ensures WordAfter(Phrase(r, verb, c), mark) == Some(c)
  {
    var lt := Phrase(r, verb, c);
    var at := |r| + |verb| - |mark|;
    assert forall k :: 0 <= k < |mark| ==> mark[k] == verb[|verb| - |mark| + k] == lt[at + k];
    assert lt[at..at + |mark|] == mark;
    assert OccursAt(lt, mark, at);
    var i := LastIndex(lt, mark);
    LastIndexMeans(lt, mark);
    assert lt[i + |mark| - 1] == mark[|mark| - 1];
    SpacesInVerb(r, verb, c, i + |mark| - 1);
    assert i == at;
    assert lt[at + |mark|..] == c;
    FieldsOfNoSpace(c);
  }

  lemma PhraseContains(r: string, verb: string, c: string, keyword: string, k: nat)
    requires OccursAt(verb, keyword, k)
    ensures Contains(Phrase(r, verb, c), keyword)
  {
    var lt := Phrase(r, verb, c);
    assert forall j :: 0 <= j < |keyword| ==> keyword[j] == verb[k + j] == lt[|r| + k + j];
    assert lt[|r| + k..|r| + k + |keyword|] == keyword;
    assert OccursAt(lt, keyword, |r| + k);
    LastIndexMeans(lt, keyword);
  }

  // ----- operation labels are not sync labels -----

  lemma ActionsEndInLetters(family: string, action: string)
    ensures SyncAction(family, action) ==> action != "" && action[|action| - 1] != ':'
  {
  }

  lemma NotSync(r: string, tail: string)
    requires NoSpace(r) && |tail| >= 2 && tail[0] == ':' && tail[1] == ' '
    ensures forall f :: f in FAMILIES ==> ParseSync(r + tail, f).None?
  {
    var lt, head := r + tail, r + ":";
    assert lt == head + tail[1..];
    WordOfNoSpace(head, tail[1..]);
    assert lt[0] == head[0] && !IsSpace(lt[0]);
    assert Fields(lt)[0] == lt[..|head|] == head;
    forall f | f in FAMILIES ensures ParseSync(lt, f).None? {
      var prefix := f + ".";
      var action := if HasPrefix(head, prefix) then head[|prefix|..] else head;
      ActionsEndInLetters(f, action);
      assert action != "" ==> action[|action| - 1] == head[|head| - 1] == ':';
    }
  }

  lemma NotClose(r: string, tail: string)
    requires NoSpace(r) && |tail| >= 2 && tail[0] == ':' && tail[1] == ' '
    ensures r + tail != "chan.close" && r + tail != "chan_close" && !HasPrefix(r + tail, "chan.close ")
  {
    var lt, close := r + tail, "chan.close ";
    assert lt[|r|] == ':' && lt[|r| + 1] == ' ';
    assert forall p :: 0 <= p < |r| ==> lt[p] == r[p];
    assert forall k :: 0 <= k < 10 ==> close[k] != ' ' && close[k] != ':';
    assert close[10] == ' ';
    assert HasPrefix(lt, close) <==> OccursAt(lt, close, 0);
    assert ':' in lt && ':' !in "chan.close" && ':' !in "chan_close";
  }

  lemma OpParses(r: string, verb: string, c: string)
    requires NoSpace(r) && OpVerb(verb)
    requires ToLower(Phrase(r, verb, c)) == Phrase(r, verb, c)
    ensures ParseRegionOp(Phrase(r, verb, c)) == ParseChannelOp(Phrase(r, verb, c))
  {
    var lt := Phrase(r, verb, c);
    assert lt == r + (verb + c);
    NotSync(r, verb + c);
    NotClose(r, verb + c);
    NeitherSyncNorClose(lt);
  }

  lemma NeitherSyncNorClose(lt: string)
    requires ToLower(lt) == lt
    requires lt != "chan.close" && lt != "chan_close" && !HasPrefix(lt, "chan.close ")
    requires forall f :: f in FAMILIES ==> ParseSync(lt, f).None?
    ensures ParseRegionOp(lt) == ParseChannelOp(lt)
  {
    NoSync(lt, FAMILIES);
  }

  lemma {:induction false} NoSync(lt: string, families: seq<string>)
    requires forall f :: f in families ==> ParseSync(lt, f).None?
    ensures ParseAnySync(lt, families).None?
  {
    if families != [] { NoSync(lt, families[1..]); }
  }

  lemma {:induction false} OneSync(lt: string, families: seq<string>, family: string)
    requires family in families && ParseSync(lt, family).Some?
    requires forall f :: f in families && f != family ==> ParseSync(lt, f).None?
    ensures ParseAnySync(lt, families) == ParseSync(lt, family)
  {
    if families[0] != family { OneSync(lt, families[1..], family); }
  }

  // ----- round trips -----

  predicate OpVerb(verb: string) {
    |verb| >= 2 && verb[0] == ':' && verb[1] == ' '
  }

  lemma LowerVerbs()
    ensures OpVerb(SEND_VERB) && OpVerb(RECV_VERB)
    ensures ToLower(SEND_VERB) == SEND_VERB && ToLower(RECV_VERB) == RECV_VERB && NoSpace("worker")
  {
  }

  lemma LowerPhrase(r: string, verb: string, c: string)
    requires ToLower(verb) == verb
    ensures ToLower(Phrase(r, verb, c)) == Phrase(ToLower(r), verb, ToLower(c))
    ensures ParseRegionOp(Phrase(r, verb, c)) == ParseRegionOp(Phrase(ToLower(r), verb, ToLower(c)))
    ensures ToLower(Phrase(ToLower(r), verb, ToLower(c))) == Phrase(ToLower(r), verb, ToLower(c))
  {
    LowerIdempotent(Phrase(r, verb, c));
  }

  /** No receive mark occurs in a send label, whatever the role and the channel are called. */
  lemma SendHasNoReceiveMark(r: string, c: string, mark: string)
    requires NoSpace(r) && NoSpace(c) && mark in {" from ", "receive ", "recv "}
    ensures WordAfter(Phrase(r, SEND_VERB, c), mark).None?
  {
    var lt := Phrase(r, SEND_VERB, c);
    assert forall k :: 0 <= k < 10 && IsSpace(SEND_VERB[k]) ==> k == 1 || k == 6 || k == 9;
    assert SEND_VERB[0] == ':' && SEND_VERB[5] == 'd' && SEND_VERB[8] == 'o';
    var i := LastIndex(lt, mark);
    LastIndexMeans(lt, mark);
    var n := |mark|;
    assert mark[n - 1] == ' ' && mark[n - 2] in {'m', 'e', 'v'};
    if 0 <= i + n - 1 < |lt| { SpacesInVerb(r, SEND_VERB, c, i + n - 1); }
    assert i < 0;
  }

  lemma SendParses(r: string, c: string)
    requires NoSpace(r) && NoSpace(c) && c != ""
    ensures ParseChannelOp(Phrase(r, SEND_VERB, c)) == Some(RegionOp("send", c))
  {
    var lt := Phrase(r, SEND_VERB, c);
    SendHasNoReceiveMark(r, c, " from ");
    SendHasNoReceiveMark(r, c, "receive ");
    SendHasNoReceiveMark(r, c, "recv ");
    FirstWords(lt, " from ", "receive ");
    FirstWords(lt, " from ", "recv ");
    assert SEND_VERB[6..] == " to " && SEND_VERB[2..6] == "send";
    WordAfterVerb(r, SEND_VERB, c, " to ");
    assert OccursAt(SEND_VERB, "send", 2);
    PhraseContains(r, SEND_VERB, c, "send", 2);
  }

  lemma RecvParses(r: string, c: string)
    requires NoSpace(r) && NoSpace(c) && c != ""
    ensures ParseChannelOp(Phrase(r, RECV_VERB, c)) == Some(RegionOp("recv", c))
  {
    var lt := Phrase(r, RECV_VERB, c);
    assert RECV_VERB[9..] == " from " && RECV_VERB[2..9] == "receive";
    WordAfterVerb(r, RECV_VERB, c, " from ");
    assert OccursAt(RECV_VERB, "receive", 2);
    PhraseContains(r, RECV_VERB, c, "receive", 2);
  }

  lemma LoweredLabel(role: string, verb: string, ch: string)
    requires NoSpace(role) && ToLower(verb) == verb
    ensures var r, c := ToLower(RoleText(role)), ToLower(ch);
            && NoSpace(r) && (NoSpace(c) <==> NoSpace(ch)) && (c == "" <==> ch == "")
            && ToLower(Phrase(r, verb, c)) == Phrase(r, verb, c)
            && ParseRegionOp(Phrase(RoleText(role), verb, ch)) == ParseRegionOp(Phrase(r, verb, c))
  {
    LowerVerbs();
    LowerPhrase(RoleText(role), verb, ch);
  }

  lemma LoweredRoundTrip(r: string, verb: string, c: string, kind: string)
    requires NoSpace(r) && OpVerb(verb)
    requires ToLower(Phrase(r, verb, c)) == Phrase(r, verb, c)
    requires c != "" && NoSpace(c) ==> ParseChannelOp(Phrase(r, verb, c)) == Some(RegionOp(kind, c))
    ensures ParseRegionOp(Phrase(r, verb, c)) == Some(RegionOp(kind, c)) <==> c != "" && NoSpace(c)
  {
    OpParses(r, verb, c);
    ChannelOpIsWord(Phrase(r, verb, c));
  }

  /**
   With a space-free role, a send label is read back exactly when the channel
   name is non-empty and space-free; names that contain "receive" or "recv" do
   not confuse the parser.
   */
  lemma SendLabelRoundTrip(role: string, ch: string)
    requires NoSpace(role)
    ensures ParseRegionOp(SendLabel(role, ch)) == Some(RegionOp("send", ToLower(ch))) <==> ch != "" && NoSpace(ch)
  {
    var r, c := ToLower(RoleText(role)), ToLower(ch);
    LowerVerbs();
    LoweredLabel(role, SEND_VERB, ch);
    var recovered := ParseRegionOp(SendLabel(role, ch));
    assert recovered == ParseRegionOp(Phrase(r, SEND_VERB, c));
    if c != "" && NoSpace(c) { SendParses(r, c); }
    LoweredRoundTrip(r, SEND_VERB, c, "send");
  }

  /** The same for receive labels. */
  lemma RecvLabelRoundTrip(role: string, ch: string)
    requires NoSpace(role)
    ensures ParseRegionOp(RecvLabel(role, ch)) == Some(RegionOp("recv", ToLower(ch))) <==> ch != "" && NoSpace(ch)
  {
    var r, c := ToLower(RoleText(role)), ToLower(ch);
    LowerVerbs();
    LoweredLabel(role, RECV_VERB, ch);
    var recovered := ParseRegionOp(RecvLabel(role, ch));
    assert recovered == ParseRegionOp(Phrase(r, RECV_VERB, c));
    if c != "" && NoSpace(c) { RecvParses(r, c); }
    LoweredRoundTrip(r, RECV_VERB, c, "recv");
  }

  /** An expression whose names print as space-free text. */
  ghost predicate Printable(e: ChanExpr) {
    match e
    case Named(name) => name != "" && NoSpace(name)
    case Anonymous => true
    case Indexed(base, index) => NoSpace(base) && NoSpace(index)
    case ComputedIndex(base) => base != "" && NoSpace(base)
  }

  lemma BuiltLabel(e: ChanExpr)
    ensures LabelFromChan(e) != "" && NoSpace(LabelFromChan(e)) <==> Printable(e)
    ensures ToLower(LabelFromChan(e)) ==
            if e.Indexed? then ToLower(e.base) + "[" + ToLower(e.index) + "]" else LabelFromChan(e)
  {
    var l := LabelFromChan(e);
    match e
    case Named(name) =>
      LowerIdempotent(name);
      LoweredSpaces(name);
    case Anonymous =>
    case ComputedIndex(base) =>
      LowerIdempotent(base);
      LoweredSpaces(base);
    case Indexed(base, index) =>
      LowerIdempotent(base);
      LoweredSpaces(base);
      IndexedSpaces(ToLower(base), index);
      assert ToLower(l) == ToLower(ToLower(base)) + "[" + ToLower(index) + "]";
  }

  lemma LoweredSpaces(s: string)
    ensures NoSpace(ToLower(s)) <==> NoSpace(s)
  {
    var l := ToLower(s);
    assert forall i :: 0 <= i < |s| ==> (IsSpace(l[i]) <==> IsSpace(s[i]));
  }

  lemma IndexedSpaces(base: string, index: string)
    ensures NoSpace(base + "[" + index + "]") <==> NoSpace(base) && NoSpace(index)
  {
    var l := base + "[" + index + "]";
    assert forall i :: 0 <= i < |base| ==> l[i] == base[i];
    assert forall i :: 0 <= i < |index| ==> l[|base| + 1 + i] == index[i];
  }

  /**
   What the instrumenter builds for a channel expression: the label is read
   back to the operation and the lower-cased name exactly when the names of the
   expression are space-free.
   */
  lemma BuiltLabelsRoundTrip(role: string, e: ChanExpr)
    requires NoSpace(role)
    ensures ParseRegionOp(SendLabel(role, LabelFromChan(e))) == Some(RegionOp("send", ToLower(LabelFromChan(e)))) <==> Printable(e)
    ensures ParseRegionOp(RecvLabel(role, LabelFromChan(e))) == Some(RegionOp("recv", ToLower(LabelFromChan(e)))) <==> Printable(e)
  {
    BuiltLabel(e);
    SendLabelRoundTrip(role, LabelFromChan(e));
    RecvLabelRoundTrip(role, LabelFromChan(e));
  }

  lemma ActionFamily(family: string, action: string)
    requires SyncAction(family, action)
    ensures family in FAMILIES && NoSpace(action) && action != ""
  {
  }

  /** Every mutex, rwmutex, wait-group and cond label gives back its kind and object. */
  lemma SyncLabelRoundTrip(family: string, method_: string, name: string)
    requires SyncAction(family, ToLower(method_)) && name != "" && NoSpace(name)
    ensures ParseRegionOp(SyncLabel(family, method_, name)) ==
            Some(RegionOp(family + "_" + ToLower(method_), family + ":" + ToLower(name)))
  {
    var action, n := ToLower(method_), ToLower(name);
    ActionFamily(family, action);
    var head := family + "." + action;
    var lt := head + " " + n;
    assert ToLower(SyncLabel(family, method_, name)) == lt by {
      LowerIdempotent(method_);
      assert SyncLabel(family, method_, name) == family + "." + action + " " + name;
    }
    assert NoSpace(head);
    FieldsOfTwo(head, n);
    SyncParses(family, action, n);
    OneSync(lt, FAMILIES, family);
  }

  lemma SyncParses(family: string, action: string, n: string)
    requires SyncAction(family, action) && Fields(family + "." + action + " " + n) == [family + "." + action, n]
    ensures var lt := family + "." + action + " " + n;
            && ParseSync(lt, family) == Some(RegionOp(family + "_" + action, family + ":" + n))
            && (forall f :: f in FAMILIES && f != family ==> ParseSync(lt, f).None?)
            && lt != "chan.close" && lt != "chan_close" && !HasPrefix(lt, "chan.close ")
  {
    var lt := family + "." + action + " " + n;
    ActionFamily(family, action);
    var head := family + "." + action;
    var prefix := family + ".";
    assert head[..|prefix|] == prefix && head[|prefix|..] == action;
    assert HasPrefix(head, prefix);
    assert lt == prefix + (action + " " + n);
    assert lt[..|prefix|] == prefix && HasPrefix(lt, prefix);
    assert Fields(lt) == [head, n];
    FamilyInitials(family);
    OtherInitial(lt, family);
  }

  lemma FamilyInitials(family: string)
    requires family in FAMILIES
    ensures |family| >= 2 && (family[0] != 'c' || family[1] != 'h')
    ensures forall f :: f in FAMILIES && f != family ==> f != "" && f[0] != family[0]
  {
  }

  lemma OtherInitial(lt: string, family: string)
    requires |lt| >= 2 && |family| >= 2 && lt[0] == family[0] && lt[1] == family[1]
    requires family[0] != 'c' || family[1] != 'h'
    ensures forall f :: f != "" && f[0] != family[0] ==> ParseSync(lt, f).None?
    ensures lt != "chan.close" && lt != "chan_close" && !HasPrefix(lt, "chan.close ")
  {
    forall f: string | f != "" && f[0] != family[0] ensures ParseSync(lt, f).None? {
      assert (f + ".")[0] == f[0];
    }
  }

  /** Without a name the object is known by its family. */
  lemma NamelessSyncIsRead(family: string, action: string)
    requires SyncAction(family, action)
    ensures ParseRegionOp(family + "." + action) == Some(RegionOp(family + "_" + action, family))
  {
    ActionFamily(family, action);
    var head, prefix := family + "." + action, family + ".";
    assert ToLower(head) == head by { LoweredAction(family, action); }
    assert NoSpace(head);
    FieldsOfNoSpace(head);
    assert head[..|prefix|] == prefix && head[|prefix|..] == action;
    FamilyInitials(family);
    OtherInitial(head, family);
    assert ParseSync(head, family) == Some(RegionOp(family + "_" + action, family));
    OneSync(head, FAMILIES, family);
  }

  lemma LoweredAction(family: string, action: string)
    requires SyncAction(family, action)
    ensures ToLower(family + "." + action) == family + "." + action
  {
    assert ToLower(family) == family && ToLower(action) == action;
    assert forall i :: 0 <= i < |family| ==> ToLower(family)[i] == LowerChar(family[i]);
    assert forall i :: 0 <= i < |action| ==> ToLower(action)[i] == LowerChar(action[i]);
  }

  /** The operations on sync objects that the instrumenter labels. */
  predicate SyncMethod(family: string, method_: string) {
    || (family == "mutex" && method_ in {"Lock", "Unlock"})
    || (family == "rwmutex" && method_ in {"Lock", "Unlock", "RLock", "RUnlock"})
    || (family == "wg" && method_ in {"Add", "Done", "Wait"})
    || (family == "cond" && method_ in {"Wait", "Signal", "Broadcast"})
  }

  lemma LoweredMethods(family: string, method_: string)
    requires SyncMethod(family, method_)
    ensures SyncAction(family, ToLower(method_))
  {
    assert ToLower("Lock") == "lock" && ToLower("Unlock") == "unlock" && ToLower("RLock") == "rlock";
    assert ToLower("RUnlock") == "runlock" && ToLower("Add") == "add" && ToLower("Done") == "done";
    assert ToLower("Wait") == "wait" && ToLower("Signal") == "signal" && ToLower("Broadcast") == "broadcast";
  }

  /** All twelve of them are read back. */
  lemma SyncMethodsRoundTrip(family: string, method_: string, name: string)
    requires SyncMethod(family, method_) && name != "" && NoSpace(name)
    ensures ParseRegionOp(SyncLabel(family, method_, name)) ==
            Some(RegionOp(family + "_" + ToLower(method_), family + ":" + ToLower(name)))
  {
    LoweredMethods(family, method_);
    SyncLabelRoundTrip(family, method_, name);
  }

  /** The close of a channel is read whatever the channel is called, and without its name. */
  lemma CloseIsRead(name: string)
    ensures ParseRegionOp("chan.close " + name) == ParseRegionOp("chan_close") == Some(RegionOp("chan_close", ""))
  {
    var typ, mark := "chan.close " + name, "chan.close ";
    assert ToLower(mark) == mark && ToLower("chan_close") == "chan_close";
    assert forall i :: 0 <= i < |mark| ==> typ[i] == mark[i] && ToLower(typ)[i] == ToLower(mark)[i];
    assert ToLower(typ)[..|mark|] == mark;
  }

  /** Without a role the operation is a worker's. */
  lemma DefaultRole(ch: string)
    ensures SendLabel("", ch) == "worker: send to " + ch && RecvLabel("", ch) == "worker: receive from " + ch
  {
  }
}
