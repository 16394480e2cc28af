/** The printed names of channel events, from which the validator reads a direction. */
module EventNames {
  import opened Text
  import opened Topology

  function EventText(name: EventName): string
    requires IsChannelEvent(name)
  {
    match name
    case ChanMake => "chan_make"
    case ChanClose => "chan_close"
    case ChanSend => "chan_send"
    case ChanRecv => "chan_recv"
    case ChanDepth => "chan_depth"
    case SendComplete => "send_complete"
    case RecvAttempt => "recv_attempt"
    case RecvComplete => "recv_complete"
    case ChanSendAttempt => "chan_send_attempt"
    case ChanRecvAttempt => "chan_recv_attempt"
    case ChanSendCommit => "chan_send_commit"
    case ChanRecvCommit => "chan_recv_commit"
    case BlockedSend => "blocked_send"
    case BlockedReceive => "blocked_receive"
    case BlockSend => "block_send"
    case BlockRecv => "block_recv"
    case Block => "block"
    case Unblock => "unblock"
    case SelectCase => "select_case"
  }

  function KindOfText(text: string): Direction {
    var low := ToLower(text);
    if HasPrefix(low, "blocked_") then NoDirection
    else if Contains(low, "send") && !Contains(low, "recv") && !Contains(low, "receive") then SendSide
    else if Contains(low, "recv") || Contains(low, "receive") then RecvSide
    else if Contains(low, "send") then SendSide
    else NoDirection
  }

  lemma Occurs(s: string, p: string, i: nat)
    requires OccursAt(s, p, i)
    ensures Contains(s, p)
  {
    LastIndexMeans(s, p);
  }

  lemma LettersOccur(s: string, p: string, k: nat)
    requires k < |p|
    ensures Contains(s, p) ==> p[k] in s
  {
    if Contains(s, p) {
      LastIndexMeans(s, p);
      var i := LastIndex(s, p);
      assert s[i..i + |p|][k] == s[i + k];
    }
  }

  /** A text without one of the letters does not contain the word. */
  lemma Lacks(s: string, p: string, k: nat)
    requires k < |p| && p[k] !in s
    ensures !Contains(s, p)
  {
    LettersOccur(s, p, k);
  }

  lemma NotBlocked(s: string)
    requires |s| > 5 && (s[0] != 'b' || s[5] != 'e')
    ensures !HasPrefix(s, "blocked_")
  {
  }

  /** Small letters and underscores, and the word at place i. */
  ghost predicate Has(s: string, i: nat, a: char, b: char, c: char, d: char) {
    && i + 4 <= |s| && s[i] == a && s[i + 1] == b && s[i + 2] == c && s[i + 3] == d
    && |s| > 5 && (s[0] != 'b' || s[5] != 'e')
    && forall k :: 0 <= k < |s| ==> s[k] == '_' || 'a' <= s[k] <= 'z'
  }

  lemma SendText(s: string, i: nat)
    requires Has(s, i, 's', 'e', 'n', 'd') && forall k :: 0 <= k < |s| ==> s[k] != 'v'
    ensures KindOfText(s) == SendSide
  {
    assert ToLower(s) == s;
    NotBlocked(s);
    assert s[i..i + 4] == "send";
    Occurs(s, "send", i);
    Lacks(s, "recv", 3);
    Lacks(s, "receive", 5);
  }

  lemma RecvText(s: string, i: nat)
    requires Has(s, i, 'r', 'e', 'c', 'v')
    ensures KindOfText(s) == RecvSide
  {
    assert ToLower(s) == s;
    NotBlocked(s);
    assert s[i..i + 4] == "recv";
    Occurs(s, "recv", i);
  }

  lemma NeutralText(s: string, k: nat)
    requires (forall j :: 0 <= j < |s| ==> s[j] == '_' || 'a' <= s[j] <= 'z') && k < 4
    requires forall j :: 0 <= j < |s| ==> s[j] != 'v' && s[j] != "send"[k]
    ensures KindOfText(s) == NoDirection
  {
    assert ToLower(s) == s;
    Lacks(s, "send", k);
    Lacks(s, "recv", 3);
    Lacks(s, "receive", 5);
  }

  predicate Atomic(name: EventName) {
    name.ChanSendAttempt? || name.ChanRecvAttempt? || name.ChanSendCommit? || name.ChanRecvCommit?
  }

  lemma AtomicNames(name: EventName, s: string)
    requires Atomic(name) && s == EventText(name)
    ensures KindOfText(s) == EventKind(name)
  {
    match name
    case ChanSendAttempt => SendText(s, 5);
    case ChanRecvAttempt => RecvText(s, 5);
    case ChanSendCommit => SendText(s, 5);
    case ChanRecvCommit => RecvText(s, 5);
  }

  lemma SendNames(name: EventName, s: string)
    requires EventKind(name) == SendSide && IsChannelEvent(name) && !Atomic(name) && s == EventText(name)
    ensures KindOfText(s) == SendSide
  {
    match name
    case ChanSend => SendText(s, 5);
    case SendComplete => SendText(s, 0);
    case BlockSend => SendText(s, 6);
  }

  lemma RecvNames(name: EventName, s: string)
    requires EventKind(name) == RecvSide && IsChannelEvent(name) && !Atomic(name) && s == EventText(name)
    ensures KindOfText(s) == RecvSide
  {
    match name
    case ChanRecv => RecvText(s, 5);
    case RecvAttempt => RecvText(s, 0);
    case RecvComplete => RecvText(s, 0);
    case BlockRecv => RecvText(s, 6);
  }

  lemma NeutralNames(name: EventName, s: string)
    requires EventKind(name) == NoDirection && IsChannelEvent(name) && s == EventText(name)
    ensures KindOfText(s) == NoDirection
  {
    match name
    case BlockedSend => BlockedText(s);
    case BlockedReceive => BlockedText(s);
    case _ => SilentNames(name, s);
  }

  lemma SilentNames(name: EventName, s: string)
    requires EventKind(name) == NoDirection && IsChannelEvent(name) && s == EventText(name)
    requires !name.BlockedSend? && !name.BlockedReceive?
    ensures KindOfText(s) == NoDirection
  {
    if name.ChanClose? || name.SelectCase? { NeutralText(s, 3); } else { NeutralText(s, 0); }
  }

  lemma BlockedText(s: string)
    requires ToLower(s) == s && |s| > 8 && s[..8] == "blocked_"
    ensures KindOfText(s) == NoDirection
  {
  }

  /** The directions of the channel events are those that their names tell. */
  lemma DirectionIsInName(name: EventName)
    requires IsChannelEvent(name)
    ensures KindOfText(EventText(name)) == EventKind(name)
  {
    var s := EventText(name);
    if Atomic(name) { AtomicNames(name, s); }
    else {
      match EventKind(name)
      case SendSide => SendNames(name, s);
      case RecvSide => RecvNames(name, s);
      case NoDirection => NeutralNames(name, s);
    }
  }
}
