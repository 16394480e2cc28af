/** The normal forms of channel pointers and keys, and the aliases that stand for pointers. */
module ChannelNames {
  import opened Text
  import opened Shared
  import opened ChannelKeys

  function NormalizePointer(ptr: string): string {
    var p := TrimSpace(ptr);
    if HasPrefix(p, "ptr=") then TrimSpace(p[4..]) else p
  }

  predicate StartsHex(s: string) {
    HasPrefix(s, "0x") || HasPrefix(s, "0X")
  }

  predicate IsPointerString(val: string) {
    StartsHex(NormalizePointer(val))
  }

  /** The position of the first "#g", or -1. */
  function FirstMark(s: string): (i: int)
    ensures -1 <= i && (i >= 0 ==> i + 2 <= |s| && s[i] == '#' && s[i + 1] == 'g')
    ensures forall j :: 0 <= j && j + 2 <= |s| && s[j] == '#' && s[j + 1] == 'g' ==> 0 <= i <= j
  {
    if |s| < 2 then -1
    else if s[0] == '#' && s[1] == 'g' then 0
    else
      var i := FirstMark(s[1..]);
      assert forall j :: 0 <= j < |s| - 1 ==> s[1..][j] == s[j + 1];
      assert forall j :: 1 <= j && j + 2 <= |s| && s[j] == '#' && s[j + 1] == 'g' ==> s[1..][j - 1] == '#' && s[1..][j] == 'g';
      if i < 0 then -1 else i + 1
  }

  function StripGoroutineSuffix(key: string): string {
    var i := FirstMark(key);
    if i >= 0 && i + 2 < |key| && Atoi(key[i + 2..]).Some? then key[..i] else key
  }

  function NormalizeChannelKey(key: string): string {
    StripGoroutineSuffix(TrimSpace(key))
  }

  function AliasName(n: nat): string {
    "ch#" + Digits(n)
  }

  predicate IsAliasName(name: string) {
    var low := ToLower(TrimSpace(name));
    HasPrefix(low, "ch#") || HasPrefix(low, "unknown:")
  }

  function UnknownName(g: nat, seqNo: nat): string {
    "unknown:" + Digits(g) + ":" + Digits(seqNo)
  }

  // ----- trimming -----

  /** All of s outside i..j is space, and i..j does not begin or end with one. */
  ghost predicate Hull(s: string, i: nat, j: nat) {
    && i <= j <= |s|
    && (forall k :: 0 <= k < i ==> IsSpace(s[k])) && (forall k :: j <= k < |s| ==> IsSpace(s[k]))
    && (i < j ==> !IsSpace(s[i]) && !IsSpace(s[j - 1]))
  }

  lemma {:induction false} TrimLeftIs(s: string, i: nat)
    requires i <= |s| && (forall k :: 0 <= k < i ==> IsSpace(s[k])) && (i < |s| ==> !IsSpace(s[i]))
    ensures TrimLeft(s) == s[i..]
  {
    if i > 0 {
      assert forall k :: 0 <= k < i - 1 ==> s[1..][k] == s[k + 1];
      TrimLeftIs(s[1..], i - 1);
      assert s[1..][i - 1..] == s[i..];
    }
  }

  lemma {:induction false} TrimRightIs(s: string, j: nat)
    requires j <= |s| && (forall k :: j <= k < |s| ==> IsSpace(s[k])) && (j > 0 ==> !IsSpace(s[j - 1]))
    ensures TrimRight(s) == s[..j]
  {
    if j < |s| {
      TrimRightIs(s[..|s| - 1], j);
      assert s[..|s| - 1][..j] == s[..j];
    }
  }

  lemma TrimIs(s: string, i: nat, j: nat)
    requires Hull(s, i, j)
    ensures TrimSpace(s) == s[i..j]
  {
    if i < j {
      TrimLeftIs(s, i);
      TrimRightIs(s[i..], j - i);
      assert s[i..][..j - i] == s[i..j];
    } else {
      TrimLeftIs(s, |s|);
    }
  }

  lemma {:induction false} FirstWordStart(s: string) returns (i: nat)
    ensures i <= |s| && (forall k :: 0 <= k < i ==> IsSpace(s[k])) && (i < |s| ==> !IsSpace(s[i]))
  {
    if s != "" && IsSpace(s[0]) {
      var j := FirstWordStart(s[1..]);
      i := j + 1;
      assert forall k :: 1 <= k < i ==> s[k] == s[1..][k - 1];
    } else {
      i := 0;
    }
  }

  lemma {:induction false} LastWordEnd(s: string) returns (j: nat)
    ensures j <= |s| && (forall k :: j <= k < |s| ==> IsSpace(s[k])) && (j > 0 ==> !IsSpace(s[j - 1]))
  {
    if s != "" && IsSpace(s[|s| - 1]) { j := LastWordEnd(s[..|s| - 1]); } else { j := |s|; }
  }

  lemma HasHull(s: string) returns (i: nat, j: nat)
    ensures Hull(s, i, j)
  {
    i := FirstWordStart(s);
    j := LastWordEnd(s);
    if i == |s| { j := i; }
  }

  /** A trimmed text is a part of the text, and is not changed by trimming again. */
  lemma TrimPart(s: string) returns (i: nat, j: nat)
    ensures Hull(s, i, j) && TrimSpace(s) == s[i..j]
    ensures TrimSpace(TrimSpace(s)) == TrimSpace(s)
  {
    i, j := HasHull(s);
    TrimIs(s, i, j);
    var t := s[i..j];
    assert Hull(t, 0, |t|);
    TrimIs(t, 0, |t|);
    assert t[0..|t|] == t;
  }

  lemma TrimTwice(s: string)
    ensures TrimSpace(TrimSpace(s)) == TrimSpace(s)
  {
    var i, j := TrimPart(s);
  }

  /** A pointer string stays one under trimming. */
  lemma PointerOfTrim(s: string)
    ensures NormalizePointer(TrimSpace(s)) == NormalizePointer(s)
  {
    TrimTwice(s);
  }

  /** Normalizing a key again only trims it. */
  lemma KeyTwice(x: string)
    ensures NormalizeChannelKey(NormalizeChannelKey(x)) == TrimSpace(NormalizeChannelKey(x))
  {
    var t := TrimSpace(x);
    TrimTwice(x);
    if StripGoroutineSuffix(t) != t {
      var k := StripGoroutineSuffix(t);
      var i, j := TrimPart(k);
    }
  }

  lemma KeyTwicePointer(x: string)
    ensures IsPointerString(NormalizeChannelKey(NormalizeChannelKey(x))) == IsPointerString(NormalizeChannelKey(x))
  {
    KeyTwice(x);
    PointerOfTrim(NormalizeChannelKey(x));
  }

  lemma {:induction false} TrimKeepsStart(s: string)
    requires s != "" && !IsSpace(s[0])
    ensures TrimSpace(s) != "" && TrimSpace(s)[0] == s[0]
  {
    assert TrimLeft(s) == s;
    StartStays(s);
  }

  lemma {:induction false} StartStays(s: string)
    requires s != "" && !IsSpace(s[0])
    ensures TrimRight(s) != "" && TrimRight(s)[0] == s[0]
  {
    if IsSpace(s[|s| - 1]) { StartStays(s[..|s| - 1]); }
  }

  lemma TrimStart(s: string)
    ensures TrimSpace(s) != "" ==> !IsSpace(TrimSpace(s)[0])
  {
    TrimLeftStart(s);
    TrimRightStart(TrimLeft(s));
  }

  /** A key in normal form stays one that is not empty. */
  lemma KeyStaysNamed(x: string)
    requires NormalizeChannelKey(x) != ""
    ensures NormalizeChannelKey(NormalizeChannelKey(x)) != ""
  {
    KeyTwice(x);
    TrimStart(x);
    TrimKeepsStart(NormalizeChannelKey(x));
  }

  // ----- cutting a goroutine suffix -----

  /** u is what is left of the trimmed text t when it is cut at a '#'. */
  ghost predicate Cut(t: string, u: string) {
    TrimSpace(t) == t && exists m :: 0 <= m < |t| && t[m] == '#' && u == TrimSpace(t[..m])
  }

  /** The cut keeps a prefix: everything up to the last character before the '#' that is not a space. */
  lemma CutPrefix(t: string, u: string) returns (m: nat, j: nat)
    requires Cut(t, u)
    ensures j <= m < |t| && t[m] == '#' && u == t[..j] && !IsSpace(t[0]) && !IsSpace(t[|t| - 1])
    ensures (forall k :: j <= k < m ==> IsSpace(t[k])) && (j > 0 ==> !IsSpace(t[j - 1]))
  {
    m :| 0 <= m < |t| && t[m] == '#' && u == TrimSpace(t[..m]);
    var a, b := TrimPart(t);
    assert a == 0 && b == |t|;
    var i;
    i, j := TrimPart(t[..m]);
    assert forall k :: 0 <= k < m ==> t[..m][k] == t[k];
    if i == j { j := 0; }
    assert t[..m][..j] == t[..j];
  }

  lemma CutKeepsHex(t: string, u: string)
    requires Cut(t, u)
    ensures StartsHex(t) <==> StartsHex(u)
  {
    var m, j := CutPrefix(t, u);
    if StartsHex(t) {
      assert t[0] == '0' && (t[1] == 'x' || t[1] == 'X');
      assert j >= 2;
      assert u[..2] == t[..2];
    }
  }

  /** Taking off the pointer prefix on both sides is a cut again. */
  lemma CutStep(t: string, u: string)
    requires Cut(t, u)
    ensures Cut(NormalizePointer(t), NormalizePointer(u))
  {
    var m, j := CutPrefix(t, u);
    TrimTwice(t[..m]);
    assert TrimSpace(u) == u;
    if HasPrefix(t, "ptr=") {
      assert t[0] == 'p' && t[1] == 't' && t[2] == 'r' && t[3] == '=';
      assert m >= 4 && j >= 4;
      assert u[..4] == t[..4] && t[..4] == "ptr=";
      assert u[4..] == t[4..j] && t[..m][j - 1] == t[j - 1];
      CutRest(t, m, j);
    } else {
      assert |u| >= 4 ==> u[..4] == t[..4];
    }
  }

  lemma CutRest(t: string, m: nat, j: nat)
    requires 4 <= j <= m < |t| && t[m] == '#' && !IsSpace(t[|t| - 1])
    requires (forall k :: j <= k < m ==> IsSpace(t[k])) && !IsSpace(t[j - 1])
    ensures Cut(TrimSpace(t[4..]), TrimSpace(t[4..j]))
  {
    var rest := t[4..];
    TrimTwice(rest);
    assert forall k :: 0 <= k < |rest| ==> rest[k] == t[k + 4];
    assert rest[..j - 4] == t[4..j];
    CutTrimmed(rest, m - 4, j - 4);
  }

  /** A cut goes on to the trimmed text. */
  lemma CutTrimmed(rest: string, m: nat, j: nat)
    requires j <= m < |rest| && rest[m] == '#' && !IsSpace(rest[|rest| - 1])
    requires (forall k :: j <= k < m ==> IsSpace(rest[k])) && (j > 0 ==> !IsSpace(rest[j - 1]))
    ensures Cut(TrimSpace(rest), TrimSpace(rest[..j]))
  {
    var i, n := TrimPart(rest);
    assert i <= m && n == |rest|;
    var inner := rest[i..];
    assert TrimSpace(rest) == inner && inner[m - i] == '#';
    CutInner(rest, i, m, j);
    assert inner[..m - i] == rest[i..m];
  }

  /** Cutting at m and at the end j of the text before it trims to the same. */
  lemma CutInner(rest: string, i: nat, m: nat, j: nat)
    requires i <= m < |rest| && j <= m && (forall k :: 0 <= k < i ==> IsSpace(rest[k])) && !IsSpace(rest[i])
    requires (forall k :: j <= k < m ==> IsSpace(rest[k])) && (j > 0 ==> !IsSpace(rest[j - 1]))
    ensures TrimSpace(rest[..j]) == TrimSpace(rest[i..m])
  {
    var left, right := rest[..j], rest[i..m];
    assert forall k :: 0 <= k < |right| ==> right[k] == rest[i + k];
    if i < j {
      assert Hull(left, i, j) && Hull(right, 0, j - i);
      TrimIs(left, i, j);
      TrimIs(right, 0, j - i);
      assert left[i..j] == right[0..j - i];
    } else {
      assert right == "" && Hull(left, 0, 0);
      TrimIs(left, 0, 0);
    }
  }

  /** A goroutine suffix does not decide whether a text is a pointer. */
  lemma SuffixKeepsPointer(p: string)
    ensures IsPointerString(NormalizePointer(NormalizeChannelKey(p))) <==> IsPointerString(NormalizePointer(p))
  {
    var t, key := TrimSpace(p), NormalizeChannelKey(p);
    TrimTwice(p);
    assert NormalizePointer(p) == NormalizePointer(t);
    if key != t {
      var u := TrimSpace(key);
      assert Cut(t, u);
      PointerOfTrim(key);
      CutStep(t, u);
      CutStep(NormalizePointer(t), NormalizePointer(u));
      CutKeepsHex(NormalizePointer(NormalizePointer(t)), NormalizePointer(NormalizePointer(u)));
    }
  }

  /** What stands for a pointer still does without its prefix. */
  lemma PointerOfPointer(x: string)
    requires IsPointerString(x)
    ensures IsPointerString(NormalizePointer(x))
  {
    var p := NormalizePointer(x);
    TrimTwice(x);
    TrimTwice(TrimSpace(x)[if HasPrefix(TrimSpace(x), "ptr=") then 4 else 0..]);
    assert TrimSpace(p) == p;
    assert p[0] == '0';
  }

  // ----- aliases -----

  lemma AliasIsKey(n: nat)
    ensures NormalizeChannelKey(AliasName(n)) == AliasName(n) != ""
  {
    var a, d := AliasName(n), Digits(n);
    assert a[0] == 'c' && a[1] == 'h' && a[2] == '#' && a[3..] == d;
    forall i | 0 <= i < |a| ensures !IsSpace(a[i]) && (i > 2 ==> IsDigit(a[i])) {
      if i > 2 { assert a[i] == d[i - 3] && IsDigit(d[i - 3]); }
    }
    FieldsOfNoSpace(a);
    assert FirstMark(a) < 0;
  }

  lemma AliasesDiffer(m: nat, n: nat)
    requires AliasName(m) == AliasName(n)
    ensures m == n
  {
    assert AliasName(m)[3..] == Digits(m) && AliasName(n)[3..] == Digits(n);
    DigitsInjective(m, n);
  }

  lemma UnknownIsKey(g: nat, seqNo: nat)
    ensures NormalizeChannelKey(UnknownName(g, seqNo)) != "" && !IsPointerString(NormalizeChannelKey(UnknownName(g, seqNo)))
  {
    var u, a, b := UnknownName(g, seqNo), Digits(g), Digits(seqNo);
    forall i | 0 <= i < |u| ensures !IsSpace(u[i]) {
      if 8 <= i < 8 + |a| { assert u[i] == a[i - 8]; }
      if i > 8 + |a| { assert u[i] == b[i - 9 - |a|]; }
    }
    FieldsOfNoSpace(u);
    assert u[0] == 'u';
    var k := NormalizeChannelKey(u);
    assert k != "" && k[0] == 'u';
    assert NoSpace(k);
    FieldsOfNoSpace(k);
  }

  lemma NoSpaceConcat(a: string, b: string)
    requires NoSpace(a) && NoSpace(b)
    ensures NoSpace(a + b)
  {
  }

  /** The forms of a pointer. */
  lemma PointerForms(s: string)
    requires NoSpace(s)
    ensures IsPointerString("0x" + s) && IsPointerString("0X" + s)
    ensures NormalizePointer("ptr=" + ("0x" + s)) == "0x" + s
  {
    var a, b := "0x" + s, "0X" + s;
    NoSpaceConcat("0x", s);
    NoSpaceConcat("0X", s);
    NoSpaceConcat("ptr=", a);
    FieldsOfNoSpace(a);
    FieldsOfNoSpace(b);
    FieldsOfNoSpace("ptr=" + a);
    assert ("ptr=" + a)[4..] == a && a[0] == '0' && b[0] == '0';
  }

  lemma {:induction false} MarkAfter(key: string, rest: string)
    requires '#' !in key
    ensures FirstMark(key + ("#g" + rest)) == |key|
  {
    var s := key + ("#g" + rest);
    if key == "" {
      assert s[0] == '#' && s[1] == 'g';
    } else {
      assert key == [key[0]] + key[1..];
      assert s[0] == key[0] && s[1..] == key[1..] + ("#g" + rest);
      MarkAfter(key[1..], rest);
    }
  }

  lemma CutAt(s: string, k: nat)
    requires TrimSpace(s) == s && k + 2 < |s| && FirstMark(s) == k && Atoi(s[k + 2..]).Some?
    ensures NormalizeChannelKey(s) == s[..k]
  {
  }

  /** A goroutine suffix is cut off. */
  lemma SuffixIsCut(key: string, n: nat)
    requires NoSpace(key) && '#' !in key && n <= MAX_INT64
    ensures NormalizeChannelKey(key + ("#g" + Digits(n))) == key
  {
    var s := key + ("#g" + Digits(n));
    SuffixIsTrimmed(key, Digits(n));
    MarkAfter(key, Digits(n));
    assert s[|key| + 2..] == Digits(n) && s[..|key|] == key;
    assert Atoi(s[|key| + 2..]).Some? by { AtoiOfDigits(n); }
    CutAt(s, |key|);
  }

  lemma SuffixIsTrimmed(key: string, d: string)
    requires NoSpace(key) && forall i :: 0 <= i < |d| ==> IsDigit(d[i])
    ensures TrimSpace(key + ("#g" + d)) == key + ("#g" + d)
  {
    NoSpaceConcat("#g", d);
    NoSpaceConcat(key, "#g" + d);
    FieldsOfNoSpace(key + ("#g" + d));
  }

  lemma DigitsHaveNoSpace(n: nat)
    ensures NoSpace(Digits(n))
  {
    assert forall i :: 0 <= i < |Digits(n)| ==> IsDigit(Digits(n)[i]);
  }

  lemma LoweredPrefix(s: string, p: string)
    requires p <= s && ToLower(p) == p
    ensures p <= ToLower(s)
  {
    assert forall i :: 0 <= i < |p| ==> ToLower(s)[i] == LowerChar(s[i]) && s[i] == p[i] && ToLower(p)[i] == LowerChar(p[i]);
  }

  /** The names that normalization gives are recognised as such. */
  lemma GivenNamesAreAliases(n: nat, g: nat, seqNo: nat)
    ensures IsAliasName(AliasName(n)) && IsAliasName(UnknownName(g, seqNo))
  {
    DigitsHaveNoSpace(n);
    NoSpaceConcat("ch#", Digits(n));
    FieldsOfNoSpace(AliasName(n));
    LoweredPrefix(AliasName(n), "ch#");
    DigitsHaveNoSpace(g);
    DigitsHaveNoSpace(seqNo);
    NoSpaceConcat("unknown:", Digits(g));
    NoSpaceConcat("unknown:" + Digits(g), ":");
    NoSpaceConcat("unknown:" + Digits(g) + ":", Digits(seqNo));
    FieldsOfNoSpace(UnknownName(g, seqNo));
    LoweredPrefix(UnknownName(g, seqNo), "unknown:");
  }

  /** No two events are given the same unknown name, unless they have the same goroutine and number. */
  lemma UnknownNamesDiffer(g: nat, m: nat, h: nat, n: nat)
    requires UnknownName(g, m) == UnknownName(h, n)
    ensures g == h && m == n
  {
    var a, b, c, d := Digits(g), Digits(m), Digits(h), Digits(n);
    var s, t := a + (":" + b), c + (":" + d);
    assert UnknownName(g, m) == "unknown:" + s && UnknownName(h, n) == "unknown:" + t;
    assert UnknownName(g, m)[8..] == s && UnknownName(h, n)[8..] == t;
    assert s[|a|] == ':' && t[|c|] == ':' && s == t;
    assert forall i :: 0 <= i < |a| ==> s[i] == a[i] && IsDigit(s[i]);
    assert forall i :: 0 <= i < |c| ==> t[i] == c[i] && IsDigit(t[i]);
    assert |a| == |c|;
    assert s[..|a|] == a && t[..|c|] == c && s[|a| + 1..] == b && t[|c| + 1..] == d;
    DigitsInjective(g, h);
    DigitsInjective(m, n);
  }
}
