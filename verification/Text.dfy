/** The string operations the trace parser uses. Letters are lowered in ASCII only. */
module Text {

  predicate IsSpace(c: char) {
    || '\t' <= c <= '\r' || c == ' ' || c == '\U{85}' || c == '\U{A0}' || c == '\U{1680}'
    || '\U{2000}' <= c <= '\U{200A}' || c == '\U{2028}' || c == '\U{2029}' || c == '\U{202F}'
    || c == '\U{205F}' || c == '\U{3000}'
  }

  ghost predicate NoSpace(s: string) {
    forall i :: 0 <= i < |s| ==> !IsSpace(s[i])
  }

  function LowerChar(c: char): char {
    if 'A' <= c <= 'Z' then (c as int + 32) as char else c
  }

  function ToLower(s: string): (l: string)
    ensures |l| == |s| && forall i :: 0 <= i < |s| ==> l[i] == LowerChar(s[i])
  {
    seq(|s|, i requires 0 <= i < |s| => LowerChar(s[i]))
  }

  predicate HasPrefix(s: string, p: string) {
    p <= s
  }

  predicate OccursAt(s: string, p: string, i: int) {
    0 <= i && i + |p| <= |s| && s[i..i + |p|] == p
  }

  /** The last position of p in s, or -1. */
  function LastIndex(s: string, p: string): (i: int)
    ensures -1 <= i && (i >= 0 ==> i + |p| <= |s|)
  {
    LastIndexUpTo(s, p, |s| - |p|)
  }

  function LastIndexUpTo(s: string, p: string, k: int): (i: int)
    requires k <= |s| - |p|
    ensures -1 <= i && (i >= 0 ==> i + |p| <= |s|)
    decreases k + 1
  {
    if k < 0 then -1 else if s[k..k + |p|] == p then k else LastIndexUpTo(s, p, k - 1)
  }

  lemma {:induction false} LastIndexUpToMeans(s: string, p: string, k: int)
    requires k <= |s| - |p|
    ensures var i := LastIndexUpTo(s, p, k);
            (i >= 0 ==> OccursAt(s, p, i)) && forall j :: OccursAt(s, p, j) && j <= k ==> j <= i
    decreases k + 1
  {
    if k >= 0 { LastIndexUpToMeans(s, p, k - 1); }
  }

  lemma LastIndexMeans(s: string, p: string)
    ensures var i := LastIndex(s, p);
            (i >= 0 ==> OccursAt(s, p, i)) && forall j :: OccursAt(s, p, j) ==> j <= i
  {
    LastIndexUpToMeans(s, p, |s| - |p|);
  }

  predicate Contains(s: string, p: string) {
    LastIndex(s, p) >= 0
  }

  function TrimLeft(s: string): string {
    if s != "" && IsSpace(s[0]) then TrimLeft(s[1..]) else s
  }

  function TrimRight(s: string): string {
    if s != "" && IsSpace(s[|s| - 1]) then TrimRight(s[..|s| - 1]) else s
  }

  function TrimSpace(s: string): string {
    TrimRight(TrimLeft(s))
  }

  /** The length of the first run of non-space characters. */
  function WordLength(s: string): (n: nat)
    ensures n <= |s| && NoSpace(s[..n]) && (n < |s| ==> IsSpace(s[n]))
  {
    if s == "" || IsSpace(s[0]) then 0
    else
      var n := WordLength(s[1..]);
      assert s[..n + 1] == [s[0]] + s[1..][..n];
      n + 1
  }

  /** The maximal space-free words of s, in order. */
  function Fields(s: string): (f: seq<string>)
    ensures forall i :: 0 <= i < |f| ==> f[i] != "" && NoSpace(f[i])
    decreases |s|
  {
    if s == "" then []
    else if IsSpace(s[0]) then Fields(s[1..])
    else [s[..WordLength(s)]] + Fields(s[WordLength(s)..])
  }

  // ----- space-free text -----

  lemma {:induction false} WordOfNoSpace(s: string, rest: string)
    requires NoSpace(s) && (rest == "" || IsSpace(rest[0]))
    ensures WordLength(s + rest) == |s|
  {
    if s == "" {
      assert s + rest == rest;
    } else {
      assert (s + rest)[1..] == s[1..] + rest;
      WordOfNoSpace(s[1..], rest);
    }
  }

  lemma FieldsOfNoSpace(s: string)
    requires NoSpace(s) && s != ""
    ensures Fields(s) == [s] && TrimSpace(s) == s
  {
    WordOfNoSpace(s, "");
    assert s + "" == s && s[..|s|] == s && s[|s|..] == "";
  }

  lemma FieldsOfTwo(a: string, b: string)
    requires NoSpace(a) && NoSpace(b) && a != "" && b != ""
    ensures Fields(a + " " + b) == [a, b]
  {
    var s := a + " " + b;
    assert s == a + (" " + b);
    WordOfNoSpace(a, " " + b);
    assert s[..|a|] == a && s[|a|..] == " " + b && (" " + b)[1..] == b;
    FieldsOfNoSpace(b);
  }

  lemma {:induction false} TrimHasWord(s: string)
    requires TrimSpace(s) != ""
    ensures Fields(TrimSpace(s)) != []
  {
    TrimLeftStart(s);
    TrimRightStart(TrimLeft(s));
  }

  lemma {:induction false} TrimLeftStart(s: string)
    ensures TrimLeft(s) != "" ==> !IsSpace(TrimLeft(s)[0])
    decreases |s|
  {
    if s != "" && IsSpace(s[0]) { TrimLeftStart(s[1..]); }
  }

  lemma {:induction false} TrimRightStart(s: string)
    ensures TrimRight(s) != "" ==> TrimRight(s)[0] == s[0]
    decreases |s|
  {
    if s != "" && IsSpace(s[|s| - 1]) { TrimRightStart(s[..|s| - 1]); }
  }

  lemma LowerIdempotent(s: string)
    ensures ToLower(ToLower(s)) == ToLower(s)
  {
  }

  lemma LettersAreLowered()
    ensures ToLower("ABCDEFGHIJKLMNOPQRSTUVWXYZ") == "abcdefghijklmnopqrstuvwxyz"
    ensures forall s: string :: (forall i :: 0 <= i < |s| ==> !('A' <= s[i] <= 'Z')) ==> ToLower(s) == s
  {
  }
}
