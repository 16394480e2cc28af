/** The key under which the parser groups operations: a base name and an optional client index. */
module ChannelKeys {
  import opened Text
  import opened Shared

  datatype ChKey = ChKey(name: string, clientID: int)

  const MIN_INT64: int := -0x8000_0000_0000_0000
  const MAX_INT64: int := 0x7FFF_FFFF_FFFF_FFFF

  function DigitChar(d: nat): char
    requires d < 10
  {
    ('0' as int + d) as char
  }

  predicate IsDigit(c: char) { '0' <= c <= '9' }

  function Digits(n: nat): (s: string)
    ensures s != "" && forall i :: 0 <= i < |s| ==> IsDigit(s[i])
  {
    if n < 10 then [DigitChar(n)] else Digits(n / 10) + [DigitChar(n % 10)]
  }

  predicate AllDigits(s: string) {
    s != "" && forall i :: 0 <= i < |s| ==> IsDigit(s[i])
  }

  function DigitsValue(s: string): nat
    requires forall i :: 0 <= i < |s| ==> IsDigit(s[i])
  {
    if s == "" then 0
    else
      assert IsDigit(s[|s| - 1]);
      10 * DigitsValue(s[..|s| - 1]) + (s[|s| - 1] as int - '0' as int)
  }

  /** strconv.Atoi: an optional sign, then decimal digits, within 64 bits. */
  function Atoi(s: string): Option<int> {
    var signed := s != "" && (s[0] == '+' || s[0] == '-');
    var digits := if signed then s[1..] else s;
    if !AllDigits(digits) then None
    else
      var n: int := DigitsValue(digits);
      var v := if signed && s[0] == '-' then -n else n;
      if MIN_INT64 <= v <= MAX_INT64 then Some(v) else None
  }

  /** The position of the first bracket, or -1. */
  function FirstBracket(s: string): (i: int)
    ensures -1 <= i < |s|
    ensures i >= 0 ==> s[i] == '[' && '[' !in s[..i]
    ensures i < 0 ==> '[' !in s
  {
    if s == "" then -1
    else if s[0] == '[' then 0
    else
      var i := FirstBracket(s[1..]);
      assert s == [s[0]] + s[1..];
      assert i >= 0 ==> s[..i + 1] == [s[0]] + s[1..][..i];
      if i < 0 then -1 else i + 1
  }

  function ParseChKey(ch: string): ChKey {
    ParseLowered(ToLower(ch))
  }

  function ParseLowered(s: string): ChKey {
    var i := FirstBracket(s);
    if i >= 0 && s[|s| - 1] == ']' then
      match Atoi(s[i + 1..|s| - 1])
      case Some(n) => ChKey(s[..i], n)
      case None => ChKey(s, -1)
    else ChKey(s, -1)
  }

  /** The name of a key as the queues without a pointer use it. */
  function FullName(key: ChKey): string {
    if key.clientID >= 0 then key.name + "[" + Digits(key.clientID) + "]" else key.name
  }

  lemma {:induction false} DigitsRoundTrip(n: nat)
    ensures DigitsValue(Digits(n)) == n
  {
    if n >= 10 {
      DigitsRoundTrip(n / 10);
      assert Digits(n)[..|Digits(n)| - 1] == Digits(n / 10);
    } else {
      assert Digits(n)[..0] == "";
    }
  }

  lemma AtoiOfDigits(n: nat)
    requires n <= MAX_INT64
    ensures Atoi(Digits(n)) == Some(n)
  {
    DigitsRoundTrip(n);
    assert IsDigit(Digits(n)[0]);
  }

  /** Distinct numbers print differently. */
  lemma DigitsInjective(m: nat, n: nat)
    requires Digits(m) == Digits(n)
    ensures m == n
  {
    DigitsRoundTrip(m);
    DigitsRoundTrip(n);
  }

  lemma {:induction false} FirstBracketAfter(base: string, rest: string)
    requires '[' !in base
    ensures FirstBracket(base + "[" + rest) == |base|
  {
    var s := base + "[" + rest;
    if base == "" {
      assert s[0] == '[';
    } else {
      assert s[0] == base[0] && s[1..] == base[1..] + "[" + rest;
      FirstBracketAfter(base[1..], rest);
    }
  }

  lemma PrintedIndex(base: string, n: nat)
    requires '[' !in base && ToLower(base) == base && n <= MAX_INT64
    ensures ParseChKey(FullName(ChKey(base, n))) == ChKey(base, n)
  {
    var digits := Digits(n);
    var name := base + "[" + digits + "]";
    assert ToLower(name) == name;
    assert name == base + "[" + (digits + "]");
    FirstBracketAfter(base, digits + "]");
    assert name[|base| + 1..|name| - 1] == digits && name[..|base|] == base;
    AtoiOfDigits(n);
  }

  /**
   Parsing the printed name of a parsed key gives the key back, except exactly
   when the channel carried a client index below -1: that index is not printed.
   */
  lemma KeyRoundTrip(ch: string)
    ensures ParseChKey(FullName(ParseChKey(ch))) == ParseChKey(ch) <==> ParseChKey(ch).clientID >= -1
  {
    var s := ToLower(ch);
    LowerIdempotent(ch);
    var key := ParseLowered(s);
    if key.clientID >= 0 {
      PrintedIndex(key.name, key.clientID);
    } else if key != ChKey(s, -1) {
      assert ParseChKey(key.name) == ChKey(key.name, -1);
    }
  }

  /** A signed index is read within 64 bits, and not beyond. */
  lemma AtoiOfSigned(n: nat)
    ensures Atoi("+" + Digits(n)) == (if n <= MAX_INT64 then Some(n) else None)
    ensures var m: int := n; Atoi("-" + Digits(n)) == (if n <= MAX_INT64 + 1 then Some(-m) else None)
  {
    DigitsRoundTrip(n);
    assert ("+" + Digits(n))[1..] == Digits(n) && ("-" + Digits(n))[1..] == Digits(n);
  }

  lemma LowerKeepsBracket(s: string)
    requires '[' !in s
    ensures '[' !in ToLower(s)
  {
    assert forall i :: 0 <= i < |s| ==> s[i] in s;
    assert forall i :: 0 <= i < |s| ==> ToLower(s)[i] != '[';
  }

  /** A label without a bracket is its own lower-cased name. */
  lemma PlainKey(ch: string)
    requires '[' !in ch
    ensures ParseChKey(ch) == ChKey(ToLower(ch), -1) && FullName(ParseChKey(ch)) == ToLower(ch)
  {
    LowerKeepsBracket(ch);
  }

  lemma LowerIndexed(base: string, n: nat)
    ensures ToLower(base + "[" + Digits(n) + "]") == ToLower(base) + "[" + Digits(n) + "]"
  {
    var s, t := base + "[" + Digits(n) + "]", ToLower(base) + "[" + Digits(n) + "]";
    forall i | 0 <= i < |s| ensures LowerChar(s[i]) == t[i] {
      if |base| < i < |s| - 1 { assert s[i] == Digits(n)[i - |base| - 1] && IsDigit(s[i]); }
    }
  }

  /** A client index is split off. */
  lemma IndexedKey(base: string, n: nat)
    requires '[' !in base && n <= MAX_INT64
    ensures var ch := base + "[" + Digits(n) + "]";
            ParseChKey(ch) == ChKey(ToLower(base), n) && FullName(ParseChKey(ch)) == ToLower(base) + "[" + Digits(n) + "]"
  {
    LowerKeepsBracket(base);
    LowerIdempotent(base);
    LowerIndexed(base, n);
    LowerIndexed(ToLower(base), n);
    PrintedIndex(ToLower(base), n);
  }
}
