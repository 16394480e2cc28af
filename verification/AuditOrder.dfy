/** The entries of an audit, listed by channel name. */
module AuditOrder {
  datatype Line<V> = Line(channel: string, entry: V)

  /** Names are compared character by character. */
  predicate Before(a: string, b: string) {
    b != "" && (a == "" || a[0] < b[0] || (a[0] == b[0] && Before(a[1..], b[1..])))
  }

  lemma {:induction false} BeforeIsTotal(a: string, b: string)
    ensures Before(a, b) || Before(b, a) || a == b
    ensures Before(a, b) ==> !Before(b, a) && a != b
  {
    if a != "" && b != "" {
      BeforeIsTotal(a[1..], b[1..]);
      assert a == [a[0]] + a[1..] && b == [b[0]] + b[1..];
    }
  }

  lemma {:induction false} BeforeGoesOn(a: string, b: string, c: string)
    requires Before(a, b) && Before(b, c)
    ensures Before(a, c)
  {
    if a != "" && a[0] == b[0] == c[0] { BeforeGoesOn(a[1..], b[1..], c[1..]); }
  }

  /** The first difference decides: a is a proper beginning of b, or has the smaller character there. */
  lemma {:induction false} FirstDifferenceDecides(a: string, b: string)
    ensures Before(a, b) <==>
            exists k: nat :: k <= |a| && k < |b| && a[..k] == b[..k] && (k == |a| || a[k] < b[k])
  {
    if a == "" {
      assert b != "" ==> a[..0] == b[..0];
    } else if b != "" {
      FirstDifferenceDecides(a[1..], b[1..]);
      if k: nat :| k <= |a[1..]| && k < |b[1..]| && a[1..][..k] == b[1..][..k] && (k == |a[1..]| || a[1..][k] < b[1..][k]) {
        if a[0] == b[0] { assert a[..k + 1] == [a[0]] + a[1..][..k] && b[..k + 1] == [b[0]] + b[1..][..k]; }
      }
      if k: nat :| k <= |a| && k < |b| && a[..k] == b[..k] && (k == |a| || a[k] < b[k]) {
        if k > 0 {
          assert a[0] == a[..k][0] && b[0] == b[..k][0];
          assert a[1..][..k - 1] == a[..k][1..] && b[1..][..k - 1] == b[..k][1..];
        }
      }
      assert a[..0] == b[..0];
    }
  }

  ghost predicate Ascending(keys: seq<string>) {
    forall i, j :: 0 <= i < j < |keys| ==> Before(keys[i], keys[j])
  }

  function InsertKey(keys: seq<string>, k: string): (r: seq<string>)
    ensures forall x :: x in r <==> x in keys || x == k
  {
    if keys == [] then [k] else if Before(k, keys[0]) then [k] + keys else [keys[0]] + InsertKey(keys[1..], k)
  }

  lemma {:induction false} InsertAscends(keys: seq<string>, k: string)
    requires Ascending(keys) && k !in keys
    ensures Ascending(InsertKey(keys, k))
  {
    if keys != [] {
      BeforeIsTotal(keys[0], k);
      if Before(k, keys[0]) {
        forall i | 1 <= i < |keys| ensures Before(k, keys[i]) {
          BeforeGoesOn(k, keys[0], keys[i]);
        }
      } else {
        InsertAscends(keys[1..], k);
        var rest := InsertKey(keys[1..], k);
        assert forall i :: 0 <= i < |rest| ==> rest[i] in rest;
        assert forall x :: x in keys[1..] ==> Before(keys[0], x);
      }
    }
  }

  /** Stands for the library sort of the names, which are read in any order. */
  method SortedKeys<V>(m: map<string, V>) returns (keys: seq<string>)
    ensures Ascending(keys) && forall k :: k in keys <==> k in m
  {
    keys := [];
    var left := m.Keys;
    while left != {}
      invariant left <= m.Keys && Ascending(keys)
      invariant forall k :: k in keys <==> k in m && k !in left
    {
      var k :| k in left;
      InsertAscends(keys, k);
      keys, left := InsertKey(keys, k), left - {k};
    }
  }

  ghost function Channels<V>(lines: seq<Line<V>>): seq<string> {
    seq(|lines|, i requires 0 <= i < |lines| => lines[i].channel)
  }

  /** The lines are those of the entries, by name. */
  ghost predicate Listing<V>(m: map<string, V>, lines: seq<Line<V>>) {
    && Ascending(Channels(lines))
    && (forall k :: k in Channels(lines) <==> k in m)
    && forall i :: 0 <= i < |lines| ==> lines[i].channel in m && lines[i].entry == m[lines[i].channel]
  }

  method ListEntries<V>(m: map<string, V>) returns (lines: seq<Line<V>>)
    ensures Listing(m, lines)
  {
    var keys := SortedKeys(m);
    lines := [];
    for i := 0 to |keys|
      invariant Channels(lines) == keys[..i]
      invariant forall j :: 0 <= j < i ==> lines[j] == Line(keys[j], m[keys[j]])
    {
      assert keys[i] in m;
      lines := lines + [Line(keys[i], m[keys[i]])];
    }
    assert keys[..|keys|] == keys;
  }

  lemma {:induction false} SameKeys(a: seq<string>, b: seq<string>)
    requires Ascending(a) && Ascending(b) && forall x :: x in a <==> x in b
    ensures a == b
  {
    if a != [] {
      assert a[0] in b && b[0] in a;
      BeforeIsTotal(a[0], b[0]);
      assert a[0] == b[0];
      FirstOnce(a);
      FirstOnce(b);
      SameKeys(a[1..], b[1..]);
      assert a == [a[0]] + a[1..] && b == [b[0]] + b[1..];
    }
    HasFirst(b);
  }

  lemma HasFirst(keys: seq<string>)
    ensures keys != [] ==> exists k :: k in keys
  {
    if keys != [] { assert keys[0] in keys; }
  }

  lemma FirstOnce(keys: seq<string>)
    requires Ascending(keys) && keys != []
    ensures forall x :: x in keys[1..] <==> x in keys && x != keys[0]
  {
    forall i | 1 <= i < |keys| ensures keys[i] != keys[0] {
      BeforeIsTotal(keys[0], keys[i]);
    }
  }

  /** In whatever order the entries are read, the same lines are listed. */
  lemma ListingIsUnique<V>(m: map<string, V>, a: seq<Line<V>>, b: seq<Line<V>>)
    requires Listing(m, a) && Listing(m, b)
    ensures a == b
  {
    SameKeys(Channels(a), Channels(b));
    forall i | 0 <= i < |a| ensures a[i] == b[i] {
      assert Channels(a)[i] == Channels(b)[i];
    }
  }
}
