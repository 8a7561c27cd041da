/** Byte-wise string order and sorted key lists, as Go's `sort` package produces them. */
module Ordering {

  predicate Less(a: string, b: string) {
    b != [] && (a == [] || a[0] < b[0] || (a[0] == b[0] && Less(a[1..], b[1..])))
  }

  /** The order of strings: at the first difference the smaller character, or the shorter string, comes first. */
  lemma {:induction false} LessIff(a: string, b: string)
    ensures Less(a, b) <==>
      exists i :: 0 <= i <= |a| && i < |b| && a[..i] == b[..i] && (i == |a| || a[i] < b[i])
    decreases |a|
  {
    if a == [] || b == [] || a[0] != b[0] {
      assert a[..0] == b[..0];
      assert forall i :: 0 < i <= |a| && i < |b| ==> a[..i][0] == a[0] && b[..i][0] == b[0];
    } else {
      LessIff(a[1..], b[1..]);
      var x, y := a[1..], b[1..];
      if i :| 0 <= i <= |x| && i < |y| && x[..i] == y[..i] && (i == |x| || x[i] < y[i]) {
        assert a[..i + 1] == [a[0]] + a[1..][..i] && b[..i + 1] == [b[0]] + b[1..][..i];
        assert a[..i + 1] == b[..i + 1];
      }
      if i :| 0 <= i <= |a| && i < |b| && a[..i] == b[..i] && (i == |a| || a[i] < b[i]) {
        assert a[1..][..i - 1] == a[..i][1..] && b[1..][..i - 1] == b[..i][1..];
      }
    }
  }

  lemma {:induction false} LessTransitive(a: string, b: string, c: string)
    requires Less(a, b) && Less(b, c)
    ensures Less(a, c)
  {
    if a == [] || a[0] < b[0] || b[0] < c[0] {
    } else {
      LessTransitive(a[1..], b[1..], c[1..]);
    }
  }

  lemma {:induction false} LessTotal(a: string, b: string)
    ensures a == b || Less(a, b) || Less(b, a)
  {
    if a == [] || b == [] || a[0] != b[0] {
    } else {
      LessTotal(a[1..], b[1..]);
      assert a == [a[0]] + a[1..] && b == [b[0]] + b[1..];
    }
  }

  lemma {:induction false} LessAsymmetric(a: string, b: string)
    requires Less(a, b)
    ensures a != b && !Less(b, a)
  {
    if a == [] || a[0] < b[0] {
    } else {
      LessAsymmetric(a[1..], b[1..]);
    }
  }

  ghost predicate Ascending(keys: seq<string>) {
    forall i, j :: 0 <= i < j < |keys| ==> Less(keys[i], keys[j])
  }

  function Elements<T>(s: seq<T>): set<T> {
    set x | x in s
  }

  /** Insertion into an ascending list. */
  function Insert(k: string, keys: seq<string>): (r: seq<string>) {
    if keys == [] then [k]
    else if Less(k, keys[0]) then [k] + keys
    else [keys[0]] + Insert(k, keys[1..])
  }

  lemma {:induction false} InsertKeepsAscending(k: string, keys: seq<string>)
    requires Ascending(keys) && k !in keys
    ensures Ascending(Insert(k, keys)) && Elements(Insert(k, keys)) == Elements(keys) + {k}
  {
    var r := Insert(k, keys);
    if keys == [] {
    } else if Less(k, keys[0]) {
      forall j | 0 < j < |r| ensures Less(r[0], r[j]) {
        if j > 1 { LessTransitive(k, keys[0], keys[j - 1]); }
      }
      assert forall i, j :: 0 < i < j < |r| ==> Less(r[i], r[j]);
    } else {
      LessTotal(k, keys[0]);
      var rest := Insert(k, keys[1..]);
      InsertKeepsAscending(k, keys[1..]);
      forall j | 0 < j < |r| ensures Less(r[0], r[j]) {
        assert r[j] == rest[j - 1] && r[j] in Elements(rest);
        if r[j] != k {
          var m :| 0 <= m < |keys[1..]| && keys[1..][m] == r[j];
          assert keys[m + 1] == r[j];
        }
      }
      forall i, j | 0 < i < j < |r| ensures Less(r[i], r[j]) {
        assert Less(rest[i - 1], rest[j - 1]);
      }
      assert Elements(r) == {keys[0]} + Elements(rest);
      assert Elements(keys) == {keys[0]} + Elements(keys[1..]);
    }
  }

  /** The ascending list of a set's members. */
  ghost function Sorted(s: set<string>): (r: seq<string>)
    ensures Ascending(r) && Elements(r) == s
  {
    if s == {} then []
    else
      var k :| k in s;
      InsertKeepsAscending(k, Sorted(s - {k}));
      Insert(k, Sorted(s - {k}))
  }

  lemma NonEmptyElements(a: seq<string>)
    requires a != []
    ensures Elements(a) != {}
  {
    assert a[0] in Elements(a);
  }

  /** There is only one: the order in which a map or set was walked cannot show. */
  lemma {:induction false} AscendingIsUnique(a: seq<string>, b: seq<string>)
    requires Ascending(a) && Ascending(b) && Elements(a) == Elements(b)
    ensures a == b
    decreases |a|
  {
    if a == [] {
      if b != [] { NonEmptyElements(b); }
    } else {
      assert a[0] in Elements(b);
      var j :| 0 <= j < |b| && b[j] == a[0];
      assert b[0] in Elements(a);
      var i :| 0 <= i < |a| && a[i] == b[0];
      if i > 0 && j > 0 {
        LessAsymmetric(a[0], a[i]);
      } else {
        assert a[0] == b[0];
      }
      TailElements(a);
      TailElements(b);
      AscendingIsUnique(a[1..], b[1..]);
      assert a == [a[0]] + a[1..] && b == [b[0]] + b[1..];
    }
  }

  lemma TailElements(a: seq<string>)
    requires Ascending(a) && a != []
    ensures Ascending(a[1..]) && Elements(a[1..]) == Elements(a) - {a[0]}
  {
    forall j | 0 < j < |a| ensures a[j] != a[0] { LessAsymmetric(a[0], a[j]); }
    assert forall x :: x in a[1..] ==> x in a;
    forall x | x in Elements(a) - {a[0]} ensures x in a[1..] {
      var j :| 0 <= j < |a| && a[j] == x;
      assert a[1..][j - 1] == x;
    }
    forall i, j | 0 <= i < j < |a[1..]| ensures Less(a[1..][i], a[1..][j]) {
      assert Less(a[i + 1], a[j + 1]);
    }
  }

  /** Sorts distinct keys. */
  method SortKeys(keys: seq<string>) returns (r: seq<string>)
    requires forall i, j :: 0 <= i < j < |keys| ==> keys[i] != keys[j]
    ensures r == Sorted(Elements(keys))
  {
    r := [];
    for i := 0 to |keys|
      invariant Ascending(r) && Elements(r) == Elements(keys[..i])
    {
      assert keys[..i + 1] == keys[..i] + [keys[i]];
      assert keys[i] !in keys[..i];
      assert keys[i] !in Elements(r);
      InsertKeepsAscending(keys[i], r);
      r := Insert(keys[i], r);
    }
    assert keys[..|keys|] == keys;
    AscendingIsUnique(r, Sorted(Elements(keys)));
  }

  /** The keys of a map, in the arbitrary order in which Go walks it. */
  method WalkKeys<T>(m: map<string, T>) returns (keys: seq<string>)
    ensures Elements(keys) == m.Keys
    ensures forall i, j :: 0 <= i < j < |keys| ==> keys[i] != keys[j]
  {
    keys := [];
    var rest := m.Keys;
    while rest != {}
      invariant rest <= m.Keys && Elements(keys) == m.Keys - rest
      invariant forall i, j :: 0 <= i < j < |keys| ==> keys[i] != keys[j]
      decreases |rest|
    {
      var k :| k in rest;
      assert k !in Elements(keys);
      assert Elements(keys + [k]) == Elements(keys) + {k};
      keys := keys + [k];
      rest := rest - {k};
    }
  }

  predicate HasPrefix(s: string, p: string) {
    |p| <= |s| && s[..|p|] == p
  }

  lemma HasPrefixIff(s: string, p: string)
    ensures HasPrefix(s, p) <==> exists rest :: s == p + rest
  {
    if HasPrefix(s, p) { assert s == p + s[|p|..]; }
  }

  /** The keys that start with a prefix. */
  method SelectKeys(all: seq<string>, prefix: string) returns (keys: seq<string>)
    requires forall i, j :: 0 <= i < j < |all| ==> all[i] != all[j]
    ensures Elements(keys) == set k | k in all && HasPrefix(k, prefix)
    ensures forall i, j :: 0 <= i < j < |keys| ==> keys[i] != keys[j]
  {
    keys := [];
    for i := 0 to |all|
      invariant forall k :: k in keys <==> k in all[..i] && HasPrefix(k, prefix)
      invariant forall a, b :: 0 <= a < b < |keys| ==> keys[a] != keys[b]
    {
      assert all[..i + 1] == all[..i] + [all[i]];
      assert all[i] !in all[..i];
      if HasPrefix(all[i], prefix) {
        assert all[i] !in keys;
        keys := keys + [all[i]];
      }
    }
    assert all[..|all|] == all;
  }
}
