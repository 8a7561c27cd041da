/** Sums over the values of a map and counts over sequences. */
module Sums {

  ghost function Sum(m: map<string, nat>): nat {
    if m == map[] then 0
    else
      var k :| k in m;
      m[k] + Sum(m - {k})
  }

  lemma {:induction false} SumWithout(m: map<string, nat>, k: string)
    requires k in m
    ensures Sum(m) == m[k] + Sum(m - {k})
    decreases |m|
  {
    var j :| j in m && Sum(m) == m[j] + Sum(m - {j});
    if j == k {
    } else {
      SumWithout(m - {j}, k);
      SumWithout(m - {k}, j);
      assert m - {j} - {k} == m - {k} - {j};
    }
  }

  lemma SumUpdate(m: map<string, nat>, k: string, v: nat)
    ensures Sum(m[k := v]) == Sum(m) - (if k in m then m[k] else 0) + v
    ensures k in m ==> Sum(m - {k}) == Sum(m) - m[k]
  {
    SumWithout(m[k := v], k);
    if k in m {
      SumWithout(m, k);
      assert m[k := v] - {k} == m - {k};
    } else {
      assert m[k := v] - {k} == m;
    }
  }

  lemma TimesNext(n: nat, x: nat)
    requires n > 0
    ensures n * x == (n - 1) * x + x
  {
  }

  lemma {:induction false} SumAtMost(m: map<string, nat>, n: nat, bound: nat)
    requires |m| == n && forall k :: k in m ==> m[k] <= bound
    ensures Sum(m) <= n * bound
    decreases n
  {
    if m == map[] {
    } else {
      var k :| k in m;
      SumWithout(m, k);
      assert |m - {k}| == n - 1 by { assert (m - {k}).Keys == m.Keys - {k}; }
      SumAtMost(m - {k}, n - 1, bound);
      TimesNext(n, bound);
    }
  }

  lemma {:induction false} SumConstant(m: map<string, nat>, value: nat)
    requires forall k :: k in m ==> m[k] == value
    ensures Sum(m) == |m| * value
    decreases |m|
  {
    if m == map[] {
    } else {
      var k :| k in m;
      SumWithout(m, k);
      assert |m - {k}| == |m| - 1 by { assert (m - {k}).Keys == m.Keys - {k}; }
      SumConstant(m - {k}, value);
      TimesNext(|m|, value);
    }
  }

  function Total(s: seq<nat>): nat {
    if s == [] then 0 else Total(s[..|s| - 1]) + s[|s| - 1]
  }

  lemma TotalAppend(s: seq<nat>, x: nat)
    ensures Total(s + [x]) == Total(s) + x
  {
    assert (s + [x])[..|s|] == s;
  }

  lemma {:induction false} TotalUpdate(s: seq<nat>, i: nat, x: nat)
    requires i < |s|
    ensures Total(s[i := x]) == Total(s) - s[i] + x
  {
    if i < |s| - 1 {
      TotalUpdate(s[..|s| - 1], i, x);
      assert s[i := x][..|s| - 1] == s[..|s| - 1][i := x];
    } else {
      assert s[i := x][..|s| - 1] == s[..|s| - 1];
    }
  }

  lemma {:induction false} TotalAtMost(s: seq<nat>, bound: nat)
    requires forall i :: 0 <= i < |s| ==> s[i] <= bound
    ensures Total(s) <= |s| * bound
  {
    if s == [] {
    } else {
      TotalAtMost(s[..|s| - 1], bound);
      TimesNext(|s|, bound);
    }
  }

  /** How many elements satisfy p. */
  function CountIf(s: seq<nat>, p: nat -> bool): nat {
    if s == [] then 0 else CountIf(s[..|s| - 1], p) + (if p(s[|s| - 1]) then 1 else 0)
  }

  lemma CountIfAppend(s: seq<nat>, x: nat, p: nat -> bool)
    ensures CountIf(s + [x], p) == CountIf(s, p) + (if p(x) then 1 else 0)
  {
    assert (s + [x])[..|s|] == s;
  }

  lemma {:induction false} CountIfAll(s: seq<nat>, p: nat -> bool)
    requires forall i :: 0 <= i < |s| ==> p(s[i])
    ensures CountIf(s, p) == |s|
  {
    if s == [] {
    } else {
      CountIfAll(s[..|s| - 1], p);
    }
  }

  function UpTo(n: nat): seq<nat> {
    seq(n, i => i)
  }

  lemma {:induction false} CountOneOf(n: nat, m: nat, p: nat -> bool)
    requires forall x :: p(x) <==> x == m
    ensures CountIf(UpTo(n), p) == if m < n then 1 else 0
  {
    if n == 0 {
    } else {
      assert UpTo(n)[..n - 1] == UpTo(n - 1);
      CountOneOf(n - 1, m, p);
    }
  }
}
