/**
  The metrics registry (internal/primitives/obs/metrics.go:36-99, 164-179): a map from strings
  that encode a metric's name and labels.
 */
module Metrics {
  import opened Ordering

  type Labels = map<string, string>

  datatype Pair = Pair(key: string, value: string)

  function Text(p: Pair): string {
    "|" + p.key + "=" + p.value
  }

  function Texts(ps: seq<Pair>): string {
    if ps == [] then [] else Text(ps[0]) + Texts(ps[1..])
  }

  ghost function Pairs(labels: Labels): seq<Pair> {
    var keys := Sorted(labels.Keys);
    seq(|keys|, i requires 0 <= i < |keys| => assert keys[i] in Elements(keys); Pair(keys[i], labels[keys[i]]))
  }

  ghost function MetricKey(name: string, labels: Labels): string {
    name + Texts(Pairs(labels))
  }

  lemma {:induction false} TextsAppend(ps: seq<Pair>, p: Pair)
    ensures Texts(ps + [p]) == Texts(ps) + Text(p)
  {
    if ps == [] {
      assert ps + [p] == [p] && [p][1..] == [];
    } else {
      assert (ps + [p])[1..] == ps[1..] + [p];
      TextsAppend(ps[1..], p);
    }
  }

  /** The key written up to the i-th label, and one label further. */
  lemma KeyGrows(name: string, labels: Labels, i: nat, b: string)
    requires i < |Pairs(labels)| && b == name + Texts(Pairs(labels)[..i])
    ensures b + Text(Pairs(labels)[i]) == name + Texts(Pairs(labels)[..i + 1])
  {
    var ps := Pairs(labels);
    assert ps[..i + 1] == ps[..i] + [ps[i]];
    TextsAppend(ps[..i], ps[i]);
  }

  lemma PairAt(labels: Labels, i: nat)
    requires i < |Sorted(labels.Keys)|
    ensures var k := Sorted(labels.Keys)[i]; k in labels && Pairs(labels)[i] == Pair(k, labels[k])
  {
    assert Sorted(labels.Keys)[i] in Elements(Sorted(labels.Keys));
  }

  /** Whatever order the labels are walked in, they are sorted before being written. */
  method BuildKey(name: string, labels: Labels) returns (b: string)
    ensures b == MetricKey(name, labels)
  {
    var walked := WalkKeys(labels);
    var keys := SortKeys(walked);
    ghost var ps := Pairs(labels);
    b := name;
    assert ps[..0] == [];
    for i := 0 to |keys|
      invariant b == name + Texts(ps[..i])
    {
      PairAt(labels, i);
      KeyGrows(name, labels, i, b);
      b := b + ("|" + keys[i] + "=" + labels[keys[i]]);
    }
    assert ps[..|keys|] == ps;
  }

  // ---------- injectivity ----------

  /** Name without '|', keys without '|' or '=', values without '|'. */
  predicate Clean(name: string, labels: Labels) {
    '|' !in name && forall k :: k in labels ==> '|' !in k && '=' !in k && '|' !in labels[k]
  }

  predicate CleanPairs(ps: seq<Pair>) {
    forall i :: 0 <= i < |ps| ==> '|' !in ps[i].key && '=' !in ps[i].key && '|' !in ps[i].value
  }

  /** Two texts cut at their first c. */
  lemma {:induction false} CutAt(a: string, x: string, b: string, y: string, c: char)
    requires c !in a && c !in b && a + x == b + y
    requires (x == [] || x[0] == c) && (y == [] || y[0] == c)
    ensures a == b && x == y
    decreases |a|
  {
    assert if a == [] then a + x == x else (a + x)[0] == a[0] && a[0] in a;
    assert if b == [] then b + y == y else (b + y)[0] == b[0] && b[0] in b;
    if a == [] || b == [] {
    } else {
      assert (a + x)[1..] == a[1..] + x && (b + y)[1..] == b[1..] + y;
      CutAt(a[1..], x, b[1..], y, c);
      assert a == [a[0]] + a[1..] && b == [b[0]] + b[1..];
    }
  }

  lemma TextsStart(ps: seq<Pair>)
    ensures Texts(ps) == [] <==> ps == []
    ensures ps != [] ==> Texts(ps)[0] == '|'
  {
  }

  lemma TextTail(p: Pair, x: string)
    ensures (Text(p) + x)[1..] == p.key + ("=" + (p.value + x))
  {
  }

  lemma FirstPair(p: Pair, x: string, q: Pair, y: string)
    requires CleanPairs([p]) && CleanPairs([q]) && Text(p) + x == Text(q) + y
    requires (x == [] || x[0] == '|') && (y == [] || y[0] == '|')
    ensures p == q && x == y
  {
    assert [p][0] == p && [q][0] == q;
    TextTail(p, x);
    TextTail(q, y);
    CutAt(p.key, "=" + (p.value + x), q.key, "=" + (q.value + y), '=');
    assert ("=" + (p.value + x))[1..] == p.value + x && ("=" + (q.value + y))[1..] == q.value + y;
    CutAt(p.value, x, q.value, y, '|');
  }

  lemma {:induction false} TextsInjective(ps: seq<Pair>, qs: seq<Pair>)
    requires CleanPairs(ps) && CleanPairs(qs) && Texts(ps) == Texts(qs)
    ensures ps == qs
    decreases |ps|
  {
    TextsStart(ps);
    TextsStart(qs);
    if ps == [] {
    } else {
      TextsStart(ps[1..]);
      TextsStart(qs[1..]);
      FirstPair(ps[0], Texts(ps[1..]), qs[0], Texts(qs[1..]));
      TextsInjective(ps[1..], qs[1..]);
      assert ps == [ps[0]] + ps[1..] && qs == [qs[0]] + qs[1..];
    }
  }

  lemma PairsOf(labels: Labels, k: string)
    ensures k in labels <==> exists i :: 0 <= i < |Pairs(labels)| && Pairs(labels)[i].key == k
    ensures forall i :: 0 <= i < |Pairs(labels)| ==>
      Pairs(labels)[i].key in labels && labels[Pairs(labels)[i].key] == Pairs(labels)[i].value
  {
    var keys := Sorted(labels.Keys);
    assert forall i :: 0 <= i < |keys| ==> keys[i] in Elements(keys) && Pairs(labels)[i].key == keys[i];
    if k in labels {
      assert k in Elements(keys);
      var i :| 0 <= i < |keys| && keys[i] == k;
      assert Pairs(labels)[i].key == k;
    }
  }

  lemma PairsInjective(a: Labels, b: Labels)
    requires Pairs(a) == Pairs(b)
    ensures a == b
  {
    forall k ensures k in a <==> k in b {
      PairsOf(a, k);
      PairsOf(b, k);
    }
    forall k | k in a ensures a[k] == b[k] {
      PairsOf(a, k);
      PairsOf(b, k);
    }
  }

  /** Distinct clean metrics have distinct keys. */
  lemma MetricKeyInjective(name: string, labels: Labels, name': string, labels': Labels)
    requires Clean(name, labels) && Clean(name', labels')
    requires MetricKey(name, labels) == MetricKey(name', labels')
    ensures name == name' && labels == labels'
  {
    TextsStart(Pairs(labels));
    TextsStart(Pairs(labels'));
    CutAt(name, Texts(Pairs(labels)), name', Texts(Pairs(labels')), '|');
    PairsOf(labels, "");
    PairsOf(labels', "");
    TextsInjective(Pairs(labels), Pairs(labels'));
    PairsInjective(labels, labels');
  }

  // ---------- collisions ----------

  lemma KeyWithoutLabels(name: string)
    ensures MetricKey(name, map[]) == name
  {
    assert Pairs(map[]) == [];
  }

  lemma KeyOfOne(name: string, key: string, value: string)
    ensures MetricKey(name, map[key := value]) == name + Text(Pair(key, value))
  {
    var labels: Labels := map[key := value];
    assert labels.Keys == {key};
    AscendingIsUnique(Sorted(labels.Keys), [key]);
    assert Pairs(labels) == [Pair(key, value)];
    TextsOfOne(Pair(key, value));
  }

  lemma TextsOfOne(p: Pair)
    ensures Texts([p]) == Text(p)
  {
    assert [p][1..] == [];
  }

  lemma TextsOfTwo(p: Pair, q: Pair)
    ensures Texts([p, q]) == Text(p) + Text(q)
  {
    assert [p, q][1..] == [q];
    TextsOfOne(q);
  }

  lemma PairsOfTwo(a: string, x: string, b: string, y: string)
    requires Less(a, b)
    ensures Pairs(map[a := x, b := y]) == [Pair(a, x), Pair(b, y)]
  {
    var labels: Labels := map[a := x, b := y];
    assert labels.Keys == {a, b};
    LessAsymmetric(a, b);
    AscendingIsUnique(Sorted(labels.Keys), [a, b]);
  }

  lemma KeyOfTwo(name: string, a: string, x: string, b: string, y: string)
    requires Less(a, b)
    ensures MetricKey(name, map[a := x, b := y]) == name + (Text(Pair(a, x)) + Text(Pair(b, y)))
  {
    PairsOfTwo(a, x, b, y);
    TextsOfTwo(Pair(a, x), Pair(b, y));
  }

  lemma TextExtends(key: string, value: string, more: string)
    ensures Text(Pair(key, value + more)) == Text(Pair(key, value)) + more
  {
  }

  /** A name that looks like a label collides with that label. */
  lemma UncleanNamesCollide(name: string, key: string, value: string)
    ensures MetricKey(name + Text(Pair(key, value)), map[]) == MetricKey(name, map[key := value])
  {
    KeyWithoutLabels(name + Text(Pair(key, value)));
    KeyOfOne(name, key, value);
  }

  /** A label key with an '=' collides with one whose value has it. */
  lemma UncleanLabelsCollide(name: string, key: string, x: string, value: string)
    ensures MetricKey(name, map[key + "=" + x := value]) == MetricKey(name, map[key := x + "=" + value])
    ensures key + "=" + x != key
  {
    KeyOfOne(name, key + "=" + x, value);
    KeyOfOne(name, key, x + "=" + value);
    assert Text(Pair(key + "=" + x, value)) == Text(Pair(key, x + "=" + value));
    assert |key + "=" + x| > |key|;
  }

  /** A value that looks as if a further label followed it collides with those two labels. */
  lemma UncleanValuesCollide(name: string, a: string, x: string, b: string, y: string)
    requires Less(a, b)
    ensures MetricKey(name, map[a := x + Text(Pair(b, y))]) == MetricKey(name, map[a := x, b := y])
  {
    KeyOfOne(name, a, x + Text(Pair(b, y)));
    KeyOfTwo(name, a, x, b, y);
    TextExtends(a, x, Text(Pair(b, y)));
  }

  /** The name has an '=' after a '|'. */
  predicate LooksLabelled(name: string) {
    exists i, j :: 0 <= i < j < |name| && name[i] == '|' && name[j] == '='
  }

  /** Another metric has the same key. */
  ghost predicate Shares(name: string, labels: Labels, name': string, labels': Labels) {
    (name != name' || labels != labels') && MetricKey(name, labels) == MetricKey(name', labels')
  }

  lemma LooksLabelledShares(name: string) returns (name': string, labels: Labels)
    requires LooksLabelled(name)
    ensures Shares(name, map[], name', labels)
  {
    var i, j :| 0 <= i < j < |name| && name[i] == '|' && name[j] == '=';
    var key, value := name[i + 1..j], name[j + 1..];
    name', labels := name[..i], map[key := value];
    assert name == name' + Text(Pair(key, value));
    assert |name'| < |name|;
    UncleanNamesCollide(name', key, value);
  }

  lemma SharedLooksLabelled(name: string, name': string, labels: Labels)
    requires Shares(name, map[], name', labels)
    ensures LooksLabelled(name)
  {
    KeyWithoutLabels(name);
    KeyWithoutLabels(name');
    var ps := Pairs(labels);
    if ps == [] {
      assert Pairs(map[]) == [];
      PairsInjective(labels, map[]);
    } else {
      var i, j := |name'|, |name'| + 1 + |ps[0].key|;
      var text := Text(ps[0]);
      assert name == name' + (text + Texts(ps[1..]));
      assert text[0] == '|' && text[1 + |ps[0].key|] == '=';
      assert name[i] == '|' && name[j] == '=';
    }
  }

  /** A metric without labels shares its key with some other metric if and only if its name has an '=' after a '|'. */
  lemma UnlabelledSharesIff(name: string)
    ensures (exists name', labels :: Shares(name, map[], name', labels)) <==> LooksLabelled(name)
  {
    if LooksLabelled(name) {
      var name', labels := LooksLabelledShares(name);
    } else if name', labels :| Shares(name, map[], name', labels) {
      SharedLooksLabelled(name, name', labels);
    }
  }

  // ---------- the registry ----------

  datatype Metric = Metric(name: string, labels: Labels, value: real)

  type Registry = map<string, Metric>

  ghost function Put(reg: Registry, name: string, v: real, labels: Labels): Registry {
    var key := MetricKey(name, labels);
    reg[key := if key in reg then reg[key].(value := v) else Metric(name, labels, v)]
  }

  ghost function Value(reg: Registry, name: string, labels: Labels): real {
    var key := MetricKey(name, labels);
    if key in reg then reg[key].value else 0.0
  }

  datatype Op = Set(name: string, labels: Labels, v: real) | Add(name: string, labels: Labels, v: real)

  ghost function Apply(reg: Registry, op: Op): Registry {
    match op
    case Set(n, l, v) => Put(reg, n, v, l)
    case Add(n, l, d) => Put(reg, n, Value(reg, n, l) + d, l)
  }

  ghost function ApplyAll(ops: seq<Op>): Registry {
    if ops == [] then map[] else Apply(ApplyAll(ops[..|ops| - 1]), ops[|ops| - 1])
  }

  /** The plain map that the registry stands for. */
  datatype Series = Series(name: string, labels: Labels)

  function Ideal(ops: seq<Op>): map<Series, real> {
    if ops == [] then map[]
    else
      var m, op := Ideal(ops[..|ops| - 1]), ops[|ops| - 1];
      var s := Series(op.name, op.labels);
      match op
      case Set(_, _, v) => m[s := v]
      case Add(_, _, d) => m[s := (if s in m then m[s] else 0.0) + d]
  }

  function At(m: map<Series, real>, s: Series): real {
    if s in m then m[s] else 0.0
  }

  lemma PutOthers(reg: Registry, n: string, v: real, l: Labels, name: string, labels: Labels)
    requires Clean(n, l) && Clean(name, labels)
    ensures Value(Put(reg, n, v, l), name, labels) ==
      if name == n && labels == l then v else Value(reg, name, labels)
  {
    if MetricKey(n, l) == MetricKey(name, labels) { MetricKeyInjective(n, l, name, labels); }
  }

  /** Every run of Set and Add on clean metrics is a run on a map keyed by name and labels. */
  lemma {:induction false} RegistryRefinesMap(ops: seq<Op>, name: string, labels: Labels)
    requires forall i :: 0 <= i < |ops| ==> Clean(ops[i].name, ops[i].labels)
    requires Clean(name, labels)
    ensures Value(ApplyAll(ops), name, labels) == At(Ideal(ops), Series(name, labels))
  {
    if ops == [] {
    } else {
      var init, op := ops[..|ops| - 1], ops[|ops| - 1];
      RegistryRefinesMap(init, name, labels);
      RegistryRefinesMap(init, op.name, op.labels);
      var v := if op.Set? then op.v else Value(ApplyAll(init), op.name, op.labels) + op.v;
      PutOthers(ApplyAll(init), op.name, v, op.labels, name, labels);
    }
  }

  ghost predicate OwnName(reg: Registry, name: string, labels: Labels) {
    var key := MetricKey(name, labels);
    key in reg ==> reg[key].name == name && reg[key].labels == labels
  }

  predicate Named(ops: seq<Op>, name: string, labels: Labels) {
    if ops == [] then false
    else
      var op := ops[|ops| - 1];
      (op.name == name && op.labels == labels) || Named(ops[..|ops| - 1], name, labels)
  }

  lemma PutKeepsNames(reg: Registry, n: string, v: real, l: Labels, name: string, labels: Labels)
    requires Clean(n, l) && Clean(name, labels)
    requires OwnName(reg, name, labels)
    ensures OwnName(Put(reg, n, v, l), name, labels)
    ensures MetricKey(name, labels) in Put(reg, n, v, l) <==>
            MetricKey(name, labels) in reg || (n == name && l == labels)
  {
    if MetricKey(n, l) == MetricKey(name, labels) { MetricKeyInjective(n, l, name, labels); }
  }

  lemma {:induction false} NamesAreKept(ops: seq<Op>, name: string, labels: Labels)
    requires forall i :: 0 <= i < |ops| ==> Clean(ops[i].name, ops[i].labels)
    requires Clean(name, labels)
    ensures OwnName(ApplyAll(ops), name, labels)
    ensures MetricKey(name, labels) in ApplyAll(ops) <==> Named(ops, name, labels)
  {
    if ops == [] {
    } else {
      var init, op := ops[..|ops| - 1], ops[|ops| - 1];
      NamesAreKept(init, name, labels);
      var reg := ApplyAll(init);
      var v := if op.Set? then op.v else Value(reg, op.name, op.labels) + op.v;
      PutKeepsNames(reg, op.name, v, op.labels, name, labels);
    }
  }

  lemma {:induction false} NamedIff(ops: seq<Op>, name: string, labels: Labels)
    ensures Named(ops, name, labels) <==> exists i :: 0 <= i < |ops| && ops[i].name == name && ops[i].labels == labels
  {
    if ops == [] {
    } else {
      var n := |ops| - 1;
      NamedIff(ops[..n], name, labels);
      assert forall i :: 0 <= i < n ==> ops[..n][i] == ops[i];
    }
  }

  /**
   * After any operations on clean metrics, a metric is registered if and only if one of them named it, and then under
   * its own name and labels, by which rules and readers find it.
   */
  lemma StoredUnderItsName(ops: seq<Op>, name: string, labels: Labels)
    requires forall i :: 0 <= i < |ops| ==> Clean(ops[i].name, ops[i].labels)
    requires Clean(name, labels)
    ensures OwnName(ApplyAll(ops), name, labels)
    ensures MetricKey(name, labels) in ApplyAll(ops) <==>
            exists i :: 0 <= i < |ops| && ops[i].name == name && ops[i].labels == labels
  {
    NamesAreKept(ops, name, labels);
    NamedIff(ops, name, labels);
  }

  class Metrics {
    var mets: Registry

    constructor ()
      ensures mets == map[]
    {
      mets := map[];
    }

    method SetValue(name: string, v: real, labels: Labels)
      modifies this
      ensures mets == Apply(old(mets), Set(name, labels, v))
    {
      var key := BuildKey(name, labels);
      if key !in mets {
        mets := mets[key := Metric(name, labels, v)];
        return;
      }
      mets := mets[key := mets[key].(value := v)];
    }

    method Get(name: string, labels: Labels) returns (v: real)
      ensures v == Value(mets, name, labels)
    {
      var key := BuildKey(name, labels);
      if key !in mets { return 0.0; }
      return mets[key].value;
    }

    method AddValue(name: string, delta: real, labels: Labels)
      modifies this
      ensures mets == Apply(old(mets), Add(name, labels, delta))
    {
      var v := Get(name, labels);
      SetValue(name, v + delta, labels);
    }
  }
}
