/**
  Alert rules (internal/primitives/obs/alerts.go): what a rule reads off the metrics, and the
  pending / firing / resolved state of each rule.  Values are reals; the number scanner is a parameter.
 */
module Alerts {
  import opened Prelude
  import opened Expressions

  /** 0 is Go's zero time. */
  type Time = int

  datatype Rule = Rule(id: string, expression: string, hold: int)

  datatype AlertState = AlertState(rule: Rule, firing: bool, pendingSince: Time, lastEvaluated: Time, lastValue: real)

  datatype Metric = Metric(name: string, value: real)

  // ---------- one rule ----------

  /** Outcome of looking the metric up: missing, or present and matching the threshold or not. */
  datatype Look = Missing | Found(matches: bool)

  datatype Notice = Firing | Resolved

  /** One evaluation of a rule with the given hold time, on the state kept under its ID. */
  function Observe(st: AlertState, hold: int, now: Time, look: Look): AlertState {
    match look
    case Missing => st
    case Found(true) =>
      if st.firing then st
      else if st.pendingSince == 0 then st.(pendingSince := now)
      else if now - st.pendingSince >= hold then st.(firing := true)
      else st
    case Found(false) => st.(firing := false, pendingSince := 0)
  }

  function NoticeOf(st: AlertState, hold: int, now: Time, look: Look): Option<Notice> {
    var next := Observe(st, hold, now, look);
    if next.firing && !st.firing then Some(Firing)
    else if st.firing && !next.firing then Some(Resolved)
    else None
  }

  datatype Eval = Eval(now: Time, look: Look)

  function Fresh(r: Rule): AlertState {
    AlertState(r, false, 0, 0, 0.0)
  }

  /** The state after a history of evaluations. */
  function After(r: Rule, h: seq<Eval>): AlertState {
    if h == [] then Fresh(r) else Observe(After(r, h[..|h| - 1]), r.hold, h[|h| - 1].now, h[|h| - 1].look)
  }

  function Notices(r: Rule, h: seq<Eval>): seq<Notice> {
    if h == [] then []
    else
      var init, e := h[..|h| - 1], h[|h| - 1];
      match NoticeOf(After(r, init), r.hold, e.now, e.look)
      case None => Notices(r, init)
      case Some(n) => Notices(r, init) + [n]
  }

  predicate Alternate(ns: seq<Notice>) {
    forall i :: 0 <= i < |ns| ==> ns[i] == if i % 2 == 0 then Firing else Resolved
  }

  lemma {:induction false} NoticesAlternate(r: Rule, h: seq<Eval>)
    ensures Alternate(Notices(r, h)) && (After(r, h).firing <==> |Notices(r, h)| % 2 == 1)
  {
    if h == [] {
    } else {
      NoticesAlternate(r, h[..|h| - 1]);
    }
  }

  /** Evaluation i found the metric over its threshold and none since failed to. */
  predicate Holding(h: seq<Eval>, i: nat) {
    i < |h| && h[i].look == Found(true) &&
    forall k :: i < k < |h| ==> h[k].look != Found(false)
  }

  predicate Clocked(h: seq<Eval>) {
    (forall i :: 0 <= i < |h| ==> h[i].now != 0) &&
    (forall i, j :: 0 <= i < j < |h| ==> h[i].now <= h[j].now)
  }

  /** The rule has been matching, evaluation after evaluation, for at least its hold time. */
  ghost predicate HeldLongEnough(r: Rule, h: seq<Eval>) {
    exists i: nat, j: nat :: i < j && Holding(h, i) && Holding(h, j) && h[j].now - h[i].now >= r.hold
  }

  /** pendingSince is the first evaluation of the present run of matches. */
  ghost predicate PendingIsFirst(r: Rule, h: seq<Eval>) {
    var since := After(r, h).pendingSince;
    && (since != 0 <==> exists i: nat :: Holding(h, i))
    && (since != 0 ==> exists i: nat :: Holding(h, i) && h[i].now == since && forall k: nat :: Holding(h, k) ==> i <= k)
  }

  lemma HoldingExtends(h: seq<Eval>, i: nat)
    requires h != []
    ensures var init, last := h[..|h| - 1], h[|h| - 1];
      Holding(h, i) <==> if i == |h| - 1 then last.look == Found(true)
                         else Holding(init, i) && last.look != Found(false)
  {
    var init := h[..|h| - 1];
    if i < |h| - 1 && Holding(init, i) && h[|h| - 1].look != Found(false) {
      forall k | i < k < |h| ensures h[k].look != Found(false) {
        if k < |h| - 1 { assert init[k] == h[k]; }
      }
    }
  }

  lemma {:induction false} PendingRun(r: Rule, h: seq<Eval>)
    requires Clocked(h)
    ensures PendingIsFirst(r, h)
  {
    if h == [] {
    } else {
      var init, last := h[..|h| - 1], h[|h| - 1];
      PendingRun(r, init);
      forall i: nat { HoldingExtends(h, i); }
      var was, since := After(r, init).pendingSince, After(r, h).pendingSince;
      if last.look != Found(false) && was != 0 {
        var i: nat :| Holding(init, i) && init[i].now == was && forall k: nat :: Holding(init, k) ==> i <= k;
        assert Holding(h, i) && h[i].now == since;
      } else if last.look == Found(true) {
        FiringIsPending(r, init);
        assert Holding(h, |h| - 1) && since == last.now;
        assert forall k: nat :: Holding(h, k) ==> |h| - 1 <= k;
      }
    }
  }

  lemma {:induction false} FiringIsPending(r: Rule, h: seq<Eval>)
    ensures After(r, h).firing ==> After(r, h).pendingSince != 0
    ensures After(r, h).rule == r
  {
    if h == [] {
    } else {
      FiringIsPending(r, h[..|h| - 1]);
    }
  }

  lemma HeldExtends(r: Rule, h: seq<Eval>)
    requires h != [] && h[|h| - 1].look != Found(false) && HeldLongEnough(r, h[..|h| - 1])
    ensures HeldLongEnough(r, h)
  {
    var init := h[..|h| - 1];
    var i: nat, j: nat :| i < j && Holding(init, i) && Holding(init, j) && init[j].now - init[i].now >= r.hold;
    HoldingExtends(h, i);
    HoldingExtends(h, j);
  }

  lemma HeldShrinks(r: Rule, h: seq<Eval>)
    requires h != [] && HeldLongEnough(r, h)
    ensures h[|h| - 1].look != Found(false)
    ensures HeldLongEnough(r, h[..|h| - 1]) ||
      (h[|h| - 1].look == Found(true) &&
       exists i: nat :: Holding(h[..|h| - 1], i) && h[|h| - 1].now - h[i].now >= r.hold)
  {
    var i: nat, j: nat :| i < j && Holding(h, i) && Holding(h, j) && h[j].now - h[i].now >= r.hold;
    HoldingExtends(h, i);
    HoldingExtends(h, j);
  }

  lemma HoldStarts(r: Rule, h: seq<Eval>)
    requires Clocked(h) && h != [] && h[|h| - 1].look == Found(true) && !After(r, h[..|h| - 1]).firing
    requires exists i: nat :: Holding(h[..|h| - 1], i) && h[|h| - 1].now - h[i].now >= r.hold
    ensures After(r, h).firing
  {
    var init, last := h[..|h| - 1], h[|h| - 1];
    PendingRun(r, init);
    FiringIsPending(r, init);
    var i: nat :| Holding(init, i) && last.now - h[i].now >= r.hold;
    var first: nat :| Holding(init, first) && init[first].now == After(r, init).pendingSince &&
      forall k: nat :: Holding(init, k) ==> first <= k;
    assert h[first].now <= h[i].now;
  }

  /**
    Over every history with proper times: the rule is firing if and only if it has matched at two
    evaluations at least its hold time apart and at every evaluation since that found the metric.
   */
  lemma {:induction false} FiringIff(r: Rule, h: seq<Eval>)
    requires Clocked(h)
    ensures After(r, h).firing <==> HeldLongEnough(r, h)
  {
    if h == [] {
    } else {
      var init, last := h[..|h| - 1], h[|h| - 1];
      FiringIff(r, init);
      PendingRun(r, init);
      FiringIsPending(r, init);
      if After(r, h).firing {
        if After(r, init).firing {
          HeldExtends(r, h);
        } else {
          FiringStarts(r, h);
        }
      }
      if HeldLongEnough(r, h) {
        HeldShrinks(r, h);
        if !After(r, init).firing { HoldStarts(r, h); }
      }
    }
  }

  lemma FiringStarts(r: Rule, h: seq<Eval>)
    requires Clocked(h) && h != []
    requires After(r, h).firing && !After(r, h[..|h| - 1]).firing
    ensures HeldLongEnough(r, h)
    ensures exists i: nat :: Holding(h, i) && i < |h| - 1 && h[i].now <= h[|h| - 1].now - r.hold
  {
    var init := h[..|h| - 1];
    PendingRun(r, init);
    FiringIsPending(r, init);
    var i: nat :| Holding(init, i) && init[i].now == After(r, init).pendingSince;
    HoldingExtends(h, i);
    HoldingExtends(h, |h| - 1);
    assert Holding(h, i) && Holding(h, |h| - 1);
  }

  /** A firing notice at t: some s <= t - hold matched, and nothing found in (s, t] failed to match. */
  lemma FiringNoticeIsEarned(r: Rule, h: seq<Eval>, e: Eval)
    requires Clocked(h + [e]) && NoticeOf(After(r, h), r.hold, e.now, e.look) == Some(Firing)
    ensures exists i: nat :: Holding(h, i) && h[i].now <= e.now - r.hold
    ensures e.look == Found(true)
  {
    var all := h + [e];
    assert all[..|all| - 1] == h;
    FiringStarts(r, all);
    var i: nat :| Holding(all, i) && i < |all| - 1 && all[i].now <= e.now - r.hold;
    HoldingExtends(all, i);
  }

  // ---------- all rules ----------

  function CompareOp(op: string, v: real, t: real): bool {
    if op == ">" then v > t
    else if op == "<" then v < t
    else if op == ">=" then v >= t
    else if op == "<=" then v <= t
    else if op == "==" then v == t
    else if op == "!=" then v != t
    else false
  }

  /** Sum over all label sets of a metric, and whether there was any. */
  function SumFor(name: string, mets: seq<Metric>): (real, bool) {
    if mets == [] then (0.0, false)
    else
      var (sum, found) := SumFor(name, mets[..|mets| - 1]);
      var m := mets[|mets| - 1];
      if m.name == name then (sum + m.value, true) else (sum, found)
  }

  lemma {:induction false} SumAppend(name: string, a: seq<Metric>, b: seq<Metric>)
    ensures SumFor(name, a + b).0 == SumFor(name, a).0 + SumFor(name, b).0
    ensures SumFor(name, a + b).1 == (SumFor(name, a).1 || SumFor(name, b).1)
    decreases |b|
  {
    if b == [] {
      assert a + b == a;
    } else {
      assert (a + b)[..|a + b| - 1] == a + b[..|b| - 1];
      SumAppend(name, a, b[..|b| - 1]);
    }
  }

  lemma SumAround(name: string, left: seq<Metric>, m: Metric, right: seq<Metric>)
    ensures SumFor(name, left + ([m] + right)) == SumFor(name, (left + right) + [m])
  {
    SumAppend(name, left, [m] + right);
    SumAppend(name, [m], right);
    SumAppend(name, left + right, [m]);
    SumAppend(name, left, right);
  }

  lemma TakeOut(ms: seq<Metric>, m: Metric) returns (left: seq<Metric>, right: seq<Metric>)
    requires m in multiset(ms)
    ensures ms == left + ([m] + right) && multiset(left + right) == multiset(ms) - multiset{m}
  {
    var k :| 0 <= k < |ms| && ms[k] == m;
    left, right := ms[..k], ms[k + 1..];
    assert ms == left + ([m] + right);
  }

  lemma SumSnoc(name: string, a: seq<Metric>, b: seq<Metric>, m: Metric)
    requires SumFor(name, a) == SumFor(name, b)
    ensures SumFor(name, a + [m]) == SumFor(name, b + [m])
  {
    SumAppend(name, a, [m]);
    SumAppend(name, b, [m]);
  }

  /** The order in which a snapshot lists the metrics does not matter. */
  lemma {:induction false} SumInAnyOrder(name: string, a: seq<Metric>, b: seq<Metric>)
    requires multiset(a) == multiset(b)
    ensures SumFor(name, a) == SumFor(name, b)
    decreases |a|
  {
    if a == [] {
      assert |b| == |multiset(b)| == |multiset(a)| == 0;
      assert b == [];
    } else {
      var init, m := a[..|a| - 1], a[|a| - 1];
      assert a == init + [m];
      var left, right := TakeOut(b, m);
      SumInAnyOrder(name, init, left + right);
      SumSnoc(name, init, left + right, m);
      SumAround(name, left, m, right);
    }
  }

  method SumMetric(name: string, mets: seq<Metric>) returns (sum: real, found: bool)
    ensures (sum, found) == SumFor(name, mets)
    ensures found <==> exists i :: 0 <= i < |mets| && mets[i].name == name
  {
    sum, found := 0.0, false;
    for i := 0 to |mets|
      invariant (sum, found) == SumFor(name, mets[..i])
      invariant found <==> exists k :: 0 <= k < i && mets[k].name == name
    {
      assert mets[..i + 1][..i] == mets[..i];
      if mets[i].name == name {
        sum := sum + mets[i].value;
        found := true;
      }
    }
    assert mets[..|mets|] == mets;
  }

  /** What an evaluation reads off the metrics: the outcome, and the sum. */
  datatype Sample = Sample(look: Look, value: real)

  function LookUp(p: Option<Parsed>, mets: seq<Metric>): Sample {
    match p
    case None => Sample(Missing, 0.0)
    case Some(e) =>
      var (v, found) := SumFor(e.name, mets);
      Sample(if found then Found(CompareOp(e.op, v, e.threshold)) else Missing, v)
  }

  /** A rule's expression read against a snapshot of the metrics. */
  function SampleOf(r: Rule, mets: seq<Metric>, parse: string -> Option<real>): Sample {
    LookUp(SplitExpr(r.expression, parse), mets)
  }

  method TakeSample(r: Rule, mets: seq<Metric>, parse: string -> Option<real>) returns (s: Sample)
    ensures s == SampleOf(r, mets, parse)
  {
    var p := TakeApart(r.expression, parse);
    if p.None? { return Sample(Missing, 0.0); }
    var v, found := SumMetric(p.value.name, mets);
    if !found { return Sample(Missing, v); }
    return Sample(Found(CompareOp(p.value.op, v, p.value.threshold)), v);
  }

  predicate Measured(name: string, mets: seq<Metric>) {
    exists i :: 0 <= i < |mets| && mets[i].name == name
  }

  lemma {:induction false} FoundIff(name: string, mets: seq<Metric>)
    ensures SumFor(name, mets).1 <==> Measured(name, mets)
  {
    if mets == [] {
    } else {
      var init := mets[..|mets| - 1];
      FoundIff(name, init);
      assert forall i :: 0 <= i < |init| ==> mets[i] == init[i];
    }
  }

  /**
    A rule "name op value" compares the sum over all label sets of the metric with the value, and
    is skipped when no metric has exactly that name.
   */
  lemma {:induction false} RuleReadsItsMetric(r: Rule, name: string, op: string, value: string, mets: seq<Metric>,
                                              parse: string -> Option<real>)
    requires Scannable(name) && Plain(value) && Trimmed(name) && Trimmed(value)
    requires op in [">", "<", ">=", "<=", "==", "!="]
    requires parse(value).Some? && r.expression == Format(name, op, value)
    ensures var (s, v, t) := (SampleOf(r, mets, parse), Sum(ValuesOf(name, mets)), parse(value).value);
      && s.value == v
      && (s.look == Missing <==> !Measured(name, mets))
      && (s.look.Found? && op == ">" ==> (s.look.matches <==> v > t))
      && (s.look.Found? && op == "<" ==> (s.look.matches <==> v < t))
      && (s.look.Found? && op == ">=" ==> (s.look.matches <==> v >= t))
      && (s.look.Found? && op == "<=" ==> (s.look.matches <==> v <= t))
      && (s.look.Found? && op == "==" ==> (s.look.matches <==> v == t))
      && (s.look.Found? && op == "!=" ==> (s.look.matches <==> v != t))
  {
    var n := OpIndex(op);
    SplitUndoesFormat(name, n, value, parse);
    FoundIff(name, mets);
    SumForIsSum(name, mets);
    CompareOpMeans(op, Sum(ValuesOf(name, mets)), parse(value).value);
  }

  lemma OpIndex(op: string) returns (n: nat)
    requires op in [">", "<", ">=", "<=", "==", "!="]
    ensures n < |OPS| && OPS[n] == op
  {
    n := if op == ">=" then 0 else if op == "<=" then 1 else if op == "==" then 2 else
         if op == "!=" then 3 else if op == ">" then 4 else 5;
  }

  lemma CompareOpMeans(op: string, v: real, t: real)
    ensures op == ">" ==> (CompareOp(op, v, t) <==> v > t)
    ensures op == "<" ==> (CompareOp(op, v, t) <==> v < t)
    ensures op == ">=" ==> (CompareOp(op, v, t) <==> v >= t)
    ensures op == "<=" ==> (CompareOp(op, v, t) <==> v <= t)
    ensures op == "==" ==> (CompareOp(op, v, t) <==> v == t)
    ensures op == "!=" ==> (CompareOp(op, v, t) <==> v != t)
  {
  }

  lemma {:induction false} NoOperatorNoSplit(e: string, ops: seq<string>, parse: string -> Option<real>)
    requires forall i :: 0 <= i < |ops| ==> ops[i] != []
    requires forall i, k: nat :: 0 <= i < |ops| ==> !OpAt(e, ops[i], k)
    ensures SplitWith(e, ops, parse) == None
    decreases |ops|
  {
    if ops == [] {
    } else {
      IndexOutsideIsFirst(e, ops[0], 0);
      NoOperatorNoSplit(e, ops[1..], parse);
    }
  }

  /** A rule without an operator outside label blocks is skipped, and leaves 0 as the value read. */
  lemma RuleWithoutOperatorIsSkipped(r: Rule, mets: seq<Metric>, parse: string -> Option<real>)
    requires forall op, k: nat :: op in OPS ==> !OpAt(r.expression, op, k)
    ensures SampleOf(r, mets, parse) == Sample(Missing, 0.0)
  {
    NoOperatorNoSplit(r.expression, OPS, parse);
  }

  /** So is one whose value is not a number. */
  lemma {:induction false} RuleWithoutNumberIsSkipped(r: Rule, name: string, op: string, value: string,
                                                      mets: seq<Metric>, parse: string -> Option<real>)
    requires Scannable(name) && Plain(value) && Trimmed(name) && Trimmed(value)
    requires op in [">", "<", ">=", "<=", "==", "!="]
    requires parse(value) == None && r.expression == Format(name, op, value)
    ensures SampleOf(r, mets, parse) == Sample(Missing, 0.0)
  {
    var n := OpIndex(op);
    SplitFailsOnFormat(name, n, value, parse);
  }

  /** The values of the metrics of a name. */
  function ValuesOf(name: string, mets: seq<Metric>): seq<real> {
    if mets == [] then []
    else (if mets[0].name == name then [mets[0].value] else []) + ValuesOf(name, mets[1..])
  }

  function Sum(values: seq<real>): real {
    if values == [] then 0.0 else values[0] + Sum(values[1..])
  }

  lemma {:induction false} SumForIsSum(name: string, mets: seq<Metric>)
    ensures SumFor(name, mets).0 == Sum(ValuesOf(name, mets))
    decreases |mets|
  {
    if mets == [] {
    } else {
      var head, tail := mets[0], mets[1..];
      SumForIsSum(name, tail);
      assert mets == [head] + tail;
      SumAppend(name, [head], tail);
      SumForOne(name, head);
      if head.name == name {
        assert ValuesOf(name, mets)[1..] == ValuesOf(name, tail);
      } else {
        assert ValuesOf(name, mets) == ValuesOf(name, tail);
      }
    }
  }

  lemma SumForOne(name: string, m: Metric)
    ensures SumFor(name, [m]).0 == if m.name == name then m.value else 0.0
  {
    assert [m][..0] == [];
  }

  /**
    The documented form with a label block does not select by labels: the rule is skipped unless
    some metric's name is, letter for letter, the metric with the block.
   */
  lemma LabelledRuleIsSkippedIff(r: Rule, base: string, labels: string, name: string, op: string, value: string,
                                 mets: seq<Metric>, parse: string -> Option<real>)
    requires Plain(base) && '}' !in labels && name == base + ("{" + labels + "}") && (base == [] || !IsSpace(base[0]))
    requires Plain(value) && Trimmed(value) && op in [">", "<", ">=", "<=", "==", "!="]
    requires parse(value).Some? && r.expression == Format(name, op, value)
    ensures SampleOf(r, mets, parse).look == Missing <==> !Measured(name, mets)
  {
    LabelledIsScannable(base, labels);
    RuleReadsItsMetric(r, name, op, value, mets, parse);
  }

  // ---------- the evaluator ----------

  function Step(st: AlertState, hold: int, now: Time, s: Sample): AlertState {
    Observe(st.(lastValue := s.value, lastEvaluated := now), hold, now, s.look)
  }

  /** Every rule has a state; two rules may share one by having the same ID. */
  predicate Known(rules: seq<Rule>, state: map<string, AlertState>) {
    forall i :: 0 <= i < |rules| ==> rules[i].id in state
  }

  /** The states after the first n rules have had their turn. */
  function PassTo(rules: seq<Rule>, was: map<string, AlertState>, now: Time, ss: seq<Sample>, n: nat)
    : (state: map<string, AlertState>)
    requires n <= |rules| == |ss| && Known(rules, was)
    ensures state.Keys == was.Keys
  {
    if n == 0 then was
    else
      var state, r := PassTo(rules, was, now, ss, n - 1), rules[n - 1];
      state[r.id := Step(state[r.id], r.hold, now, ss[n - 1])]
  }

  /** What a rule whose turn it is adds to the list of newly firing, or of newly resolved, alerts. */
  function Report(st: AlertState, hold: int, now: Time, s: Sample, kind: Notice): seq<AlertState> {
    if NoticeOf(st, hold, now, s.look) != Some(kind) then []
    else if kind.Firing? then [Step(st, hold, now, s)]
    else [st.(lastValue := s.value, lastEvaluated := now)]
  }

  /** The list after the first n rules, each of which finds the given state. */
  function Reported(rules: seq<Rule>, found: seq<AlertState>, now: Time, ss: seq<Sample>, n: nat, kind: Notice)
    : seq<AlertState>
    requires n <= |rules| == |ss| == |found|
  {
    if n == 0 then []
    else Reported(rules, found, now, ss, n - 1, kind) + Report(found[n - 1], rules[n - 1].hold, now, ss[n - 1], kind)
  }

  /** The state each rule finds when its turn comes. */
  ghost function FoundIn(rules: seq<Rule>, was: map<string, AlertState>, now: Time, ss: seq<Sample>): seq<AlertState>
    requires |rules| == |ss| && Known(rules, was)
  {
    seq(|rules|, k requires 0 <= k < |rules| => PassTo(rules, was, now, ss, k)[rules[k].id])
  }

  /** Where a pass stands after the first n rules. */
  ghost predicate IsPassTo(rules: seq<Rule>, was: map<string, AlertState>, now: Time, ss: seq<Sample>, n: nat,
                           state: map<string, AlertState>, firing: seq<AlertState>, resolved: seq<AlertState>)
    requires n <= |rules| == |ss| && Known(rules, was)
  {
    var found := FoundIn(rules, was, now, ss);
    && state == PassTo(rules, was, now, ss, n)
    && firing == Reported(rules, found, now, ss, n, Notice.Firing)
    && resolved == Reported(rules, found, now, ss, n, Resolved)
  }

  /** The outcome of a pass over all rules. */
  ghost predicate IsPass(rules: seq<Rule>, was: map<string, AlertState>, now: Time, ss: seq<Sample>,
                         state: map<string, AlertState>, firing: seq<AlertState>, resolved: seq<AlertState>)
    requires |rules| == |ss| && Known(rules, was)
  {
    IsPassTo(rules, was, now, ss, |rules|, state, firing, resolved)
  }

  lemma TurnKeepsPass(rules: seq<Rule>, was: map<string, AlertState>, now: Time, ss: seq<Sample>, n: nat,
                      state: map<string, AlertState>, firing: seq<AlertState>, resolved: seq<AlertState>)
    requires n < |rules| == |ss| && Known(rules, was) && IsPassTo(rules, was, now, ss, n, state, firing, resolved)
    ensures rules[n].id in state
    ensures var st, hold := state[rules[n].id], rules[n].hold;
      IsPassTo(rules, was, now, ss, n + 1, state[rules[n].id := Step(st, hold, now, ss[n])],
               firing + Report(st, hold, now, ss[n], Notice.Firing),
               resolved + Report(st, hold, now, ss[n], Resolved))
  {
    assert FoundIn(rules, was, now, ss)[n] == state[rules[n].id];
  }

  /** One rule's turn: its new state, and what it adds to the two lists. */
  method Advance(st0: AlertState, hold: int, now: Time, s: Sample)
    returns (st: AlertState, firing: seq<AlertState>, resolved: seq<AlertState>)
    ensures st == Step(st0, hold, now, s)
    ensures firing == Report(st0, hold, now, s, Notice.Firing)
    ensures resolved == Report(st0, hold, now, s, Resolved)
  {
    st, firing, resolved := st0.(lastValue := s.value, lastEvaluated := now), [], [];
    if s.look.Missing? { return; }
    if s.look.matches {
      if !st.firing {
        if st.pendingSince == 0 {
          st := st.(pendingSince := now);
        } else if now - st.pendingSince >= hold {
          st := st.(firing := true);
          firing := [st];
        }
      }
    } else {
      if st.firing { resolved := [st]; }
      st := st.(firing := false, pendingSince := 0);
    }
  }

  /** The loop over the rules, each of which updates the state kept under its ID. */
  method EvaluateRules(rules: seq<Rule>, was: map<string, AlertState>, now: Time, ss: seq<Sample>)
    returns (state: map<string, AlertState>, firing: seq<AlertState>, resolved: seq<AlertState>)
    requires |rules| == |ss| && Known(rules, was)
    ensures IsPass(rules, was, now, ss, state, firing, resolved)
  {
    state, firing, resolved := was, [], [];
    for n := 0 to |rules|
      invariant IsPassTo(rules, was, now, ss, n, state, firing, resolved)
    {
      TurnKeepsPass(rules, was, now, ss, n, state, firing, resolved);
      var r := rules[n];
      var st, up, down := Advance(state[r.id], r.hold, now, ss[n]);
      firing, resolved := firing + up, resolved + down;
      state := state[r.id := st];
    }
  }

  // ---------- rules with IDs of their own ----------

  predicate DistinctRules(rules: seq<Rule>) {
    forall i, j :: 0 <= i < j < |rules| ==> rules[i].id != rules[j].id
  }

  /** Rules do not disturb each other: each takes one step of its own, in whatever order. */
  lemma {:induction false} PassStepsEachOnce(rules: seq<Rule>, was: map<string, AlertState>, now: Time, ss: seq<Sample>,
                                             n: nat, i: nat)
    requires n <= |rules| == |ss| && Known(rules, was) && DistinctRules(rules) && i < |rules|
    ensures PassTo(rules, was, now, ss, n)[rules[i].id] ==
      if i < n then Step(was[rules[i].id], rules[i].hold, now, ss[i]) else was[rules[i].id]
    decreases n
  {
    if n == 0 {
    } else {
      PassStepsEachOnce(rules, was, now, ss, n - 1, i);
    }
  }

  /** After a pass every rule's state shows the sample it was given and the time. */
  lemma PassRecordsSamples(rules: seq<Rule>, was: map<string, AlertState>, now: Time, ss: seq<Sample>, i: nat)
    requires |rules| == |ss| && Known(rules, was) && DistinctRules(rules) && i < |rules|
    ensures var st := PassTo(rules, was, now, ss, |rules|)[rules[i].id];
      st.lastValue == ss[i].value && st.lastEvaluated == now && st.rule == was[rules[i].id].rule
  {
    PassStepsEachOnce(rules, was, now, ss, |rules|, i);
  }

  /** The state is rule i's, as of this pass, and marked as firing. */
  predicate IsCopyOf(st: AlertState, found: AlertState, now: Time, s: Sample) {
    st.firing && st.rule == found.rule && st.lastEvaluated == now && st.lastValue == s.value
  }

  /**
    Both lists hold copies of this pass's states that are marked as firing: of a resolved alert the
    copy is taken before the mark is cleared.
   */
  lemma {:induction false} ReportsAreMarkedFiring(rules: seq<Rule>, found: seq<AlertState>, now: Time, ss: seq<Sample>,
                                                  n: nat, kind: Notice, k: nat)
    requires n <= |rules| == |ss| == |found| && k < |Reported(rules, found, now, ss, n, kind)|
    ensures exists i :: 0 <= i < n && IsCopyOf(Reported(rules, found, now, ss, n, kind)[k], found[i], now, ss[i])
    decreases n
  {
    var before := Reported(rules, found, now, ss, n - 1, kind);
    if k < |before| {
      ReportsAreMarkedFiring(rules, found, now, ss, n - 1, kind, k);
    } else {
      ReportIsCopy(found[n - 1], rules[n - 1].hold, now, ss[n - 1], kind);
      assert IsCopyOf(Reported(rules, found, now, ss, n, kind)[k], found[n - 1], now, ss[n - 1]);
    }
  }

  lemma ReportIsCopy(st: AlertState, hold: int, now: Time, s: Sample, kind: Notice)
    ensures |Report(st, hold, now, s, kind)| <= 1
    ensures Report(st, hold, now, s, kind) != [] ==> IsCopyOf(Report(st, hold, now, s, kind)[0], st, now, s)
  {
  }

  /** How often an alert list names a rule. */
  function Named(list: seq<AlertState>, id: string): nat {
    if list == [] then 0
    else Named(list[..|list| - 1], id) + (if list[|list| - 1].rule.id == id then 1 else 0)
  }

  lemma {:induction false} NamedAppend(a: seq<AlertState>, b: seq<AlertState>, id: string)
    ensures Named(a + b, id) == Named(a, id) + Named(b, id)
    decreases |b|
  {
    if b == [] {
      assert a + b == a;
    } else {
      assert (a + b)[..|a + b| - 1] == a + b[..|b| - 1];
      NamedAppend(a, b[..|b| - 1], id);
    }
  }

  /** The first n of a number of lists, one after the other. */
  function Concat(lists: seq<seq<AlertState>>, n: nat): seq<AlertState>
    requires n <= |lists|
  {
    if n == 0 then [] else Concat(lists, n - 1) + lists[n - 1]
  }

  lemma {:induction false} NamedConcat(lists: seq<seq<AlertState>>, n: nat, i: nat, id: string)
    requires n <= |lists| && i < |lists|
    requires forall k :: 0 <= k < |lists| && k != i ==> Named(lists[k], id) == 0
    ensures Named(Concat(lists, n), id) == if i < n then Named(lists[i], id) else 0
    decreases n
  {
    if n == 0 {
    } else {
      NamedConcat(lists, n - 1, i, id);
      NamedAppend(Concat(lists, n - 1), lists[n - 1], id);
    }
  }

  lemma NamedReport(st: AlertState, hold: int, now: Time, s: Sample, kind: Notice, id: string)
    ensures Named(Report(st, hold, now, s, kind), id) ==
      if st.rule.id == id && NoticeOf(st, hold, now, s.look) == Some(kind) then 1 else 0
  {
    var list := Report(st, hold, now, s, kind);
    if list != [] { assert list[..0] == []; }
  }

  /** States are filed under their own rule's ID. */
  predicate Filed(state: map<string, AlertState>) {
    forall id :: id in state ==> state[id].rule.id == id
  }

  lemma {:induction false} PassKeepsFiled(rules: seq<Rule>, was: map<string, AlertState>, now: Time,
                                          ss: seq<Sample>, n: nat)
    requires n <= |rules| == |ss| && Known(rules, was) && Filed(was)
    ensures Filed(PassTo(rules, was, now, ss, n))
    decreases n
  {
    if n == 0 {
    } else {
      PassKeepsFiled(rules, was, now, ss, n - 1);
    }
  }

  lemma {:induction false} ReportedIsConcat(rules: seq<Rule>, found: seq<AlertState>, now: Time, ss: seq<Sample>,
                                            n: nat, kind: Notice, lists: seq<seq<AlertState>>)
    requires n <= |rules| == |ss| == |found| == |lists|
    requires forall k :: 0 <= k < |rules| ==> lists[k] == Report(found[k], rules[k].hold, now, ss[k], kind)
    ensures Reported(rules, found, now, ss, n, kind) == Concat(lists, n)
    decreases n
  {
    if n == 0 {
    } else {
      ReportedIsConcat(rules, found, now, ss, n - 1, kind, lists);
    }
  }

  /** A pass names a rule in a list once if the rule's own step calls for it, and else not at all. */
  lemma {:induction false} NamedIff(rules: seq<Rule>, found: seq<AlertState>, now: Time, ss: seq<Sample>,
                                    i: nat, kind: Notice)
    requires |rules| == |ss| == |found| && i < |rules| && DistinctRules(rules)
    requires forall k :: 0 <= k < |rules| ==> found[k].rule.id == rules[k].id
    ensures Named(Reported(rules, found, now, ss, |rules|, kind), rules[i].id) ==
      if NoticeOf(found[i], rules[i].hold, now, ss[i].look) == Some(kind) then 1 else 0
  {
    var lists := seq(|rules|, k requires 0 <= k < |rules| => Report(found[k], rules[k].hold, now, ss[k], kind));
    ReportedIsConcat(rules, found, now, ss, |rules|, kind, lists);
    forall k | 0 <= k < |rules| && k != i ensures Named(lists[k], rules[i].id) == 0 {
      NamedReport(found[k], rules[k].hold, now, ss[k], kind, rules[i].id);
    }
    NamedConcat(lists, |rules|, i, rules[i].id);
    NamedReport(found[i], rules[i].hold, now, ss[i], kind, rules[i].id);
  }

  function Times(n: Notice, k: nat): seq<Notice> {
    if k == 0 then [] else Times(n, k - 1) + [n]
  }

  /** The notices that a pass's two lists hold for a rule. */
  function Heard(firing: seq<AlertState>, resolved: seq<AlertState>, id: string): seq<Notice> {
    Times(Notice.Firing, Named(firing, id)) + Times(Resolved, Named(resolved, id))
  }

  function Core(st: AlertState): AlertState {
    st.(lastValue := 0.0, lastEvaluated := 0)
  }

  /** A rule's state and the notices given for it are those its history leads to. */
  predicate InStep(r: Rule, st: AlertState, h: seq<Eval>, told: seq<Notice>) {
    Core(st) == After(r, h) && told == Notices(r, h)
  }

  lemma InStepNext(r: Rule, st: AlertState, h: seq<Eval>, told: seq<Notice>, now: Time, s: Sample, heard: seq<Notice>)
    requires InStep(r, st, h, told)
    requires heard == match NoticeOf(st, r.hold, now, s.look) case None => [] case Some(n) => [n]
    ensures InStep(r, Step(st, r.hold, now, s), h + [Eval(now, s.look)], told + heard)
  {
    assert (h + [Eval(now, s.look)])[..|h|] == h;
  }

  lemma HeardIs(firing: seq<AlertState>, resolved: seq<AlertState>, id: string, notice: Option<Notice>)
    requires Named(firing, id) == if notice == Some(Notice.Firing) then 1 else 0
    requires Named(resolved, id) == if notice == Some(Resolved) then 1 else 0
    ensures Heard(firing, resolved, id) == match notice case None => [] case Some(n) => [n]
  {
    assert Times(Notice.Firing, 0) == [] && Times(Resolved, 0) == [];
    assert Times(Notice.Firing, 1) == [Notice.Firing] && Times(Resolved, 1) == [Resolved];
    match notice
    case None => assert Heard(firing, resolved, id) == [];
    case Some(Firing) => assert Heard(firing, resolved, id) == [Notice.Firing];
    case Some(Resolved) => assert Heard(firing, resolved, id) == [Resolved];
  }

  lemma DistinctFind(rules: seq<Rule>, was: map<string, AlertState>, now: Time, ss: seq<Sample>,
                     found: seq<AlertState>, k: nat)
    requires |rules| == |ss| && Known(rules, was) && found == FoundIn(rules, was, now, ss) && DistinctRules(rules)
    requires k < |rules|
    ensures found[k] == was[rules[k].id]
  {
    PassStepsEachOnce(rules, was, now, ss, k, k);
  }

  /** One pass, seen by one rule of a set of rules with distinct IDs. */
  lemma {:induction false} RuleInPass(rules: seq<Rule>, found: seq<AlertState>, now: Time, ss: seq<Sample>, i: nat,
                   h: seq<Eval>, told: seq<Notice>, firing: seq<AlertState>, resolved: seq<AlertState>)
    requires |rules| == |ss| == |found| && i < |rules| && DistinctRules(rules)
    requires forall k :: 0 <= k < |rules| ==> found[k].rule.id == rules[k].id
    requires InStep(rules[i], found[i], h, told)
    requires firing == Reported(rules, found, now, ss, |rules|, Notice.Firing)
    requires resolved == Reported(rules, found, now, ss, |rules|, Resolved)
    ensures InStep(rules[i], Step(found[i], rules[i].hold, now, ss[i]),
                   h + [Eval(now, ss[i].look)], told + Heard(firing, resolved, rules[i].id))
  {
    var r := rules[i];
    NamedIff(rules, found, now, ss, i, Notice.Firing);
    NamedIff(rules, found, now, ss, i, Resolved);
    HeardIs(firing, resolved, r.id, NoticeOf(found[i], r.hold, now, ss[i].look));
    InStepNext(r, found[i], h, told, now, ss[i], Heard(firing, resolved, r.id));
  }

  /** Every rule has its state and its record; if no two rules share a state, each is where its own history leads. */
  ghost predicate AllInStep(rules: seq<Rule>, state: map<string, AlertState>, history: seq<seq<Eval>>,
                            told: seq<seq<Notice>>)
  {
    && Known(rules, state) && Filed(state) && |history| == |told| == |rules|
    && (DistinctRules(rules) ==> forall i :: 0 <= i < |rules| ==>
          InStep(rules[i], state[rules[i].id], history[i], told[i]))
  }

  /** A pass adds its evaluation to each rule's history, and its notices to what each rule was told. */
  predicate Extends(rules: seq<Rule>, now: Time, ss: seq<Sample>, firing: seq<AlertState>, resolved: seq<AlertState>,
                    h: seq<seq<Eval>>, t: seq<seq<Notice>>, h': seq<seq<Eval>>, t': seq<seq<Notice>>)
    requires |rules| == |ss| == |h| == |t|
  {
    && |h'| == |t'| == |rules|
    && (forall i :: 0 <= i < |rules| ==> h'[i] == h[i] + [Eval(now, ss[i].look)])
    && (forall i :: 0 <= i < |rules| ==> t'[i] == t[i] + Heard(firing, resolved, rules[i].id))
  }

  lemma {:induction false} PassKeepsStep(rules: seq<Rule>, was: map<string, AlertState>, now: Time, ss: seq<Sample>,
                      state: map<string, AlertState>, firing: seq<AlertState>, resolved: seq<AlertState>,
                      h: seq<seq<Eval>>, t: seq<seq<Notice>>, h': seq<seq<Eval>>, t': seq<seq<Notice>>)
    requires |rules| == |ss| && AllInStep(rules, was, h, t)
    requires IsPass(rules, was, now, ss, state, firing, resolved)
    requires Extends(rules, now, ss, firing, resolved, h, t, h', t')
    ensures AllInStep(rules, state, h', t')
  {
    var found := FoundIn(rules, was, now, ss);
    PassKeepsFiled(rules, was, now, ss, |rules|);
    if DistinctRules(rules) {
      forall k | 0 <= k < |rules| ensures found[k] == was[rules[k].id] { DistinctFind(rules, was, now, ss, found, k); }
      forall i | 0 <= i < |rules| ensures InStep(rules[i], state[rules[i].id], h'[i], t'[i]) {
        PassStepsEachOnce(rules, was, now, ss, |rules|, i);
        RuleInPass(rules, found, now, ss, i, h[i], t[i], firing, resolved);
      }
    }
  }

  lemma Extended(rules: seq<Rule>, now: Time, ss: seq<Sample>, firing: seq<AlertState>, resolved: seq<AlertState>,
                 h: seq<seq<Eval>>, t: seq<seq<Notice>>)
    returns (h': seq<seq<Eval>>, t': seq<seq<Notice>>)
    requires |rules| == |ss| == |h| == |t|
    ensures Extends(rules, now, ss, firing, resolved, h, t, h', t')
  {
    h' := seq(|h|, i requires 0 <= i < |h| => h[i] + [Eval(now, ss[i].look)]);
    t' := seq(|t|, i requires 0 <= i < |t| => t[i] + Heard(firing, resolved, rules[i].id));
  }

  /** With proper times the rule is firing exactly when it has been matching for its hold time. */
  ghost predicate FiresRightly(r: Rule, st: AlertState, h: seq<Eval>) {
    Clocked(h) ==> (st.firing <==> HeldLongEnough(r, h))
  }

  lemma AllBehave(rules: seq<Rule>, state: map<string, AlertState>, h: seq<seq<Eval>>, t: seq<seq<Notice>>)
    requires AllInStep(rules, state, h, t) && DistinctRules(rules)
    ensures forall i :: 0 <= i < |rules| ==> Alternate(t[i]) && FiresRightly(rules[i], state[rules[i].id], h[i])
  {
    forall i | 0 <= i < |rules|
      ensures Alternate(t[i]) && FiresRightly(rules[i], state[rules[i].id], h[i])
    {
      NoticesAlternate(rules[i], h[i]);
      if Clocked(h[i]) { FiringIff(rules[i], h[i]); }
    }
  }

  /** A snapshot of the metrics, as it is taken for each rule. */
  type Snapshot = seq<Metric>

  /** The samples of a pass, one for each rule. */
  ghost predicate Sampled(rules: seq<Rule>, snaps: seq<Snapshot>, parse: string -> Option<real>, ss: seq<Sample>)
    requires |snaps| == |rules|
  {
    |ss| == |rules| && forall i :: 0 <= i < |rules| ==> ss[i] == SampleOf(rules[i], snaps[i], parse)
  }

  method SampleAll(rules: seq<Rule>, snaps: seq<Snapshot>, parse: string -> Option<real>) returns (ss: seq<Sample>)
    requires |snaps| == |rules|
    ensures Sampled(rules, snaps, parse, ss)
  {
    ss := [];
    for n := 0 to |rules|
      invariant |ss| == n && forall i :: 0 <= i < n ==> ss[i] == SampleOf(rules[i], snaps[i], parse)
    {
      var s := TakeSample(rules[n], snaps[n], parse);
      ss := ss + [s];
    }
  }

  class Alerts {
    var rules: seq<Rule>
    var state: map<string, AlertState>
    ghost var history: seq<seq<Eval>>   // what each rule's evaluations read
    ghost var told: seq<seq<Notice>>    // what Evaluate returned about each rule

    ghost predicate Valid()
      reads this
    {
      AllInStep(rules, state, history, told)
    }

    constructor ()
      ensures Valid() && rules == []
    {
      rules, state, history, told := [], map[], [], [];
    }

    /** A repeated ID resets the state it shares. */
    method Add(r: Rule)
      requires Valid()
      modifies this
      ensures Valid() && rules == old(rules) + [r]
      ensures history == old(history) + [[]] && told == old(told) + [[]]
      ensures state == old(state)[r.id := Fresh(r)]
    {
      ghost var before := rules;
      rules := rules + [r];
      state := state[r.id := Fresh(r)];
      history := history + [[]];
      told := told + [[]];
      assert forall i :: 0 <= i < |before| ==> rules[i] == before[i];
      assert InStep(r, Fresh(r), [], []);
      assert rules[|before|] == r;
      assert DistinctRules(rules) ==> DistinctRules(before);
      assert DistinctRules(rules) ==> forall i :: 0 <= i < |before| ==> rules[i].id != r.id;
    }

    /**
      One evaluation of all rules, each against the metrics at its turn.  The lists returned over the object's life
      tell of each rule, alternately, that it fires and that it has resolved, firing first.
     */
    method Evaluate(now: Time, snaps: seq<Snapshot>, parse: string -> Option<real>)
      returns (firing: seq<AlertState>, resolved: seq<AlertState>, ghost ss: seq<Sample>)
      requires Valid() && |snaps| == |rules|
      modifies this`state, this`history, this`told
      ensures Valid() && Sampled(rules, snaps, parse, ss)
      ensures IsPass(rules, old(state), now, ss, state, firing, resolved)
      ensures Extends(rules, now, ss, firing, resolved, old(history), old(told), history, told)
      ensures DistinctRules(rules) ==> forall i :: 0 <= i < |rules| ==>
        Alternate(told[i]) && FiresRightly(rules[i], state[rules[i].id], history[i])
    {
      var samples := SampleAll(rules, snaps, parse);
      ss := samples;
      var next;
      next, firing, resolved := EvaluateRules(rules, state, now, samples);
      ghost var h, t := Extended(rules, now, ss, firing, resolved, history, told);
      PassKeepsStep(rules, state, now, ss, next, firing, resolved, history, told, h, t);
      state, history, told := next, h, t;
      if DistinctRules(rules) { AllBehave(rules, state, history, told); }
    }
  }
}
