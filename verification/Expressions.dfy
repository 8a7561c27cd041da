/**
  Alert expressions "metric op value" (internal/primitives/obs/alerts.go:128-164): finding the
  operator outside label blocks and taking the expression apart.  The number scanner is a parameter.
 */
module Expressions {
  import opened Prelude
  import opened Ordering

  datatype Parsed = Parsed(name: string, op: string, threshold: real)

  function IndexByte(s: string, c: char): (j: int)
    ensures j < 0 ==> c !in s
    ensures j >= 0 ==> j < |s| && s[j] == c && c !in s[..j]
  {
    if s == [] then -1
    else if s[0] == c then 0
    else
      var j := IndexByte(s[1..], c);
      assert j >= 0 ==> s[..j + 1] == [s[0]] + s[1..][..j];
      assert s == [s[0]] + s[1..];
      if j < 0 then -1 else j + 1
  }

  /** How far the scan moves on from here: past a label block, or one character; 0 if a block is unclosed. */
  function Skip(s: string): (d: nat)
    requires s != []
    ensures d <= |s|
  {
    if s[0] == '{' then IndexByte(s, '}') + 1 else 1
  }

  /** Position i lies outside every label block; an unclosed block runs to the end. */
  predicate Outside(s: string, i: nat)
    decreases |s|
  {
    i < |s| &&
    if i == 0 then s[0] != '{'
    else 0 < Skip(s) <= i && Outside(s[Skip(s)..], i - Skip(s))
  }

  predicate OpAt(s: string, op: string, i: nat) {
    i < |s| && Outside(s, i) && HasPrefix(s[i..], op)
  }

  /** First place of an operator outside label blocks, or -1. */
  function IndexOutside(s: string, op: string): (r: int)
    requires op != []
    ensures -1 <= r < |s|
    decreases |s|
  {
    if |op| > |s| then -1
    else if s[0] != '{' && HasPrefix(s, op) then 0
    else if Skip(s) == 0 then -1
    else Shift(IndexOutside(s[Skip(s)..], op), Skip(s))
  }

  function Shift(r: int, d: nat): int {
    if r < 0 then -1 else r + d
  }

  lemma OpAtSkips(s: string, op: string, k: nat)
    requires s != []
    ensures OpAt(s, op, 0) <==> s[0] != '{' && HasPrefix(s, op)
    ensures k > 0 ==> (OpAt(s, op, k) <==> 0 < Skip(s) <= k && OpAt(s[Skip(s)..], op, k - Skip(s)))
  {
    assert s[0..] == s;
    var d := Skip(s);
    assert d <= k < |s| ==> s[k..] == s[d..][k - d..];
  }

  /** As far as position k goes, r is the first place of the operator, or there is none and r is -1. */
  predicate FirstUpTo(s: string, op: string, r: int, k: nat) {
    && (r >= 0 ==> OpAt(s, op, r) && (k < r ==> !OpAt(s, op, k)))
    && (r < 0 ==> !OpAt(s, op, k))
  }

  lemma FirstShifts(s: string, op: string, d: nat, r: int, k: nat)
    requires s != [] && d == Skip(s) > 0 && (s[0] == '{' || !HasPrefix(s, op))
    requires FirstUpTo(s[d..], op, r, if k >= d then k - d else 0)
    ensures FirstUpTo(s, op, Shift(r, d), k)
  {
    OpAtSkips(s, op, k);
    if r >= 0 { OpAtSkips(s, op, r + d); }
  }

  /** It is the least such place, and -1 only if there is none. */
  lemma {:induction false} IndexOutsideIsFirst(s: string, op: string, k: nat)
    requires op != []
    ensures FirstUpTo(s, op, IndexOutside(s, op), k)
    decreases |s|
  {
    if |op| <= |s| {
      var d := Skip(s);
      if s[0] != '{' && HasPrefix(s, op) {
        OpAtSkips(s, op, 0);
      } else if d == 0 {
        OpAtSkips(s, op, k);
      } else {
        IndexOutsideIsFirst(s[d..], op, if k >= d then k - d else 0);
        FirstShifts(s, op, d, IndexOutside(s[d..], op), k);
      }
    }
  }

  lemma IndexMoves(here: string, op: string, rest: string, i: nat)
    requires op != [] && |op| <= |here| && Skip(here) > 0 && rest == here[Skip(here)..]
    requires here[0] == '{' || !HasPrefix(here, op)
    ensures Shift(IndexOutside(here, op), i) == Shift(IndexOutside(rest, op), i + Skip(here))
  {
  }

  method FindOutside(s: string, op: string) returns (r: int)
    requires op != []
    ensures r == IndexOutside(s, op)
  {
    var i := 0;
    var here := s;  // s[i..]
    while i + |op| <= |s|
      invariant 0 <= i <= |s| && here == s[i..]
      invariant IndexOutside(s, op) == Shift(IndexOutside(here, op), i)
    {
      var d := 1;
      if here[0] == '{' {
        var j := IndexByte(here, '}');
        if j < 0 { return -1; }
        d := j + 1;
      } else if HasPrefix(here, op) {
        return i;
      }
      IndexMoves(here, op, here[d..], i);
      assert here[d..] == s[i + d..];
      i, here := i + d, here[d..];
    }
    return -1;
  }

  /** Unicode's white space, as the library trims it. */
  predicate IsSpace(c: char) {
    var n := c as int;
    || 9 <= n <= 13 || n == 32 || n == 0x85 || n == 0xA0 || n == 0x1680 || 0x2000 <= n <= 0x200A
    || n == 0x2028 || n == 0x2029 || n == 0x202F || n == 0x205F || n == 0x3000
  }

  function TrimSpace(s: string): string {
    if s == [] then []
    else if IsSpace(s[0]) then TrimSpace(s[1..])
    else if IsSpace(s[|s| - 1]) then TrimSpace(s[..|s| - 1])
    else s
  }

  const OPS: seq<string> := [">=", "<=", "==", "!=", ">", "<"]

  /** Cuts the expression around an operator found at i. */
  function Cut(e: string, op: string, i: nat, parse: string -> Option<real>): Option<Parsed>
    requires i <= |e|
  {
    match parse(TrimSpace(if i + |op| <= |e| then e[i + |op|..] else []))
    case None => None
    case Some(v) => Some(Parsed(TrimSpace(e[..i]), op, v))
  }

  function SplitWith(e: string, ops: seq<string>, parse: string -> Option<real>): Option<Parsed>
    requires forall i :: 0 <= i < |ops| ==> ops[i] != []
    decreases |ops|
  {
    if ops == [] then None
    else
      var i := IndexOutside(e, ops[0]);
      if i < 0 then SplitWith(e, ops[1..], parse) else Cut(e, ops[0], i, parse)
  }

  function SplitExpr(e: string, parse: string -> Option<real>): Option<Parsed> {
    SplitWith(e, OPS, parse)
  }

  predicate Plain(s: string) {
    forall i :: 0 <= i < |s| ==> s[i] !in "<>=!{"
  }

  /** Outside its label blocks, all of them closed, the text holds no character of an operator. */
  predicate Scannable(s: string)
    decreases |s|
  {
    s == [] || (Skip(s) > 0 && s[0] !in "<>=!" && Scannable(s[Skip(s)..]))
  }

  predicate Trimmed(s: string) {
    s == [] || (!IsSpace(s[0]) && !IsSpace(s[|s| - 1]))
  }

  lemma {:induction false} PlainIsOutside(s: string, i: nat)
    requires i < |s| && forall k :: 0 <= k <= i ==> s[k] != '{'
    ensures Outside(s, i)
    decreases |s|
  {
    if i == 0 {
    } else {
      PlainIsOutside(s[1..], i - 1);
    }
  }

  function Format(name: string, op: string, value: string): string {
    name + " " + op + " " + value
  }

  lemma OpShape(o: string)
    requires o in OPS
    ensures 1 <= |o| <= 2 && o[0] in "<>=!" && (|o| == 2 ==> o[1] == '=')
  {
  }

  lemma FormatChars(name: string, op: string, value: string)
    ensures var e, p := Format(name, op, value), |name| + 1;
      && |e| == p + |op| + 1 + |value|
      && (forall k :: 0 <= k < |name| ==> e[k] == name[k]) && e[|name|] == ' '
      && (forall k :: 0 <= k < |op| ==> e[p + k] == op[k]) && e[p + |op|] == ' '
      && (forall k :: p + |op| < k < |e| ==> e[k] == value[k - p - |op| - 1])
  {
  }

  lemma OpCharsThere(name: string, op: string, value: string, k: nat)
    requires Plain(name) && Plain(value) && op in OPS
    requires k < |Format(name, op, value)| && Format(name, op, value)[k] in "<>=!"
    ensures |name| + 1 <= k <= |name| + |op|
  {
    FormatChars(name, op, value);
  }

  /** A plain expression holds an operator of at least the written one's length only in its place. */
  lemma OnlyThere(name: string, op: string, value: string, o: string, k: nat)
    requires Plain(name) && Plain(value) && op in OPS && o in OPS && |o| >= |op|
    requires k < |Format(name, op, value)| && HasPrefix(Format(name, op, value)[k..], o)
    ensures k == |name| + 1 && o == op
  {
    var e, p := Format(name, op, value), |name| + 1;
    OpShape(o);
    OpShape(op);
    PrefixChars(e, k, o);
    OpCharsThere(name, op, value, k);
    FormatChars(name, op, value);
    if k == p && |o| == |op| { assert o == op; }
  }

  lemma PrefixChars(e: string, k: nat, o: string)
    requires k <= |e| && HasPrefix(e[k..], o)
    ensures k + |o| <= |e| && forall m :: 0 <= m < |o| ==> e[k + m] == o[m]
    ensures o != [] ==> e[k] == o[0]
  {
    assert forall m :: 0 <= m < |o| ==> e[k..][m] == e[k..][..|o|][m];
  }

  lemma WrittenThere(name: string, op: string, value: string)
    requires Plain(name) && op in OPS
    ensures OpAt(Format(name, op, value), op, |name| + 1)
  {
    var e, p := Format(name, op, value), |name| + 1;
    FormatChars(name, op, value);
    OpShape(op);
    PlainIsOutside(e, p);
    assert e[p..] == op + " " + value;
  }

  /** No operator tried before the written one is found, and that one in its place. */
  lemma {:induction false} PlainOperatorPlace(name: string, op: string, value: string, o: string)
    requires Plain(name) && Plain(value) && op in OPS && o in OPS
    ensures o == op ==> IndexOutside(Format(name, op, value), o) == |name| + 1
    ensures o != op && |o| >= |op| ==> IndexOutside(Format(name, op, value), o) == -1
  {
    var e := Format(name, op, value);
    var r := IndexOutside(e, o);
    WrittenThere(name, op, value);
    IndexOutsideIsFirst(e, o, |name| + 1);
    if |o| >= |op| && r >= 0 { OnlyThere(name, op, value, o, r); }
  }

  lemma {:induction false} TrimPadded(s: string)
    requires Trimmed(s)
    ensures TrimSpace(s) == s && TrimSpace(s + " ") == s && TrimSpace(" " + s) == s
  {
    assert (" " + s)[1..] == s;
    if s != [] { assert (s + " ")[..|s|] == s; } else { assert s + " " == " " && " "[1..] == []; }
  }

  lemma {:induction false} SplitFinds(e: string, ops: seq<string>, parse: string -> Option<real>, n: nat)
    requires n < |ops| && forall i :: 0 <= i < |ops| ==> ops[i] != []
    requires forall i :: 0 <= i < n ==> IndexOutside(e, ops[i]) == -1
    requires IndexOutside(e, ops[n]) >= 0
    ensures SplitWith(e, ops, parse) == Cut(e, ops[n], IndexOutside(e, ops[n]), parse)
    decreases |ops|
  {
    if n == 0 {
    } else {
      SplitFinds(e, ops[1..], parse, n - 1);
    }
  }

  lemma FormatCuts(name: string, op: string, value: string)
    ensures var e, p := Format(name, op, value), |name| + 1;
      p + |op| <= |e| && e[..p] == name + " " && e[p + |op|..] == " " + value
  {
  }

  lemma SplitFormatted(name: string, ops: seq<string>, n: nat, value: string, parse: string -> Option<real>, e: string)
    requires n < |ops| && (forall i :: 0 <= i < |ops| ==> ops[i] != []) && e == Format(name, ops[n], value)
    requires forall i :: 0 <= i < n ==> IndexOutside(e, ops[i]) == -1
    requires IndexOutside(e, ops[n]) == |name| + 1 && Trimmed(name) && Trimmed(value) && parse(value).Some?
    ensures SplitWith(e, ops, parse) == Some(Parsed(name, ops[n], parse(value).value))
  {
    FormatCuts(name, ops[n], value);
    SplitFinds(e, ops, parse, n);
    TrimPadded(name);
    TrimPadded(value);
  }

  // ---------- names with label blocks ----------

  lemma IndexByteExtends(s: string, t: string, c: char)
    requires c in s
    ensures IndexByte(s + t, c) == IndexByte(s, c)
  {
    var whole, i, j := s + t, IndexByte(s, c), IndexByte(s + t, c);
    assert whole[i] == c;
  }

  lemma SkipExtends(s: string, t: string)
    requires s != [] && Skip(s) > 0
    ensures Skip(s + t) == Skip(s) && (s + t)[Skip(s)..] == s[Skip(s)..] + t
  {
    if s[0] == '{' { IndexByteExtends(s, t, '}'); }
  }

  /** The scan runs over a scannable text without a find. */
  lemma {:induction false} ScansOver(s: string, rest: string, op: string)
    requires Scannable(s) && op != [] && op[0] in "<>=!"
    ensures IndexOutside(s + rest, op) == Shift(IndexOutside(rest, op), |s|)
    decreases |s|
  {
    var whole := s + rest;
    if s == [] {
      assert whole == rest;
    } else {
      SkipExtends(s, rest);
      ScansOver(s[Skip(s)..], rest, op);
      if |op| <= |whole| {
        assert !HasPrefix(whole, op) by { assert whole[0] != op[0]; }
      } else {
        assert IndexOutside(rest, op) == -1;
      }
    }
  }

  lemma {:induction false} PlainIsScannable(s: string, rest: string)
    requires Plain(s) && Scannable(rest)
    ensures Scannable(s + rest)
    decreases |s|
  {
    if s == [] {
      assert s + rest == rest;
    } else {
      assert (s + rest)[1..] == s[1..] + rest;
      PlainIsScannable(s[1..], rest);
    }
  }

  /** The documented form, a metric and a block of labels, is scannable whatever the labels hold. */
  lemma LabelledIsScannable(base: string, labels: string)
    requires Plain(base) && '}' !in labels
    ensures Scannable(base + ("{" + labels + "}"))
  {
    var block := "{" + labels + "}";
    var j := IndexByte(block, '}');
    assert block[|block| - 1] == '}';
    assert forall k :: 0 < k < |block| - 1 ==> block[k] == labels[k - 1];
    assert j == |block| - 1;
    assert block[j + 1..] == [];
    PlainIsScannable(base, block);
  }

  /** The rest of an expression after the name, with its operator at 1. */
  lemma BareOperatorPlace(op: string, value: string, o: string, rest: string)
    requires Plain(value) && op in OPS && o in OPS && rest == " " + op + " " + value
    ensures o == op ==> IndexOutside(rest, o) == 1
    ensures o != op && |o| >= |op| ==> IndexOutside(rest, o) == -1
  {
    var none: string := [];
    assert rest == Format(none, op, value);
    PlainOperatorPlace(none, op, value, o);
  }

  lemma {:induction false} PlacePastName(name: string, o: string, rest: string, e: string, r: int)
    requires Scannable(name) && o in OPS && e == name + rest && IndexOutside(rest, o) == r
    ensures IndexOutside(e, o) == Shift(r, |name|)
  {
    OpShape(o);
    ScansOver(name, rest, o);
  }

  lemma FormatEndsWith(name: string, op: string, value: string)
    ensures Format(name, op, value) == name + (" " + op + " " + value)
  {
  }

  lemma {:induction false} OperatorPlace(name: string, op: string, value: string, o: string)
    requires Scannable(name) && Plain(value) && op in OPS && o in OPS
    ensures o == op ==> IndexOutside(Format(name, op, value), o) == |name| + 1
    ensures o != op && |o| >= |op| ==> IndexOutside(Format(name, op, value), o) == -1
  {
    var e, rest := Format(name, op, value), " " + op + " " + value;
    FormatEndsWith(name, op, value);
    BareOperatorPlace(op, value, o, rest);
    PlacePastName(name, o, rest, e, IndexOutside(rest, o));
  }

  lemma EarlierOpsAbsent(name: string, n: nat, value: string, i: nat)
    requires Scannable(name) && Plain(value) && i < n < |OPS|
    ensures IndexOutside(Format(name, OPS[n], value), OPS[i]) == -1
  {
    OperatorPlace(name, OPS[n], value, OPS[i]);
  }

  /** "name op value" is taken apart into just these, for every operator and whatever the label blocks hold. */
  lemma SplitUndoesFormat(name: string, n: nat, value: string, parse: string -> Option<real>)
    requires Scannable(name) && Plain(value) && Trimmed(name) && Trimmed(value) && n < |OPS|
    requires parse(value).Some?
    ensures SplitExpr(Format(name, OPS[n], value), parse) == Some(Parsed(name, OPS[n], parse(value).value))
  {
    var e := Format(name, OPS[n], value);
    forall i | 0 <= i < n ensures IndexOutside(e, OPS[i]) == -1 { EarlierOpsAbsent(name, n, value, i); }
    OperatorPlace(name, OPS[n], value, OPS[n]);
    SplitFormatted(name, OPS, n, value, parse, e);
  }

  lemma SplitFailsFormatted(name: string, ops: seq<string>, n: nat, value: string, parse: string -> Option<real>,
                            e: string)
    requires n < |ops| && (forall i :: 0 <= i < |ops| ==> ops[i] != []) && e == Format(name, ops[n], value)
    requires forall i :: 0 <= i < n ==> IndexOutside(e, ops[i]) == -1
    requires IndexOutside(e, ops[n]) == |name| + 1 && Trimmed(value) && parse(value) == None
    ensures SplitWith(e, ops, parse) == None
  {
    FormatCuts(name, ops[n], value);
    SplitFinds(e, ops, parse, n);
    TrimPadded(value);
  }

  lemma SplitFailsOnFormat(name: string, n: nat, value: string, parse: string -> Option<real>)
    requires Scannable(name) && Plain(value) && Trimmed(value) && n < |OPS| && parse(value) == None
    ensures SplitExpr(Format(name, OPS[n], value), parse) == None
  {
    var e := Format(name, OPS[n], value);
    forall i | 0 <= i < n ensures IndexOutside(e, OPS[i]) == -1 { EarlierOpsAbsent(name, n, value, i); }
    OperatorPlace(name, OPS[n], value, OPS[n]);
    SplitFailsFormatted(name, OPS, n, value, parse, e);
  }

  /** The splitter's loop: the operators are tried in turn. */
  method TakeApartWith(e: string, ops: seq<string>, parse: string -> Option<real>) returns (p: Option<Parsed>)
    requires forall i :: 0 <= i < |ops| ==> ops[i] != []
    ensures p == SplitWith(e, ops, parse)
  {
    for n := 0 to |ops|
      invariant SplitWith(e, ops, parse) == SplitWith(e, ops[n..], parse)
    {
      var op := ops[n];
      var i := FindOutside(e, op);
      assert ops[n..][0] == op && ops[n..][1..] == ops[n + 1..];
      if i >= 0 {
        return Cut(e, op, i, parse);
      }
    }
    return None;
  }

  /** The splitter itself: the two-character operators come first. */
  method TakeApart(e: string, parse: string -> Option<real>) returns (p: Option<Parsed>)
    ensures p == SplitExpr(e, parse)
  {
    p := TakeApartWith(e, OPS, parse);
  }
}
