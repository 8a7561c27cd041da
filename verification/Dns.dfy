/**
  DNS names on the wire (internal/dns/dns.go:276-319): `readName`, which follows compression
  pointers, and `writeName`, which does not produce any.  See sections 3.1 and 4.1.4 of RFC 1035.
 */
module Dns {
  import opened Prelude
  import opened Ordering

  type Byte = x: int | 0 <= x < 256

  type Bytes = seq<Byte>

  const DOT: Byte := 46

  datatype Error = NameOutOfBounds | PointerTruncated | LabelOutOfBounds

  datatype Result = Ok(name: Bytes, off: nat) | Err(error: Error, off: nat)

  // ---------- one segment: labels up to a root byte, a pointer, or an error ----------

  datatype End = Root | Pointer(target: nat) | Bad(error: Error)

  datatype Segment = Segment(labels: seq<Bytes>, end: End, off: nat)

  /** The lower 14 bits of a pointer's two bytes. */
  function Target(hi: nat, lo: nat): nat {
    (hi * 256 + lo) % 16384
  }

  /** The segment ends here: with a root byte, a pointer, or an error. */
  function Stop(buf: Bytes, off: nat): (r: Option<Segment>)
    ensures r.None? ==> off < |buf| && 0 < buf[off] < 192 && off + 1 + buf[off] <= |buf|
    ensures r.Some? ==> r.value.off >= off && r.value.labels == []
    ensures r.Some? && r.value.end.Pointer? ==> r.value.off == off + 2
  {
    if off >= |buf| then Some(Segment([], Bad(NameOutOfBounds), off))
    else
      var l: int := buf[off];
      if l == 0 then Some(Segment([], Root, off + 1))
      else if l >= 192 then
        if off + 1 >= |buf| then Some(Segment([], Bad(PointerTruncated), off + 1))
        else Some(Segment([], Pointer(Target(l, buf[off + 1])), off + 2))
      else if off + 1 + l > |buf| then Some(Segment([], Bad(LabelOutOfBounds), off + 1))
      else None
  }

  /** Bytes of 64 to 191 are taken as label lengths, which RFC 1035 reserves. */
  function Scan(buf: Bytes, off: nat): (seg: Segment)
    ensures seg.off >= off && (seg.end.Pointer? ==> seg.off >= off + 2)
    decreases |buf| - off
  {
    var stop := Stop(buf, off);
    if stop.Some? then stop.value
    else
      var l: int := buf[off];
      var rest := Scan(buf, off + 1 + l);
      rest.(labels := [buf[off + 1..off + 1 + l]] + rest.labels)
  }

  function Join(labels: seq<Bytes>): Bytes {
    if labels == [] then []
    else if |labels| == 1 then labels[0]
    else labels[0] + [DOT] + Join(labels[1..])
  }

  /** What `readName` returns if it follows at most `jumps` pointers; None if it needs more. */
  function Read(buf: Bytes, off: nat, jumps: nat): Option<Result>
    decreases jumps
  {
    var seg := Scan(buf, off);
    match seg.end
    case Root => Some(Ok(Join(seg.labels), seg.off))
    case Bad(e) => Some(Err(e, seg.off))
    case Pointer(target) =>
      if jumps == 0 then None
      else match Read(buf, target, jumps - 1)
        case None => None
        case Some(Err(e, _)) => Some(Err(e, seg.off - 1))
        case Some(Ok(sub, _)) => Some(Ok(Join(seg.labels + [sub]), seg.off))
  }

  lemma {:induction false} ScanEnds(buf: Bytes, off: nat)
    ensures var seg := Scan(buf, off);
      && (off <= |buf| ==> off <= seg.off <= |buf|)
      && (seg.end.Root? ==> off < seg.off <= |buf| && buf[seg.off - 1] == 0)
      && (seg.end.Pointer? ==> off + 2 <= seg.off <= |buf| && buf[seg.off - 2] >= 192)
      && (!seg.end.Bad? ==> off < |buf|)
      && forall i :: 0 <= i < |seg.labels| ==> 1 <= |seg.labels[i]| <= 191
    decreases |buf| - off
  {
    if Stop(buf, off).Some? {
    } else {
      ScanEnds(buf, off + 1 + buf[off]);
    }
  }

  /** On success the offset is just past the first pointer or root byte, and within the message. */
  lemma OffsetIsPastName(buf: Bytes, off: nat, jumps: nat)
    requires Read(buf, off, jumps).Some? && Read(buf, off, jumps).value.Ok?
    ensures var end := Read(buf, off, jumps).value.off;
      && end == Scan(buf, off).off && off < end <= |buf|
      && (buf[end - 1] == 0 || (end >= 2 && buf[end - 2] >= 192))
  {
    ScanEnds(buf, off);
  }

  // ---------- following pointers ----------

  /** Where reading stands after k jumps. */
  function Hop(buf: Bytes, off: nat, k: nat): Option<nat>
    decreases k
  {
    if k == 0 then Some(off)
    else match Scan(buf, off).end
      case Pointer(target) => Hop(buf, target, k - 1)
      case _ => None
  }

  lemma {:induction false} ReadStopsIffHopsEnd(buf: Bytes, off: nat, n: nat)
    ensures Read(buf, off, n).Some? <==> Hop(buf, off, n + 1).None?
    decreases n
  {
    if n == 0 || !Scan(buf, off).end.Pointer? {
    } else {
      ReadStopsIffHopsEnd(buf, Scan(buf, off).end.target, n - 1);
    }
  }

  lemma {:induction false} HopSplit(buf: Bytes, off: nat, a: nat, b: nat)
    ensures Hop(buf, off, a + b) == (match Hop(buf, off, a) case None => None case Some(x) => Hop(buf, x, b))
    decreases a
  {
    if a == 0 || !Scan(buf, off).end.Pointer? {
    } else {
      HopSplit(buf, Scan(buf, off).end.target, a - 1, b);
    }
  }

  lemma HopEarlier(buf: Bytes, off: nat, k: nat, n: nat)
    requires k <= n && Hop(buf, off, n).Some?
    ensures Hop(buf, off, k).Some?
    ensures k < n ==> Hop(buf, off, k).value < |buf|
  {
    HopSplit(buf, off, k, n - k);
    if k < n { ScanEnds(buf, Hop(buf, off, k).value); }
  }

  lemma {:induction false} CycleNeverEnds(buf: Bytes, x: nat, d: nat, m: nat)
    requires d > 0 && Hop(buf, x, d) == Some(x)
    ensures Hop(buf, x, m).Some?
    decreases m
  {
    if m < d {
      HopEarlier(buf, x, m, d);
    } else {
      HopSplit(buf, x, d, m - d);
      CycleNeverEnds(buf, x, d, m - d);
    }
  }

  lemma {:induction false} SmallSet(s: set<nat>, n: nat)
    requires forall x :: x in s ==> x < n
    ensures |s| <= n
  {
    if n == 0 {
      assert forall x :: x !in s;
    } else {
      SmallSet(s - {n - 1}, n - 1);
      assert |s| <= |s - {n - 1}| + 1;
    }
  }

  lemma {:induction false} DistinctSize(xs: seq<nat>)
    requires forall i, j :: 0 <= i < j < |xs| ==> xs[i] != xs[j]
    ensures |Elements<nat>(xs)| == |xs|
  {
    if xs == [] {
    } else {
      var init, last := xs[..|xs| - 1], xs[|xs| - 1];
      DistinctSize(init);
      assert last !in Elements<nat>(init);
      assert Elements<nat>(xs) == Elements<nat>(init) + {last} by { assert xs == init + [last]; }
    }
  }

  /** More hops than the message has bytes must come back to an offset. */
  lemma Pigeonhole(buf: Bytes, off: nat) returns (i: nat, j: nat)
    requires Hop(buf, off, |buf| + 1).Some?
    ensures i < j && Hop(buf, off, i).Some? && Hop(buf, off, i) == Hop(buf, off, j)
  {
    var n := |buf| + 1;
    forall k: nat | k < n ensures Hop(buf, off, k).Some? && Hop(buf, off, k).value < |buf| {
      HopEarlier(buf, off, k, n);
    }
    var xs: seq<nat> := seq(n, k requires 0 <= k < n && Hop(buf, off, k).Some? => Hop(buf, off, k).value);
    if forall a, b :: 0 <= a < b < |xs| ==> xs[a] != xs[b] {
      DistinctSize(xs);
      var visited := Elements<nat>(xs);
      SmallSet(visited, |buf|);
      assert false;
    }
    i, j :| 0 <= i < j < |xs| && xs[i] == xs[j];
  }

  ghost predicate Revisits(buf: Bytes, off: nat) {
    exists i: nat, j: nat :: i < j && Hop(buf, off, i).Some? && Hop(buf, off, i) == Hop(buf, off, j)
  }

  /**
    `readName` has no guard against pointer loops: it returns if and only if the chain of pointers
    never comes back to an offset, and then after at most as many jumps as the message has bytes.
   */
  lemma TerminatesIff(buf: Bytes, off: nat)
    ensures (exists n :: Read(buf, off, n).Some?) <==> !Revisits(buf, off)
    ensures (exists n :: Read(buf, off, n).Some?) <==> Read(buf, off, |buf|).Some?
  {
    ReadStopsIffHopsEnd(buf, off, |buf|);
    if Revisits(buf, off) {
      var i: nat, j: nat :| i < j && Hop(buf, off, i).Some? && Hop(buf, off, i) == Hop(buf, off, j);
      var x := Hop(buf, off, i).value;
      HopSplit(buf, off, i, j - i);
      forall n: nat ensures Read(buf, off, n).None? {
        ReadStopsIffHopsEnd(buf, off, n);
        if n + 1 >= i {
          HopSplit(buf, off, i, n + 1 - i);
          CycleNeverEnds(buf, x, j - i, n + 1 - i);
        } else {
          HopEarlier(buf, off, n + 1, i);
        }
      }
    } else if Read(buf, off, |buf|).None? {
      var i, j := Pigeonhole(buf, off);
      assert false;
    }
  }

  /** Every pointer on the way leads to before the segment that holds it. */
  predicate Descends(buf: Bytes, off: nat)
    decreases off
  {
    var end := Scan(buf, off).end;
    end.Pointer? ==> end.target < off && Descends(buf, end.target)
  }

  /** Messages compressed as RFC 1035 prescribes are always read to an end. */
  lemma {:induction false} DescendingTerminates(buf: Bytes, off: nat, jumps: nat)
    requires Descends(buf, off) && jumps >= off
    ensures Read(buf, off, jumps).Some?
    decreases off
  {
    if !Scan(buf, off).end.Pointer? {
    } else {
      DescendingTerminates(buf, Scan(buf, off).end.target, jumps - 1);
    }
  }

  /** A pointer to itself: two bytes that are never read to an end. */
  lemma SelfPointerLoops(n: nat)
    ensures Read([192, 0], 0, n).None?
    decreases n
  {
    assert Scan([192, 0], 0).end == Pointer(0);
    if n > 0 { SelfPointerLoops(n - 1); }
  }

  // ---------- what is read ----------

  /** All labels on the way, pointers expanded. */
  function Expand(buf: Bytes, off: nat, jumps: nat): seq<Bytes>
    decreases jumps
  {
    var seg := Scan(buf, off);
    if seg.end.Pointer? && jumps > 0 then seg.labels + Expand(buf, seg.end.target, jumps - 1)
    else seg.labels
  }

  /** The last segment on the way is a bare root byte. */
  predicate EndsBare(buf: Bytes, off: nat, jumps: nat)
    decreases jumps
  {
    var seg := Scan(buf, off);
    if seg.end.Pointer? && jumps > 0 then EndsBare(buf, seg.end.target, jumps - 1)
    else seg.labels == []
  }

  lemma {:induction false} JoinAppend(a: seq<Bytes>, b: seq<Bytes>)
    requires a != [] && b != []
    ensures Join(a + b) == Join(a) + [DOT] + Join(b)
    decreases |a|
  {
    if |a| == 1 {
      assert (a + b)[1..] == b;
    } else {
      assert (a + b)[1..] == a[1..] + b;
      JoinAppend(a[1..], b);
    }
  }

  lemma JoinOne(a: Bytes)
    ensures Join([a]) == a
  {
  }

  /**
    What is read is the dotted join of the expanded labels, except that a name whose last pointer
    leads to a bare root byte comes out with a dot too many.
   */
  lemma {:induction false} ReadJoinsLabels(buf: Bytes, off: nat, jumps: nat)
    requires Read(buf, off, jumps).Some? && Read(buf, off, jumps).value.Ok?
    ensures var labels := Expand(buf, off, jumps);
      Read(buf, off, jumps).value.name ==
        Join(labels) + (if labels != [] && EndsBare(buf, off, jumps) then [DOT] else [])
    decreases jumps
  {
    var seg := Scan(buf, off);
    if seg.end.Pointer? {
      var t := seg.end.target;
      ReadJoinsLabels(buf, t, jumps - 1);
      var sub := Read(buf, t, jumps - 1).value.name;
      var rest := Expand(buf, t, jumps - 1);
      JoinOne(sub);
      if seg.labels == [] {
        assert seg.labels + [sub] == [sub] && seg.labels + rest == rest;
      } else {
        JoinAppend(seg.labels, [sub]);
        if rest == [] {
          assert seg.labels + rest == seg.labels;
          NoLabelsEndsBare(buf, t, jumps - 1);
        } else {
          JoinAppend(seg.labels, rest);
        }
      }
    }
  }

  lemma {:induction false} NoLabelsEndsBare(buf: Bytes, off: nat, jumps: nat)
    requires Expand(buf, off, jumps) == []
    ensures EndsBare(buf, off, jumps)
    decreases jumps
  {
    var seg := Scan(buf, off);
    if jumps == 0 || !seg.end.Pointer? {
    } else {
      assert seg.labels + Expand(buf, seg.end.target, jumps - 1) == [];
      NoLabelsEndsBare(buf, seg.end.target, jumps - 1);
    }
  }

  /** Reading has got to `off` in the segment from `start`, with these labels. */
  ghost predicate ReadUpTo(buf: Bytes, start: nat, off: nat, labels: seq<Bytes>) {
    Scan(buf, start) == (var rest := Scan(buf, off); rest.(labels := labels + rest.labels))
  }

  lemma ReadOneLabel(buf: Bytes, start: nat, off: nat, labels: seq<Bytes>, l: nat, part: Bytes)
    requires ReadUpTo(buf, start, off, labels) && Stop(buf, off).None?
    requires l == buf[off] && part == buf[off + 1..off + 1 + l]
    ensures ReadUpTo(buf, start, off + 1 + l, labels + [part])
  {
    var rest := Scan(buf, off + 1 + l);
    assert labels + ([part] + rest.labels) == labels + [part] + rest.labels;
  }

  lemma ReadToEnd(buf: Bytes, start: nat, off: nat, labels: seq<Bytes>)
    requires ReadUpTo(buf, start, off, labels) && Stop(buf, off).Some?
    ensures Scan(buf, start) == Stop(buf, off).value.(labels := labels)
  {
    assert labels + [] == labels;
  }

  /** One look at the byte under the offset: the segment ends there, or a whole label follows. */
  method LookAt(buf: Bytes, off: nat) returns (stop: Option<Segment>)
    ensures stop == Stop(buf, off)
  {
    if off >= |buf| { return Some(Segment([], Bad(NameOutOfBounds), off)); }
    var l: int := buf[off];
    if l == 0 { return Some(Segment([], Root, off + 1)); }
    if l >= 192 {
      if off + 1 >= |buf| { return Some(Segment([], Bad(PointerTruncated), off + 1)); }
      return Some(Segment([], Pointer(Target(l, buf[off + 1])), off + 2));
    }
    if off + 1 + l > |buf| { return Some(Segment([], Bad(LabelOutOfBounds), off + 1)); }
    return None;
  }

  /** The reading loop, up to a root byte, a pointer or an error. */
  method ReadSegment(buf: Bytes, start: nat) returns (seg: Segment)
    ensures seg == Scan(buf, start)
  {
    var off := start;
    var labels: seq<Bytes> := [];
    while true
      invariant ReadUpTo(buf, start, off, labels)
      decreases |buf| - off
    {
      var stop := LookAt(buf, off);
      if stop.Some? {
        ReadToEnd(buf, start, off, labels);
        return stop.value.(labels := labels);
      }
      var l: int := buf[off];
      var part := buf[off + 1..off + 1 + l];
      ReadOneLabel(buf, start, off, labels, l, part);
      labels, off := labels + [part], off + 1 + l;
    }
  }

  /** The reader itself; `jumps` witnesses that it comes to an end. */
  method ReadName(buf: Bytes, start: nat, ghost jumps: nat) returns (r: Result)
    requires Read(buf, start, jumps).Some?
    ensures Some(r) == Read(buf, start, jumps)
    decreases jumps
  {
    var seg := ReadSegment(buf, start);
    match seg.end {
      case Root => return Ok(Join(seg.labels), seg.off);
      case Bad(e) => return Err(e, seg.off);
      case Pointer(target) =>
        var sub := ReadName(buf, target, jumps - 1);
        if sub.Err? { return Err(sub.error, seg.off - 1); }
        return Ok(Join(seg.labels + [sub.name]), seg.off);
    }
  }

  // ---------- writing ----------

  /** Pieces between dots; one empty piece for the empty name. */
  function Split(name: Bytes): (r: seq<Bytes>)
    ensures r != []
  {
    if name == [] then [[]]
    else
      var rest := Split(name[1..]);
      if name[0] == DOT then [[]] + rest else [[name[0]] + rest[0]] + rest[1..]
  }

  function NonEmpty(labels: seq<Bytes>): seq<Bytes> {
    if labels == [] then []
    else if labels[|labels| - 1] == [] then NonEmpty(labels[..|labels| - 1])
    else NonEmpty(labels[..|labels| - 1]) + [labels[|labels| - 1]]
  }

  /** Length byte and label; the length is cut to eight bits. */
  function EncodeLabel(part: Bytes): Bytes {
    [|part| % 256] + part
  }

  function EncodeLabels(labels: seq<Bytes>): Bytes {
    if labels == [] then []
    else EncodeLabel(labels[0]) + EncodeLabels(labels[1..])
  }

  function EncodeParts(labels: seq<Bytes>): Bytes {
    EncodeLabels(labels) + [0]
  }

  function Encode(name: Bytes): Bytes {
    EncodeParts(NonEmpty(Split(name)))
  }

  lemma {:induction false} EncodeSnoc(labels: seq<Bytes>, part: Bytes)
    ensures EncodeLabels(labels + [part]) == EncodeLabels(labels) + EncodeLabel(part)
    decreases |labels|
  {
    if labels == [] {
      assert labels + [part] == [part] && [part][1..] == [];
    } else {
      EncodeSnoc(labels[1..], part);
      assert (labels + [part])[1..] == labels[1..] + [part];
      Regroup(EncodeLabel(labels[0]), EncodeLabels(labels[1..]), EncodeLabel(part));
    }
  }

  lemma Regroup(a: Bytes, b: Bytes, c: Bytes)
    ensures a + b + c == a + (b + c)
  {
  }

  method WriteName(w: Bytes, name: Bytes) returns (out: Bytes)
    ensures out == w + Encode(name)
  {
    var labels := Split(name);
    out := w;
    for i := 0 to |labels|
      invariant out == w + EncodeLabels(NonEmpty(labels[..i]))
    {
      var part := labels[i];
      assert labels[..i + 1][..i] == labels[..i];
      if part == [] { continue; }
      EncodeSnoc(NonEmpty(labels[..i]), part);
      Regroup(w, EncodeLabels(NonEmpty(labels[..i])), EncodeLabel(part));
      out := out + ([|part| % 256] + part);
    }
    assert labels[..|labels|] == labels;
    out := out + [0];
  }

  // ---------- round trip ----------

  /** The message holds these bytes at an offset. */
  predicate Holds(buf: Bytes, off: nat, wire: Bytes) {
    off + |wire| <= |buf| && buf[off..off + |wire|] == wire
  }

  lemma HoldsSplit(buf: Bytes, off: nat, a: Bytes, b: Bytes)
    requires Holds(buf, off, a + b)
    ensures Holds(buf, off, a) && Holds(buf, off + |a|, b)
  {
    var slice := buf[off..off + |a| + |b|];
    assert buf[off..off + |a|] == slice[..|a|];
    assert buf[off + |a|..off + |a| + |b|] == slice[|a|..];
  }

  lemma ScanOne(buf: Bytes, off: nat, head: Bytes)
    requires 1 <= |head| <= 191 && Holds(buf, off, EncodeLabel(head))
    ensures var rest := Scan(buf, off + 1 + |head|);
      Scan(buf, off) == rest.(labels := [head] + rest.labels)
  {
    var slice := buf[off..off + 1 + |head|];
    assert buf[off] == slice[0] == |head|;
    assert buf[off + 1..off + 1 + |head|] == slice[1..] == head;
  }

  lemma ScanFirst(buf: Bytes, off: nat, labels: seq<Bytes>, end: nat)
    requires labels != [] && 1 <= |labels[0]| <= 191 && Holds(buf, off, EncodeLabel(labels[0]))
    requires Scan(buf, off + 1 + |labels[0]|) == Segment(labels[1..], Root, end)
    ensures Scan(buf, off) == Segment(labels, Root, end)
  {
    ScanOne(buf, off, labels[0]);
    assert labels == [labels[0]] + labels[1..];
  }

  lemma HoldsFirst(buf: Bytes, off: nat, labels: seq<Bytes>)
    requires labels != [] && Holds(buf, off, EncodeParts(labels))
    ensures Holds(buf, off, EncodeLabel(labels[0])) && Holds(buf, off + 1 + |labels[0]|, EncodeParts(labels[1..]))
    ensures |EncodeParts(labels)| == 1 + |labels[0]| + |EncodeParts(labels[1..])|
  {
    Regroup(EncodeLabel(labels[0]), EncodeLabels(labels[1..]), [0]);
    HoldsSplit(buf, off, EncodeLabel(labels[0]), EncodeParts(labels[1..]));
  }

  lemma {:induction false} ScanEncoded(buf: Bytes, off: nat, labels: seq<Bytes>)
    requires forall i :: 0 <= i < |labels| ==> 1 <= |labels[i]| <= 191
    requires Holds(buf, off, EncodeParts(labels))
    ensures Scan(buf, off) == Segment(labels, Root, off + |EncodeParts(labels)|)
    decreases |labels|
  {
    if labels == [] {
      assert buf[off] == buf[off..off + 1][0];
    } else {
      HoldsFirst(buf, off, labels);
      ScanEncoded(buf, off + 1 + |labels[0]|, labels[1..]);
      ScanFirst(buf, off, labels, off + |EncodeParts(labels)|);
    }
  }

  lemma HoldsFirstLabel(buf: Bytes, off: nat, labels: seq<Bytes>)
    requires labels != [] && Holds(buf, off, EncodeLabels(labels))
    ensures Holds(buf, off, EncodeLabel(labels[0])) && Holds(buf, off + 1 + |labels[0]|, EncodeLabels(labels[1..]))
    ensures |EncodeLabels(labels)| == 1 + |labels[0]| + |EncodeLabels(labels[1..])|
  {
    HoldsSplit(buf, off, EncodeLabel(labels[0]), EncodeLabels(labels[1..]));
  }

  lemma ScanPrepends(buf: Bytes, off: nat, labels: seq<Bytes>, rest: Segment)
    requires labels != [] && 1 <= |labels[0]| <= 191 && Holds(buf, off, EncodeLabel(labels[0]))
    requires Scan(buf, off + 1 + |labels[0]|) == rest.(labels := labels[1..] + rest.labels)
    ensures Scan(buf, off) == rest.(labels := labels + rest.labels)
  {
    ScanOne(buf, off, labels[0]);
    assert [labels[0]] + (labels[1..] + rest.labels) == labels + rest.labels;
  }

  lemma {:induction false} ScanLabels(buf: Bytes, off: nat, labels: seq<Bytes>, end: nat, rest: Segment)
    requires forall i :: 0 <= i < |labels| ==> 1 <= |labels[i]| <= 191
    requires Holds(buf, off, EncodeLabels(labels)) && end == off + |EncodeLabels(labels)| && rest == Scan(buf, end)
    ensures Scan(buf, off) == rest.(labels := labels + rest.labels)
    decreases |labels|
  {
    if labels == [] {
      assert labels + rest.labels == rest.labels;
    } else {
      HoldsFirstLabel(buf, off, labels);
      ScanLabels(buf, off + 1 + |labels[0]|, labels[1..], end, rest);
      ScanPrepends(buf, off, labels, rest);
    }
  }

  /** Two bytes that point to an offset. */
  predicate PointsTo(buf: Bytes, off: nat, target: nat) {
    off + 1 < |buf| && target < 16384 && buf[off] == 192 + target / 256 && buf[off + 1] == target % 256
  }

  lemma TargetOf(target: nat)
    requires target < 16384
    ensures Target(192 + target / 256, target % 256) == target
  {
    assert (192 + target / 256) * 256 + target % 256 == 3 * 16384 + target;
  }

  lemma StopAtPointer(buf: Bytes, off: nat, target: nat)
    requires PointsTo(buf, off, target)
    ensures Stop(buf, off) == Some(Segment([], Pointer(target), off + 2))
  {
    TargetOf(target);
  }

  /**
    A compressed name, some labels and then a pointer: read as the labels before the name that is at
    the target, which ends just past the pointer, or as that name's error.
   */
  lemma CompressedNameReads(buf: Bytes, off: nat, labels: seq<Bytes>, target: nat, jumps: nat)
    requires forall i :: 0 <= i < |labels| ==> 1 <= |labels[i]| <= 191
    requires Holds(buf, off, EncodeLabels(labels)) && PointsTo(buf, off + |EncodeLabels(labels)|, target)
    ensures var end := off + |EncodeLabels(labels)| + 2;
      Read(buf, off, jumps + 1) ==
        match Read(buf, target, jumps)
        case None => None
        case Some(Err(e, _)) => Some(Err(e, end - 1))
        case Some(Ok(name, _)) => Some(Ok(Join(labels + [name]), end))
  {
    var at := off + |EncodeLabels(labels)|;
    ScanLabels(buf, off, labels, at, Scan(buf, at));
    StopAtPointer(buf, at, target);
    assert labels + [] == labels;
  }

  /** After any labels: the end of the message, half a pointer, or a label cut short are errors, each its own. */
  lemma MalformedNamesAreErrors(buf: Bytes, off: nat, labels: seq<Bytes>, jumps: nat)
    requires forall i :: 0 <= i < |labels| ==> 1 <= |labels[i]| <= 191
    requires Holds(buf, off, EncodeLabels(labels))
    ensures var end := off + |EncodeLabels(labels)|;
      && (end >= |buf| ==> Read(buf, off, jumps) == Some(Err(NameOutOfBounds, end)))
      && (end + 1 == |buf| && buf[end] >= 192 ==> Read(buf, off, jumps) == Some(Err(PointerTruncated, end + 1)))
      && (end < |buf| && 0 < buf[end] < 192 && end + 1 + buf[end] as int > |buf| ==>
            Read(buf, off, jumps) == Some(Err(LabelOutOfBounds, end + 1)))
  {
    var end := off + |EncodeLabels(labels)|;
    ScanLabels(buf, off, labels, end, Scan(buf, end));
  }

  lemma {:induction false} NonEmptyLabels(labels: seq<Bytes>)
    ensures forall l :: l in NonEmpty(labels) <==> l in labels && l != []
  {
    if labels == [] {
    } else {
      NonEmptyLabels(labels[..|labels| - 1]);
      assert labels == labels[..|labels| - 1] + [labels[|labels| - 1]];
    }
  }

  predicate ShortLabels(labels: seq<Bytes>) {
    forall l :: l in labels ==> |l| <= 191
  }

  lemma KeptLabelsFit(labels: seq<Bytes>)
    requires ShortLabels(labels)
    ensures forall i :: 0 <= i < |NonEmpty(labels)| ==> 1 <= |NonEmpty(labels)[i]| <= 191
  {
    NonEmptyLabels(labels);
    var kept := NonEmpty(labels);
    forall i | 0 <= i < |kept| ensures 1 <= |kept[i]| <= 191 { assert kept[i] in kept; }
  }

  lemma ReadEncoded(pre: Bytes, labels: seq<Bytes>, wire: Bytes, post: Bytes, jumps: nat)
    requires wire == EncodeParts(labels) && forall i :: 0 <= i < |labels| ==> 1 <= |labels[i]| <= 191
    ensures Read(pre + wire + post, |pre|, jumps) == Some(Ok(Join(labels), |pre| + |wire|))
  {
    var buf := pre + wire + post;
    assert buf[|pre|..|pre| + |wire|] == wire;
    ScanEncoded(buf, |pre|, labels);
  }

  lemma ReadEncodedName(pre: Bytes, name: Bytes, post: Bytes, jumps: nat, labels: seq<Bytes>)
    requires labels == NonEmpty(Split(name)) && forall i :: 0 <= i < |labels| ==> 1 <= |labels[i]| <= 191
    ensures Read(pre + Encode(name) + post, |pre|, jumps) == Some(Ok(Join(labels), |pre| + |Encode(name)|))
  {
    ReadEncoded(pre, labels, Encode(name), post, jumps);
  }

  lemma ReadShort(pre: Bytes, name: Bytes, post: Bytes, jumps: nat)
    requires ShortLabels(Split(name))
    ensures Read(pre + Encode(name) + post, |pre|, jumps) ==
      Some(Ok(Join(NonEmpty(Split(name))), |pre| + |Encode(name)|))
  {
    KeptLabelsFit(Split(name));
    ReadEncodedName(pre, name, post, jumps, NonEmpty(Split(name)));
  }

  predicate DotFree(labels: seq<Bytes>) {
    forall i :: 0 <= i < |labels| ==> DOT !in labels[i]
  }

  lemma {:induction false} SplitLabel(part: Bytes, rest: Bytes)
    requires DOT !in part
    ensures Split(part) == [part]
    ensures Split(part + [DOT] + rest) == [part] + Split(rest)
  {
    if part == [] {
      assert part + [DOT] + rest == [DOT] + rest && ([DOT] + rest)[1..] == rest;
    } else {
      SplitLabel(part[1..], rest);
      assert (part + [DOT] + rest)[1..] == part[1..] + [DOT] + rest;
      assert part == [part[0]] + part[1..];
    }
  }

  lemma {:induction false} SplitUndoesJoin(labels: seq<Bytes>)
    requires labels != [] && DotFree(labels)
    ensures Split(Join(labels)) == labels
    decreases |labels|
  {
    if |labels| == 1 {
      SplitLabel(labels[0], []);
    } else {
      SplitUndoesJoin(labels[1..]);
      SplitLabel(labels[0], Join(labels[1..]));
      assert labels == [labels[0]] + labels[1..];
    }
  }

  lemma {:induction false} JoinUndoesSplit(name: Bytes)
    ensures Join(Split(name)) == name && DotFree(Split(name))
  {
    if name == [] {
    } else {
      var rest := Split(name[1..]);
      JoinUndoesSplit(name[1..]);
      assert name == [name[0]] + name[1..];
      if name[0] == DOT {
        assert ([[]] + rest)[1..] == rest;
      } else {
        assert ([[name[0]] + rest[0]] + rest[1..])[1..] == rest[1..];
      }
    }
  }

  lemma {:induction false} NonEmptyIdentity(labels: seq<Bytes>)
    ensures NonEmpty(labels) == labels <==> forall l :: l in labels ==> l != []
  {
    NonEmptyLabels(labels);
    if labels == [] || [] in labels {
    } else {
      var init, last := labels[..|labels| - 1], labels[|labels| - 1];
      assert labels == init + [last];
      assert forall l :: l in init ==> l in labels;
      assert last in labels;
      NonEmptyIdentity(init);
    }
  }

  lemma {:induction false} SplitKept(labels: seq<Bytes>)
    requires DotFree(labels) && forall i :: 0 <= i < |labels| ==> labels[i] != []
    ensures NonEmpty(Split(Join(labels))) == labels
  {
    if labels == [] {
      assert Split([])[..0] == [];
    } else {
      SplitUndoesJoin(labels);
      NonEmptyIdentity(labels);
    }
  }

  predicate RfcLabels(labels: seq<Bytes>) {
    DotFree(labels) && forall i :: 0 <= i < |labels| ==> 1 <= |labels[i]| <= 63
  }

  lemma RfcLabelsKept(labels: seq<Bytes>, name: Bytes)
    requires RfcLabels(labels) && name == Join(labels)
    ensures labels == NonEmpty(Split(name)) && forall i :: 0 <= i < |labels| ==> 1 <= |labels[i]| <= 191
  {
    SplitKept(labels);
  }

  /** Dot-free labels of 1 to 63 bytes, section 2.3.4 of RFC 1035, are read back exactly. */
  lemma {:induction false} NamesRoundTrip(pre: Bytes, labels: seq<Bytes>, post: Bytes, jumps: nat)
    requires RfcLabels(labels)
    ensures Read(pre + Encode(Join(labels)) + post, |pre|, jumps) ==
      Some(Ok(Join(labels), |pre| + |Encode(Join(labels))|))
  {
    RfcLabelsKept(labels, Join(labels));
    ReadEncodedName(pre, Join(labels), post, jumps, labels);
  }

  /** Dropping empty labels leaves a name alone if and only if it has none, or is empty. */
  lemma DroppingIsHarmlessIff(name: Bytes)
    ensures Join(NonEmpty(Split(name))) == name <==> name == [] || forall l :: l in Split(name) ==> l != []
  {
    JoinUndoesSplit(name);
    var all, kept := Split(name), NonEmpty(Split(name));
    NonEmptyIdentity(all);
    if name == [] {
      assert all[..0] == [];
      assert kept == [];
    } else if Join(kept) == name {
      NonEmptyLabels(all);
      if kept != [] {
        forall i | 0 <= i < |kept| ensures DOT !in kept[i] { assert kept[i] in all; }
        SplitUndoesJoin(kept);
      }
    }
  }

  /** Where label k starts on the wire. */
  function WireAt(labels: seq<Bytes>, k: nat): nat
    requires k <= |labels|
  {
    if k == 0 then 0 else WireAt(labels, k - 1) + 1 + |labels[k - 1]|
  }

  lemma {:induction false} WireAtTail(labels: seq<Bytes>, k: nat)
    requires 0 < k <= |labels|
    ensures WireAt(labels, k) == 1 + |labels[0]| + WireAt(labels[1..], k - 1)
    decreases k
  {
    if k == 1 {
    } else {
      WireAtTail(labels, k - 1);
    }
  }

  lemma {:induction false} LabelsOnWire(labels: seq<Bytes>, k: nat)
    requires k < |labels|
    ensures var (wire, at) := (EncodeLabels(labels), WireAt(labels, k));
      at + 1 + |labels[k]| <= |wire| && wire[at] == |labels[k]| % 256 && wire[at + 1..at + 1 + |labels[k]|] == labels[k]
    ensures |EncodeLabels(labels)| == WireAt(labels, |labels|)
    decreases |labels|
  {
    var head, tail := labels[0], labels[1..];
    var wire := EncodeLabels(labels);
    WireAtTail(labels, |labels|);
    if tail != [] {
      LabelsOnWire(tail, if k > 0 then k - 1 else 0);
    }
    if k == 0 {
      assert wire[1..1 + |head|] == head;
    } else {
      WireAtTail(labels, k);
      var at := WireAt(tail, k - 1);
      assert wire[1 + |head| + at + 1..1 + |head| + at + 1 + |labels[k]|] ==
             EncodeLabels(tail)[at + 1..at + 1 + |labels[k]|];
    }
  }

  /** On these bytes, label k is its length in one byte and then its bytes, and a zero byte ends the name. */
  predicate OnWire(wire: Bytes, labels: seq<Bytes>, k: nat)
    requires k < |labels|
  {
    var at := WireAt(labels, k);
    && |wire| == WireAt(labels, |labels|) + 1 && wire[|wire| - 1] == 0
    && at + 1 + |labels[k]| < |wire|
    && wire[at] == |labels[k]| % 256 && wire[at + 1..at + 1 + |labels[k]|] == labels[k]
  }

  lemma PartsOnWire(labels: seq<Bytes>, k: nat)
    requires k < |labels|
    ensures OnWire(EncodeParts(labels), labels, k)
  {
    LabelsOnWire(labels, k);
    var (wire, at) := (EncodeLabels(labels), WireAt(labels, k));
    assert (wire + [0])[at + 1..at + 1 + |labels[k]|] == wire[at + 1..at + 1 + |labels[k]|];
  }

  lemma EncodeKeepsLabels(labels: seq<Bytes>, name: Bytes)
    requires RfcLabels(labels) && name == Join(labels)
    ensures Encode(name) == EncodeParts(labels)
  {
    RfcLabelsKept(labels, name);
  }

  /** The wire format of section 3.1 of RFC 1035, for every name of dot-free labels of 1 to 63 bytes. */
  lemma {:induction false} WireFormat(labels: seq<Bytes>, k: nat)
    requires RfcLabels(labels) && k < |labels|
    ensures OnWire(Encode(Join(labels)), labels, k)
  {
    EncodeKeepsLabels(labels, Join(labels));
    PartsOnWire(labels, k);
  }

  // ---------- what can be read at all ----------

  /** Pieces of a name with one more byte in front. */
  function Grow(c: Byte, pieces: seq<Bytes>): seq<Bytes>
    requires pieces != []
  {
    if c == DOT then [[]] + pieces else [[c] + pieces[0]] + pieces[1..]
  }

  lemma SplitGrows(name: Bytes)
    requires name != []
    ensures Split(name) == Grow(name[0], Split(name[1..]))
  {
  }

  lemma GrowAppend(c: Byte, pieces: seq<Bytes>, more: seq<Bytes>)
    requires pieces != []
    ensures Grow(c, pieces + more) == Grow(c, pieces) + more
  {
    assert (pieces + more)[1..] == pieces[1..] + more;
  }

  lemma {:induction false} SplitAtDot(a: Bytes, b: Bytes)
    ensures Split(a + [DOT] + b) == Split(a) + Split(b)
    decreases |a|
  {
    var whole := a + [DOT] + b;
    SplitGrows(whole);
    if a == [] {
      assert whole[1..] == b;
    } else {
      assert whole[1..] == a[1..] + [DOT] + b;
      SplitAtDot(a[1..], b);
      SplitGrows(a);
      GrowAppend(a[0], Split(a[1..]), Split(b));
    }
  }

  lemma {:induction false} PiecesAreShorter(name: Bytes, l: Bytes)
    requires l in Split(name)
    ensures |l| <= |name|
    decreases |name|
  {
    if name == [] {
    } else {
      var rest := Split(name[1..]);
      if l in rest { PiecesAreShorter(name[1..], l); }
      PiecesAreShorter(name[1..], rest[0]);
    }
  }

  predicate ShortPieces(name: Bytes) {
    ShortLabels(Split(name))
  }

  lemma ShortNameHasShortPieces(name: Bytes)
    requires |name| <= 191
    ensures ShortPieces(name)
  {
    forall l | l in Split(name) ensures |l| <= 191 { PiecesAreShorter(name, l); }
  }

  lemma ShortConcat(a: Bytes, b: Bytes)
    requires ShortPieces(a) && ShortPieces(b)
    ensures ShortPieces(a + [DOT] + b)
  {
    SplitAtDot(a, b);
  }

  lemma {:induction false} JoinIsShort(labels: seq<Bytes>)
    requires forall i :: 0 <= i < |labels| ==> ShortPieces(labels[i])
    ensures ShortPieces(Join(labels))
    decreases |labels|
  {
    if labels == [] {
    } else if |labels| == 1 {
      JoinOne(labels[0]);
    } else {
      JoinIsShort(labels[1..]);
      ShortConcat(labels[0], Join(labels[1..]));
    }
  }

  lemma SegmentIsShort(buf: Bytes, off: nat, i: nat)
    requires i < |Scan(buf, off).labels|
    ensures ShortPieces(Scan(buf, off).labels[i])
  {
    ScanEnds(buf, off);
    ShortNameHasShortPieces(Scan(buf, off).labels[i]);
  }

  /** No name that is read, from any message, has more than 191 bytes between two dots. */
  lemma {:induction false} ReadNamesAreShort(buf: Bytes, off: nat, jumps: nat)
    requires Read(buf, off, jumps).Some? && Read(buf, off, jumps).value.Ok?
    ensures ShortPieces(Read(buf, off, jumps).value.name)
    decreases jumps
  {
    var seg := Scan(buf, off);
    forall i | 0 <= i < |seg.labels| ensures ShortPieces(seg.labels[i]) { SegmentIsShort(buf, off, i); }
    if seg.end.Pointer? {
      ReadNamesAreShort(buf, seg.end.target, jumps - 1);
      JoinIsShort(seg.labels + [Read(buf, seg.end.target, jumps - 1).value.name]);
    } else {
      JoinIsShort(seg.labels);
    }
  }

  // ---------- which names survive ----------

  lemma ShortIffKeptShort(name: Bytes)
    ensures ShortPieces(Join(NonEmpty(Split(name)))) <==> ShortLabels(Split(name))
  {
    JoinUndoesSplit(name);
    var all, kept := Split(name), NonEmpty(Split(name));
    NonEmptyLabels(all);
    if kept == [] {
      ShortNameHasShortPieces(Join(kept));
    } else {
      forall i | 0 <= i < |kept| ensures DOT !in kept[i] { assert kept[i] in all; }
      SplitUndoesJoin(kept);
    }
  }

  /** The result is a name, and it is this one. */
  predicate Gives(r: Option<Result>, name: Bytes) {
    r.Some? && r.value.Ok? && r.value.name == name
  }

  /**
    At any place in any message, and however many pointers the reader may follow: reading what was
    written for a name gives the name with its empty labels dropped exactly when no label is longer
    than 191 bytes, and then the offset is the one just past it.
   */
  lemma {:induction false} ReadUndoesWriteIff(pre: Bytes, name: Bytes, post: Bytes, jumps: nat)
    ensures var r := Read(pre + Encode(name) + post, |pre|, jumps);
      && (Gives(r, Join(NonEmpty(Split(name)))) <==> ShortLabels(Split(name)))
      && (ShortLabels(Split(name)) ==> r.value.off == |pre| + |Encode(name)|)
  {
    var buf := pre + Encode(name) + post;
    if ShortLabels(Split(name)) {
      ReadShort(pre, name, post, jumps);
    } else if Gives(Read(buf, |pre|, jumps), Join(NonEmpty(Split(name)))) {
      ReadNamesAreShort(buf, |pre|, jumps);
      ShortIffKeptShort(name);
    }
  }

  /** A name survives being written and read if and only if it is empty or has only labels of 1 to 191 bytes. */
  lemma NameSurvivesIff(pre: Bytes, name: Bytes, post: Bytes, jumps: nat)
    ensures Gives(Read(pre + Encode(name) + post, |pre|, jumps), name) <==>
            name == [] || forall l :: l in Split(name) ==> 1 <= |l| <= 191
  {
    var buf := pre + Encode(name) + post;
    DroppingIsHarmlessIff(name);
    if ShortLabels(Split(name)) {
      ReadShort(pre, name, post, jumps);
    } else if Gives(Read(buf, |pre|, jumps), name) {
      ReadNamesAreShort(buf, |pre|, jumps);
    } else if name == [] {
      ShortNameHasShortPieces(name);
    }
  }
}
