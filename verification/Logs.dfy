/** The log ring buffer (internal/primitives/obs/metrics.go:217-272). */
module Logs {
  import opened Prelude

  datatype LogRecord = LogRecord(time: int, level: string, message: string, labels: map<string, string>)

  const NO_RECORD := LogRecord(0, "", "", map[])

  /** The last n records, newest first. */
  function Newest(h: seq<LogRecord>, n: nat): (r: seq<LogRecord>)
    requires n <= |h|
    ensures |r| == n && forall i :: 0 <= i < n ==> r[i] == h[|h| - 1 - i]
  {
    if n == 0 then [] else [h[|h| - 1]] + Newest(h[..|h| - 1], n - 1)
  }

  lemma Multiples(d: int, m: nat)
    ensures d >= 1 ==> d * m >= m
    ensures d <= -1 ==> d * m <= -(m as int)
    ensures d == 0 ==> d * m == 0
  {
    assert d >= 1 ==> (d - 1) * m >= 0;
    assert d <= -1 ==> (-1 - d) * m >= 0;
  }

  lemma ModUnique(a: int, m: nat, q: int, r: int)
    requires 0 <= r < m && a == q * m + r
    ensures a % m == r && a / m == q
  {
    var q' := a / m;
    assert (q - q') * m == a % m - r;
    Multiples(q - q', m);
  }

  /** The write position after one more record. */
  lemma ModStep(a: nat, m: nat)
    requires m > 0
    ensures (a + 1) % m == (a % m + 1) % m == if a % m == m - 1 then 0 else a % m + 1
  {
    var q, r := a / m, a % m;
    if r == m - 1 {
      ModUnique(a + 1, m, q + 1, 0);
      ModUnique(m, m, 1, 0);
    } else {
      ModUnique(a + 1, m, q, r + 1);
      ModUnique(r + 1, m, 0, r + 1);
    }
  }

  /** Going back i < m places from the write position. */
  lemma ModBack(total: nat, m: nat, i: nat)
    requires m > 0 && i < m && i < total
    ensures (total - 1 - i) % m == (var idx := total % m - 1 - i; if idx < 0 then idx + m else idx)
  {
    var q, idx := total / m, total % m - 1 - i;
    assert total == q * m + total % m;
    if idx < 0 {
      assert total - 1 - i == (q - 1) * m + (idx + m);
      ModUnique(total - 1 - i, m, q - 1, idx + m);
    } else {
      ModUnique(total - 1 - i, m, q, idx);
    }
  }

  /** Fewer than m apart, two positions share a slot only if they are the same. */
  lemma ModDistinct(j: nat, k: nat, m: nat)
    requires m > 0 && j < k < j + m
    ensures j % m != k % m
  {
    var d := k / m - j / m;
    assert k - j == d * m + (k % m - j % m);
    Multiples(d, m);
  }

  class Logs {
    const maxSize: nat
    var ring: array<LogRecord>
    var next: nat
    var full: bool
    ghost var history: seq<LogRecord>  // everything ever appended

    ghost predicate Valid()
      reads this, ring
    {
      && maxSize > 0 && ring.Length == maxSize
      && next == |history| % maxSize && (full <==> |history| >= maxSize)
      && forall k :: 0 <= k < |history| && |history| - maxSize <= k ==> ring[k % maxSize] == history[k]
    }

    constructor (size: int)
      ensures Valid() && fresh(ring) && history == []
      ensures maxSize == if size <= 0 then 1024 else size
    {
      var n: nat := if size <= 0 then 1024 else size;
      maxSize := n;
      ring := new LogRecord[n](_ => NO_RECORD);
      next, full, history := 0, false, [];
    }

    method Append(rec: LogRecord)
      requires Valid()
      modifies this, ring
      ensures Valid() && ring == old(ring) && history == old(history) + [rec]
    {
      ghost var total := |history|;
      ModStep(total, maxSize);
      ring[next] := rec;
      next := (next + 1) % maxSize;
      if next == 0 { full := true; }
      history := history + [rec];
      FullIff(total, maxSize);
      forall k | 0 <= k < total && total + 1 - maxSize <= k
        ensures ring[k % maxSize] == history[k]
      {
        ModDistinct(k, total, maxSize);
      }
    }

    /** The newest min(n, appended, maxSize) records, newest first, however often the ring wrapped. */
    method Tail(n0: nat) returns (out: seq<LogRecord>)
      requires Valid()
      ensures out == Newest(history, Min(n0, Min(|history|, maxSize)))
    {
      var n := n0;
      if n > maxSize { n := maxSize; }
      out := [];
      var count := maxSize;
      if !full {
        count := next;
        assert count == |history|;
      }
      var i := 0;
      while i < n && i < count
        invariant 0 <= i <= n && i <= count && |out| == i
        invariant forall k :: 0 <= k < i ==> out[k] == history[|history| - 1 - k]
      {
        ModBack(|history|, maxSize, i);
        var idx := next - 1 - i;
        if idx < 0 { idx := idx + maxSize; }
        assert ring[idx] == history[|history| - 1 - i];
        out := out + [ring[idx]];
        i := i + 1;
      }
      assert out == Newest(history, i);
    }
  }

  lemma FullIff(total: nat, m: nat)
    requires m > 0
    ensures total < m ==> total % m == total
    ensures (total + 1) % m == 0 ==> total + 1 >= m
    ensures total + 1 == m ==> (total + 1) % m == 0
  {
    if total + 1 < m { ModUnique(total + 1, m, 0, total + 1); }
    if total + 1 == m { ModUnique(m, m, 1, 0); }
    if total < m { ModUnique(total, m, 0, total); }
  }
}
