/**
  The retry counter's decimal form (internal/primitives/mq/mq.go:244-252 and 288-300): `itoa`
  writes it backwards into a 16-byte buffer, the delivery loop reads it back in 64-bit arithmetic.
 */
module Decimal {

  const TWO63: int := 0x8000_0000_0000_0000
  const TWO64: int := 0x1_0000_0000_0000_0000

  /** Largest value + 1 that fits the buffer. */
  const LIMIT: nat := 10_000_000_000_000_000

  /** A Go int after overflow. */
  function Wrap(x: int): int {
    (x + TWO63) % TWO64 - TWO63
  }

  lemma WrapIsModular(x: int)
    ensures -9223372036854775808 <= Wrap(x) <= 9223372036854775807
    ensures (Wrap(x) - x) % 18446744073709551616 == 0
  {
    var y := x + TWO63;
    assert Wrap(x) - x == -(y / TWO64) * TWO64;
  }

  lemma WrapSmall(x: int)
    requires -TWO63 <= x < TWO63
    ensures Wrap(x) == x
  {
  }

  function DigitChar(d: nat): char
    requires d < 10
  {
    '0' + d as char
  }

  predicate IsDigit(c: char) {
    '0' <= c <= '9'
  }

  function Digits(n: nat): string {
    if n == 0 then [] else Digits(n / 10) + [DigitChar(n % 10)]
  }

  /** What `itoa` returns: nothing at all for a negative number. */
  function Itoa(n: int): string {
    if n == 0 then "0" else if n < 0 then [] else Digits(n)
  }

  function Pow10(k: nat): nat {
    if k == 0 then 1 else 10 * Pow10(k - 1)
  }

  lemma Pow10At16()
    ensures Pow10(16) == LIMIT
  {
    assert Pow10(4) == 10_000;
    assert Pow10(8) == 10_000 * 10_000 by { assert Pow10(6) == 1_000_000; }
    assert Pow10(12) == 10_000 * 10_000 * 10_000 by { assert Pow10(10) == 10_000_000_000; }
    assert Pow10(14) == 100_000_000_000_000;
  }

  lemma DigitsStep(n: nat, tail: string)
    requires n > 0
    ensures Digits(n) + tail == Digits(n / 10) + ([DigitChar(n % 10)] + tail)
  {
  }

  /** Fills the buffer from its end; `n` below 10^16 never runs off its start. */
  method FormatInt(n0: int) returns (s: string)
    requires n0 < LIMIT
    ensures s == Itoa(n0)
  {
    if n0 == 0 { return "0"; }
    var buf := new char[16](_ => '0');
    var i := 16;
    var n := n0;
    Pow10At16();
    while n > 0
      invariant 0 <= i <= 16 && n < Pow10(i) && (n0 < 0 ==> i == 16) && (n0 > 0 ==> n >= 0)
      invariant n0 > 0 ==> Digits(n) + buf[i..] == Digits(n0)
      decreases n
    {
      i := i - 1;
      DigitsStep(n, buf[i + 1..]);
      buf[i] := DigitChar(n % 10);
      assert buf[i..] == [DigitChar(n % 10)] + buf[i + 1..];
      n := n / 10;
    }
    s := buf[i..];
  }

  // ---------- reading ----------

  function ParseFrom(acc: int, s: string): int
    decreases |s|
  {
    if s == [] || !IsDigit(s[0]) then acc
    else ParseFrom(Wrap(acc * 10 + (s[0] as int - '0' as int)), s[1..])
  }

  method ParseInt(v: string) returns (retries: int)
    ensures retries == ParseFrom(0, v)
  {
    retries := 0;
    for i := 0 to |v|
      invariant ParseFrom(retries, v[i..]) == ParseFrom(0, v)
    {
      assert v[i..][0] == v[i] && v[i..][1..] == v[i + 1..];
      if v[i] < '0' || v[i] > '9' { break; }
      retries := Wrap(retries * 10 + (v[i] as int - '0' as int));
    }
  }

  predicate AllDigits(s: string) {
    forall i :: 0 <= i < |s| ==> IsDigit(s[i])
  }

  lemma {:induction false} ParseSplit(acc: int, a: string, b: string)
    requires AllDigits(a)
    ensures ParseFrom(acc, a + b) == ParseFrom(ParseFrom(acc, a), b)
    decreases |a|
  {
    if a == [] {
      assert a + b == b;
    } else {
      assert (a + b)[1..] == a[1..] + b;
      ParseSplit(Wrap(acc * 10 + (a[0] as int - '0' as int)), a[1..], b);
    }
  }

  lemma ParseOne(acc: nat, d: nat)
    requires d < 10 && acc * 10 + d < TWO63
    ensures ParseFrom(acc, [DigitChar(d)]) == acc * 10 + d
  {
    var s := [DigitChar(d)];
    assert s[1..] == [];
    WrapSmall(acc * 10 + d);
    assert ParseFrom(acc * 10 + d, []) == acc * 10 + d;
  }

  lemma {:induction false} DigitsParse(n: nat)
    requires n < LIMIT
    ensures AllDigits(Digits(n)) && ParseFrom(0, Digits(n)) == n
  {
    if n == 0 {
    } else {
      DigitsParse(n / 10);
      var last := [DigitChar(n % 10)];
      ParseSplit(0, Digits(n / 10), last);
      ParseOne(n / 10, n % 10);
    }
  }

  /** The counter survives its round trip through the header; a negative one comes back as 0. */
  lemma ParseUndoesItoa(n: int)
    requires n < LIMIT
    ensures ParseFrom(0, Itoa(n)) == if n < 0 then 0 else n
  {
    if n > 0 {
      DigitsParse(n);
    } else if n == 0 {
      assert "0"[1..] == [];
    }
  }

  /** Up to 18 digits nothing wraps, so a counter a publisher sets cannot come out negative. */
  lemma {:induction false} ShortHeadersParse(acc: nat, s: string, k: nat)
    requires acc < Pow10(k) && k + |s| <= 18
    ensures ParseFrom(acc, s) >= 0
    decreases |s|
  {
    if s == [] || !IsDigit(s[0]) {
    } else {
      var d := s[0] as int - '0' as int;
      Pow10Below(k + 1);
      ShortHeadersParse(acc * 10 + d, s[1..], k + 1);
    }
  }

  lemma Pow10Below(k: nat)
    requires k <= 18
    ensures Pow10(k) <= 1_000_000_000_000_000_000 == Pow10(18)
  {
    Pow10Rises(k, 18);
    Pow10At16();
    assert Pow10(17) == 10 * Pow10(16) && Pow10(18) == 10 * Pow10(17);
  }

  lemma {:induction false} Pow10Rises(j: nat, k: nat)
    requires j <= k
    ensures Pow10(j) <= Pow10(k)
  {
    if j == k {
    } else {
      Pow10Rises(j, k - 1);
    }
  }

  /** With 19 digits it can: a header of nineteen nines reads as a negative number of retries. */
  lemma LongHeaderWraps(s: string)
    requires |s| == 19 && forall i :: 0 <= i < 19 ==> s[i] == '9'
    ensures ParseFrom(0, s) < 0
  {
    var d18, last := s[..18], s[18..];
    assert s == d18 + last && AllDigits(d18);
    ParseSplit(0, d18, last);
    NinesParse(d18, 18);
    Pow10Below(18);
    assert last == "9" && last[1..] == [];
    var x := 9_999_999_999_999_999_999;
    assert Wrap(x) == x - TWO64;
    assert ParseFrom(999_999_999_999_999_999, last) == ParseFrom(Wrap(x), []);
  }

  lemma {:induction false} NinesParse(s: string, k: nat)
    requires |s| == k <= 18 && forall i :: 0 <= i < k ==> s[i] == '9'
    ensures ParseFrom(0, s) == Pow10(k) - 1
  {
    if k == 0 {
    } else {
      var init := s[..k - 1];
      assert s == init + "9";
      NinesParse(init, k - 1);
      ParseSplit(0, init, "9");
      Pow10Below(k);
      ParseOne(Pow10(k - 1) - 1, 9);
      assert [DigitChar(9)] == "9";
    }
  }
}
