/** Decimal printing: `itoa` of internal/metrics/network.go, and the `%d` verb that builds
    the kind of a URL alert. */
module Decimal {
  newtype uint32 = x: int | 0 <= x < 0x1_0000_0000

  function DigitChar(d: int): char
    requires 0 <= d < 10
  {
    ('0' as int + d) as char
  }

  predicate IsDigit(c: char) {
    '0' <= c <= '9'
  }

  /** The decimal numeral of n, most significant digit first. */
  function Text(n: nat): string {
    if n < 10 then [DigitChar(n)] else Text(n / 10) + [DigitChar(n % 10)]
  }

  /** Reading a numeral back, independently of how it was printed. */
  function Value(s: string): int {
    if s == "" then 0 else 10 * Value(s[..|s| - 1]) + (s[|s| - 1] as int - '0' as int)
  }

  /** One or more digits with no superfluous leading zero. */
  predicate Canonical(s: string) {
    && s != ""
    && (forall i :: 0 <= i < |s| ==> IsDigit(s[i]))
    && (s[0] == '0' ==> |s| == 1)
  }

  function Pow10(k: nat): nat {
    if k == 0 then 1 else 10 * Pow10(k - 1)
  }

  lemma {:induction false} TextIsCanonical(n: nat)
    ensures Canonical(Text(n)) && Value(Text(n)) == n
    ensures n > 0 ==> Text(n)[0] != '0'
  {
    if n >= 10 {
      TextIsCanonical(n / 10);
      var s := Text(n);
      assert s[..|s| - 1] == Text(n / 10);
    } else {
      var s := Text(n);
      assert s[..|s| - 1] == "";
    }
  }

  lemma {:induction false} CanonicalValue(s: string)
    requires Canonical(s)
    ensures Value(s) >= 0
    ensures s == Text(Value(s))
    ensures s[0] != '0' ==> Value(s) > 0
  {
    var init, last := s[..|s| - 1], s[|s| - 1] as int - '0' as int;
    if init == "" {
      assert Value(init) == 0;
      assert s == [DigitChar(last)];
    } else {
      assert init[0] == s[0];
      CanonicalValue(init);
      var n := Value(s);
      assert n == 10 * Value(init) + last;
      assert n / 10 == Value(init) && n % 10 == last;
      assert s == init + [s[|s| - 1]];
    }
  }

  /** A value has one canonical numeral: nothing but `Text` can be printed for it. */
  lemma NumeralsAreUnique(s: string, n: nat)
    ensures Canonical(s) && Value(s) == n <==> s == Text(n)
  {
    TextIsCanonical(n);
    if Canonical(s) {
      CanonicalValue(s);
    }
  }

  lemma {:induction false} TextLength(n: nat, k: nat)
    requires k > 0 && n < Pow10(k)
    ensures 1 <= |Text(n)| <= k
  {
    if n >= 10 {
      assert k > 1 by {
        assert Pow10(1) == 10 * Pow10(0);
      }
      assert n / 10 < Pow10(k - 1);
      TextLength(n / 10, k - 1);
    }
  }

  lemma Uint32HasTenDigits(n: uint32)
    ensures 1 <= |Text(n as int)| <= 10
  {
    assert Pow10(2) == 100;
    assert Pow10(4) == 10_000;
    assert Pow10(6) == 1_000_000;
    assert Pow10(8) == 100_000_000;
    assert Pow10(10) == 10_000_000_000;
    TextLength(n as int, 10);
  }

  /** Fills a ten-byte buffer from the right. The write position never passes the front of
      the buffer, and the text is the one canonical numeral of n. */
  method Itoa(n: uint32) returns (s: string)
    ensures 1 <= |s| <= 10
    ensures Canonical(s) && Value(s) == n as int
  {
    TextIsCanonical(n as int);
    Uint32HasTenDigits(n);
    if n == 0 {
      return "0";
    }
    var buf := new char[10](_ => '\0');
    var pos: int := buf.Length;
    var m := n;
    while m > 0
      invariant 0 <= pos <= 10
      invariant m > 0 ==> Text(n as int) == Text(m as int) + buf[pos..]
      invariant m == 0 ==> Text(n as int) == buf[pos..]
      decreases m
    {
      TextIsCanonical(m as int);
      ghost var tail, text := buf[pos..], Text(m as int);
      pos := pos - 1;
      buf[pos] := ('0' as int + (m % 10) as int) as char;
      assert buf[pos..] == [DigitChar((m % 10) as int)] + tail;
      m := m / 10;
      assert m > 0 ==> text + tail == Text(m as int) + buf[pos..];
      assert m == 0 ==> text + tail == buf[pos..];
    }
    s := buf[pos..];
  }

  /** Two numbers with the same text are the same number. */
  lemma TextInjective(m: nat, n: nat)
    requires Text(m) == Text(n)
    ensures m == n
  {
    TextIsCanonical(m);
    TextIsCanonical(n);
  }

  /** What the `%d` verb prints for an int64. */
  function Signed(n: int): string {
    if n < 0 then "-" + Text(-n) else Text(n)
  }

  lemma SignedInjective(m: int, n: int)
    requires Signed(m) == Signed(n)
    ensures m == n
  {
    TextIsCanonical(if m < 0 then -m else m);
    TextIsCanonical(if n < 0 then -n else n);
    assert m < 0 <==> Signed(m)[0] == '-';
    assert n < 0 <==> Signed(n)[0] == '-';
    if m < 0 && n < 0 {
      assert Signed(m)[1..] == Text(-m) && Signed(n)[1..] == Text(-n);
      TextInjective(-m, -n);
    } else if m >= 0 && n >= 0 {
      TextInjective(m, n);
    }
  }
}
