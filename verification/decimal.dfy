/** Decimal text of unsigned integers (`to_string` and `u64::from_str`), and
    the facts about Euclidean division that digits, dial marks and digit
    blocks rest on. */
module Decimal {
  import opened Results

  /** 2^64: the first value a `u64` (or 64-bit `usize`) cannot hold. */
  const U64Limit: nat := 0x1_0000_0000_0000_0000

  /** `a * b` of two naturals is a natural. */
  lemma MulNonneg(a: int, b: int)
    requires a >= 0 && b >= 0
    ensures a * b >= 0
  {
  }

  /** Euclidean division by `L` is determined by any decomposition
      `x == q * L + r` with `0 <= r < L`: offset `r` of block `q`. The dial
      uses it with `L == 100`, the digit-block tests with a block length. */
  lemma DivModUnique(x: int, L: int, q: int, r: int)
    requires L >= 1 && x == q * L + r && 0 <= r < L
    ensures x / L == q && x % L == r
  {
    var q', r' := x / L, x % L;
    assert x == q' * L + r';
    assert (q - q') * L == r' - r;
    if q > q' {
      MulNonneg(q - q' - 1, L);
    } else if q < q' {
      MulNonneg(q' - q - 1, L);
    }
  }

  predicate IsDigit(c: char) {
    '0' <= c <= '9'
  }

  predicate AllDigits(s: string) {
    forall i :: 0 <= i < |s| ==> IsDigit(s[i])
  }

  function DigitValue(c: char): (d: nat)
    requires IsDigit(c)
    ensures d < 10
  {
    c as int - '0' as int
  }

  function DigitChar(d: nat): (c: char)
    requires d < 10
    ensures IsDigit(c) && DigitValue(c) == d
  {
    ('0' as int + d) as char
  }

  /** The number a digit string denotes, most significant digit first. */
  function ValueOf(s: string): nat
    requires AllDigits(s)
  {
    if |s| == 0 then 0 else ValueOf(s[..|s| - 1]) * 10 + DigitValue(s[|s| - 1])
  }

  /** A digit string without superfluous leading zeros. */
  predicate Canonical(s: string) {
    |s| >= 1 && AllDigits(s) && (s[0] != '0' || |s| == 1)
  }

  /** `n.to_string()`: the canonical decimal text of `n`. */
  function ToDecimal(n: nat): (s: string)
    ensures Canonical(s)
    ensures ValueOf(s) == n
    ensures |s| == 1 <==> n < 10
    decreases n
  {
    if n < 10 then [DigitChar(n)]
    else
      var s := ToDecimal(n / 10) + [DigitChar(n % 10)];
      assert s[..|s| - 1] == ToDecimal(n / 10);
      s
  }

  /** Canonical digit strings are exactly the texts `to_string` produces. */
  lemma {:induction false} ToDecimalOfValue(s: string)
    requires Canonical(s)
    ensures ToDecimal(ValueOf(s)) == s
    decreases |s|
  {
    if |s| > 1 {
      var init := s[..|s| - 1];
      assert init[0] == s[0];
      ToDecimalOfValue(init);
      LeadingDigitBound(init);
      var v, d := ValueOf(s), DigitValue(s[|s| - 1]);
      assert v == ValueOf(init) * 10 + d;
      assert v / 10 == ValueOf(init) && v % 10 == d;
      assert DigitChar(d) == s[|s| - 1];
      assert s == init + [s[|s| - 1]];
    }
  }

  /** A canonical string of two or more digits denotes at least 10. */
  lemma {:induction false} LeadingDigitBound(s: string)
    requires Canonical(s)
    ensures |s| >= 2 ==> ValueOf(s) >= 10
    ensures ValueOf(s) >= 1 || |s| == 1
    decreases |s|
  {
    if |s| > 1 {
      var init := s[..|s| - 1];
      assert init[0] == s[0];
      LeadingDigitBound(init);
    }
  }

  /** Digits read left to right, each multiplying what was read so far by
      ten: `acc` is the value of `s[..k]`. */
  function ValueFrom(s: string, k: nat, acc: nat): nat
    requires k <= |s| && AllDigits(s)
    decreases |s| - k
  {
    if k == |s| then acc else ValueFrom(s, k + 1, acc * 10 + DigitValue(s[k]))
  }

  /** Reading left to right gives the value. */
  lemma {:induction false} ValueFromIsValueOf(s: string, k: nat)
    requires k <= |s| && AllDigits(s)
    ensures ValueFrom(s, k, ValueOf(s[..k])) == ValueOf(s)
    decreases |s| - k
  {
    if k < |s| {
      assert s[..k + 1][..k] == s[..k];
      ValueFromIsValueOf(s, k + 1);
    } else {
      assert s[..k] == s;
    }
  }

  /** The text `to_string` writes for `n` is the canonical text that reads
      as `n`. */
  lemma ReadsAs(n: nat, s: string)
    requires Canonical(s) && ValueFrom(s, 0, 0) == n
    ensures ToDecimal(n) == s
  {
    assert s[..0] == [];
    ValueFromIsValueOf(s, 0);
    ToDecimalOfValue(s);
  }

  /** `u64::from_str`: an optional `+`, then one or more ASCII digits whose
      value fits in 64 bits. Leading zeros are accepted. */
  function ParseU64(s: string): (r: Option<nat>)
    ensures r.Some? ==> r.value < U64Limit
    ensures |s| == 0 ==> r.None?
  {
    var digits := if |s| > 0 && s[0] == '+' then s[1..] else s;
    if |digits| == 0 || !AllDigits(digits) then None
    else if ValueOf(digits) >= U64Limit then None
    else Some(ValueOf(digits))
  }

  /** A parsed text is all digits, save for one leading `+`. */
  lemma ParseU64Digits(s: string)
    ensures ParseU64(s).Some? ==> forall i :: 0 <= i < |s| ==> IsDigit(s[i]) || (i == 0 && s[i] == '+')
  {
    if ParseU64(s).Some? && |s| > 0 && s[0] == '+' {
      assert forall i :: 0 < i < |s| ==> s[i] == s[1..][i - 1];
    }
  }

  /** Parsing reads back what `to_string` wrote, with or without a `+`. */
  lemma ParseToDecimal(n: nat)
    requires n < U64Limit
    ensures ParseU64(ToDecimal(n)) == Some(n)
    ensures ParseU64("+" + ToDecimal(n)) == Some(n)
  {
    assert ("+" + ToDecimal(n))[1..] == ToDecimal(n);
  }
}
