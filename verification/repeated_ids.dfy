/** The digit-block tests of day 2, on an id's decimal text: part 1 asks for
    the first half to equal the second (day-02/src/part1.rs:49-60), part 2
    for any block length dividing the length, at most half of it, whose
    blocks all equal the first (day-02/src/part2.rs:33-56). */
module RepeatedIds {
  import Decimal

  /** `s` is made of copies of its first `L` characters: every character
      equals the one at the same offset in the first block. */
  predicate HasPeriod(s: string, L: nat) {
    1 <= L && |s| % L == 0 && forall k :: 0 <= k < |s| ==> s[k] == s[k % L]
  }

  /** Part 2's invalid id: one block repeated at least twice. */
  predicate IsRepeatedBlock(s: string) {
    exists L :: 1 <= L <= |s| / 2 && HasPeriod(s, L)
  }

  /** Part 1's invalid id: one block repeated exactly twice. */
  predicate IsDoubledBlock(s: string) {
    |s| % 2 == 0 && HasPeriod(s, |s| / 2)
  }

  /** Blocks `0 .. n - 1` of length `L` fit in `n * L` characters. */
  lemma ChunkBound(i: nat, L: nat, n: nat)
    requires i < n
    ensures (i + 1) * L <= n * L
  {
  }

  /** A length divisible by `L` is a whole number of blocks. */
  lemma WholeBlocks(len: nat, L: nat)
    requires 1 <= L && len % L == 0
    ensures (len / L) * L == len
  {
  }

  /** The first block agrees with itself. */
  lemma FirstBlockAgrees(s: string, L: nat)
    requires 1 <= L <= |s|
    ensures forall k :: 0 <= k < 1 * L ==> s[k] == s[k % L]
  {
    forall k | 0 <= k < 1 * L
      ensures s[k] == s[k % L]
    {
      Decimal.DivModUnique(k, L, 0, k);
    }
  }

  /** An equal block `i` extends the agreement with the first block over
      one more block. */
  lemma ChunkAgrees(s: string, L: nat, i: nat)
    requires 1 <= L && (i + 1) * L <= |s| && s[i * L..(i + 1) * L] == s[..L]
    requires forall k :: 0 <= k < i * L ==> s[k] == s[k % L]
    ensures forall k :: 0 <= k < (i + 1) * L ==> s[k] == s[k % L]
  {
    forall k | i * L <= k < (i + 1) * L
      ensures s[k] == s[k % L]
    {
      Decimal.DivModUnique(k, L, i, k - i * L);
      assert s[k] == s[i * L..(i + 1) * L][k - i * L];
    }
  }

  /** A differing block `i` rules the period out. */
  lemma ChunkDiffers(s: string, L: nat, i: nat)
    requires 1 <= L && (i + 1) * L <= |s| && s[i * L..(i + 1) * L] != s[..L]
    ensures !HasPeriod(s, L)
  {
    var chunk := s[i * L..(i + 1) * L];
    var j :| 0 <= j < L && chunk[j] != s[..L][j];
    Decimal.DivModUnique(i * L + j, L, i, j);
    assert s[i * L + j] != s[(i * L + j) % L];
  }

  /** The `is_match` loop: every block after the first is compared with the
      first, stopping at the first difference. */
  method ChunksMatch(s: string, L: nat) returns (isMatch: bool)
    requires 1 <= L <= |s| && |s| % L == 0
    ensures isMatch <==> HasPeriod(s, L)
  {
    var substring := s[..L];
    var repeats := |s| / L;
    WholeBlocks(|s|, L);
    FirstBlockAgrees(s, L);
    var i := 1;
    while i < repeats
      invariant 1 <= i <= repeats
      invariant forall k :: 0 <= k < i * L ==> s[k] == s[k % L]
    {
      ChunkBound(i, L, repeats);
      var chunk := s[i * L..(i + 1) * L];
      if chunk != substring {
        ChunkDiffers(s, L, i);
        return false;
      }
      ChunkAgrees(s, L, i);
      i := i + 1;
    }
    return true;
  }

  /** The labelled `'intervals` loop: block lengths `1 ..= |s| / 2` that
      divide `|s|` are tried in turn; the first match ends the search. */
  method HasRepeatedBlock(s: string) returns (found: bool)
    ensures found <==> IsRepeatedBlock(s)
  {
    found := false;
    var interval := 1;
    while interval <= |s| / 2
      invariant 1 <= interval <= |s| / 2 + 1
      invariant forall L :: 1 <= L < interval ==> !HasPeriod(s, L)
    {
      if |s| % interval != 0 {
        interval := interval + 1;
        continue;
      }
      var isMatch := ChunksMatch(s, interval);
      if isMatch {
        found := true;
        break;
      }
      interval := interval + 1;
    }
  }

  /** Two halves are equal exactly when the half length is a period. */
  lemma HalvesEqualIffDoubled(s: string)
    requires |s| >= 1 && |s| % 2 == 0
    ensures s[..|s| / 2] == s[|s| / 2..] <==> IsDoubledBlock(s)
  {
    if s[..|s| / 2] == s[|s| / 2..] {
      EqualHalvesArePeriodic(s, |s| / 2);
    }
    if IsDoubledBlock(s) {
      PeriodicHalvesAreEqual(s, |s| / 2);
    }
  }

  lemma EqualHalvesArePeriodic(s: string, m: nat)
    requires 1 <= m && |s| == 2 * m && s[..m] == s[m..]
    ensures HasPeriod(s, m)
  {
    forall k | 0 <= k < |s|
      ensures s[k] == s[k % m]
    {
      if k < m {
        Decimal.DivModUnique(k, m, 0, k);
      } else {
        Decimal.DivModUnique(k, m, 1, k - m);
        assert s[k] == s[m..][k - m];
      }
    }
  }

  lemma PeriodicHalvesAreEqual(s: string, m: nat)
    requires |s| == 2 * m && HasPeriod(s, m)
    ensures s[..m] == s[m..]
  {
    forall j | 0 <= j < m
      ensures s[..m][j] == s[m..][j]
    {
      Decimal.DivModUnique(m + j, m, 1, j);
      assert s[m + j] == s[(m + j) % m];
    }
  }

  /** Part 1's test as written: odd lengths are skipped, then the text is
      split in the middle and the halves compared. */
  method HalvesMatch(s: string) returns (matched: bool)
    requires |s| >= 1
    ensures matched <==> IsDoubledBlock(s)
  {
    if |s| % 2 != 0 {
      return false;
    }
    var mid := |s| / 2;
    var firstHalf, secondHalf := s[..mid], s[mid..];
    HalvesEqualIffDoubled(s);
    matched := firstHalf == secondHalf;
  }

  /** Every part 1 id is a part 2 id: the half is one admissible block. */
  lemma DoubledIsRepeated(s: string)
    requires IsDoubledBlock(s)
    ensures IsRepeatedBlock(s)
  {
    assert 1 <= |s| / 2 <= |s| / 2 && HasPeriod(s, |s| / 2);
  }

  /** A single digit has no admissible block length, under either test. */
  lemma SingleDigitNeverRepeated(s: string)
    requires |s| == 1
    ensures !IsRepeatedBlock(s) && !IsDoubledBlock(s)
  {
  }

  /** A block repeated several times is repeated at every block length
      that is a multiple of it and divides the length: `111111` has
      periods 1, 2 and 3. */
  lemma MultiplePeriod(s: string, L: nat, c: nat)
    requires HasPeriod(s, L) && 1 <= c && |s| % (c * L) == 0
    ensures HasPeriod(s, c * L)
  {
    var M := c * L;
    forall k | 0 <= k < |s|
      ensures k % M < |s| && s[k] == s[k % M]
    {
      SameOffset(k, L, c);
      AgreesAtOffset(s, L, M, k);
    }
  }

  /** Two positions with the same offset in a block of `L` agree. */
  lemma AgreesAtOffset(s: string, L: nat, M: nat, k: nat)
    requires HasPeriod(s, L) && M >= 1 && k < |s| && k % M <= k && k % L == (k % M) % L
    ensures k % M < |s| && s[k] == s[k % M]
  {
    var j := k % M;
    assert s[k] == s[k % L];
    assert s[j] == s[j % L];
  }

  /** Positions with the same offset in a block of `c * L` have the same
      offset in a block of `L`. */
  lemma SameOffset(k: nat, L: nat, c: nat)
    requires 1 <= L && 1 <= c
    ensures c * L >= 1 && k % (c * L) <= k && k % L == (k % (c * L)) % L
  {
    var M := c * L;
    Decimal.MulNonneg(c - 1, L);
    assert M == (c - 1) * L + L;
    var q, r := k / M, k % M;
    var q2, r2 := r / L, r % L;
    assert k == q * M + r;
    Decimal.MulNonneg(q, M);
    assert r == q2 * L + r2;
    assert q * M == (q * c) * L;
    assert k == (q * c + q2) * L + r2;
    Decimal.DivModUnique(k, L, q * c + q2, r2);
  }

  /** Positions `k ..` agree with the first block of length `L`. */
  predicate PeriodicFrom(s: string, L: nat, k: nat)
    requires 1 <= L
    decreases |s| - k
  {
    k >= |s| || (s[k] == s[k % L] && PeriodicFrom(s, L, k + 1))
  }

  /** Some block length from `L` up to `|s| / 2` divides and repeats. */
  predicate SomePeriodFrom(s: string, L: nat)
    requires 1 <= L
    decreases |s| - L
  {
    L <= |s| / 2 && ((|s| % L == 0 && PeriodicFrom(s, L, 0)) || SomePeriodFrom(s, L + 1))
  }

  lemma {:induction false} PeriodicFromIff(s: string, L: nat, k: nat)
    requires 1 <= L
    ensures PeriodicFrom(s, L, k) <==> forall i :: k <= i < |s| ==> s[i] == s[i % L]
    decreases |s| - k
  {
    if k < |s| {
      PeriodicFromIff(s, L, k + 1);
    }
  }

  /** Trying block lengths one by one decides the repeated-block test. */
  lemma {:induction false} SomePeriodFromIff(s: string, L: nat)
    requires 1 <= L
    ensures SomePeriodFrom(s, L) <==> exists M :: L <= M <= |s| / 2 && HasPeriod(s, M)
    decreases |s| - L
  {
    if L <= |s| / 2 {
      PeriodicFromIff(s, L, 0);
      SomePeriodFromIff(s, L + 1);
      if |s| % L == 0 && PeriodicFrom(s, L, 0) {
        assert HasPeriod(s, L);
      }
      if exists M :: L <= M <= |s| / 2 && HasPeriod(s, M) {
        var M :| L <= M <= |s| / 2 && HasPeriod(s, M);
        if M > L {
          assert L + 1 <= M <= |s| / 2 && HasPeriod(s, M);
        }
      }
    }
  }
}
