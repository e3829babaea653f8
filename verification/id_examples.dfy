/** The input of the day-2 example (day-02/src/part1.rs:72-81 and
    day-02/src/part2.rs:104-113): its eleven tokens and ranges, and the
    decimal text of every range bound, so that each token is its range
    written out. */
module IdExampleText {
  import Decimal
  import Text
  import opened IdRanges

  /** The eleven tokens of the example input, in order. */
  const ExampleTokens: seq<string> := [
    "11-22", "95-115", "998-1012", "1188511880-1188511890",
    "222220-222224", "1698522-1698528", "446443-446449", "38593856-38593862",
    "565653-565659", "824824821-824824827", "2121212118-2121212124"
  ]

  /** The example input exactly as the tests build it. */
  const ExampleInput: string := Text.Join(ExampleTokens, ',')

  /** The eleven ranges the example input lists. */
  const ExampleRanges: seq<IdRange> := [
    IdRange(11, 22), IdRange(95, 115), IdRange(998, 1012), IdRange(1188511880, 1188511890),
    IdRange(222220, 222224), IdRange(1698522, 1698528), IdRange(446443, 446449), IdRange(38593856, 38593862),
    IdRange(565653, 565659), IdRange(824824821, 824824827), IdRange(2121212118, 2121212124)
  ]

  /** The decimal text of each range bound. */
  lemma Written11(n: nat, t: string)
    requires n == 11 && t == "11"
    ensures Decimal.ToDecimal(n) == t
  {
    assert Decimal.AllDigits(t);
    assert Decimal.ValueFrom(t, 1, 1) == n;
    assert Decimal.ValueFrom(t, 0, 0) == n;
    Decimal.ReadsAs(n, t);
  }

  lemma Written22(n: nat, t: string)
    requires n == 22 && t == "22"
    ensures Decimal.ToDecimal(n) == t
  {
    assert Decimal.AllDigits(t);
    assert Decimal.ValueFrom(t, 1, 2) == n;
    assert Decimal.ValueFrom(t, 0, 0) == n;
    Decimal.ReadsAs(n, t);
  }

  lemma Written95(n: nat, t: string)
    requires n == 95 && t == "95"
    ensures Decimal.ToDecimal(n) == t
  {
    assert Decimal.AllDigits(t);
    assert Decimal.ValueFrom(t, 1, 9) == n;
    assert Decimal.ValueFrom(t, 0, 0) == n;
    Decimal.ReadsAs(n, t);
  }

  lemma Written115(n: nat, t: string)
    requires n == 115 && t == "115"
    ensures Decimal.ToDecimal(n) == t
  {
    assert Decimal.AllDigits(t);
    assert Decimal.ValueFrom(t, 2, 11) == n;
    assert Decimal.ValueFrom(t, 1, 1) == n;
    assert Decimal.ValueFrom(t, 0, 0) == n;
    Decimal.ReadsAs(n, t);
  }

  lemma Written998(n: nat, t: string)
    requires n == 998 && t == "998"
    ensures Decimal.ToDecimal(n) == t
  {
    assert Decimal.AllDigits(t);
    assert Decimal.ValueFrom(t, 2, 99) == n;
    assert Decimal.ValueFrom(t, 1, 9) == n;
    assert Decimal.ValueFrom(t, 0, 0) == n;
    Decimal.ReadsAs(n, t);
  }

  lemma Written1012(n: nat, t: string)
    requires n == 1012 && t == "1012"
    ensures Decimal.ToDecimal(n) == t
  {
    assert Decimal.AllDigits(t);
    assert Decimal.ValueFrom(t, 3, 101) == n;
    assert Decimal.ValueFrom(t, 2, 10) == n;
    assert Decimal.ValueFrom(t, 1, 1) == n;
    assert Decimal.ValueFrom(t, 0, 0) == n;
    Decimal.ReadsAs(n, t);
  }

  lemma Written1188511880(n: nat, t: string)
    requires n == 1188511880 && t == "1188511880"
    ensures Decimal.ToDecimal(n) == t
  {
    assert Decimal.AllDigits(t);
    assert Decimal.ValueFrom(t, 9, 118851188) == n;
    assert Decimal.ValueFrom(t, 8, 11885118) == n;
    assert Decimal.ValueFrom(t, 7, 1188511) == n;
    assert Decimal.ValueFrom(t, 6, 118851) == n;
    assert Decimal.ValueFrom(t, 5, 11885) == n;
    assert Decimal.ValueFrom(t, 4, 1188) == n;
    assert Decimal.ValueFrom(t, 3, 118) == n;
    assert Decimal.ValueFrom(t, 2, 11) == n;
    assert Decimal.ValueFrom(t, 1, 1) == n;
    assert Decimal.ValueFrom(t, 0, 0) == n;
    Decimal.ReadsAs(n, t);
  }

  lemma Written1188511890(n: nat, t: string)
    requires n == 1188511890 && t == "1188511890"
    ensures Decimal.ToDecimal(n) == t
  {
    assert Decimal.AllDigits(t);
    assert Decimal.ValueFrom(t, 9, 118851189) == n;
    assert Decimal.ValueFrom(t, 8, 11885118) == n;
    assert Decimal.ValueFrom(t, 7, 1188511) == n;
    assert Decimal.ValueFrom(t, 6, 118851) == n;
    assert Decimal.ValueFrom(t, 5, 11885) == n;
    assert Decimal.ValueFrom(t, 4, 1188) == n;
    assert Decimal.ValueFrom(t, 3, 118) == n;
    assert Decimal.ValueFrom(t, 2, 11) == n;
    assert Decimal.ValueFrom(t, 1, 1) == n;
    assert Decimal.ValueFrom(t, 0, 0) == n;
    Decimal.ReadsAs(n, t);
  }

  lemma Written222220(n: nat, t: string)
    requires n == 222220 && t == "222220"
    ensures Decimal.ToDecimal(n) == t
  {
    assert Decimal.AllDigits(t);
    assert Decimal.ValueFrom(t, 5, 22222) == n;
    assert Decimal.ValueFrom(t, 4, 2222) == n;
    assert Decimal.ValueFrom(t, 3, 222) == n;
    assert Decimal.ValueFrom(t, 2, 22) == n;
    assert Decimal.ValueFrom(t, 1, 2) == n;
    assert Decimal.ValueFrom(t, 0, 0) == n;
    Decimal.ReadsAs(n, t);
  }

  lemma Written222224(n: nat, t: string)
    requires n == 222224 && t == "222224"
    ensures Decimal.ToDecimal(n) == t
  {
    assert Decimal.AllDigits(t);
    assert Decimal.ValueFrom(t, 5, 22222) == n;
    assert Decimal.ValueFrom(t, 4, 2222) == n;
    assert Decimal.ValueFrom(t, 3, 222) == n;
    assert Decimal.ValueFrom(t, 2, 22) == n;
    assert Decimal.ValueFrom(t, 1, 2) == n;
    assert Decimal.ValueFrom(t, 0, 0) == n;
    Decimal.ReadsAs(n, t);
  }

  lemma Written1698522(n: nat, t: string)
    requires n == 1698522 && t == "1698522"
    ensures Decimal.ToDecimal(n) == t
  {
    assert Decimal.AllDigits(t);
    assert Decimal.ValueFrom(t, 6, 169852) == n;
    assert Decimal.ValueFrom(t, 5, 16985) == n;
    assert Decimal.ValueFrom(t, 4, 1698) == n;
    assert Decimal.ValueFrom(t, 3, 169) == n;
    assert Decimal.ValueFrom(t, 2, 16) == n;
    assert Decimal.ValueFrom(t, 1, 1) == n;
    assert Decimal.ValueFrom(t, 0, 0) == n;
    Decimal.ReadsAs(n, t);
  }

  lemma Written1698528(n: nat, t: string)
    requires n == 1698528 && t == "1698528"
    ensures Decimal.ToDecimal(n) == t
  {
    assert Decimal.AllDigits(t);
    assert Decimal.ValueFrom(t, 6, 169852) == n;
    assert Decimal.ValueFrom(t, 5, 16985) == n;
    assert Decimal.ValueFrom(t, 4, 1698) == n;
    assert Decimal.ValueFrom(t, 3, 169) == n;
    assert Decimal.ValueFrom(t, 2, 16) == n;
    assert Decimal.ValueFrom(t, 1, 1) == n;
    assert Decimal.ValueFrom(t, 0, 0) == n;
    Decimal.ReadsAs(n, t);
  }

  lemma Written446443(n: nat, t: string)
    requires n == 446443 && t == "446443"
    ensures Decimal.ToDecimal(n) == t
  {
    assert Decimal.AllDigits(t);
    assert Decimal.ValueFrom(t, 5, 44644) == n;
    assert Decimal.ValueFrom(t, 4, 4464) == n;
    assert Decimal.ValueFrom(t, 3, 446) == n;
    assert Decimal.ValueFrom(t, 2, 44) == n;
    assert Decimal.ValueFrom(t, 1, 4) == n;
    assert Decimal.ValueFrom(t, 0, 0) == n;
    Decimal.ReadsAs(n, t);
  }

  lemma Written446449(n: nat, t: string)
    requires n == 446449 && t == "446449"
    ensures Decimal.ToDecimal(n) == t
  {
    assert Decimal.AllDigits(t);
    assert Decimal.ValueFrom(t, 5, 44644) == n;
    assert Decimal.ValueFrom(t, 4, 4464) == n;
    assert Decimal.ValueFrom(t, 3, 446) == n;
    assert Decimal.ValueFrom(t, 2, 44) == n;
    assert Decimal.ValueFrom(t, 1, 4) == n;
    assert Decimal.ValueFrom(t, 0, 0) == n;
    Decimal.ReadsAs(n, t);
  }

  lemma Written38593856(n: nat, t: string)
    requires n == 38593856 && t == "38593856"
    ensures Decimal.ToDecimal(n) == t
  {
    assert Decimal.AllDigits(t);
    assert Decimal.ValueFrom(t, 7, 3859385) == n;
    assert Decimal.ValueFrom(t, 6, 385938) == n;
    assert Decimal.ValueFrom(t, 5, 38593) == n;
    assert Decimal.ValueFrom(t, 4, 3859) == n;
    assert Decimal.ValueFrom(t, 3, 385) == n;
    assert Decimal.ValueFrom(t, 2, 38) == n;
    assert Decimal.ValueFrom(t, 1, 3) == n;
    assert Decimal.ValueFrom(t, 0, 0) == n;
    Decimal.ReadsAs(n, t);
  }

  lemma Written38593862(n: nat, t: string)
    requires n == 38593862 && t == "38593862"
    ensures Decimal.ToDecimal(n) == t
  {
    assert Decimal.AllDigits(t);
    assert Decimal.ValueFrom(t, 7, 3859386) == n;
    assert Decimal.ValueFrom(t, 6, 385938) == n;
    assert Decimal.ValueFrom(t, 5, 38593) == n;
    assert Decimal.ValueFrom(t, 4, 3859) == n;
    assert Decimal.ValueFrom(t, 3, 385) == n;
    assert Decimal.ValueFrom(t, 2, 38) == n;
    assert Decimal.ValueFrom(t, 1, 3) == n;
    assert Decimal.ValueFrom(t, 0, 0) == n;
    Decimal.ReadsAs(n, t);
  }

  lemma Written565653(n: nat, t: string)
    requires n == 565653 && t == "565653"
    ensures Decimal.ToDecimal(n) == t
  {
    assert Decimal.AllDigits(t);
    assert Decimal.ValueFrom(t, 5, 56565) == n;
    assert Decimal.ValueFrom(t, 4, 5656) == n;
    assert Decimal.ValueFrom(t, 3, 565) == n;
    assert Decimal.ValueFrom(t, 2, 56) == n;
    assert Decimal.ValueFrom(t, 1, 5) == n;
    assert Decimal.ValueFrom(t, 0, 0) == n;
    Decimal.ReadsAs(n, t);
  }

  lemma Written565659(n: nat, t: string)
    requires n == 565659 && t == "565659"
    ensures Decimal.ToDecimal(n) == t
  {
    assert Decimal.AllDigits(t);
    assert Decimal.ValueFrom(t, 5, 56565) == n;
    assert Decimal.ValueFrom(t, 4, 5656) == n;
    assert Decimal.ValueFrom(t, 3, 565) == n;
    assert Decimal.ValueFrom(t, 2, 56) == n;
    assert Decimal.ValueFrom(t, 1, 5) == n;
    assert Decimal.ValueFrom(t, 0, 0) == n;
    Decimal.ReadsAs(n, t);
  }

  lemma Written824824821(n: nat, t: string)
    requires n == 824824821 && t == "824824821"
    ensures Decimal.ToDecimal(n) == t
  {
    assert Decimal.AllDigits(t);
    assert Decimal.ValueFrom(t, 8, 82482482) == n;
    assert Decimal.ValueFrom(t, 7, 8248248) == n;
    assert Decimal.ValueFrom(t, 6, 824824) == n;
    assert Decimal.ValueFrom(t, 5, 82482) == n;
    assert Decimal.ValueFrom(t, 4, 8248) == n;
    assert Decimal.ValueFrom(t, 3, 824) == n;
    assert Decimal.ValueFrom(t, 2, 82) == n;
    assert Decimal.ValueFrom(t, 1, 8) == n;
    assert Decimal.ValueFrom(t, 0, 0) == n;
    Decimal.ReadsAs(n, t);
  }

  lemma Written824824827(n: nat, t: string)
    requires n == 824824827 && t == "824824827"
    ensures Decimal.ToDecimal(n) == t
  {
    assert Decimal.AllDigits(t);
    assert Decimal.ValueFrom(t, 8, 82482482) == n;
    assert Decimal.ValueFrom(t, 7, 8248248) == n;
    assert Decimal.ValueFrom(t, 6, 824824) == n;
    assert Decimal.ValueFrom(t, 5, 82482) == n;
    assert Decimal.ValueFrom(t, 4, 8248) == n;
    assert Decimal.ValueFrom(t, 3, 824) == n;
    assert Decimal.ValueFrom(t, 2, 82) == n;
    assert Decimal.ValueFrom(t, 1, 8) == n;
    assert Decimal.ValueFrom(t, 0, 0) == n;
    Decimal.ReadsAs(n, t);
  }

  lemma Written2121212118(n: nat, t: string)
    requires n == 2121212118 && t == "2121212118"
    ensures Decimal.ToDecimal(n) == t
  {
    assert Decimal.AllDigits(t);
    assert Decimal.ValueFrom(t, 9, 212121211) == n;
    assert Decimal.ValueFrom(t, 8, 21212121) == n;
    assert Decimal.ValueFrom(t, 7, 2121212) == n;
    assert Decimal.ValueFrom(t, 6, 212121) == n;
    assert Decimal.ValueFrom(t, 5, 21212) == n;
    assert Decimal.ValueFrom(t, 4, 2121) == n;
    assert Decimal.ValueFrom(t, 3, 212) == n;
    assert Decimal.ValueFrom(t, 2, 21) == n;
    assert Decimal.ValueFrom(t, 1, 2) == n;
    assert Decimal.ValueFrom(t, 0, 0) == n;
    Decimal.ReadsAs(n, t);
  }

  lemma Written2121212124(n: nat, t: string)
    requires n == 2121212124 && t == "2121212124"
    ensures Decimal.ToDecimal(n) == t
  {
    assert Decimal.AllDigits(t);
    assert Decimal.ValueFrom(t, 9, 212121212) == n;
    assert Decimal.ValueFrom(t, 8, 21212121) == n;
    assert Decimal.ValueFrom(t, 7, 2121212) == n;
    assert Decimal.ValueFrom(t, 6, 212121) == n;
    assert Decimal.ValueFrom(t, 5, 21212) == n;
    assert Decimal.ValueFrom(t, 4, 2121) == n;
    assert Decimal.ValueFrom(t, 3, 212) == n;
    assert Decimal.ValueFrom(t, 2, 21) == n;
    assert Decimal.ValueFrom(t, 1, 2) == n;
    assert Decimal.ValueFrom(t, 0, 0) == n;
    Decimal.ReadsAs(n, t);
  }

  /** A list of eleven ranges with the example's bounds. */
  predicate ExampleBounds(e: seq<IdRange>) {
    |e| == 11 &&
    e[0].start == 11 && e[0].stop == 22 &&
    e[1].start == 95 && e[1].stop == 115 &&
    e[2].start == 998 && e[2].stop == 1012 &&
    e[3].start == 1188511880 && e[3].stop == 1188511890 &&
    e[4].start == 222220 && e[4].stop == 222224 &&
    e[5].start == 1698522 && e[5].stop == 1698528 &&
    e[6].start == 446443 && e[6].stop == 446449 &&
    e[7].start == 38593856 && e[7].stop == 38593862 &&
    e[8].start == 565653 && e[8].stop == 565659 &&
    e[9].start == 824824821 && e[9].stop == 824824827 &&
    e[10].start == 2121212118 && e[10].stop == 2121212124
  }

  /** Each example range is written as its test token. */
  lemma WritesRange1(e: seq<IdRange>, tokens: seq<string>, k: nat)
    requires ExampleBounds(e) && tokens == ExampleTokens && k == 0
    ensures WriteRange(e[k]) == tokens[k]
  {
    assert tokens[0] == "11" + "-" + "22";
    Written11(e[0].start, "11");
    Written22(e[0].stop, "22");
  }

  lemma WritesRange2(e: seq<IdRange>, tokens: seq<string>, k: nat)
    requires ExampleBounds(e) && tokens == ExampleTokens && k == 1
    ensures WriteRange(e[k]) == tokens[k]
  {
    assert tokens[1] == "95" + "-" + "115";
    Written95(e[1].start, "95");
    Written115(e[1].stop, "115");
  }

  lemma WritesRange3(e: seq<IdRange>, tokens: seq<string>, k: nat)
    requires ExampleBounds(e) && tokens == ExampleTokens && k == 2
    ensures WriteRange(e[k]) == tokens[k]
  {
    assert tokens[2] == "998" + "-" + "1012";
    Written998(e[2].start, "998");
    Written1012(e[2].stop, "1012");
  }

  lemma WritesRange4(e: seq<IdRange>, tokens: seq<string>, k: nat)
    requires ExampleBounds(e) && tokens == ExampleTokens && k == 3
    ensures WriteRange(e[k]) == tokens[k]
  {
    assert tokens[3] == "1188511880" + "-" + "1188511890";
    Written1188511880(e[3].start, "1188511880");
    Written1188511890(e[3].stop, "1188511890");
  }

  lemma WritesRange5(e: seq<IdRange>, tokens: seq<string>, k: nat)
    requires ExampleBounds(e) && tokens == ExampleTokens && k == 4
    ensures WriteRange(e[k]) == tokens[k]
  {
    assert tokens[4] == "222220" + "-" + "222224";
    Written222220(e[4].start, "222220");
    Written222224(e[4].stop, "222224");
  }

  lemma WritesRange6(e: seq<IdRange>, tokens: seq<string>, k: nat)
    requires ExampleBounds(e) && tokens == ExampleTokens && k == 5
    ensures WriteRange(e[k]) == tokens[k]
  {
    assert tokens[5] == "1698522" + "-" + "1698528";
    Written1698522(e[5].start, "1698522");
    Written1698528(e[5].stop, "1698528");
  }

  lemma WritesRange7(e: seq<IdRange>, tokens: seq<string>, k: nat)
    requires ExampleBounds(e) && tokens == ExampleTokens && k == 6
    ensures WriteRange(e[k]) == tokens[k]
  {
    assert tokens[6] == "446443" + "-" + "446449";
    Written446443(e[6].start, "446443");
    Written446449(e[6].stop, "446449");
  }

  lemma WritesRange8(e: seq<IdRange>, tokens: seq<string>, k: nat)
    requires ExampleBounds(e) && tokens == ExampleTokens && k == 7
    ensures WriteRange(e[k]) == tokens[k]
  {
    assert tokens[7] == "38593856" + "-" + "38593862";
    Written38593856(e[7].start, "38593856");
    Written38593862(e[7].stop, "38593862");
  }

  lemma WritesRange9(e: seq<IdRange>, tokens: seq<string>, k: nat)
    requires ExampleBounds(e) && tokens == ExampleTokens && k == 8
    ensures WriteRange(e[k]) == tokens[k]
  {
    assert tokens[8] == "565653" + "-" + "565659";
    Written565653(e[8].start, "565653");
    Written565659(e[8].stop, "565659");
  }

  lemma WritesRange10(e: seq<IdRange>, tokens: seq<string>, k: nat)
    requires ExampleBounds(e) && tokens == ExampleTokens && k == 9
    ensures WriteRange(e[k]) == tokens[k]
  {
    assert tokens[9] == "824824821" + "-" + "824824827";
    Written824824821(e[9].start, "824824821");
    Written824824827(e[9].stop, "824824827");
  }

  lemma WritesRange11(e: seq<IdRange>, tokens: seq<string>, k: nat)
    requires ExampleBounds(e) && tokens == ExampleTokens && k == 10
    ensures WriteRange(e[k]) == tokens[k]
  {
    assert tokens[10] == "2121212118" + "-" + "2121212124";
    Written2121212118(e[10].start, "2121212118");
    Written2121212124(e[10].stop, "2121212124");
  }
}

/** `extract_ranges` reads the day-2 example input as its eleven ranges:
    every token is its range written out, so the comma-joined tokens read
    back. */
module IdExampleInput {
  import opened Results
  import opened IdRanges
  import opened IdExampleText

  /** Example range `k` is written as token `k`. */
  lemma ExampleWrittenAt(e: seq<IdRange>, tokens: seq<string>, k: nat)
    requires ExampleBounds(e) && tokens == ExampleTokens && k < 11
    ensures WriteRange(e[k]) == tokens[k]
  {
    if k == 0 { WritesRange1(e, tokens, k); }
    else if k == 1 { WritesRange2(e, tokens, k); }
    else if k == 2 { WritesRange3(e, tokens, k); }
    else if k == 3 { WritesRange4(e, tokens, k); }
    else if k == 4 { WritesRange5(e, tokens, k); }
    else if k == 5 { WritesRange6(e, tokens, k); }
    else if k == 6 { WritesRange7(e, tokens, k); }
    else if k == 7 { WritesRange8(e, tokens, k); }
    else if k == 8 { WritesRange9(e, tokens, k); }
    else if k == 9 { WritesRange10(e, tokens, k); }
    else { WritesRange11(e, tokens, k); }
  }

  /** The example tokens are the written forms of the example ranges. */
  lemma ExampleTokensWritten(e: seq<IdRange>, tokens: seq<string>)
    requires e == ExampleRanges && tokens == ExampleTokens
    ensures WrittenRanges(e) == tokens
  {
    assert ExampleBounds(e);
    forall k | 0 <= k < 11
      ensures WriteRange(e[k]) == tokens[k]
    {
      ExampleWrittenAt(e, tokens, k);
    }
    WrittenFromEach(e, tokens);
  }

  /** Ranges that are each written as their token are written as the token list. */
  lemma WrittenFromEach(e: seq<IdRange>, tokens: seq<string>)
    requires |e| == |tokens|
    requires forall k :: 0 <= k < |e| ==> WriteRange(e[k]) == tokens[k]
    ensures WrittenRanges(e) == tokens
  {
  }

  /** `extract_ranges` reads the example input as the eleven ranges. */
  lemma ExampleExtracted()
    ensures ExtractRanges(ExampleInput) == Ok(ExampleRanges)
  {
    ExampleTokensWritten(ExampleRanges, ExampleTokens);
    ExtractWrittenRanges(ExampleRanges);
  }
}

/** The worked example both day-2 tests use (day-02/src/part1.rs:72-81 and
    day-02/src/part2.rs:104-113): eleven ranges, whose invalid ids add up
    to 1227775554 under part 1's test and to 4174379265 under part 2's.

    This module is a worked example only: it states nothing general about
    the model. Below the shared lemmas it is a mechanical chain, one
    `Number<n>` lemma per id of the example (what that id adds under each
    test) and one `Ids<a>To<b>` lemma per prefix of a range (the sums over
    `a..=b`), so that each proof step unfolds one number. Only
    `ExampleAnswers` at the end is a statement about the program. */
module IdExamples {
  import opened Results
  import Decimal
  import opened IdRanges
  import opened RepeatedIds
  import opened IdSums
  import opened IdExampleText
  import opened IdExampleInput

  /** The test of `rule` on a text, in a form that evaluates on literals. */
  predicate TextTest(rule: Rule, s: string) {
    match rule
    case Halves => |s| % 2 == 0 && |s| >= 2 && PeriodicFrom(s, |s| / 2, 0)
    case AnyBlock => SomePeriodFrom(s, 1)
  }

  /** What `n` adds under either test is decided by its written text. */
  lemma ContributionByText(n: nat, s: string)
    requires Decimal.Canonical(s) && Decimal.ValueFrom(s, 0, 0) == n
    ensures Contribution(Halves, n) == if TextTest(Halves, s) then n else 0
    ensures Contribution(AnyBlock, n) == if TextTest(AnyBlock, s) then n else 0
    ensures Decimal.ToDecimal(n) == s
  {
    Decimal.ReadsAs(n, s);
    DoubledByText(s);
    SomePeriodFromIff(s, 1);
  }

  /** One id more adds its contribution to each sum. */
  lemma Extend(lo: nat, n: nat, h: nat, a: nat, ch: nat, ca: nat)
    requires lo <= n
    requires SumBetween(Halves, lo, n) == h && SumBetween(AnyBlock, lo, n) == a
    requires Contribution(Halves, n) == ch && Contribution(AnyBlock, n) == ca
    ensures SumBetween(Halves, lo, n + 1) == h + ch && SumBetween(AnyBlock, lo, n + 1) == a + ca
  {
  }

  lemma DoubledByText(s: string)
    requires |s| >= 1
    ensures IsDoubledBlock(s) <==> TextTest(Halves, s)
  {
    if |s| % 2 == 0 {
      PeriodicFromIff(s, |s| / 2, 0);
    }
  }

  // `11-22`, one id at a time: each step reads the next id's text and
  // adds it under the rules that find it invalid.

  lemma Ids11To11(lo: nat, hi: nat)
    requires lo == 11 && hi == lo + 1
    ensures SumBetween(Halves, lo, hi) == 11 && SumBetween(AnyBlock, lo, hi) == 11
  {
    Number11(hi - 1, "11");
    Extend(lo, hi - 1, 0, 0, 11, 11);
  }

  lemma Ids11To12(lo: nat, hi: nat)
    requires lo == 11 && hi == lo + 2
    ensures SumBetween(Halves, lo, hi) == 11 && SumBetween(AnyBlock, lo, hi) == 11
  {
    Ids11To11(lo, hi - 1);
    Number12(hi - 1, "12");
    Extend(lo, hi - 1, 11, 11, 0, 0);
  }

  lemma Ids11To13(lo: nat, hi: nat)
    requires lo == 11 && hi == lo + 3
    ensures SumBetween(Halves, lo, hi) == 11 && SumBetween(AnyBlock, lo, hi) == 11
  {
    Ids11To12(lo, hi - 1);
    Number13(hi - 1, "13");
    Extend(lo, hi - 1, 11, 11, 0, 0);
  }

  lemma Ids11To14(lo: nat, hi: nat)
    requires lo == 11 && hi == lo + 4
    ensures SumBetween(Halves, lo, hi) == 11 && SumBetween(AnyBlock, lo, hi) == 11
  {
    Ids11To13(lo, hi - 1);
    Number14(hi - 1, "14");
    Extend(lo, hi - 1, 11, 11, 0, 0);
  }

  lemma Ids11To15(lo: nat, hi: nat)
    requires lo == 11 && hi == lo + 5
    ensures SumBetween(Halves, lo, hi) == 11 && SumBetween(AnyBlock, lo, hi) == 11
  {
    Ids11To14(lo, hi - 1);
    Number15(hi - 1, "15");
    Extend(lo, hi - 1, 11, 11, 0, 0);
  }

  lemma Ids11To16(lo: nat, hi: nat)
    requires lo == 11 && hi == lo + 6
    ensures SumBetween(Halves, lo, hi) == 11 && SumBetween(AnyBlock, lo, hi) == 11
  {
    Ids11To15(lo, hi - 1);
    Number16(hi - 1, "16");
    Extend(lo, hi - 1, 11, 11, 0, 0);
  }

  lemma Ids11To17(lo: nat, hi: nat)
    requires lo == 11 && hi == lo + 7
    ensures SumBetween(Halves, lo, hi) == 11 && SumBetween(AnyBlock, lo, hi) == 11
  {
    Ids11To16(lo, hi - 1);
    Number17(hi - 1, "17");
    Extend(lo, hi - 1, 11, 11, 0, 0);
  }

  lemma Ids11To18(lo: nat, hi: nat)
    requires lo == 11 && hi == lo + 8
    ensures SumBetween(Halves, lo, hi) == 11 && SumBetween(AnyBlock, lo, hi) == 11
  {
    Ids11To17(lo, hi - 1);
    Number18(hi - 1, "18");
    Extend(lo, hi - 1, 11, 11, 0, 0);
  }

  lemma Ids11To19(lo: nat, hi: nat)
    requires lo == 11 && hi == lo + 9
    ensures SumBetween(Halves, lo, hi) == 11 && SumBetween(AnyBlock, lo, hi) == 11
  {
    Ids11To18(lo, hi - 1);
    Number19(hi - 1, "19");
    Extend(lo, hi - 1, 11, 11, 0, 0);
  }

  lemma Ids11To20(lo: nat, hi: nat)
    requires lo == 11 && hi == lo + 10
    ensures SumBetween(Halves, lo, hi) == 11 && SumBetween(AnyBlock, lo, hi) == 11
  {
    Ids11To19(lo, hi - 1);
    Number20(hi - 1, "20");
    Extend(lo, hi - 1, 11, 11, 0, 0);
  }

  lemma Ids11To21(lo: nat, hi: nat)
    requires lo == 11 && hi == lo + 11
    ensures SumBetween(Halves, lo, hi) == 11 && SumBetween(AnyBlock, lo, hi) == 11
  {
    Ids11To20(lo, hi - 1);
    Number21(hi - 1, "21");
    Extend(lo, hi - 1, 11, 11, 0, 0);
  }

  lemma Ids11To22(lo: nat, hi: nat)
    requires lo == 11 && hi == lo + 12
    ensures SumBetween(Halves, lo, hi) == 33 && SumBetween(AnyBlock, lo, hi) == 33
  {
    Ids11To21(lo, hi - 1);
    Number22(hi - 1, "22");
    Extend(lo, hi - 1, 11, 11, 22, 22);
  }

  // `95-115`, one id at a time: each step reads the next id's text and
  // adds it under the rules that find it invalid.

  lemma Ids95To95(lo: nat, hi: nat)
    requires lo == 95 && hi == lo + 1
    ensures SumBetween(Halves, lo, hi) == 0 && SumBetween(AnyBlock, lo, hi) == 0
  {
    Number95(hi - 1, "95");
    Extend(lo, hi - 1, 0, 0, 0, 0);
  }

  lemma Ids95To96(lo: nat, hi: nat)
    requires lo == 95 && hi == lo + 2
    ensures SumBetween(Halves, lo, hi) == 0 && SumBetween(AnyBlock, lo, hi) == 0
  {
    Ids95To95(lo, hi - 1);
    Number96(hi - 1, "96");
    Extend(lo, hi - 1, 0, 0, 0, 0);
  }

  lemma Ids95To97(lo: nat, hi: nat)
    requires lo == 95 && hi == lo + 3
    ensures SumBetween(Halves, lo, hi) == 0 && SumBetween(AnyBlock, lo, hi) == 0
  {
    Ids95To96(lo, hi - 1);
    Number97(hi - 1, "97");
    Extend(lo, hi - 1, 0, 0, 0, 0);
  }

  lemma Ids95To98(lo: nat, hi: nat)
    requires lo == 95 && hi == lo + 4
    ensures SumBetween(Halves, lo, hi) == 0 && SumBetween(AnyBlock, lo, hi) == 0
  {
    Ids95To97(lo, hi - 1);
    Number98(hi - 1, "98");
    Extend(lo, hi - 1, 0, 0, 0, 0);
  }

  lemma Ids95To99(lo: nat, hi: nat)
    requires lo == 95 && hi == lo + 5
    ensures SumBetween(Halves, lo, hi) == 99 && SumBetween(AnyBlock, lo, hi) == 99
  {
    Ids95To98(lo, hi - 1);
    Number99(hi - 1, "99");
    Extend(lo, hi - 1, 0, 0, 99, 99);
  }

  lemma Ids95To100(lo: nat, hi: nat)
    requires lo == 95 && hi == lo + 6
    ensures SumBetween(Halves, lo, hi) == 99 && SumBetween(AnyBlock, lo, hi) == 99
  {
    Ids95To99(lo, hi - 1);
    Number100(hi - 1, "100");
    Extend(lo, hi - 1, 99, 99, 0, 0);
  }

  lemma Ids95To101(lo: nat, hi: nat)
    requires lo == 95 && hi == lo + 7
    ensures SumBetween(Halves, lo, hi) == 99 && SumBetween(AnyBlock, lo, hi) == 99
  {
    Ids95To100(lo, hi - 1);
    Number101(hi - 1, "101");
    Extend(lo, hi - 1, 99, 99, 0, 0);
  }

  lemma Ids95To102(lo: nat, hi: nat)
    requires lo == 95 && hi == lo + 8
    ensures SumBetween(Halves, lo, hi) == 99 && SumBetween(AnyBlock, lo, hi) == 99
  {
    Ids95To101(lo, hi - 1);
    Number102(hi - 1, "102");
    Extend(lo, hi - 1, 99, 99, 0, 0);
  }

  lemma Ids95To103(lo: nat, hi: nat)
    requires lo == 95 && hi == lo + 9
    ensures SumBetween(Halves, lo, hi) == 99 && SumBetween(AnyBlock, lo, hi) == 99
  {
    Ids95To102(lo, hi - 1);
    Number103(hi - 1, "103");
    Extend(lo, hi - 1, 99, 99, 0, 0);
  }

  lemma Ids95To104(lo: nat, hi: nat)
    requires lo == 95 && hi == lo + 10
    ensures SumBetween(Halves, lo, hi) == 99 && SumBetween(AnyBlock, lo, hi) == 99
  {
    Ids95To103(lo, hi - 1);
    Number104(hi - 1, "104");
    Extend(lo, hi - 1, 99, 99, 0, 0);
  }

  lemma Ids95To105(lo: nat, hi: nat)
    requires lo == 95 && hi == lo + 11
    ensures SumBetween(Halves, lo, hi) == 99 && SumBetween(AnyBlock, lo, hi) == 99
  {
    Ids95To104(lo, hi - 1);
    Number105(hi - 1, "105");
    Extend(lo, hi - 1, 99, 99, 0, 0);
  }

  lemma Ids95To106(lo: nat, hi: nat)
    requires lo == 95 && hi == lo + 12
    ensures SumBetween(Halves, lo, hi) == 99 && SumBetween(AnyBlock, lo, hi) == 99
  {
    Ids95To105(lo, hi - 1);
    Number106(hi - 1, "106");
    Extend(lo, hi - 1, 99, 99, 0, 0);
  }

  lemma Ids95To107(lo: nat, hi: nat)
    requires lo == 95 && hi == lo + 13
    ensures SumBetween(Halves, lo, hi) == 99 && SumBetween(AnyBlock, lo, hi) == 99
  {
    Ids95To106(lo, hi - 1);
    Number107(hi - 1, "107");
    Extend(lo, hi - 1, 99, 99, 0, 0);
  }

  lemma Ids95To108(lo: nat, hi: nat)
    requires lo == 95 && hi == lo + 14
    ensures SumBetween(Halves, lo, hi) == 99 && SumBetween(AnyBlock, lo, hi) == 99
  {
    Ids95To107(lo, hi - 1);
    Number108(hi - 1, "108");
    Extend(lo, hi - 1, 99, 99, 0, 0);
  }

  lemma Ids95To109(lo: nat, hi: nat)
    requires lo == 95 && hi == lo + 15
    ensures SumBetween(Halves, lo, hi) == 99 && SumBetween(AnyBlock, lo, hi) == 99
  {
    Ids95To108(lo, hi - 1);
    Number109(hi - 1, "109");
    Extend(lo, hi - 1, 99, 99, 0, 0);
  }

  lemma Ids95To110(lo: nat, hi: nat)
    requires lo == 95 && hi == lo + 16
    ensures SumBetween(Halves, lo, hi) == 99 && SumBetween(AnyBlock, lo, hi) == 99
  {
    Ids95To109(lo, hi - 1);
    Number110(hi - 1, "110");
    Extend(lo, hi - 1, 99, 99, 0, 0);
  }

  lemma Ids95To111(lo: nat, hi: nat)
    requires lo == 95 && hi == lo + 17
    ensures SumBetween(Halves, lo, hi) == 99 && SumBetween(AnyBlock, lo, hi) == 210
  {
    Ids95To110(lo, hi - 1);
    Number111(hi - 1, "111");
    Extend(lo, hi - 1, 99, 99, 0, 111);
  }

  lemma Ids95To112(lo: nat, hi: nat)
    requires lo == 95 && hi == lo + 18
    ensures SumBetween(Halves, lo, hi) == 99 && SumBetween(AnyBlock, lo, hi) == 210
  {
    Ids95To111(lo, hi - 1);
    Number112(hi - 1, "112");
    Extend(lo, hi - 1, 99, 210, 0, 0);
  }

  lemma Ids95To113(lo: nat, hi: nat)
    requires lo == 95 && hi == lo + 19
    ensures SumBetween(Halves, lo, hi) == 99 && SumBetween(AnyBlock, lo, hi) == 210
  {
    Ids95To112(lo, hi - 1);
    Number113(hi - 1, "113");
    Extend(lo, hi - 1, 99, 210, 0, 0);
  }

  lemma Ids95To114(lo: nat, hi: nat)
    requires lo == 95 && hi == lo + 20
    ensures SumBetween(Halves, lo, hi) == 99 && SumBetween(AnyBlock, lo, hi) == 210
  {
    Ids95To113(lo, hi - 1);
    Number114(hi - 1, "114");
    Extend(lo, hi - 1, 99, 210, 0, 0);
  }

  lemma Ids95To115(lo: nat, hi: nat)
    requires lo == 95 && hi == lo + 21
    ensures SumBetween(Halves, lo, hi) == 99 && SumBetween(AnyBlock, lo, hi) == 210
  {
    Ids95To114(lo, hi - 1);
    Number115(hi - 1, "115");
    Extend(lo, hi - 1, 99, 210, 0, 0);
  }

  // `998-1012`, one id at a time: each step reads the next id's text and
  // adds it under the rules that find it invalid.

  lemma Ids998To998(lo: nat, hi: nat)
    requires lo == 998 && hi == lo + 1
    ensures SumBetween(Halves, lo, hi) == 0 && SumBetween(AnyBlock, lo, hi) == 0
  {
    Number998(hi - 1, "998");
    Extend(lo, hi - 1, 0, 0, 0, 0);
  }

  lemma Ids998To999(lo: nat, hi: nat)
    requires lo == 998 && hi == lo + 2
    ensures SumBetween(Halves, lo, hi) == 0 && SumBetween(AnyBlock, lo, hi) == 999
  {
    Ids998To998(lo, hi - 1);
    Number999(hi - 1, "999");
    Extend(lo, hi - 1, 0, 0, 0, 999);
  }

  lemma Ids998To1000(lo: nat, hi: nat)
    requires lo == 998 && hi == lo + 3
    ensures SumBetween(Halves, lo, hi) == 0 && SumBetween(AnyBlock, lo, hi) == 999
  {
    Ids998To999(lo, hi - 1);
    Number1000(hi - 1, "1000");
    Extend(lo, hi - 1, 0, 999, 0, 0);
  }

  lemma Ids998To1001(lo: nat, hi: nat)
    requires lo == 998 && hi == lo + 4
    ensures SumBetween(Halves, lo, hi) == 0 && SumBetween(AnyBlock, lo, hi) == 999
  {
    Ids998To1000(lo, hi - 1);
    Number1001(hi - 1, "1001");
    Extend(lo, hi - 1, 0, 999, 0, 0);
  }

  lemma Ids998To1002(lo: nat, hi: nat)
    requires lo == 998 && hi == lo + 5
    ensures SumBetween(Halves, lo, hi) == 0 && SumBetween(AnyBlock, lo, hi) == 999
  {
    Ids998To1001(lo, hi - 1);
    Number1002(hi - 1, "1002");
    Extend(lo, hi - 1, 0, 999, 0, 0);
  }

  lemma Ids998To1003(lo: nat, hi: nat)
    requires lo == 998 && hi == lo + 6
    ensures SumBetween(Halves, lo, hi) == 0 && SumBetween(AnyBlock, lo, hi) == 999
  {
    Ids998To1002(lo, hi - 1);
    Number1003(hi - 1, "1003");
    Extend(lo, hi - 1, 0, 999, 0, 0);
  }

  lemma Ids998To1004(lo: nat, hi: nat)
    requires lo == 998 && hi == lo + 7
    ensures SumBetween(Halves, lo, hi) == 0 && SumBetween(AnyBlock, lo, hi) == 999
  {
    Ids998To1003(lo, hi - 1);
    Number1004(hi - 1, "1004");
    Extend(lo, hi - 1, 0, 999, 0, 0);
  }

  lemma Ids998To1005(lo: nat, hi: nat)
    requires lo == 998 && hi == lo + 8
    ensures SumBetween(Halves, lo, hi) == 0 && SumBetween(AnyBlock, lo, hi) == 999
  {
    Ids998To1004(lo, hi - 1);
    Number1005(hi - 1, "1005");
    Extend(lo, hi - 1, 0, 999, 0, 0);
  }

  lemma Ids998To1006(lo: nat, hi: nat)
    requires lo == 998 && hi == lo + 9
    ensures SumBetween(Halves, lo, hi) == 0 && SumBetween(AnyBlock, lo, hi) == 999
  {
    Ids998To1005(lo, hi - 1);
    Number1006(hi - 1, "1006");
    Extend(lo, hi - 1, 0, 999, 0, 0);
  }

  lemma Ids998To1007(lo: nat, hi: nat)
    requires lo == 998 && hi == lo + 10
    ensures SumBetween(Halves, lo, hi) == 0 && SumBetween(AnyBlock, lo, hi) == 999
  {
    Ids998To1006(lo, hi - 1);
    Number1007(hi - 1, "1007");
    Extend(lo, hi - 1, 0, 999, 0, 0);
  }

  lemma Ids998To1008(lo: nat, hi: nat)
    requires lo == 998 && hi == lo + 11
    ensures SumBetween(Halves, lo, hi) == 0 && SumBetween(AnyBlock, lo, hi) == 999
  {
    Ids998To1007(lo, hi - 1);
    Number1008(hi - 1, "1008");
    Extend(lo, hi - 1, 0, 999, 0, 0);
  }

  lemma Ids998To1009(lo: nat, hi: nat)
    requires lo == 998 && hi == lo + 12
    ensures SumBetween(Halves, lo, hi) == 0 && SumBetween(AnyBlock, lo, hi) == 999
  {
    Ids998To1008(lo, hi - 1);
    Number1009(hi - 1, "1009");
    Extend(lo, hi - 1, 0, 999, 0, 0);
  }

  lemma Ids998To1010(lo: nat, hi: nat)
    requires lo == 998 && hi == lo + 13
    ensures SumBetween(Halves, lo, hi) == 1010 && SumBetween(AnyBlock, lo, hi) == 2009
  {
    Ids998To1009(lo, hi - 1);
    Number1010(hi - 1, "1010");
    Extend(lo, hi - 1, 0, 999, 1010, 1010);
  }

  lemma Ids998To1011(lo: nat, hi: nat)
    requires lo == 998 && hi == lo + 14
    ensures SumBetween(Halves, lo, hi) == 1010 && SumBetween(AnyBlock, lo, hi) == 2009
  {
    Ids998To1010(lo, hi - 1);
    Number1011(hi - 1, "1011");
    Extend(lo, hi - 1, 1010, 2009, 0, 0);
  }

  lemma Ids998To1012(lo: nat, hi: nat)
    requires lo == 998 && hi == lo + 15
    ensures SumBetween(Halves, lo, hi) == 1010 && SumBetween(AnyBlock, lo, hi) == 2009
  {
    Ids998To1011(lo, hi - 1);
    Number1012(hi - 1, "1012");
    Extend(lo, hi - 1, 1010, 2009, 0, 0);
  }

  // `1188511880-1188511890`, one id at a time: each step reads the next id's text and
  // adds it under the rules that find it invalid.

  lemma Ids1188511880To1188511880(lo: nat, hi: nat)
    requires lo == 1188511880 && hi == lo + 1
    ensures SumBetween(Halves, lo, hi) == 0 && SumBetween(AnyBlock, lo, hi) == 0
  {
    Number1188511880(hi - 1, "1188511880");
    Extend(lo, hi - 1, 0, 0, 0, 0);
  }

  lemma Ids1188511880To1188511881(lo: nat, hi: nat)
    requires lo == 1188511880 && hi == lo + 2
    ensures SumBetween(Halves, lo, hi) == 0 && SumBetween(AnyBlock, lo, hi) == 0
  {
    Ids1188511880To1188511880(lo, hi - 1);
    Number1188511881(hi - 1, "1188511881");
    Extend(lo, hi - 1, 0, 0, 0, 0);
  }

  lemma Ids1188511880To1188511882(lo: nat, hi: nat)
    requires lo == 1188511880 && hi == lo + 3
    ensures SumBetween(Halves, lo, hi) == 0 && SumBetween(AnyBlock, lo, hi) == 0
  {
    Ids1188511880To1188511881(lo, hi - 1);
    Number1188511882(hi - 1, "1188511882");
    Extend(lo, hi - 1, 0, 0, 0, 0);
  }

  lemma Ids1188511880To1188511883(lo: nat, hi: nat)
    requires lo == 1188511880 && hi == lo + 4
    ensures SumBetween(Halves, lo, hi) == 0 && SumBetween(AnyBlock, lo, hi) == 0
  {
    Ids1188511880To1188511882(lo, hi - 1);
    Number1188511883(hi - 1, "1188511883");
    Extend(lo, hi - 1, 0, 0, 0, 0);
  }

  lemma Ids1188511880To1188511884(lo: nat, hi: nat)
    requires lo == 1188511880 && hi == lo + 5
    ensures SumBetween(Halves, lo, hi) == 0 && SumBetween(AnyBlock, lo, hi) == 0
  {
    Ids1188511880To1188511883(lo, hi - 1);
    Number1188511884(hi - 1, "1188511884");
    Extend(lo, hi - 1, 0, 0, 0, 0);
  }

  lemma Ids1188511880To1188511885(lo: nat, hi: nat)
    requires lo == 1188511880 && hi == lo + 6
    ensures SumBetween(Halves, lo, hi) == 1188511885 && SumBetween(AnyBlock, lo, hi) == 1188511885
  {
    Ids1188511880To1188511884(lo, hi - 1);
    Number1188511885(hi - 1, "1188511885");
    Extend(lo, hi - 1, 0, 0, 1188511885, 1188511885);
  }

  lemma Ids1188511880To1188511886(lo: nat, hi: nat)
    requires lo == 1188511880 && hi == lo + 7
    ensures SumBetween(Halves, lo, hi) == 1188511885 && SumBetween(AnyBlock, lo, hi) == 1188511885
  {
    Ids1188511880To1188511885(lo, hi - 1);
    Number1188511886(hi - 1, "1188511886");
    Extend(lo, hi - 1, 1188511885, 1188511885, 0, 0);
  }

  lemma Ids1188511880To1188511887(lo: nat, hi: nat)
    requires lo == 1188511880 && hi == lo + 8
    ensures SumBetween(Halves, lo, hi) == 1188511885 && SumBetween(AnyBlock, lo, hi) == 1188511885
  {
    Ids1188511880To1188511886(lo, hi - 1);
    Number1188511887(hi - 1, "1188511887");
    Extend(lo, hi - 1, 1188511885, 1188511885, 0, 0);
  }

  lemma Ids1188511880To1188511888(lo: nat, hi: nat)
    requires lo == 1188511880 && hi == lo + 9
    ensures SumBetween(Halves, lo, hi) == 1188511885 && SumBetween(AnyBlock, lo, hi) == 1188511885
  {
    Ids1188511880To1188511887(lo, hi - 1);
    Number1188511888(hi - 1, "1188511888");
    Extend(lo, hi - 1, 1188511885, 1188511885, 0, 0);
  }

  lemma Ids1188511880To1188511889(lo: nat, hi: nat)
    requires lo == 1188511880 && hi == lo + 10
    ensures SumBetween(Halves, lo, hi) == 1188511885 && SumBetween(AnyBlock, lo, hi) == 1188511885
  {
    Ids1188511880To1188511888(lo, hi - 1);
    Number1188511889(hi - 1, "1188511889");
    Extend(lo, hi - 1, 1188511885, 1188511885, 0, 0);
  }

  lemma Ids1188511880To1188511890(lo: nat, hi: nat)
    requires lo == 1188511880 && hi == lo + 11
    ensures SumBetween(Halves, lo, hi) == 1188511885 && SumBetween(AnyBlock, lo, hi) == 1188511885
  {
    Ids1188511880To1188511889(lo, hi - 1);
    Number1188511890(hi - 1, "1188511890");
    Extend(lo, hi - 1, 1188511885, 1188511885, 0, 0);
  }

  // `222220-222224`, one id at a time: each step reads the next id's text and
  // adds it under the rules that find it invalid.

  lemma Ids222220To222220(lo: nat, hi: nat)
    requires lo == 222220 && hi == lo + 1
    ensures SumBetween(Halves, lo, hi) == 0 && SumBetween(AnyBlock, lo, hi) == 0
  {
    Number222220(hi - 1, "222220");
    Extend(lo, hi - 1, 0, 0, 0, 0);
  }

  lemma Ids222220To222221(lo: nat, hi: nat)
    requires lo == 222220 && hi == lo + 2
    ensures SumBetween(Halves, lo, hi) == 0 && SumBetween(AnyBlock, lo, hi) == 0
  {
    Ids222220To222220(lo, hi - 1);
    Number222221(hi - 1, "222221");
    Extend(lo, hi - 1, 0, 0, 0, 0);
  }

  lemma Ids222220To222222(lo: nat, hi: nat)
    requires lo == 222220 && hi == lo + 3
    ensures SumBetween(Halves, lo, hi) == 222222 && SumBetween(AnyBlock, lo, hi) == 222222
  {
    Ids222220To222221(lo, hi - 1);
    Number222222(hi - 1, "222222");
    Extend(lo, hi - 1, 0, 0, 222222, 222222);
  }

  lemma Ids222220To222223(lo: nat, hi: nat)
    requires lo == 222220 && hi == lo + 4
    ensures SumBetween(Halves, lo, hi) == 222222 && SumBetween(AnyBlock, lo, hi) == 222222
  {
    Ids222220To222222(lo, hi - 1);
    Number222223(hi - 1, "222223");
    Extend(lo, hi - 1, 222222, 222222, 0, 0);
  }

  lemma Ids222220To222224(lo: nat, hi: nat)
    requires lo == 222220 && hi == lo + 5
    ensures SumBetween(Halves, lo, hi) == 222222 && SumBetween(AnyBlock, lo, hi) == 222222
  {
    Ids222220To222223(lo, hi - 1);
    Number222224(hi - 1, "222224");
    Extend(lo, hi - 1, 222222, 222222, 0, 0);
  }

  // `1698522-1698528`, one id at a time: each step reads the next id's text and
  // adds it under the rules that find it invalid.

  lemma Ids1698522To1698522(lo: nat, hi: nat)
    requires lo == 1698522 && hi == lo + 1
    ensures SumBetween(Halves, lo, hi) == 0 && SumBetween(AnyBlock, lo, hi) == 0
  {
    Number1698522(hi - 1, "1698522");
    Extend(lo, hi - 1, 0, 0, 0, 0);
  }

  lemma Ids1698522To1698523(lo: nat, hi: nat)
    requires lo == 1698522 && hi == lo + 2
    ensures SumBetween(Halves, lo, hi) == 0 && SumBetween(AnyBlock, lo, hi) == 0
  {
    Ids1698522To1698522(lo, hi - 1);
    Number1698523(hi - 1, "1698523");
    Extend(lo, hi - 1, 0, 0, 0, 0);
  }

  lemma Ids1698522To1698524(lo: nat, hi: nat)
    requires lo == 1698522 && hi == lo + 3
    ensures SumBetween(Halves, lo, hi) == 0 && SumBetween(AnyBlock, lo, hi) == 0
  {
    Ids1698522To1698523(lo, hi - 1);
    Number1698524(hi - 1, "1698524");
    Extend(lo, hi - 1, 0, 0, 0, 0);
  }

  lemma Ids1698522To1698525(lo: nat, hi: nat)
    requires lo == 1698522 && hi == lo + 4
    ensures SumBetween(Halves, lo, hi) == 0 && SumBetween(AnyBlock, lo, hi) == 0
  {
    Ids1698522To1698524(lo, hi - 1);
    Number1698525(hi - 1, "1698525");
    Extend(lo, hi - 1, 0, 0, 0, 0);
  }

  lemma Ids1698522To1698526(lo: nat, hi: nat)
    requires lo == 1698522 && hi == lo + 5
    ensures SumBetween(Halves, lo, hi) == 0 && SumBetween(AnyBlock, lo, hi) == 0
  {
    Ids1698522To1698525(lo, hi - 1);
    Number1698526(hi - 1, "1698526");
    Extend(lo, hi - 1, 0, 0, 0, 0);
  }

  lemma Ids1698522To1698527(lo: nat, hi: nat)
    requires lo == 1698522 && hi == lo + 6
    ensures SumBetween(Halves, lo, hi) == 0 && SumBetween(AnyBlock, lo, hi) == 0
  {
    Ids1698522To1698526(lo, hi - 1);
    Number1698527(hi - 1, "1698527");
    Extend(lo, hi - 1, 0, 0, 0, 0);
  }

  lemma Ids1698522To1698528(lo: nat, hi: nat)
    requires lo == 1698522 && hi == lo + 7
    ensures SumBetween(Halves, lo, hi) == 0 && SumBetween(AnyBlock, lo, hi) == 0
  {
    Ids1698522To1698527(lo, hi - 1);
    Number1698528(hi - 1, "1698528");
    Extend(lo, hi - 1, 0, 0, 0, 0);
  }

  // `446443-446449`, one id at a time: each step reads the next id's text and
  // adds it under the rules that find it invalid.

  lemma Ids446443To446443(lo: nat, hi: nat)
    requires lo == 446443 && hi == lo + 1
    ensures SumBetween(Halves, lo, hi) == 0 && SumBetween(AnyBlock, lo, hi) == 0
  {
    Number446443(hi - 1, "446443");
    Extend(lo, hi - 1, 0, 0, 0, 0);
  }

  lemma Ids446443To446444(lo: nat, hi: nat)
    requires lo == 446443 && hi == lo + 2
    ensures SumBetween(Halves, lo, hi) == 0 && SumBetween(AnyBlock, lo, hi) == 0
  {
    Ids446443To446443(lo, hi - 1);
    Number446444(hi - 1, "446444");
    Extend(lo, hi - 1, 0, 0, 0, 0);
  }

  lemma Ids446443To446445(lo: nat, hi: nat)
    requires lo == 446443 && hi == lo + 3
    ensures SumBetween(Halves, lo, hi) == 0 && SumBetween(AnyBlock, lo, hi) == 0
  {
    Ids446443To446444(lo, hi - 1);
    Number446445(hi - 1, "446445");
    Extend(lo, hi - 1, 0, 0, 0, 0);
  }

  lemma Ids446443To446446(lo: nat, hi: nat)
    requires lo == 446443 && hi == lo + 4
    ensures SumBetween(Halves, lo, hi) == 446446 && SumBetween(AnyBlock, lo, hi) == 446446
  {
    Ids446443To446445(lo, hi - 1);
    Number446446(hi - 1, "446446");
    Extend(lo, hi - 1, 0, 0, 446446, 446446);
  }

  lemma Ids446443To446447(lo: nat, hi: nat)
    requires lo == 446443 && hi == lo + 5
    ensures SumBetween(Halves, lo, hi) == 446446 && SumBetween(AnyBlock, lo, hi) == 446446
  {
    Ids446443To446446(lo, hi - 1);
    Number446447(hi - 1, "446447");
    Extend(lo, hi - 1, 446446, 446446, 0, 0);
  }

  lemma Ids446443To446448(lo: nat, hi: nat)
    requires lo == 446443 && hi == lo + 6
    ensures SumBetween(Halves, lo, hi) == 446446 && SumBetween(AnyBlock, lo, hi) == 446446
  {
    Ids446443To446447(lo, hi - 1);
    Number446448(hi - 1, "446448");
    Extend(lo, hi - 1, 446446, 446446, 0, 0);
  }

  lemma Ids446443To446449(lo: nat, hi: nat)
    requires lo == 446443 && hi == lo + 7
    ensures SumBetween(Halves, lo, hi) == 446446 && SumBetween(AnyBlock, lo, hi) == 446446
  {
    Ids446443To446448(lo, hi - 1);
    Number446449(hi - 1, "446449");
    Extend(lo, hi - 1, 446446, 446446, 0, 0);
  }

  // `38593856-38593862`, one id at a time: each step reads the next id's text and
  // adds it under the rules that find it invalid.

  lemma Ids38593856To38593856(lo: nat, hi: nat)
    requires lo == 38593856 && hi == lo + 1
    ensures SumBetween(Halves, lo, hi) == 0 && SumBetween(AnyBlock, lo, hi) == 0
  {
    Number38593856(hi - 1, "38593856");
    Extend(lo, hi - 1, 0, 0, 0, 0);
  }

  lemma Ids38593856To38593857(lo: nat, hi: nat)
    requires lo == 38593856 && hi == lo + 2
    ensures SumBetween(Halves, lo, hi) == 0 && SumBetween(AnyBlock, lo, hi) == 0
  {
    Ids38593856To38593856(lo, hi - 1);
    Number38593857(hi - 1, "38593857");
    Extend(lo, hi - 1, 0, 0, 0, 0);
  }

  lemma Ids38593856To38593858(lo: nat, hi: nat)
    requires lo == 38593856 && hi == lo + 3
    ensures SumBetween(Halves, lo, hi) == 0 && SumBetween(AnyBlock, lo, hi) == 0
  {
    Ids38593856To38593857(lo, hi - 1);
    Number38593858(hi - 1, "38593858");
    Extend(lo, hi - 1, 0, 0, 0, 0);
  }

  lemma Ids38593856To38593859(lo: nat, hi: nat)
    requires lo == 38593856 && hi == lo + 4
    ensures SumBetween(Halves, lo, hi) == 38593859 && SumBetween(AnyBlock, lo, hi) == 38593859
  {
    Ids38593856To38593858(lo, hi - 1);
    Number38593859(hi - 1, "38593859");
    Extend(lo, hi - 1, 0, 0, 38593859, 38593859);
  }

  lemma Ids38593856To38593860(lo: nat, hi: nat)
    requires lo == 38593856 && hi == lo + 5
    ensures SumBetween(Halves, lo, hi) == 38593859 && SumBetween(AnyBlock, lo, hi) == 38593859
  {
    Ids38593856To38593859(lo, hi - 1);
    Number38593860(hi - 1, "38593860");
    Extend(lo, hi - 1, 38593859, 38593859, 0, 0);
  }

  lemma Ids38593856To38593861(lo: nat, hi: nat)
    requires lo == 38593856 && hi == lo + 6
    ensures SumBetween(Halves, lo, hi) == 38593859 && SumBetween(AnyBlock, lo, hi) == 38593859
  {
    Ids38593856To38593860(lo, hi - 1);
    Number38593861(hi - 1, "38593861");
    Extend(lo, hi - 1, 38593859, 38593859, 0, 0);
  }

  lemma Ids38593856To38593862(lo: nat, hi: nat)
    requires lo == 38593856 && hi == lo + 7
    ensures SumBetween(Halves, lo, hi) == 38593859 && SumBetween(AnyBlock, lo, hi) == 38593859
  {
    Ids38593856To38593861(lo, hi - 1);
    Number38593862(hi - 1, "38593862");
    Extend(lo, hi - 1, 38593859, 38593859, 0, 0);
  }

  // `565653-565659`, one id at a time: each step reads the next id's text and
  // adds it under the rules that find it invalid.

  lemma Ids565653To565653(lo: nat, hi: nat)
    requires lo == 565653 && hi == lo + 1
    ensures SumBetween(Halves, lo, hi) == 0 && SumBetween(AnyBlock, lo, hi) == 0
  {
    Number565653(hi - 1, "565653");
    Extend(lo, hi - 1, 0, 0, 0, 0);
  }

  lemma Ids565653To565654(lo: nat, hi: nat)
    requires lo == 565653 && hi == lo + 2
    ensures SumBetween(Halves, lo, hi) == 0 && SumBetween(AnyBlock, lo, hi) == 0
  {
    Ids565653To565653(lo, hi - 1);
    Number565654(hi - 1, "565654");
    Extend(lo, hi - 1, 0, 0, 0, 0);
  }

  lemma Ids565653To565655(lo: nat, hi: nat)
    requires lo == 565653 && hi == lo + 3
    ensures SumBetween(Halves, lo, hi) == 0 && SumBetween(AnyBlock, lo, hi) == 0
  {
    Ids565653To565654(lo, hi - 1);
    Number565655(hi - 1, "565655");
    Extend(lo, hi - 1, 0, 0, 0, 0);
  }

  lemma Ids565653To565656(lo: nat, hi: nat)
    requires lo == 565653 && hi == lo + 4
    ensures SumBetween(Halves, lo, hi) == 0 && SumBetween(AnyBlock, lo, hi) == 565656
  {
    Ids565653To565655(lo, hi - 1);
    Number565656(hi - 1, "565656");
    Extend(lo, hi - 1, 0, 0, 0, 565656);
  }

  lemma Ids565653To565657(lo: nat, hi: nat)
    requires lo == 565653 && hi == lo + 5
    ensures SumBetween(Halves, lo, hi) == 0 && SumBetween(AnyBlock, lo, hi) == 565656
  {
    Ids565653To565656(lo, hi - 1);
    Number565657(hi - 1, "565657");
    Extend(lo, hi - 1, 0, 565656, 0, 0);
  }

  lemma Ids565653To565658(lo: nat, hi: nat)
    requires lo == 565653 && hi == lo + 6
    ensures SumBetween(Halves, lo, hi) == 0 && SumBetween(AnyBlock, lo, hi) == 565656
  {
    Ids565653To565657(lo, hi - 1);
    Number565658(hi - 1, "565658");
    Extend(lo, hi - 1, 0, 565656, 0, 0);
  }

  lemma Ids565653To565659(lo: nat, hi: nat)
    requires lo == 565653 && hi == lo + 7
    ensures SumBetween(Halves, lo, hi) == 0 && SumBetween(AnyBlock, lo, hi) == 565656
  {
    Ids565653To565658(lo, hi - 1);
    Number565659(hi - 1, "565659");
    Extend(lo, hi - 1, 0, 565656, 0, 0);
  }

  // `824824821-824824827`, one id at a time: each step reads the next id's text and
  // adds it under the rules that find it invalid.

  lemma Ids824824821To824824821(lo: nat, hi: nat)
    requires lo == 824824821 && hi == lo + 1
    ensures SumBetween(Halves, lo, hi) == 0 && SumBetween(AnyBlock, lo, hi) == 0
  {
    Number824824821(hi - 1, "824824821");
    Extend(lo, hi - 1, 0, 0, 0, 0);
  }

  lemma Ids824824821To824824822(lo: nat, hi: nat)
    requires lo == 824824821 && hi == lo + 2
    ensures SumBetween(Halves, lo, hi) == 0 && SumBetween(AnyBlock, lo, hi) == 0
  {
    Ids824824821To824824821(lo, hi - 1);
    Number824824822(hi - 1, "824824822");
    Extend(lo, hi - 1, 0, 0, 0, 0);
  }

  lemma Ids824824821To824824823(lo: nat, hi: nat)
    requires lo == 824824821 && hi == lo + 3
    ensures SumBetween(Halves, lo, hi) == 0 && SumBetween(AnyBlock, lo, hi) == 0
  {
    Ids824824821To824824822(lo, hi - 1);
    Number824824823(hi - 1, "824824823");
    Extend(lo, hi - 1, 0, 0, 0, 0);
  }

  lemma Ids824824821To824824824(lo: nat, hi: nat)
    requires lo == 824824821 && hi == lo + 4
    ensures SumBetween(Halves, lo, hi) == 0 && SumBetween(AnyBlock, lo, hi) == 824824824
  {
    Ids824824821To824824823(lo, hi - 1);
    Number824824824(hi - 1, "824824824");
    Extend(lo, hi - 1, 0, 0, 0, 824824824);
  }

  lemma Ids824824821To824824825(lo: nat, hi: nat)
    requires lo == 824824821 && hi == lo + 5
    ensures SumBetween(Halves, lo, hi) == 0 && SumBetween(AnyBlock, lo, hi) == 824824824
  {
    Ids824824821To824824824(lo, hi - 1);
    Number824824825(hi - 1, "824824825");
    Extend(lo, hi - 1, 0, 824824824, 0, 0);
  }

  lemma Ids824824821To824824826(lo: nat, hi: nat)
    requires lo == 824824821 && hi == lo + 6
    ensures SumBetween(Halves, lo, hi) == 0 && SumBetween(AnyBlock, lo, hi) == 824824824
  {
    Ids824824821To824824825(lo, hi - 1);
    Number824824826(hi - 1, "824824826");
    Extend(lo, hi - 1, 0, 824824824, 0, 0);
  }

  lemma Ids824824821To824824827(lo: nat, hi: nat)
    requires lo == 824824821 && hi == lo + 7
    ensures SumBetween(Halves, lo, hi) == 0 && SumBetween(AnyBlock, lo, hi) == 824824824
  {
    Ids824824821To824824826(lo, hi - 1);
    Number824824827(hi - 1, "824824827");
    Extend(lo, hi - 1, 0, 824824824, 0, 0);
  }

  // `2121212118-2121212124`, one id at a time: each step reads the next id's text and
  // adds it under the rules that find it invalid.

  lemma Ids2121212118To2121212118(lo: nat, hi: nat)
    requires lo == 2121212118 && hi == lo + 1
    ensures SumBetween(Halves, lo, hi) == 0 && SumBetween(AnyBlock, lo, hi) == 0
  {
    Number2121212118(hi - 1, "2121212118");
    Extend(lo, hi - 1, 0, 0, 0, 0);
  }

  lemma Ids2121212118To2121212119(lo: nat, hi: nat)
    requires lo == 2121212118 && hi == lo + 2
    ensures SumBetween(Halves, lo, hi) == 0 && SumBetween(AnyBlock, lo, hi) == 0
  {
    Ids2121212118To2121212118(lo, hi - 1);
    Number2121212119(hi - 1, "2121212119");
    Extend(lo, hi - 1, 0, 0, 0, 0);
  }

  lemma Ids2121212118To2121212120(lo: nat, hi: nat)
    requires lo == 2121212118 && hi == lo + 3
    ensures SumBetween(Halves, lo, hi) == 0 && SumBetween(AnyBlock, lo, hi) == 0
  {
    Ids2121212118To2121212119(lo, hi - 1);
    Number2121212120(hi - 1, "2121212120");
    Extend(lo, hi - 1, 0, 0, 0, 0);
  }

  lemma Ids2121212118To2121212121(lo: nat, hi: nat)
    requires lo == 2121212118 && hi == lo + 4
    ensures SumBetween(Halves, lo, hi) == 0 && SumBetween(AnyBlock, lo, hi) == 2121212121
  {
    Ids2121212118To2121212120(lo, hi - 1);
    Number2121212121(hi - 1, "2121212121");
    Extend(lo, hi - 1, 0, 0, 0, 2121212121);
  }

  lemma Ids2121212118To2121212122(lo: nat, hi: nat)
    requires lo == 2121212118 && hi == lo + 5
    ensures SumBetween(Halves, lo, hi) == 0 && SumBetween(AnyBlock, lo, hi) == 2121212121
  {
    Ids2121212118To2121212121(lo, hi - 1);
    Number2121212122(hi - 1, "2121212122");
    Extend(lo, hi - 1, 0, 2121212121, 0, 0);
  }

  lemma Ids2121212118To2121212123(lo: nat, hi: nat)
    requires lo == 2121212118 && hi == lo + 6
    ensures SumBetween(Halves, lo, hi) == 0 && SumBetween(AnyBlock, lo, hi) == 2121212121
  {
    Ids2121212118To2121212122(lo, hi - 1);
    Number2121212123(hi - 1, "2121212123");
    Extend(lo, hi - 1, 0, 2121212121, 0, 0);
  }

  lemma Ids2121212118To2121212124(lo: nat, hi: nat)
    requires lo == 2121212118 && hi == lo + 7
    ensures SumBetween(Halves, lo, hi) == 0 && SumBetween(AnyBlock, lo, hi) == 2121212121
  {
    Ids2121212118To2121212123(lo, hi - 1);
    Number2121212124(hi - 1, "2121212124");
    Extend(lo, hi - 1, 0, 2121212121, 0, 0);
  }

  // Each id of the example, read from its text and judged by both rules.

  lemma Number11(n: nat, t: string)
    requires n == 11 && t == "11"
    ensures Contribution(Halves, n) == n && Contribution(AnyBlock, n) == n
  {
    assert Decimal.AllDigits(t);
    assert Decimal.ValueFrom(t, 1, 1) == n;
    assert Decimal.ValueFrom(t, 0, 0) == n;
    assert PeriodicFrom(t, 1, 2);
    assert PeriodicFrom(t, 1, 1);
    assert PeriodicFrom(t, 1, 0);
    assert SomePeriodFrom(t, 1);
    ContributionByText(n, t);
  }

  lemma Number12(n: nat, t: string)
    requires n == 12 && t == "12"
    ensures Contribution(Halves, n) == 0 && Contribution(AnyBlock, n) == 0
  {
    assert Decimal.AllDigits(t);
    assert Decimal.ValueFrom(t, 1, 1) == n;
    assert Decimal.ValueFrom(t, 0, 0) == n;
    PeriodicFromIff(t, 1, 0);
    assert t[1] != t[1 % 1];
    assert !SomePeriodFrom(t, 1);
    ContributionByText(n, t);
  }

  lemma Number13(n: nat, t: string)
    requires n == 13 && t == "13"
    ensures Contribution(Halves, n) == 0 && Contribution(AnyBlock, n) == 0
  {
    assert Decimal.AllDigits(t);
    assert Decimal.ValueFrom(t, 1, 1) == n;
    assert Decimal.ValueFrom(t, 0, 0) == n;
    PeriodicFromIff(t, 1, 0);
    assert t[1] != t[1 % 1];
    assert !SomePeriodFrom(t, 1);
    ContributionByText(n, t);
  }

  lemma Number14(n: nat, t: string)
    requires n == 14 && t == "14"
    ensures Contribution(Halves, n) == 0 && Contribution(AnyBlock, n) == 0
  {
    assert Decimal.AllDigits(t);
    assert Decimal.ValueFrom(t, 1, 1) == n;
    assert Decimal.ValueFrom(t, 0, 0) == n;
    PeriodicFromIff(t, 1, 0);
    assert t[1] != t[1 % 1];
    assert !SomePeriodFrom(t, 1);
    ContributionByText(n, t);
  }

  lemma Number15(n: nat, t: string)
    requires n == 15 && t == "15"
    ensures Contribution(Halves, n) == 0 && Contribution(AnyBlock, n) == 0
  {
    assert Decimal.AllDigits(t);
    assert Decimal.ValueFrom(t, 1, 1) == n;
    assert Decimal.ValueFrom(t, 0, 0) == n;
    PeriodicFromIff(t, 1, 0);
    assert t[1] != t[1 % 1];
    assert !SomePeriodFrom(t, 1);
    ContributionByText(n, t);
  }

  lemma Number16(n: nat, t: string)
    requires n == 16 && t == "16"
    ensures Contribution(Halves, n) == 0 && Contribution(AnyBlock, n) == 0
  {
    assert Decimal.AllDigits(t);
    assert Decimal.ValueFrom(t, 1, 1) == n;
    assert Decimal.ValueFrom(t, 0, 0) == n;
    PeriodicFromIff(t, 1, 0);
    assert t[1] != t[1 % 1];
    assert !SomePeriodFrom(t, 1);
    ContributionByText(n, t);
  }

  lemma Number17(n: nat, t: string)
    requires n == 17 && t == "17"
    ensures Contribution(Halves, n) == 0 && Contribution(AnyBlock, n) == 0
  {
    assert Decimal.AllDigits(t);
    assert Decimal.ValueFrom(t, 1, 1) == n;
    assert Decimal.ValueFrom(t, 0, 0) == n;
    PeriodicFromIff(t, 1, 0);
    assert t[1] != t[1 % 1];
    assert !SomePeriodFrom(t, 1);
    ContributionByText(n, t);
  }

  lemma Number18(n: nat, t: string)
    requires n == 18 && t == "18"
    ensures Contribution(Halves, n) == 0 && Contribution(AnyBlock, n) == 0
  {
    assert Decimal.AllDigits(t);
    assert Decimal.ValueFrom(t, 1, 1) == n;
    assert Decimal.ValueFrom(t, 0, 0) == n;
    PeriodicFromIff(t, 1, 0);
    assert t[1] != t[1 % 1];
    assert !SomePeriodFrom(t, 1);
    ContributionByText(n, t);
  }

  lemma Number19(n: nat, t: string)
    requires n == 19 && t == "19"
    ensures Contribution(Halves, n) == 0 && Contribution(AnyBlock, n) == 0
  {
    assert Decimal.AllDigits(t);
    assert Decimal.ValueFrom(t, 1, 1) == n;
    assert Decimal.ValueFrom(t, 0, 0) == n;
    PeriodicFromIff(t, 1, 0);
    assert t[1] != t[1 % 1];
    assert !SomePeriodFrom(t, 1);
    ContributionByText(n, t);
  }

  lemma Number20(n: nat, t: string)
    requires n == 20 && t == "20"
    ensures Contribution(Halves, n) == 0 && Contribution(AnyBlock, n) == 0
  {
    assert Decimal.AllDigits(t);
    assert Decimal.ValueFrom(t, 1, 2) == n;
    assert Decimal.ValueFrom(t, 0, 0) == n;
    PeriodicFromIff(t, 1, 0);
    assert t[1] != t[1 % 1];
    assert !SomePeriodFrom(t, 1);
    ContributionByText(n, t);
  }

  lemma Number21(n: nat, t: string)
    requires n == 21 && t == "21"
    ensures Contribution(Halves, n) == 0 && Contribution(AnyBlock, n) == 0
  {
    assert Decimal.AllDigits(t);
    assert Decimal.ValueFrom(t, 1, 2) == n;
    assert Decimal.ValueFrom(t, 0, 0) == n;
    PeriodicFromIff(t, 1, 0);
    assert t[1] != t[1 % 1];
    assert !SomePeriodFrom(t, 1);
    ContributionByText(n, t);
  }

  lemma Number22(n: nat, t: string)
    requires n == 22 && t == "22"
    ensures Contribution(Halves, n) == n && Contribution(AnyBlock, n) == n
  {
    assert Decimal.AllDigits(t);
    assert Decimal.ValueFrom(t, 1, 2) == n;
    assert Decimal.ValueFrom(t, 0, 0) == n;
    assert PeriodicFrom(t, 1, 2);
    assert PeriodicFrom(t, 1, 1);
    assert PeriodicFrom(t, 1, 0);
    assert SomePeriodFrom(t, 1);
    ContributionByText(n, t);
  }

  lemma Number95(n: nat, t: string)
    requires n == 95 && t == "95"
    ensures Contribution(Halves, n) == 0 && Contribution(AnyBlock, n) == 0
  {
    assert Decimal.AllDigits(t);
    assert Decimal.ValueFrom(t, 1, 9) == n;
    assert Decimal.ValueFrom(t, 0, 0) == n;
    PeriodicFromIff(t, 1, 0);
    assert t[1] != t[1 % 1];
    assert !SomePeriodFrom(t, 1);
    ContributionByText(n, t);
  }

  lemma Number96(n: nat, t: string)
    requires n == 96 && t == "96"
    ensures Contribution(Halves, n) == 0 && Contribution(AnyBlock, n) == 0
  {
    assert Decimal.AllDigits(t);
    assert Decimal.ValueFrom(t, 1, 9) == n;
    assert Decimal.ValueFrom(t, 0, 0) == n;
    PeriodicFromIff(t, 1, 0);
    assert t[1] != t[1 % 1];
    assert !SomePeriodFrom(t, 1);
    ContributionByText(n, t);
  }

  lemma Number97(n: nat, t: string)
    requires n == 97 && t == "97"
    ensures Contribution(Halves, n) == 0 && Contribution(AnyBlock, n) == 0
  {
    assert Decimal.AllDigits(t);
    assert Decimal.ValueFrom(t, 1, 9) == n;
    assert Decimal.ValueFrom(t, 0, 0) == n;
    PeriodicFromIff(t, 1, 0);
    assert t[1] != t[1 % 1];
    assert !SomePeriodFrom(t, 1);
    ContributionByText(n, t);
  }

  lemma Number98(n: nat, t: string)
    requires n == 98 && t == "98"
    ensures Contribution(Halves, n) == 0 && Contribution(AnyBlock, n) == 0
  {
    assert Decimal.AllDigits(t);
    assert Decimal.ValueFrom(t, 1, 9) == n;
    assert Decimal.ValueFrom(t, 0, 0) == n;
    PeriodicFromIff(t, 1, 0);
    assert t[1] != t[1 % 1];
    assert !SomePeriodFrom(t, 1);
    ContributionByText(n, t);
  }

  lemma Number99(n: nat, t: string)
    requires n == 99 && t == "99"
    ensures Contribution(Halves, n) == n && Contribution(AnyBlock, n) == n
  {
    assert Decimal.AllDigits(t);
    assert Decimal.ValueFrom(t, 1, 9) == n;
    assert Decimal.ValueFrom(t, 0, 0) == n;
    assert PeriodicFrom(t, 1, 2);
    assert PeriodicFrom(t, 1, 1);
    assert PeriodicFrom(t, 1, 0);
    assert SomePeriodFrom(t, 1);
    ContributionByText(n, t);
  }

  lemma Number100(n: nat, t: string)
    requires n == 100 && t == "100"
    ensures Contribution(Halves, n) == 0 && Contribution(AnyBlock, n) == 0
  {
    assert Decimal.AllDigits(t);
    assert Decimal.ValueFrom(t, 2, 10) == n;
    assert Decimal.ValueFrom(t, 1, 1) == n;
    assert Decimal.ValueFrom(t, 0, 0) == n;
    PeriodicFromIff(t, 1, 0);
    assert t[1] != t[1 % 1];
    assert !SomePeriodFrom(t, 1);
    ContributionByText(n, t);
  }

  lemma Number101(n: nat, t: string)
    requires n == 101 && t == "101"
    ensures Contribution(Halves, n) == 0 && Contribution(AnyBlock, n) == 0
  {
    assert Decimal.AllDigits(t);
    assert Decimal.ValueFrom(t, 2, 10) == n;
    assert Decimal.ValueFrom(t, 1, 1) == n;
    assert Decimal.ValueFrom(t, 0, 0) == n;
    PeriodicFromIff(t, 1, 0);
    assert t[1] != t[1 % 1];
    assert !SomePeriodFrom(t, 1);
    ContributionByText(n, t);
  }

  lemma Number102(n: nat, t: string)
    requires n == 102 && t == "102"
    ensures Contribution(Halves, n) == 0 && Contribution(AnyBlock, n) == 0
  {
    assert Decimal.AllDigits(t);
    assert Decimal.ValueFrom(t, 2, 10) == n;
    assert Decimal.ValueFrom(t, 1, 1) == n;
    assert Decimal.ValueFrom(t, 0, 0) == n;
    PeriodicFromIff(t, 1, 0);
    assert t[1] != t[1 % 1];
    assert !SomePeriodFrom(t, 1);
    ContributionByText(n, t);
  }

  lemma Number103(n: nat, t: string)
    requires n == 103 && t == "103"
    ensures Contribution(Halves, n) == 0 && Contribution(AnyBlock, n) == 0
  {
    assert Decimal.AllDigits(t);
    assert Decimal.ValueFrom(t, 2, 10) == n;
    assert Decimal.ValueFrom(t, 1, 1) == n;
    assert Decimal.ValueFrom(t, 0, 0) == n;
    PeriodicFromIff(t, 1, 0);
    assert t[1] != t[1 % 1];
    assert !SomePeriodFrom(t, 1);
    ContributionByText(n, t);
  }

  lemma Number104(n: nat, t: string)
    requires n == 104 && t == "104"
    ensures Contribution(Halves, n) == 0 && Contribution(AnyBlock, n) == 0
  {
    assert Decimal.AllDigits(t);
    assert Decimal.ValueFrom(t, 2, 10) == n;
    assert Decimal.ValueFrom(t, 1, 1) == n;
    assert Decimal.ValueFrom(t, 0, 0) == n;
    PeriodicFromIff(t, 1, 0);
    assert t[1] != t[1 % 1];
    assert !SomePeriodFrom(t, 1);
    ContributionByText(n, t);
  }

  lemma Number105(n: nat, t: string)
    requires n == 105 && t == "105"
    ensures Contribution(Halves, n) == 0 && Contribution(AnyBlock, n) == 0
  {
    assert Decimal.AllDigits(t);
    assert Decimal.ValueFrom(t, 2, 10) == n;
    assert Decimal.ValueFrom(t, 1, 1) == n;
    assert Decimal.ValueFrom(t, 0, 0) == n;
    PeriodicFromIff(t, 1, 0);
    assert t[1] != t[1 % 1];
    assert !SomePeriodFrom(t, 1);
    ContributionByText(n, t);
  }

  lemma Number106(n: nat, t: string)
    requires n == 106 && t == "106"
    ensures Contribution(Halves, n) == 0 && Contribution(AnyBlock, n) == 0
  {
    assert Decimal.AllDigits(t);
    assert Decimal.ValueFrom(t, 2, 10) == n;
    assert Decimal.ValueFrom(t, 1, 1) == n;
    assert Decimal.ValueFrom(t, 0, 0) == n;
    PeriodicFromIff(t, 1, 0);
    assert t[1] != t[1 % 1];
    assert !SomePeriodFrom(t, 1);
    ContributionByText(n, t);
  }

  lemma Number107(n: nat, t: string)
    requires n == 107 && t == "107"
    ensures Contribution(Halves, n) == 0 && Contribution(AnyBlock, n) == 0
  {
    assert Decimal.AllDigits(t);
    assert Decimal.ValueFrom(t, 2, 10) == n;
    assert Decimal.ValueFrom(t, 1, 1) == n;
    assert Decimal.ValueFrom(t, 0, 0) == n;
    PeriodicFromIff(t, 1, 0);
    assert t[1] != t[1 % 1];
    assert !SomePeriodFrom(t, 1);
    ContributionByText(n, t);
  }

  lemma Number108(n: nat, t: string)
    requires n == 108 && t == "108"
    ensures Contribution(Halves, n) == 0 && Contribution(AnyBlock, n) == 0
  {
    assert Decimal.AllDigits(t);
    assert Decimal.ValueFrom(t, 2, 10) == n;
    assert Decimal.ValueFrom(t, 1, 1) == n;
    assert Decimal.ValueFrom(t, 0, 0) == n;
    PeriodicFromIff(t, 1, 0);
    assert t[1] != t[1 % 1];
    assert !SomePeriodFrom(t, 1);
    ContributionByText(n, t);
  }

  lemma Number109(n: nat, t: string)
    requires n == 109 && t == "109"
    ensures Contribution(Halves, n) == 0 && Contribution(AnyBlock, n) == 0
  {
    assert Decimal.AllDigits(t);
    assert Decimal.ValueFrom(t, 2, 10) == n;
    assert Decimal.ValueFrom(t, 1, 1) == n;
    assert Decimal.ValueFrom(t, 0, 0) == n;
    PeriodicFromIff(t, 1, 0);
    assert t[1] != t[1 % 1];
    assert !SomePeriodFrom(t, 1);
    ContributionByText(n, t);
  }

  lemma Number110(n: nat, t: string)
    requires n == 110 && t == "110"
    ensures Contribution(Halves, n) == 0 && Contribution(AnyBlock, n) == 0
  {
    assert Decimal.AllDigits(t);
    assert Decimal.ValueFrom(t, 2, 11) == n;
    assert Decimal.ValueFrom(t, 1, 1) == n;
    assert Decimal.ValueFrom(t, 0, 0) == n;
    PeriodicFromIff(t, 1, 0);
    assert t[2] != t[2 % 1];
    assert !SomePeriodFrom(t, 1);
    ContributionByText(n, t);
  }

  lemma Number111(n: nat, t: string)
    requires n == 111 && t == "111"
    ensures Contribution(Halves, n) == 0 && Contribution(AnyBlock, n) == n
  {
    assert Decimal.AllDigits(t);
    assert Decimal.ValueFrom(t, 2, 11) == n;
    assert Decimal.ValueFrom(t, 1, 1) == n;
    assert Decimal.ValueFrom(t, 0, 0) == n;
    assert PeriodicFrom(t, 1, 3);
    assert PeriodicFrom(t, 1, 2);
    assert PeriodicFrom(t, 1, 1);
    assert PeriodicFrom(t, 1, 0);
    assert SomePeriodFrom(t, 1);
    ContributionByText(n, t);
  }

  lemma Number112(n: nat, t: string)
    requires n == 112 && t == "112"
    ensures Contribution(Halves, n) == 0 && Contribution(AnyBlock, n) == 0
  {
    assert Decimal.AllDigits(t);
    assert Decimal.ValueFrom(t, 2, 11) == n;
    assert Decimal.ValueFrom(t, 1, 1) == n;
    assert Decimal.ValueFrom(t, 0, 0) == n;
    PeriodicFromIff(t, 1, 0);
    assert t[2] != t[2 % 1];
    assert !SomePeriodFrom(t, 1);
    ContributionByText(n, t);
  }

  lemma Number113(n: nat, t: string)
    requires n == 113 && t == "113"
    ensures Contribution(Halves, n) == 0 && Contribution(AnyBlock, n) == 0
  {
    assert Decimal.AllDigits(t);
    assert Decimal.ValueFrom(t, 2, 11) == n;
    assert Decimal.ValueFrom(t, 1, 1) == n;
    assert Decimal.ValueFrom(t, 0, 0) == n;
    PeriodicFromIff(t, 1, 0);
    assert t[2] != t[2 % 1];
    assert !SomePeriodFrom(t, 1);
    ContributionByText(n, t);
  }

  lemma Number114(n: nat, t: string)
    requires n == 114 && t == "114"
    ensures Contribution(Halves, n) == 0 && Contribution(AnyBlock, n) == 0
  {
    assert Decimal.AllDigits(t);
    assert Decimal.ValueFrom(t, 2, 11) == n;
    assert Decimal.ValueFrom(t, 1, 1) == n;
    assert Decimal.ValueFrom(t, 0, 0) == n;
    PeriodicFromIff(t, 1, 0);
    assert t[2] != t[2 % 1];
    assert !SomePeriodFrom(t, 1);
    ContributionByText(n, t);
  }

  lemma Number115(n: nat, t: string)
    requires n == 115 && t == "115"
    ensures Contribution(Halves, n) == 0 && Contribution(AnyBlock, n) == 0
  {
    assert Decimal.AllDigits(t);
    assert Decimal.ValueFrom(t, 2, 11) == n;
    assert Decimal.ValueFrom(t, 1, 1) == n;
    assert Decimal.ValueFrom(t, 0, 0) == n;
    PeriodicFromIff(t, 1, 0);
    assert t[2] != t[2 % 1];
    assert !SomePeriodFrom(t, 1);
    ContributionByText(n, t);
  }

  lemma Number998(n: nat, t: string)
    requires n == 998 && t == "998"
    ensures Contribution(Halves, n) == 0 && Contribution(AnyBlock, n) == 0
  {
    assert Decimal.AllDigits(t);
    assert Decimal.ValueFrom(t, 2, 99) == n;
    assert Decimal.ValueFrom(t, 1, 9) == n;
    assert Decimal.ValueFrom(t, 0, 0) == n;
    PeriodicFromIff(t, 1, 0);
    assert t[2] != t[2 % 1];
    assert !SomePeriodFrom(t, 1);
    ContributionByText(n, t);
  }

  lemma Number999(n: nat, t: string)
    requires n == 999 && t == "999"
    ensures Contribution(Halves, n) == 0 && Contribution(AnyBlock, n) == n
  {
    assert Decimal.AllDigits(t);
    assert Decimal.ValueFrom(t, 2, 99) == n;
    assert Decimal.ValueFrom(t, 1, 9) == n;
    assert Decimal.ValueFrom(t, 0, 0) == n;
    assert PeriodicFrom(t, 1, 3);
    assert PeriodicFrom(t, 1, 2);
    assert PeriodicFrom(t, 1, 1);
    assert PeriodicFrom(t, 1, 0);
    assert SomePeriodFrom(t, 1);
    ContributionByText(n, t);
  }

  lemma Number1000(n: nat, t: string)
    requires n == 1000 && t == "1000"
    ensures Contribution(Halves, n) == 0 && Contribution(AnyBlock, n) == 0
  {
    assert Decimal.AllDigits(t);
    assert Decimal.ValueFrom(t, 3, 100) == n;
    assert Decimal.ValueFrom(t, 2, 10) == n;
    assert Decimal.ValueFrom(t, 1, 1) == n;
    assert Decimal.ValueFrom(t, 0, 0) == n;
    PeriodicFromIff(t, 2, 0);
    assert t[2] != t[2 % 2];
    assert !SomePeriodFrom(t, 2);
    PeriodicFromIff(t, 1, 0);
    assert t[1] != t[1 % 1];
    assert !SomePeriodFrom(t, 1);
    ContributionByText(n, t);
  }

  lemma Number1001(n: nat, t: string)
    requires n == 1001 && t == "1001"
    ensures Contribution(Halves, n) == 0 && Contribution(AnyBlock, n) == 0
  {
    assert Decimal.AllDigits(t);
    assert Decimal.ValueFrom(t, 3, 100) == n;
    assert Decimal.ValueFrom(t, 2, 10) == n;
    assert Decimal.ValueFrom(t, 1, 1) == n;
    assert Decimal.ValueFrom(t, 0, 0) == n;
    PeriodicFromIff(t, 2, 0);
    assert t[2] != t[2 % 2];
    assert !SomePeriodFrom(t, 2);
    PeriodicFromIff(t, 1, 0);
    assert t[1] != t[1 % 1];
    assert !SomePeriodFrom(t, 1);
    ContributionByText(n, t);
  }

  lemma Number1002(n: nat, t: string)
    requires n == 1002 && t == "1002"
    ensures Contribution(Halves, n) == 0 && Contribution(AnyBlock, n) == 0
  {
    assert Decimal.AllDigits(t);
    assert Decimal.ValueFrom(t, 3, 100) == n;
    assert Decimal.ValueFrom(t, 2, 10) == n;
    assert Decimal.ValueFrom(t, 1, 1) == n;
    assert Decimal.ValueFrom(t, 0, 0) == n;
    PeriodicFromIff(t, 2, 0);
    assert t[2] != t[2 % 2];
    assert !SomePeriodFrom(t, 2);
    PeriodicFromIff(t, 1, 0);
    assert t[1] != t[1 % 1];
    assert !SomePeriodFrom(t, 1);
    ContributionByText(n, t);
  }

  lemma Number1003(n: nat, t: string)
    requires n == 1003 && t == "1003"
    ensures Contribution(Halves, n) == 0 && Contribution(AnyBlock, n) == 0
  {
    assert Decimal.AllDigits(t);
    assert Decimal.ValueFrom(t, 3, 100) == n;
    assert Decimal.ValueFrom(t, 2, 10) == n;
    assert Decimal.ValueFrom(t, 1, 1) == n;
    assert Decimal.ValueFrom(t, 0, 0) == n;
    PeriodicFromIff(t, 2, 0);
    assert t[2] != t[2 % 2];
    assert !SomePeriodFrom(t, 2);
    PeriodicFromIff(t, 1, 0);
    assert t[1] != t[1 % 1];
    assert !SomePeriodFrom(t, 1);
    ContributionByText(n, t);
  }

  lemma Number1004(n: nat, t: string)
    requires n == 1004 && t == "1004"
    ensures Contribution(Halves, n) == 0 && Contribution(AnyBlock, n) == 0
  {
    assert Decimal.AllDigits(t);
    assert Decimal.ValueFrom(t, 3, 100) == n;
    assert Decimal.ValueFrom(t, 2, 10) == n;
    assert Decimal.ValueFrom(t, 1, 1) == n;
    assert Decimal.ValueFrom(t, 0, 0) == n;
    PeriodicFromIff(t, 2, 0);
    assert t[2] != t[2 % 2];
    assert !SomePeriodFrom(t, 2);
    PeriodicFromIff(t, 1, 0);
    assert t[1] != t[1 % 1];
    assert !SomePeriodFrom(t, 1);
    ContributionByText(n, t);
  }

  lemma Number1005(n: nat, t: string)
    requires n == 1005 && t == "1005"
    ensures Contribution(Halves, n) == 0 && Contribution(AnyBlock, n) == 0
  {
    assert Decimal.AllDigits(t);
    assert Decimal.ValueFrom(t, 3, 100) == n;
    assert Decimal.ValueFrom(t, 2, 10) == n;
    assert Decimal.ValueFrom(t, 1, 1) == n;
    assert Decimal.ValueFrom(t, 0, 0) == n;
    PeriodicFromIff(t, 2, 0);
    assert t[2] != t[2 % 2];
    assert !SomePeriodFrom(t, 2);
    PeriodicFromIff(t, 1, 0);
    assert t[1] != t[1 % 1];
    assert !SomePeriodFrom(t, 1);
    ContributionByText(n, t);
  }

  lemma Number1006(n: nat, t: string)
    requires n == 1006 && t == "1006"
    ensures Contribution(Halves, n) == 0 && Contribution(AnyBlock, n) == 0
  {
    assert Decimal.AllDigits(t);
    assert Decimal.ValueFrom(t, 3, 100) == n;
    assert Decimal.ValueFrom(t, 2, 10) == n;
    assert Decimal.ValueFrom(t, 1, 1) == n;
    assert Decimal.ValueFrom(t, 0, 0) == n;
    PeriodicFromIff(t, 2, 0);
    assert t[2] != t[2 % 2];
    assert !SomePeriodFrom(t, 2);
    PeriodicFromIff(t, 1, 0);
    assert t[1] != t[1 % 1];
    assert !SomePeriodFrom(t, 1);
    ContributionByText(n, t);
  }

  lemma Number1007(n: nat, t: string)
    requires n == 1007 && t == "1007"
    ensures Contribution(Halves, n) == 0 && Contribution(AnyBlock, n) == 0
  {
    assert Decimal.AllDigits(t);
    assert Decimal.ValueFrom(t, 3, 100) == n;
    assert Decimal.ValueFrom(t, 2, 10) == n;
    assert Decimal.ValueFrom(t, 1, 1) == n;
    assert Decimal.ValueFrom(t, 0, 0) == n;
    PeriodicFromIff(t, 2, 0);
    assert t[2] != t[2 % 2];
    assert !SomePeriodFrom(t, 2);
    PeriodicFromIff(t, 1, 0);
    assert t[1] != t[1 % 1];
    assert !SomePeriodFrom(t, 1);
    ContributionByText(n, t);
  }

  lemma Number1008(n: nat, t: string)
    requires n == 1008 && t == "1008"
    ensures Contribution(Halves, n) == 0 && Contribution(AnyBlock, n) == 0
  {
    assert Decimal.AllDigits(t);
    assert Decimal.ValueFrom(t, 3, 100) == n;
    assert Decimal.ValueFrom(t, 2, 10) == n;
    assert Decimal.ValueFrom(t, 1, 1) == n;
    assert Decimal.ValueFrom(t, 0, 0) == n;
    PeriodicFromIff(t, 2, 0);
    assert t[2] != t[2 % 2];
    assert !SomePeriodFrom(t, 2);
    PeriodicFromIff(t, 1, 0);
    assert t[1] != t[1 % 1];
    assert !SomePeriodFrom(t, 1);
    ContributionByText(n, t);
  }

  lemma Number1009(n: nat, t: string)
    requires n == 1009 && t == "1009"
    ensures Contribution(Halves, n) == 0 && Contribution(AnyBlock, n) == 0
  {
    assert Decimal.AllDigits(t);
    assert Decimal.ValueFrom(t, 3, 100) == n;
    assert Decimal.ValueFrom(t, 2, 10) == n;
    assert Decimal.ValueFrom(t, 1, 1) == n;
    assert Decimal.ValueFrom(t, 0, 0) == n;
    PeriodicFromIff(t, 2, 0);
    assert t[2] != t[2 % 2];
    assert !SomePeriodFrom(t, 2);
    PeriodicFromIff(t, 1, 0);
    assert t[1] != t[1 % 1];
    assert !SomePeriodFrom(t, 1);
    ContributionByText(n, t);
  }

  lemma Number1010(n: nat, t: string)
    requires n == 1010 && t == "1010"
    ensures Contribution(Halves, n) == n && Contribution(AnyBlock, n) == n
  {
    assert Decimal.AllDigits(t);
    assert Decimal.ValueFrom(t, 3, 101) == n;
    assert Decimal.ValueFrom(t, 2, 10) == n;
    assert Decimal.ValueFrom(t, 1, 1) == n;
    assert Decimal.ValueFrom(t, 0, 0) == n;
    assert PeriodicFrom(t, 2, 4);
    assert PeriodicFrom(t, 2, 3);
    assert PeriodicFrom(t, 2, 2);
    assert PeriodicFrom(t, 2, 1);
    assert PeriodicFrom(t, 2, 0);
    assert SomePeriodFrom(t, 2);
    assert SomePeriodFrom(t, 1);
    ContributionByText(n, t);
  }

  lemma Number1011(n: nat, t: string)
    requires n == 1011 && t == "1011"
    ensures Contribution(Halves, n) == 0 && Contribution(AnyBlock, n) == 0
  {
    assert Decimal.AllDigits(t);
    assert Decimal.ValueFrom(t, 3, 101) == n;
    assert Decimal.ValueFrom(t, 2, 10) == n;
    assert Decimal.ValueFrom(t, 1, 1) == n;
    assert Decimal.ValueFrom(t, 0, 0) == n;
    PeriodicFromIff(t, 2, 0);
    assert t[3] != t[3 % 2];
    assert !SomePeriodFrom(t, 2);
    PeriodicFromIff(t, 1, 0);
    assert t[1] != t[1 % 1];
    assert !SomePeriodFrom(t, 1);
    ContributionByText(n, t);
  }

  lemma Number1012(n: nat, t: string)
    requires n == 1012 && t == "1012"
    ensures Contribution(Halves, n) == 0 && Contribution(AnyBlock, n) == 0
  {
    assert Decimal.AllDigits(t);
    assert Decimal.ValueFrom(t, 3, 101) == n;
    assert Decimal.ValueFrom(t, 2, 10) == n;
    assert Decimal.ValueFrom(t, 1, 1) == n;
    assert Decimal.ValueFrom(t, 0, 0) == n;
    PeriodicFromIff(t, 2, 0);
    assert t[3] != t[3 % 2];
    assert !SomePeriodFrom(t, 2);
    PeriodicFromIff(t, 1, 0);
    assert t[1] != t[1 % 1];
    assert !SomePeriodFrom(t, 1);
    ContributionByText(n, t);
  }

  lemma Number1188511880(n: nat, t: string)
    requires n == 1188511880 && t == "1188511880"
    ensures Contribution(Halves, n) == 0 && Contribution(AnyBlock, n) == 0
  {
    assert Decimal.AllDigits(t);
    assert Decimal.ValueFrom(t, 9, 118851188) == n;
    assert Decimal.ValueFrom(t, 8, 11885118) == n;
    assert Decimal.ValueFrom(t, 7, 1188511) == n;
    assert Decimal.ValueFrom(t, 6, 118851) == n;
    assert Decimal.ValueFrom(t, 5, 11885) == n;
    assert Decimal.ValueFrom(t, 4, 1188) == n;
    assert Decimal.ValueFrom(t, 3, 118) == n;
    assert Decimal.ValueFrom(t, 2, 11) == n;
    assert Decimal.ValueFrom(t, 1, 1) == n;
    assert Decimal.ValueFrom(t, 0, 0) == n;
    PeriodicFromIff(t, 5, 0);
    assert t[9] != t[9 % 5];
    assert !SomePeriodFrom(t, 5);
    assert !SomePeriodFrom(t, 4);
    assert !SomePeriodFrom(t, 3);
    PeriodicFromIff(t, 2, 0);
    assert t[2] != t[2 % 2];
    assert !SomePeriodFrom(t, 2);
    PeriodicFromIff(t, 1, 0);
    assert t[2] != t[2 % 1];
    assert !SomePeriodFrom(t, 1);
    ContributionByText(n, t);
  }

  lemma Number1188511881(n: nat, t: string)
    requires n == 1188511881 && t == "1188511881"
    ensures Contribution(Halves, n) == 0 && Contribution(AnyBlock, n) == 0
  {
    assert Decimal.AllDigits(t);
    assert Decimal.ValueFrom(t, 9, 118851188) == n;
    assert Decimal.ValueFrom(t, 8, 11885118) == n;
    assert Decimal.ValueFrom(t, 7, 1188511) == n;
    assert Decimal.ValueFrom(t, 6, 118851) == n;
    assert Decimal.ValueFrom(t, 5, 11885) == n;
    assert Decimal.ValueFrom(t, 4, 1188) == n;
    assert Decimal.ValueFrom(t, 3, 118) == n;
    assert Decimal.ValueFrom(t, 2, 11) == n;
    assert Decimal.ValueFrom(t, 1, 1) == n;
    assert Decimal.ValueFrom(t, 0, 0) == n;
    PeriodicFromIff(t, 5, 0);
    assert t[9] != t[9 % 5];
    assert !SomePeriodFrom(t, 5);
    assert !SomePeriodFrom(t, 4);
    assert !SomePeriodFrom(t, 3);
    PeriodicFromIff(t, 2, 0);
    assert t[2] != t[2 % 2];
    assert !SomePeriodFrom(t, 2);
    PeriodicFromIff(t, 1, 0);
    assert t[2] != t[2 % 1];
    assert !SomePeriodFrom(t, 1);
    ContributionByText(n, t);
  }

  lemma Number1188511882(n: nat, t: string)
    requires n == 1188511882 && t == "1188511882"
    ensures Contribution(Halves, n) == 0 && Contribution(AnyBlock, n) == 0
  {
    assert Decimal.AllDigits(t);
    assert Decimal.ValueFrom(t, 9, 118851188) == n;
    assert Decimal.ValueFrom(t, 8, 11885118) == n;
    assert Decimal.ValueFrom(t, 7, 1188511) == n;
    assert Decimal.ValueFrom(t, 6, 118851) == n;
    assert Decimal.ValueFrom(t, 5, 11885) == n;
    assert Decimal.ValueFrom(t, 4, 1188) == n;
    assert Decimal.ValueFrom(t, 3, 118) == n;
    assert Decimal.ValueFrom(t, 2, 11) == n;
    assert Decimal.ValueFrom(t, 1, 1) == n;
    assert Decimal.ValueFrom(t, 0, 0) == n;
    PeriodicFromIff(t, 5, 0);
    assert t[9] != t[9 % 5];
    assert !SomePeriodFrom(t, 5);
    assert !SomePeriodFrom(t, 4);
    assert !SomePeriodFrom(t, 3);
    PeriodicFromIff(t, 2, 0);
    assert t[2] != t[2 % 2];
    assert !SomePeriodFrom(t, 2);
    PeriodicFromIff(t, 1, 0);
    assert t[2] != t[2 % 1];
    assert !SomePeriodFrom(t, 1);
    ContributionByText(n, t);
  }

  lemma Number1188511883(n: nat, t: string)
    requires n == 1188511883 && t == "1188511883"
    ensures Contribution(Halves, n) == 0 && Contribution(AnyBlock, n) == 0
  {
    assert Decimal.AllDigits(t);
    assert Decimal.ValueFrom(t, 9, 118851188) == n;
    assert Decimal.ValueFrom(t, 8, 11885118) == n;
    assert Decimal.ValueFrom(t, 7, 1188511) == n;
    assert Decimal.ValueFrom(t, 6, 118851) == n;
    assert Decimal.ValueFrom(t, 5, 11885) == n;
    assert Decimal.ValueFrom(t, 4, 1188) == n;
    assert Decimal.ValueFrom(t, 3, 118) == n;
    assert Decimal.ValueFrom(t, 2, 11) == n;
    assert Decimal.ValueFrom(t, 1, 1) == n;
    assert Decimal.ValueFrom(t, 0, 0) == n;
    PeriodicFromIff(t, 5, 0);
    assert t[9] != t[9 % 5];
    assert !SomePeriodFrom(t, 5);
    assert !SomePeriodFrom(t, 4);
    assert !SomePeriodFrom(t, 3);
    PeriodicFromIff(t, 2, 0);
    assert t[2] != t[2 % 2];
    assert !SomePeriodFrom(t, 2);
    PeriodicFromIff(t, 1, 0);
    assert t[2] != t[2 % 1];
    assert !SomePeriodFrom(t, 1);
    ContributionByText(n, t);
  }

  lemma Number1188511884(n: nat, t: string)
    requires n == 1188511884 && t == "1188511884"
    ensures Contribution(Halves, n) == 0 && Contribution(AnyBlock, n) == 0
  {
    assert Decimal.AllDigits(t);
    assert Decimal.ValueFrom(t, 9, 118851188) == n;
    assert Decimal.ValueFrom(t, 8, 11885118) == n;
    assert Decimal.ValueFrom(t, 7, 1188511) == n;
    assert Decimal.ValueFrom(t, 6, 118851) == n;
    assert Decimal.ValueFrom(t, 5, 11885) == n;
    assert Decimal.ValueFrom(t, 4, 1188) == n;
    assert Decimal.ValueFrom(t, 3, 118) == n;
    assert Decimal.ValueFrom(t, 2, 11) == n;
    assert Decimal.ValueFrom(t, 1, 1) == n;
    assert Decimal.ValueFrom(t, 0, 0) == n;
    PeriodicFromIff(t, 5, 0);
    assert t[9] != t[9 % 5];
    assert !SomePeriodFrom(t, 5);
    assert !SomePeriodFrom(t, 4);
    assert !SomePeriodFrom(t, 3);
    PeriodicFromIff(t, 2, 0);
    assert t[2] != t[2 % 2];
    assert !SomePeriodFrom(t, 2);
    PeriodicFromIff(t, 1, 0);
    assert t[2] != t[2 % 1];
    assert !SomePeriodFrom(t, 1);
    ContributionByText(n, t);
  }

  lemma Number1188511885(n: nat, t: string)
    requires n == 1188511885 && t == "1188511885"
    ensures Contribution(Halves, n) == n && Contribution(AnyBlock, n) == n
  {
    assert Decimal.AllDigits(t);
    assert Decimal.ValueFrom(t, 9, 118851188) == n;
    assert Decimal.ValueFrom(t, 8, 11885118) == n;
    assert Decimal.ValueFrom(t, 7, 1188511) == n;
    assert Decimal.ValueFrom(t, 6, 118851) == n;
    assert Decimal.ValueFrom(t, 5, 11885) == n;
    assert Decimal.ValueFrom(t, 4, 1188) == n;
    assert Decimal.ValueFrom(t, 3, 118) == n;
    assert Decimal.ValueFrom(t, 2, 11) == n;
    assert Decimal.ValueFrom(t, 1, 1) == n;
    assert Decimal.ValueFrom(t, 0, 0) == n;
    assert PeriodicFrom(t, 5, 10);
    assert PeriodicFrom(t, 5, 9);
    assert PeriodicFrom(t, 5, 8);
    assert PeriodicFrom(t, 5, 7);
    assert PeriodicFrom(t, 5, 6);
    assert PeriodicFrom(t, 5, 5);
    assert PeriodicFrom(t, 5, 4);
    assert PeriodicFrom(t, 5, 3);
    assert PeriodicFrom(t, 5, 2);
    assert PeriodicFrom(t, 5, 1);
    assert PeriodicFrom(t, 5, 0);
    assert SomePeriodFrom(t, 5);
    assert SomePeriodFrom(t, 4);
    assert SomePeriodFrom(t, 3);
    assert SomePeriodFrom(t, 2);
    assert SomePeriodFrom(t, 1);
    ContributionByText(n, t);
  }

  lemma Number1188511886(n: nat, t: string)
    requires n == 1188511886 && t == "1188511886"
    ensures Contribution(Halves, n) == 0 && Contribution(AnyBlock, n) == 0
  {
    assert Decimal.AllDigits(t);
    assert Decimal.ValueFrom(t, 9, 118851188) == n;
    assert Decimal.ValueFrom(t, 8, 11885118) == n;
    assert Decimal.ValueFrom(t, 7, 1188511) == n;
    assert Decimal.ValueFrom(t, 6, 118851) == n;
    assert Decimal.ValueFrom(t, 5, 11885) == n;
    assert Decimal.ValueFrom(t, 4, 1188) == n;
    assert Decimal.ValueFrom(t, 3, 118) == n;
    assert Decimal.ValueFrom(t, 2, 11) == n;
    assert Decimal.ValueFrom(t, 1, 1) == n;
    assert Decimal.ValueFrom(t, 0, 0) == n;
    PeriodicFromIff(t, 5, 0);
    assert t[9] != t[9 % 5];
    assert !SomePeriodFrom(t, 5);
    assert !SomePeriodFrom(t, 4);
    assert !SomePeriodFrom(t, 3);
    PeriodicFromIff(t, 2, 0);
    assert t[2] != t[2 % 2];
    assert !SomePeriodFrom(t, 2);
    PeriodicFromIff(t, 1, 0);
    assert t[2] != t[2 % 1];
    assert !SomePeriodFrom(t, 1);
    ContributionByText(n, t);
  }

  lemma Number1188511887(n: nat, t: string)
    requires n == 1188511887 && t == "1188511887"
    ensures Contribution(Halves, n) == 0 && Contribution(AnyBlock, n) == 0
  {
    assert Decimal.AllDigits(t);
    assert Decimal.ValueFrom(t, 9, 118851188) == n;
    assert Decimal.ValueFrom(t, 8, 11885118) == n;
    assert Decimal.ValueFrom(t, 7, 1188511) == n;
    assert Decimal.ValueFrom(t, 6, 118851) == n;
    assert Decimal.ValueFrom(t, 5, 11885) == n;
    assert Decimal.ValueFrom(t, 4, 1188) == n;
    assert Decimal.ValueFrom(t, 3, 118) == n;
    assert Decimal.ValueFrom(t, 2, 11) == n;
    assert Decimal.ValueFrom(t, 1, 1) == n;
    assert Decimal.ValueFrom(t, 0, 0) == n;
    PeriodicFromIff(t, 5, 0);
    assert t[9] != t[9 % 5];
    assert !SomePeriodFrom(t, 5);
    assert !SomePeriodFrom(t, 4);
    assert !SomePeriodFrom(t, 3);
    PeriodicFromIff(t, 2, 0);
    assert t[2] != t[2 % 2];
    assert !SomePeriodFrom(t, 2);
    PeriodicFromIff(t, 1, 0);
    assert t[2] != t[2 % 1];
    assert !SomePeriodFrom(t, 1);
    ContributionByText(n, t);
  }

  lemma Number1188511888(n: nat, t: string)
    requires n == 1188511888 && t == "1188511888"
    ensures Contribution(Halves, n) == 0 && Contribution(AnyBlock, n) == 0
  {
    assert Decimal.AllDigits(t);
    assert Decimal.ValueFrom(t, 9, 118851188) == n;
    assert Decimal.ValueFrom(t, 8, 11885118) == n;
    assert Decimal.ValueFrom(t, 7, 1188511) == n;
    assert Decimal.ValueFrom(t, 6, 118851) == n;
    assert Decimal.ValueFrom(t, 5, 11885) == n;
    assert Decimal.ValueFrom(t, 4, 1188) == n;
    assert Decimal.ValueFrom(t, 3, 118) == n;
    assert Decimal.ValueFrom(t, 2, 11) == n;
    assert Decimal.ValueFrom(t, 1, 1) == n;
    assert Decimal.ValueFrom(t, 0, 0) == n;
    PeriodicFromIff(t, 5, 0);
    assert t[9] != t[9 % 5];
    assert !SomePeriodFrom(t, 5);
    assert !SomePeriodFrom(t, 4);
    assert !SomePeriodFrom(t, 3);
    PeriodicFromIff(t, 2, 0);
    assert t[2] != t[2 % 2];
    assert !SomePeriodFrom(t, 2);
    PeriodicFromIff(t, 1, 0);
    assert t[2] != t[2 % 1];
    assert !SomePeriodFrom(t, 1);
    ContributionByText(n, t);
  }

  lemma Number1188511889(n: nat, t: string)
    requires n == 1188511889 && t == "1188511889"
    ensures Contribution(Halves, n) == 0 && Contribution(AnyBlock, n) == 0
  {
    assert Decimal.AllDigits(t);
    assert Decimal.ValueFrom(t, 9, 118851188) == n;
    assert Decimal.ValueFrom(t, 8, 11885118) == n;
    assert Decimal.ValueFrom(t, 7, 1188511) == n;
    assert Decimal.ValueFrom(t, 6, 118851) == n;
    assert Decimal.ValueFrom(t, 5, 11885) == n;
    assert Decimal.ValueFrom(t, 4, 1188) == n;
    assert Decimal.ValueFrom(t, 3, 118) == n;
    assert Decimal.ValueFrom(t, 2, 11) == n;
    assert Decimal.ValueFrom(t, 1, 1) == n;
    assert Decimal.ValueFrom(t, 0, 0) == n;
    PeriodicFromIff(t, 5, 0);
    assert t[9] != t[9 % 5];
    assert !SomePeriodFrom(t, 5);
    assert !SomePeriodFrom(t, 4);
    assert !SomePeriodFrom(t, 3);
    PeriodicFromIff(t, 2, 0);
    assert t[2] != t[2 % 2];
    assert !SomePeriodFrom(t, 2);
    PeriodicFromIff(t, 1, 0);
    assert t[2] != t[2 % 1];
    assert !SomePeriodFrom(t, 1);
    ContributionByText(n, t);
  }

  lemma Number1188511890(n: nat, t: string)
    requires n == 1188511890 && t == "1188511890"
    ensures Contribution(Halves, n) == 0 && Contribution(AnyBlock, n) == 0
  {
    assert Decimal.AllDigits(t);
    assert Decimal.ValueFrom(t, 9, 118851189) == n;
    assert Decimal.ValueFrom(t, 8, 11885118) == n;
    assert Decimal.ValueFrom(t, 7, 1188511) == n;
    assert Decimal.ValueFrom(t, 6, 118851) == n;
    assert Decimal.ValueFrom(t, 5, 11885) == n;
    assert Decimal.ValueFrom(t, 4, 1188) == n;
    assert Decimal.ValueFrom(t, 3, 118) == n;
    assert Decimal.ValueFrom(t, 2, 11) == n;
    assert Decimal.ValueFrom(t, 1, 1) == n;
    assert Decimal.ValueFrom(t, 0, 0) == n;
    PeriodicFromIff(t, 5, 0);
    assert t[8] != t[8 % 5];
    assert !SomePeriodFrom(t, 5);
    assert !SomePeriodFrom(t, 4);
    assert !SomePeriodFrom(t, 3);
    PeriodicFromIff(t, 2, 0);
    assert t[2] != t[2 % 2];
    assert !SomePeriodFrom(t, 2);
    PeriodicFromIff(t, 1, 0);
    assert t[2] != t[2 % 1];
    assert !SomePeriodFrom(t, 1);
    ContributionByText(n, t);
  }

  lemma Number222220(n: nat, t: string)
    requires n == 222220 && t == "222220"
    ensures Contribution(Halves, n) == 0 && Contribution(AnyBlock, n) == 0
  {
    assert Decimal.AllDigits(t);
    assert Decimal.ValueFrom(t, 5, 22222) == n;
    assert Decimal.ValueFrom(t, 4, 2222) == n;
    assert Decimal.ValueFrom(t, 3, 222) == n;
    assert Decimal.ValueFrom(t, 2, 22) == n;
    assert Decimal.ValueFrom(t, 1, 2) == n;
    assert Decimal.ValueFrom(t, 0, 0) == n;
    PeriodicFromIff(t, 3, 0);
    assert t[5] != t[5 % 3];
    assert !SomePeriodFrom(t, 3);
    PeriodicFromIff(t, 2, 0);
    assert t[5] != t[5 % 2];
    assert !SomePeriodFrom(t, 2);
    PeriodicFromIff(t, 1, 0);
    assert t[5] != t[5 % 1];
    assert !SomePeriodFrom(t, 1);
    ContributionByText(n, t);
  }

  lemma Number222221(n: nat, t: string)
    requires n == 222221 && t == "222221"
    ensures Contribution(Halves, n) == 0 && Contribution(AnyBlock, n) == 0
  {
    assert Decimal.AllDigits(t);
    assert Decimal.ValueFrom(t, 5, 22222) == n;
    assert Decimal.ValueFrom(t, 4, 2222) == n;
    assert Decimal.ValueFrom(t, 3, 222) == n;
    assert Decimal.ValueFrom(t, 2, 22) == n;
    assert Decimal.ValueFrom(t, 1, 2) == n;
    assert Decimal.ValueFrom(t, 0, 0) == n;
    PeriodicFromIff(t, 3, 0);
    assert t[5] != t[5 % 3];
    assert !SomePeriodFrom(t, 3);
    PeriodicFromIff(t, 2, 0);
    assert t[5] != t[5 % 2];
    assert !SomePeriodFrom(t, 2);
    PeriodicFromIff(t, 1, 0);
    assert t[5] != t[5 % 1];
    assert !SomePeriodFrom(t, 1);
    ContributionByText(n, t);
  }

  lemma Number222222(n: nat, t: string)
    requires n == 222222 && t == "222222"
    ensures Contribution(Halves, n) == n && Contribution(AnyBlock, n) == n
  {
    assert Decimal.AllDigits(t);
    assert Decimal.ValueFrom(t, 5, 22222) == n;
    assert Decimal.ValueFrom(t, 4, 2222) == n;
    assert Decimal.ValueFrom(t, 3, 222) == n;
    assert Decimal.ValueFrom(t, 2, 22) == n;
    assert Decimal.ValueFrom(t, 1, 2) == n;
    assert Decimal.ValueFrom(t, 0, 0) == n;
    assert PeriodicFrom(t, 3, 6);
    assert PeriodicFrom(t, 3, 5);
    assert PeriodicFrom(t, 3, 4);
    assert PeriodicFrom(t, 3, 3);
    assert PeriodicFrom(t, 3, 2);
    assert PeriodicFrom(t, 3, 1);
    assert PeriodicFrom(t, 3, 0);
    assert SomePeriodFrom(t, 3);
    assert SomePeriodFrom(t, 2);
    assert SomePeriodFrom(t, 1);
    ContributionByText(n, t);
  }

  lemma Number222223(n: nat, t: string)
    requires n == 222223 && t == "222223"
    ensures Contribution(Halves, n) == 0 && Contribution(AnyBlock, n) == 0
  {
    assert Decimal.AllDigits(t);
    assert Decimal.ValueFrom(t, 5, 22222) == n;
    assert Decimal.ValueFrom(t, 4, 2222) == n;
    assert Decimal.ValueFrom(t, 3, 222) == n;
    assert Decimal.ValueFrom(t, 2, 22) == n;
    assert Decimal.ValueFrom(t, 1, 2) == n;
    assert Decimal.ValueFrom(t, 0, 0) == n;
    PeriodicFromIff(t, 3, 0);
    assert t[5] != t[5 % 3];
    assert !SomePeriodFrom(t, 3);
    PeriodicFromIff(t, 2, 0);
    assert t[5] != t[5 % 2];
    assert !SomePeriodFrom(t, 2);
    PeriodicFromIff(t, 1, 0);
    assert t[5] != t[5 % 1];
    assert !SomePeriodFrom(t, 1);
    ContributionByText(n, t);
  }

  lemma Number222224(n: nat, t: string)
    requires n == 222224 && t == "222224"
    ensures Contribution(Halves, n) == 0 && Contribution(AnyBlock, n) == 0
  {
    assert Decimal.AllDigits(t);
    assert Decimal.ValueFrom(t, 5, 22222) == n;
    assert Decimal.ValueFrom(t, 4, 2222) == n;
    assert Decimal.ValueFrom(t, 3, 222) == n;
    assert Decimal.ValueFrom(t, 2, 22) == n;
    assert Decimal.ValueFrom(t, 1, 2) == n;
    assert Decimal.ValueFrom(t, 0, 0) == n;
    PeriodicFromIff(t, 3, 0);
    assert t[5] != t[5 % 3];
    assert !SomePeriodFrom(t, 3);
    PeriodicFromIff(t, 2, 0);
    assert t[5] != t[5 % 2];
    assert !SomePeriodFrom(t, 2);
    PeriodicFromIff(t, 1, 0);
    assert t[5] != t[5 % 1];
    assert !SomePeriodFrom(t, 1);
    ContributionByText(n, t);
  }

  lemma Number1698522(n: nat, t: string)
    requires n == 1698522 && t == "1698522"
    ensures Contribution(Halves, n) == 0 && Contribution(AnyBlock, n) == 0
  {
    assert Decimal.AllDigits(t);
    assert Decimal.ValueFrom(t, 6, 169852) == n;
    assert Decimal.ValueFrom(t, 5, 16985) == n;
    assert Decimal.ValueFrom(t, 4, 1698) == n;
    assert Decimal.ValueFrom(t, 3, 169) == n;
    assert Decimal.ValueFrom(t, 2, 16) == n;
    assert Decimal.ValueFrom(t, 1, 1) == n;
    assert Decimal.ValueFrom(t, 0, 0) == n;
    assert !SomePeriodFrom(t, 3);
    assert !SomePeriodFrom(t, 2);
    PeriodicFromIff(t, 1, 0);
    assert t[1] != t[1 % 1];
    assert !SomePeriodFrom(t, 1);
    ContributionByText(n, t);
  }

  lemma Number1698523(n: nat, t: string)
    requires n == 1698523 && t == "1698523"
    ensures Contribution(Halves, n) == 0 && Contribution(AnyBlock, n) == 0
  {
    assert Decimal.AllDigits(t);
    assert Decimal.ValueFrom(t, 6, 169852) == n;
    assert Decimal.ValueFrom(t, 5, 16985) == n;
    assert Decimal.ValueFrom(t, 4, 1698) == n;
    assert Decimal.ValueFrom(t, 3, 169) == n;
    assert Decimal.ValueFrom(t, 2, 16) == n;
    assert Decimal.ValueFrom(t, 1, 1) == n;
    assert Decimal.ValueFrom(t, 0, 0) == n;
    assert !SomePeriodFrom(t, 3);
    assert !SomePeriodFrom(t, 2);
    PeriodicFromIff(t, 1, 0);
    assert t[1] != t[1 % 1];
    assert !SomePeriodFrom(t, 1);
    ContributionByText(n, t);
  }

  lemma Number1698524(n: nat, t: string)
    requires n == 1698524 && t == "1698524"
    ensures Contribution(Halves, n) == 0 && Contribution(AnyBlock, n) == 0
  {
    assert Decimal.AllDigits(t);
    assert Decimal.ValueFrom(t, 6, 169852) == n;
    assert Decimal.ValueFrom(t, 5, 16985) == n;
    assert Decimal.ValueFrom(t, 4, 1698) == n;
    assert Decimal.ValueFrom(t, 3, 169) == n;
    assert Decimal.ValueFrom(t, 2, 16) == n;
    assert Decimal.ValueFrom(t, 1, 1) == n;
    assert Decimal.ValueFrom(t, 0, 0) == n;
    assert !SomePeriodFrom(t, 3);
    assert !SomePeriodFrom(t, 2);
    PeriodicFromIff(t, 1, 0);
    assert t[1] != t[1 % 1];
    assert !SomePeriodFrom(t, 1);
    ContributionByText(n, t);
  }

  lemma Number1698525(n: nat, t: string)
    requires n == 1698525 && t == "1698525"
    ensures Contribution(Halves, n) == 0 && Contribution(AnyBlock, n) == 0
  {
    assert Decimal.AllDigits(t);
    assert Decimal.ValueFrom(t, 6, 169852) == n;
    assert Decimal.ValueFrom(t, 5, 16985) == n;
    assert Decimal.ValueFrom(t, 4, 1698) == n;
    assert Decimal.ValueFrom(t, 3, 169) == n;
    assert Decimal.ValueFrom(t, 2, 16) == n;
    assert Decimal.ValueFrom(t, 1, 1) == n;
    assert Decimal.ValueFrom(t, 0, 0) == n;
    assert !SomePeriodFrom(t, 3);
    assert !SomePeriodFrom(t, 2);
    PeriodicFromIff(t, 1, 0);
    assert t[1] != t[1 % 1];
    assert !SomePeriodFrom(t, 1);
    ContributionByText(n, t);
  }

  lemma Number1698526(n: nat, t: string)
    requires n == 1698526 && t == "1698526"
    ensures Contribution(Halves, n) == 0 && Contribution(AnyBlock, n) == 0
  {
    assert Decimal.AllDigits(t);
    assert Decimal.ValueFrom(t, 6, 169852) == n;
    assert Decimal.ValueFrom(t, 5, 16985) == n;
    assert Decimal.ValueFrom(t, 4, 1698) == n;
    assert Decimal.ValueFrom(t, 3, 169) == n;
    assert Decimal.ValueFrom(t, 2, 16) == n;
    assert Decimal.ValueFrom(t, 1, 1) == n;
    assert Decimal.ValueFrom(t, 0, 0) == n;
    assert !SomePeriodFrom(t, 3);
    assert !SomePeriodFrom(t, 2);
    PeriodicFromIff(t, 1, 0);
    assert t[1] != t[1 % 1];
    assert !SomePeriodFrom(t, 1);
    ContributionByText(n, t);
  }

  lemma Number1698527(n: nat, t: string)
    requires n == 1698527 && t == "1698527"
    ensures Contribution(Halves, n) == 0 && Contribution(AnyBlock, n) == 0
  {
    assert Decimal.AllDigits(t);
    assert Decimal.ValueFrom(t, 6, 169852) == n;
    assert Decimal.ValueFrom(t, 5, 16985) == n;
    assert Decimal.ValueFrom(t, 4, 1698) == n;
    assert Decimal.ValueFrom(t, 3, 169) == n;
    assert Decimal.ValueFrom(t, 2, 16) == n;
    assert Decimal.ValueFrom(t, 1, 1) == n;
    assert Decimal.ValueFrom(t, 0, 0) == n;
    assert !SomePeriodFrom(t, 3);
    assert !SomePeriodFrom(t, 2);
    PeriodicFromIff(t, 1, 0);
    assert t[1] != t[1 % 1];
    assert !SomePeriodFrom(t, 1);
    ContributionByText(n, t);
  }

  lemma Number1698528(n: nat, t: string)
    requires n == 1698528 && t == "1698528"
    ensures Contribution(Halves, n) == 0 && Contribution(AnyBlock, n) == 0
  {
    assert Decimal.AllDigits(t);
    assert Decimal.ValueFrom(t, 6, 169852) == n;
    assert Decimal.ValueFrom(t, 5, 16985) == n;
    assert Decimal.ValueFrom(t, 4, 1698) == n;
    assert Decimal.ValueFrom(t, 3, 169) == n;
    assert Decimal.ValueFrom(t, 2, 16) == n;
    assert Decimal.ValueFrom(t, 1, 1) == n;
    assert Decimal.ValueFrom(t, 0, 0) == n;
    assert !SomePeriodFrom(t, 3);
    assert !SomePeriodFrom(t, 2);
    PeriodicFromIff(t, 1, 0);
    assert t[1] != t[1 % 1];
    assert !SomePeriodFrom(t, 1);
    ContributionByText(n, t);
  }

  lemma Number446443(n: nat, t: string)
    requires n == 446443 && t == "446443"
    ensures Contribution(Halves, n) == 0 && Contribution(AnyBlock, n) == 0
  {
    assert Decimal.AllDigits(t);
    assert Decimal.ValueFrom(t, 5, 44644) == n;
    assert Decimal.ValueFrom(t, 4, 4464) == n;
    assert Decimal.ValueFrom(t, 3, 446) == n;
    assert Decimal.ValueFrom(t, 2, 44) == n;
    assert Decimal.ValueFrom(t, 1, 4) == n;
    assert Decimal.ValueFrom(t, 0, 0) == n;
    PeriodicFromIff(t, 3, 0);
    assert t[5] != t[5 % 3];
    assert !SomePeriodFrom(t, 3);
    PeriodicFromIff(t, 2, 0);
    assert t[2] != t[2 % 2];
    assert !SomePeriodFrom(t, 2);
    PeriodicFromIff(t, 1, 0);
    assert t[2] != t[2 % 1];
    assert !SomePeriodFrom(t, 1);
    ContributionByText(n, t);
  }

  lemma Number446444(n: nat, t: string)
    requires n == 446444 && t == "446444"
    ensures Contribution(Halves, n) == 0 && Contribution(AnyBlock, n) == 0
  {
    assert Decimal.AllDigits(t);
    assert Decimal.ValueFrom(t, 5, 44644) == n;
    assert Decimal.ValueFrom(t, 4, 4464) == n;
    assert Decimal.ValueFrom(t, 3, 446) == n;
    assert Decimal.ValueFrom(t, 2, 44) == n;
    assert Decimal.ValueFrom(t, 1, 4) == n;
    assert Decimal.ValueFrom(t, 0, 0) == n;
    PeriodicFromIff(t, 3, 0);
    assert t[5] != t[5 % 3];
    assert !SomePeriodFrom(t, 3);
    PeriodicFromIff(t, 2, 0);
    assert t[2] != t[2 % 2];
    assert !SomePeriodFrom(t, 2);
    PeriodicFromIff(t, 1, 0);
    assert t[2] != t[2 % 1];
    assert !SomePeriodFrom(t, 1);
    ContributionByText(n, t);
  }

  lemma Number446445(n: nat, t: string)
    requires n == 446445 && t == "446445"
    ensures Contribution(Halves, n) == 0 && Contribution(AnyBlock, n) == 0
  {
    assert Decimal.AllDigits(t);
    assert Decimal.ValueFrom(t, 5, 44644) == n;
    assert Decimal.ValueFrom(t, 4, 4464) == n;
    assert Decimal.ValueFrom(t, 3, 446) == n;
    assert Decimal.ValueFrom(t, 2, 44) == n;
    assert Decimal.ValueFrom(t, 1, 4) == n;
    assert Decimal.ValueFrom(t, 0, 0) == n;
    PeriodicFromIff(t, 3, 0);
    assert t[5] != t[5 % 3];
    assert !SomePeriodFrom(t, 3);
    PeriodicFromIff(t, 2, 0);
    assert t[2] != t[2 % 2];
    assert !SomePeriodFrom(t, 2);
    PeriodicFromIff(t, 1, 0);
    assert t[2] != t[2 % 1];
    assert !SomePeriodFrom(t, 1);
    ContributionByText(n, t);
  }

  lemma Number446446(n: nat, t: string)
    requires n == 446446 && t == "446446"
    ensures Contribution(Halves, n) == n && Contribution(AnyBlock, n) == n
  {
    assert Decimal.AllDigits(t);
    assert Decimal.ValueFrom(t, 5, 44644) == n;
    assert Decimal.ValueFrom(t, 4, 4464) == n;
    assert Decimal.ValueFrom(t, 3, 446) == n;
    assert Decimal.ValueFrom(t, 2, 44) == n;
    assert Decimal.ValueFrom(t, 1, 4) == n;
    assert Decimal.ValueFrom(t, 0, 0) == n;
    assert PeriodicFrom(t, 3, 6);
    assert PeriodicFrom(t, 3, 5);
    assert PeriodicFrom(t, 3, 4);
    assert PeriodicFrom(t, 3, 3);
    assert PeriodicFrom(t, 3, 2);
    assert PeriodicFrom(t, 3, 1);
    assert PeriodicFrom(t, 3, 0);
    assert SomePeriodFrom(t, 3);
    assert SomePeriodFrom(t, 2);
    assert SomePeriodFrom(t, 1);
    ContributionByText(n, t);
  }

  lemma Number446447(n: nat, t: string)
    requires n == 446447 && t == "446447"
    ensures Contribution(Halves, n) == 0 && Contribution(AnyBlock, n) == 0
  {
    assert Decimal.AllDigits(t);
    assert Decimal.ValueFrom(t, 5, 44644) == n;
    assert Decimal.ValueFrom(t, 4, 4464) == n;
    assert Decimal.ValueFrom(t, 3, 446) == n;
    assert Decimal.ValueFrom(t, 2, 44) == n;
    assert Decimal.ValueFrom(t, 1, 4) == n;
    assert Decimal.ValueFrom(t, 0, 0) == n;
    PeriodicFromIff(t, 3, 0);
    assert t[5] != t[5 % 3];
    assert !SomePeriodFrom(t, 3);
    PeriodicFromIff(t, 2, 0);
    assert t[2] != t[2 % 2];
    assert !SomePeriodFrom(t, 2);
    PeriodicFromIff(t, 1, 0);
    assert t[2] != t[2 % 1];
    assert !SomePeriodFrom(t, 1);
    ContributionByText(n, t);
  }

  lemma Number446448(n: nat, t: string)
    requires n == 446448 && t == "446448"
    ensures Contribution(Halves, n) == 0 && Contribution(AnyBlock, n) == 0
  {
    assert Decimal.AllDigits(t);
    assert Decimal.ValueFrom(t, 5, 44644) == n;
    assert Decimal.ValueFrom(t, 4, 4464) == n;
    assert Decimal.ValueFrom(t, 3, 446) == n;
    assert Decimal.ValueFrom(t, 2, 44) == n;
    assert Decimal.ValueFrom(t, 1, 4) == n;
    assert Decimal.ValueFrom(t, 0, 0) == n;
    PeriodicFromIff(t, 3, 0);
    assert t[5] != t[5 % 3];
    assert !SomePeriodFrom(t, 3);
    PeriodicFromIff(t, 2, 0);
    assert t[2] != t[2 % 2];
    assert !SomePeriodFrom(t, 2);
    PeriodicFromIff(t, 1, 0);
    assert t[2] != t[2 % 1];
    assert !SomePeriodFrom(t, 1);
    ContributionByText(n, t);
  }

  lemma Number446449(n: nat, t: string)
    requires n == 446449 && t == "446449"
    ensures Contribution(Halves, n) == 0 && Contribution(AnyBlock, n) == 0
  {
    assert Decimal.AllDigits(t);
    assert Decimal.ValueFrom(t, 5, 44644) == n;
    assert Decimal.ValueFrom(t, 4, 4464) == n;
    assert Decimal.ValueFrom(t, 3, 446) == n;
    assert Decimal.ValueFrom(t, 2, 44) == n;
    assert Decimal.ValueFrom(t, 1, 4) == n;
    assert Decimal.ValueFrom(t, 0, 0) == n;
    PeriodicFromIff(t, 3, 0);
    assert t[5] != t[5 % 3];
    assert !SomePeriodFrom(t, 3);
    PeriodicFromIff(t, 2, 0);
    assert t[2] != t[2 % 2];
    assert !SomePeriodFrom(t, 2);
    PeriodicFromIff(t, 1, 0);
    assert t[2] != t[2 % 1];
    assert !SomePeriodFrom(t, 1);
    ContributionByText(n, t);
  }

  lemma Number38593856(n: nat, t: string)
    requires n == 38593856 && t == "38593856"
    ensures Contribution(Halves, n) == 0 && Contribution(AnyBlock, n) == 0
  {
    assert Decimal.AllDigits(t);
    assert Decimal.ValueFrom(t, 7, 3859385) == n;
    assert Decimal.ValueFrom(t, 6, 385938) == n;
    assert Decimal.ValueFrom(t, 5, 38593) == n;
    assert Decimal.ValueFrom(t, 4, 3859) == n;
    assert Decimal.ValueFrom(t, 3, 385) == n;
    assert Decimal.ValueFrom(t, 2, 38) == n;
    assert Decimal.ValueFrom(t, 1, 3) == n;
    assert Decimal.ValueFrom(t, 0, 0) == n;
    PeriodicFromIff(t, 4, 0);
    assert t[7] != t[7 % 4];
    assert !SomePeriodFrom(t, 4);
    assert !SomePeriodFrom(t, 3);
    PeriodicFromIff(t, 2, 0);
    assert t[2] != t[2 % 2];
    assert !SomePeriodFrom(t, 2);
    PeriodicFromIff(t, 1, 0);
    assert t[1] != t[1 % 1];
    assert !SomePeriodFrom(t, 1);
    ContributionByText(n, t);
  }

  lemma Number38593857(n: nat, t: string)
    requires n == 38593857 && t == "38593857"
    ensures Contribution(Halves, n) == 0 && Contribution(AnyBlock, n) == 0
  {
    assert Decimal.AllDigits(t);
    assert Decimal.ValueFrom(t, 7, 3859385) == n;
    assert Decimal.ValueFrom(t, 6, 385938) == n;
    assert Decimal.ValueFrom(t, 5, 38593) == n;
    assert Decimal.ValueFrom(t, 4, 3859) == n;
    assert Decimal.ValueFrom(t, 3, 385) == n;
    assert Decimal.ValueFrom(t, 2, 38) == n;
    assert Decimal.ValueFrom(t, 1, 3) == n;
    assert Decimal.ValueFrom(t, 0, 0) == n;
    PeriodicFromIff(t, 4, 0);
    assert t[7] != t[7 % 4];
    assert !SomePeriodFrom(t, 4);
    assert !SomePeriodFrom(t, 3);
    PeriodicFromIff(t, 2, 0);
    assert t[2] != t[2 % 2];
    assert !SomePeriodFrom(t, 2);
    PeriodicFromIff(t, 1, 0);
    assert t[1] != t[1 % 1];
    assert !SomePeriodFrom(t, 1);
    ContributionByText(n, t);
  }

  lemma Number38593858(n: nat, t: string)
    requires n == 38593858 && t == "38593858"
    ensures Contribution(Halves, n) == 0 && Contribution(AnyBlock, n) == 0
  {
    assert Decimal.AllDigits(t);
    assert Decimal.ValueFrom(t, 7, 3859385) == n;
    assert Decimal.ValueFrom(t, 6, 385938) == n;
    assert Decimal.ValueFrom(t, 5, 38593) == n;
    assert Decimal.ValueFrom(t, 4, 3859) == n;
    assert Decimal.ValueFrom(t, 3, 385) == n;
    assert Decimal.ValueFrom(t, 2, 38) == n;
    assert Decimal.ValueFrom(t, 1, 3) == n;
    assert Decimal.ValueFrom(t, 0, 0) == n;
    PeriodicFromIff(t, 4, 0);
    assert t[7] != t[7 % 4];
    assert !SomePeriodFrom(t, 4);
    assert !SomePeriodFrom(t, 3);
    PeriodicFromIff(t, 2, 0);
    assert t[2] != t[2 % 2];
    assert !SomePeriodFrom(t, 2);
    PeriodicFromIff(t, 1, 0);
    assert t[1] != t[1 % 1];
    assert !SomePeriodFrom(t, 1);
    ContributionByText(n, t);
  }

  lemma Number38593859(n: nat, t: string)
    requires n == 38593859 && t == "38593859"
    ensures Contribution(Halves, n) == n && Contribution(AnyBlock, n) == n
  {
    assert Decimal.AllDigits(t);
    assert Decimal.ValueFrom(t, 7, 3859385) == n;
    assert Decimal.ValueFrom(t, 6, 385938) == n;
    assert Decimal.ValueFrom(t, 5, 38593) == n;
    assert Decimal.ValueFrom(t, 4, 3859) == n;
    assert Decimal.ValueFrom(t, 3, 385) == n;
    assert Decimal.ValueFrom(t, 2, 38) == n;
    assert Decimal.ValueFrom(t, 1, 3) == n;
    assert Decimal.ValueFrom(t, 0, 0) == n;
    assert PeriodicFrom(t, 4, 8);
    assert PeriodicFrom(t, 4, 7);
    assert PeriodicFrom(t, 4, 6);
    assert PeriodicFrom(t, 4, 5);
    assert PeriodicFrom(t, 4, 4);
    assert PeriodicFrom(t, 4, 3);
    assert PeriodicFrom(t, 4, 2);
    assert PeriodicFrom(t, 4, 1);
    assert PeriodicFrom(t, 4, 0);
    assert SomePeriodFrom(t, 4);
    assert SomePeriodFrom(t, 3);
    assert SomePeriodFrom(t, 2);
    assert SomePeriodFrom(t, 1);
    ContributionByText(n, t);
  }

  lemma Number38593860(n: nat, t: string)
    requires n == 38593860 && t == "38593860"
    ensures Contribution(Halves, n) == 0 && Contribution(AnyBlock, n) == 0
  {
    assert Decimal.AllDigits(t);
    assert Decimal.ValueFrom(t, 7, 3859386) == n;
    assert Decimal.ValueFrom(t, 6, 385938) == n;
    assert Decimal.ValueFrom(t, 5, 38593) == n;
    assert Decimal.ValueFrom(t, 4, 3859) == n;
    assert Decimal.ValueFrom(t, 3, 385) == n;
    assert Decimal.ValueFrom(t, 2, 38) == n;
    assert Decimal.ValueFrom(t, 1, 3) == n;
    assert Decimal.ValueFrom(t, 0, 0) == n;
    PeriodicFromIff(t, 4, 0);
    assert t[6] != t[6 % 4];
    assert !SomePeriodFrom(t, 4);
    assert !SomePeriodFrom(t, 3);
    PeriodicFromIff(t, 2, 0);
    assert t[2] != t[2 % 2];
    assert !SomePeriodFrom(t, 2);
    PeriodicFromIff(t, 1, 0);
    assert t[1] != t[1 % 1];
    assert !SomePeriodFrom(t, 1);
    ContributionByText(n, t);
  }

  lemma Number38593861(n: nat, t: string)
    requires n == 38593861 && t == "38593861"
    ensures Contribution(Halves, n) == 0 && Contribution(AnyBlock, n) == 0
  {
    assert Decimal.AllDigits(t);
    assert Decimal.ValueFrom(t, 7, 3859386) == n;
    assert Decimal.ValueFrom(t, 6, 385938) == n;
    assert Decimal.ValueFrom(t, 5, 38593) == n;
    assert Decimal.ValueFrom(t, 4, 3859) == n;
    assert Decimal.ValueFrom(t, 3, 385) == n;
    assert Decimal.ValueFrom(t, 2, 38) == n;
    assert Decimal.ValueFrom(t, 1, 3) == n;
    assert Decimal.ValueFrom(t, 0, 0) == n;
    PeriodicFromIff(t, 4, 0);
    assert t[6] != t[6 % 4];
    assert !SomePeriodFrom(t, 4);
    assert !SomePeriodFrom(t, 3);
    PeriodicFromIff(t, 2, 0);
    assert t[2] != t[2 % 2];
    assert !SomePeriodFrom(t, 2);
    PeriodicFromIff(t, 1, 0);
    assert t[1] != t[1 % 1];
    assert !SomePeriodFrom(t, 1);
    ContributionByText(n, t);
  }

  lemma Number38593862(n: nat, t: string)
    requires n == 38593862 && t == "38593862"
    ensures Contribution(Halves, n) == 0 && Contribution(AnyBlock, n) == 0
  {
    assert Decimal.AllDigits(t);
    assert Decimal.ValueFrom(t, 7, 3859386) == n;
    assert Decimal.ValueFrom(t, 6, 385938) == n;
    assert Decimal.ValueFrom(t, 5, 38593) == n;
    assert Decimal.ValueFrom(t, 4, 3859) == n;
    assert Decimal.ValueFrom(t, 3, 385) == n;
    assert Decimal.ValueFrom(t, 2, 38) == n;
    assert Decimal.ValueFrom(t, 1, 3) == n;
    assert Decimal.ValueFrom(t, 0, 0) == n;
    PeriodicFromIff(t, 4, 0);
    assert t[6] != t[6 % 4];
    assert !SomePeriodFrom(t, 4);
    assert !SomePeriodFrom(t, 3);
    PeriodicFromIff(t, 2, 0);
    assert t[2] != t[2 % 2];
    assert !SomePeriodFrom(t, 2);
    PeriodicFromIff(t, 1, 0);
    assert t[1] != t[1 % 1];
    assert !SomePeriodFrom(t, 1);
    ContributionByText(n, t);
  }

  lemma Number565653(n: nat, t: string)
    requires n == 565653 && t == "565653"
    ensures Contribution(Halves, n) == 0 && Contribution(AnyBlock, n) == 0
  {
    assert Decimal.AllDigits(t);
    assert Decimal.ValueFrom(t, 5, 56565) == n;
    assert Decimal.ValueFrom(t, 4, 5656) == n;
    assert Decimal.ValueFrom(t, 3, 565) == n;
    assert Decimal.ValueFrom(t, 2, 56) == n;
    assert Decimal.ValueFrom(t, 1, 5) == n;
    assert Decimal.ValueFrom(t, 0, 0) == n;
    PeriodicFromIff(t, 3, 0);
    assert t[3] != t[3 % 3];
    assert !SomePeriodFrom(t, 3);
    PeriodicFromIff(t, 2, 0);
    assert t[5] != t[5 % 2];
    assert !SomePeriodFrom(t, 2);
    PeriodicFromIff(t, 1, 0);
    assert t[1] != t[1 % 1];
    assert !SomePeriodFrom(t, 1);
    ContributionByText(n, t);
  }

  lemma Number565654(n: nat, t: string)
    requires n == 565654 && t == "565654"
    ensures Contribution(Halves, n) == 0 && Contribution(AnyBlock, n) == 0
  {
    assert Decimal.AllDigits(t);
    assert Decimal.ValueFrom(t, 5, 56565) == n;
    assert Decimal.ValueFrom(t, 4, 5656) == n;
    assert Decimal.ValueFrom(t, 3, 565) == n;
    assert Decimal.ValueFrom(t, 2, 56) == n;
    assert Decimal.ValueFrom(t, 1, 5) == n;
    assert Decimal.ValueFrom(t, 0, 0) == n;
    PeriodicFromIff(t, 3, 0);
    assert t[3] != t[3 % 3];
    assert !SomePeriodFrom(t, 3);
    PeriodicFromIff(t, 2, 0);
    assert t[5] != t[5 % 2];
    assert !SomePeriodFrom(t, 2);
    PeriodicFromIff(t, 1, 0);
    assert t[1] != t[1 % 1];
    assert !SomePeriodFrom(t, 1);
    ContributionByText(n, t);
  }

  lemma Number565655(n: nat, t: string)
    requires n == 565655 && t == "565655"
    ensures Contribution(Halves, n) == 0 && Contribution(AnyBlock, n) == 0
  {
    assert Decimal.AllDigits(t);
    assert Decimal.ValueFrom(t, 5, 56565) == n;
    assert Decimal.ValueFrom(t, 4, 5656) == n;
    assert Decimal.ValueFrom(t, 3, 565) == n;
    assert Decimal.ValueFrom(t, 2, 56) == n;
    assert Decimal.ValueFrom(t, 1, 5) == n;
    assert Decimal.ValueFrom(t, 0, 0) == n;
    PeriodicFromIff(t, 3, 0);
    assert t[3] != t[3 % 3];
    assert !SomePeriodFrom(t, 3);
    PeriodicFromIff(t, 2, 0);
    assert t[5] != t[5 % 2];
    assert !SomePeriodFrom(t, 2);
    PeriodicFromIff(t, 1, 0);
    assert t[1] != t[1 % 1];
    assert !SomePeriodFrom(t, 1);
    ContributionByText(n, t);
  }

  lemma Number565656(n: nat, t: string)
    requires n == 565656 && t == "565656"
    ensures Contribution(Halves, n) == 0 && Contribution(AnyBlock, n) == n
  {
    assert Decimal.AllDigits(t);
    assert Decimal.ValueFrom(t, 5, 56565) == n;
    assert Decimal.ValueFrom(t, 4, 5656) == n;
    assert Decimal.ValueFrom(t, 3, 565) == n;
    assert Decimal.ValueFrom(t, 2, 56) == n;
    assert Decimal.ValueFrom(t, 1, 5) == n;
    assert Decimal.ValueFrom(t, 0, 0) == n;
    PeriodicFromIff(t, 3, 0);
    assert t[3] != t[3 % 3];
    assert !SomePeriodFrom(t, 3);
    assert PeriodicFrom(t, 2, 6);
    assert PeriodicFrom(t, 2, 5);
    assert PeriodicFrom(t, 2, 4);
    assert PeriodicFrom(t, 2, 3);
    assert PeriodicFrom(t, 2, 2);
    assert PeriodicFrom(t, 2, 1);
    assert PeriodicFrom(t, 2, 0);
    assert SomePeriodFrom(t, 2);
    assert SomePeriodFrom(t, 1);
    ContributionByText(n, t);
  }

  lemma Number565657(n: nat, t: string)
    requires n == 565657 && t == "565657"
    ensures Contribution(Halves, n) == 0 && Contribution(AnyBlock, n) == 0
  {
    assert Decimal.AllDigits(t);
    assert Decimal.ValueFrom(t, 5, 56565) == n;
    assert Decimal.ValueFrom(t, 4, 5656) == n;
    assert Decimal.ValueFrom(t, 3, 565) == n;
    assert Decimal.ValueFrom(t, 2, 56) == n;
    assert Decimal.ValueFrom(t, 1, 5) == n;
    assert Decimal.ValueFrom(t, 0, 0) == n;
    PeriodicFromIff(t, 3, 0);
    assert t[3] != t[3 % 3];
    assert !SomePeriodFrom(t, 3);
    PeriodicFromIff(t, 2, 0);
    assert t[5] != t[5 % 2];
    assert !SomePeriodFrom(t, 2);
    PeriodicFromIff(t, 1, 0);
    assert t[1] != t[1 % 1];
    assert !SomePeriodFrom(t, 1);
    ContributionByText(n, t);
  }

  lemma Number565658(n: nat, t: string)
    requires n == 565658 && t == "565658"
    ensures Contribution(Halves, n) == 0 && Contribution(AnyBlock, n) == 0
  {
    assert Decimal.AllDigits(t);
    assert Decimal.ValueFrom(t, 5, 56565) == n;
    assert Decimal.ValueFrom(t, 4, 5656) == n;
    assert Decimal.ValueFrom(t, 3, 565) == n;
    assert Decimal.ValueFrom(t, 2, 56) == n;
    assert Decimal.ValueFrom(t, 1, 5) == n;
    assert Decimal.ValueFrom(t, 0, 0) == n;
    PeriodicFromIff(t, 3, 0);
    assert t[3] != t[3 % 3];
    assert !SomePeriodFrom(t, 3);
    PeriodicFromIff(t, 2, 0);
    assert t[5] != t[5 % 2];
    assert !SomePeriodFrom(t, 2);
    PeriodicFromIff(t, 1, 0);
    assert t[1] != t[1 % 1];
    assert !SomePeriodFrom(t, 1);
    ContributionByText(n, t);
  }

  lemma Number565659(n: nat, t: string)
    requires n == 565659 && t == "565659"
    ensures Contribution(Halves, n) == 0 && Contribution(AnyBlock, n) == 0
  {
    assert Decimal.AllDigits(t);
    assert Decimal.ValueFrom(t, 5, 56565) == n;
    assert Decimal.ValueFrom(t, 4, 5656) == n;
    assert Decimal.ValueFrom(t, 3, 565) == n;
    assert Decimal.ValueFrom(t, 2, 56) == n;
    assert Decimal.ValueFrom(t, 1, 5) == n;
    assert Decimal.ValueFrom(t, 0, 0) == n;
    PeriodicFromIff(t, 3, 0);
    assert t[3] != t[3 % 3];
    assert !SomePeriodFrom(t, 3);
    PeriodicFromIff(t, 2, 0);
    assert t[5] != t[5 % 2];
    assert !SomePeriodFrom(t, 2);
    PeriodicFromIff(t, 1, 0);
    assert t[1] != t[1 % 1];
    assert !SomePeriodFrom(t, 1);
    ContributionByText(n, t);
  }

  lemma Number824824821(n: nat, t: string)
    requires n == 824824821 && t == "824824821"
    ensures Contribution(Halves, n) == 0 && Contribution(AnyBlock, n) == 0
  {
    assert Decimal.AllDigits(t);
    assert Decimal.ValueFrom(t, 8, 82482482) == n;
    assert Decimal.ValueFrom(t, 7, 8248248) == n;
    assert Decimal.ValueFrom(t, 6, 824824) == n;
    assert Decimal.ValueFrom(t, 5, 82482) == n;
    assert Decimal.ValueFrom(t, 4, 8248) == n;
    assert Decimal.ValueFrom(t, 3, 824) == n;
    assert Decimal.ValueFrom(t, 2, 82) == n;
    assert Decimal.ValueFrom(t, 1, 8) == n;
    assert Decimal.ValueFrom(t, 0, 0) == n;
    assert !SomePeriodFrom(t, 4);
    PeriodicFromIff(t, 3, 0);
    assert t[8] != t[8 % 3];
    assert !SomePeriodFrom(t, 3);
    assert !SomePeriodFrom(t, 2);
    PeriodicFromIff(t, 1, 0);
    assert t[1] != t[1 % 1];
    assert !SomePeriodFrom(t, 1);
    ContributionByText(n, t);
  }

  lemma Number824824822(n: nat, t: string)
    requires n == 824824822 && t == "824824822"
    ensures Contribution(Halves, n) == 0 && Contribution(AnyBlock, n) == 0
  {
    assert Decimal.AllDigits(t);
    assert Decimal.ValueFrom(t, 8, 82482482) == n;
    assert Decimal.ValueFrom(t, 7, 8248248) == n;
    assert Decimal.ValueFrom(t, 6, 824824) == n;
    assert Decimal.ValueFrom(t, 5, 82482) == n;
    assert Decimal.ValueFrom(t, 4, 8248) == n;
    assert Decimal.ValueFrom(t, 3, 824) == n;
    assert Decimal.ValueFrom(t, 2, 82) == n;
    assert Decimal.ValueFrom(t, 1, 8) == n;
    assert Decimal.ValueFrom(t, 0, 0) == n;
    assert !SomePeriodFrom(t, 4);
    PeriodicFromIff(t, 3, 0);
    assert t[8] != t[8 % 3];
    assert !SomePeriodFrom(t, 3);
    assert !SomePeriodFrom(t, 2);
    PeriodicFromIff(t, 1, 0);
    assert t[1] != t[1 % 1];
    assert !SomePeriodFrom(t, 1);
    ContributionByText(n, t);
  }

  lemma Number824824823(n: nat, t: string)
    requires n == 824824823 && t == "824824823"
    ensures Contribution(Halves, n) == 0 && Contribution(AnyBlock, n) == 0
  {
    assert Decimal.AllDigits(t);
    assert Decimal.ValueFrom(t, 8, 82482482) == n;
    assert Decimal.ValueFrom(t, 7, 8248248) == n;
    assert Decimal.ValueFrom(t, 6, 824824) == n;
    assert Decimal.ValueFrom(t, 5, 82482) == n;
    assert Decimal.ValueFrom(t, 4, 8248) == n;
    assert Decimal.ValueFrom(t, 3, 824) == n;
    assert Decimal.ValueFrom(t, 2, 82) == n;
    assert Decimal.ValueFrom(t, 1, 8) == n;
    assert Decimal.ValueFrom(t, 0, 0) == n;
    assert !SomePeriodFrom(t, 4);
    PeriodicFromIff(t, 3, 0);
    assert t[8] != t[8 % 3];
    assert !SomePeriodFrom(t, 3);
    assert !SomePeriodFrom(t, 2);
    PeriodicFromIff(t, 1, 0);
    assert t[1] != t[1 % 1];
    assert !SomePeriodFrom(t, 1);
    ContributionByText(n, t);
  }

  lemma Number824824824(n: nat, t: string)
    requires n == 824824824 && t == "824824824"
    ensures Contribution(Halves, n) == 0 && Contribution(AnyBlock, n) == n
  {
    assert Decimal.AllDigits(t);
    assert Decimal.ValueFrom(t, 8, 82482482) == n;
    assert Decimal.ValueFrom(t, 7, 8248248) == n;
    assert Decimal.ValueFrom(t, 6, 824824) == n;
    assert Decimal.ValueFrom(t, 5, 82482) == n;
    assert Decimal.ValueFrom(t, 4, 8248) == n;
    assert Decimal.ValueFrom(t, 3, 824) == n;
    assert Decimal.ValueFrom(t, 2, 82) == n;
    assert Decimal.ValueFrom(t, 1, 8) == n;
    assert Decimal.ValueFrom(t, 0, 0) == n;
    assert !SomePeriodFrom(t, 4);
    assert PeriodicFrom(t, 3, 9);
    assert PeriodicFrom(t, 3, 8);
    assert PeriodicFrom(t, 3, 7);
    assert PeriodicFrom(t, 3, 6);
    assert PeriodicFrom(t, 3, 5);
    assert PeriodicFrom(t, 3, 4);
    assert PeriodicFrom(t, 3, 3);
    assert PeriodicFrom(t, 3, 2);
    assert PeriodicFrom(t, 3, 1);
    assert PeriodicFrom(t, 3, 0);
    assert SomePeriodFrom(t, 3);
    assert SomePeriodFrom(t, 2);
    assert SomePeriodFrom(t, 1);
    ContributionByText(n, t);
  }

  lemma Number824824825(n: nat, t: string)
    requires n == 824824825 && t == "824824825"
    ensures Contribution(Halves, n) == 0 && Contribution(AnyBlock, n) == 0
  {
    assert Decimal.AllDigits(t);
    assert Decimal.ValueFrom(t, 8, 82482482) == n;
    assert Decimal.ValueFrom(t, 7, 8248248) == n;
    assert Decimal.ValueFrom(t, 6, 824824) == n;
    assert Decimal.ValueFrom(t, 5, 82482) == n;
    assert Decimal.ValueFrom(t, 4, 8248) == n;
    assert Decimal.ValueFrom(t, 3, 824) == n;
    assert Decimal.ValueFrom(t, 2, 82) == n;
    assert Decimal.ValueFrom(t, 1, 8) == n;
    assert Decimal.ValueFrom(t, 0, 0) == n;
    assert !SomePeriodFrom(t, 4);
    PeriodicFromIff(t, 3, 0);
    assert t[8] != t[8 % 3];
    assert !SomePeriodFrom(t, 3);
    assert !SomePeriodFrom(t, 2);
    PeriodicFromIff(t, 1, 0);
    assert t[1] != t[1 % 1];
    assert !SomePeriodFrom(t, 1);
    ContributionByText(n, t);
  }

  lemma Number824824826(n: nat, t: string)
    requires n == 824824826 && t == "824824826"
    ensures Contribution(Halves, n) == 0 && Contribution(AnyBlock, n) == 0
  {
    assert Decimal.AllDigits(t);
    assert Decimal.ValueFrom(t, 8, 82482482) == n;
    assert Decimal.ValueFrom(t, 7, 8248248) == n;
    assert Decimal.ValueFrom(t, 6, 824824) == n;
    assert Decimal.ValueFrom(t, 5, 82482) == n;
    assert Decimal.ValueFrom(t, 4, 8248) == n;
    assert Decimal.ValueFrom(t, 3, 824) == n;
    assert Decimal.ValueFrom(t, 2, 82) == n;
    assert Decimal.ValueFrom(t, 1, 8) == n;
    assert Decimal.ValueFrom(t, 0, 0) == n;
    assert !SomePeriodFrom(t, 4);
    PeriodicFromIff(t, 3, 0);
    assert t[8] != t[8 % 3];
    assert !SomePeriodFrom(t, 3);
    assert !SomePeriodFrom(t, 2);
    PeriodicFromIff(t, 1, 0);
    assert t[1] != t[1 % 1];
    assert !SomePeriodFrom(t, 1);
    ContributionByText(n, t);
  }

  lemma Number824824827(n: nat, t: string)
    requires n == 824824827 && t == "824824827"
    ensures Contribution(Halves, n) == 0 && Contribution(AnyBlock, n) == 0
  {
    assert Decimal.AllDigits(t);
    assert Decimal.ValueFrom(t, 8, 82482482) == n;
    assert Decimal.ValueFrom(t, 7, 8248248) == n;
    assert Decimal.ValueFrom(t, 6, 824824) == n;
    assert Decimal.ValueFrom(t, 5, 82482) == n;
    assert Decimal.ValueFrom(t, 4, 8248) == n;
    assert Decimal.ValueFrom(t, 3, 824) == n;
    assert Decimal.ValueFrom(t, 2, 82) == n;
    assert Decimal.ValueFrom(t, 1, 8) == n;
    assert Decimal.ValueFrom(t, 0, 0) == n;
    assert !SomePeriodFrom(t, 4);
    PeriodicFromIff(t, 3, 0);
    assert t[8] != t[8 % 3];
    assert !SomePeriodFrom(t, 3);
    assert !SomePeriodFrom(t, 2);
    PeriodicFromIff(t, 1, 0);
    assert t[1] != t[1 % 1];
    assert !SomePeriodFrom(t, 1);
    ContributionByText(n, t);
  }

  lemma Number2121212118(n: nat, t: string)
    requires n == 2121212118 && t == "2121212118"
    ensures Contribution(Halves, n) == 0 && Contribution(AnyBlock, n) == 0
  {
    assert Decimal.AllDigits(t);
    assert Decimal.ValueFrom(t, 9, 212121211) == n;
    assert Decimal.ValueFrom(t, 8, 21212121) == n;
    assert Decimal.ValueFrom(t, 7, 2121212) == n;
    assert Decimal.ValueFrom(t, 6, 212121) == n;
    assert Decimal.ValueFrom(t, 5, 21212) == n;
    assert Decimal.ValueFrom(t, 4, 2121) == n;
    assert Decimal.ValueFrom(t, 3, 212) == n;
    assert Decimal.ValueFrom(t, 2, 21) == n;
    assert Decimal.ValueFrom(t, 1, 2) == n;
    assert Decimal.ValueFrom(t, 0, 0) == n;
    PeriodicFromIff(t, 5, 0);
    assert t[5] != t[5 % 5];
    assert !SomePeriodFrom(t, 5);
    assert !SomePeriodFrom(t, 4);
    assert !SomePeriodFrom(t, 3);
    PeriodicFromIff(t, 2, 0);
    assert t[8] != t[8 % 2];
    assert !SomePeriodFrom(t, 2);
    PeriodicFromIff(t, 1, 0);
    assert t[1] != t[1 % 1];
    assert !SomePeriodFrom(t, 1);
    ContributionByText(n, t);
  }

  lemma Number2121212119(n: nat, t: string)
    requires n == 2121212119 && t == "2121212119"
    ensures Contribution(Halves, n) == 0 && Contribution(AnyBlock, n) == 0
  {
    assert Decimal.AllDigits(t);
    assert Decimal.ValueFrom(t, 9, 212121211) == n;
    assert Decimal.ValueFrom(t, 8, 21212121) == n;
    assert Decimal.ValueFrom(t, 7, 2121212) == n;
    assert Decimal.ValueFrom(t, 6, 212121) == n;
    assert Decimal.ValueFrom(t, 5, 21212) == n;
    assert Decimal.ValueFrom(t, 4, 2121) == n;
    assert Decimal.ValueFrom(t, 3, 212) == n;
    assert Decimal.ValueFrom(t, 2, 21) == n;
    assert Decimal.ValueFrom(t, 1, 2) == n;
    assert Decimal.ValueFrom(t, 0, 0) == n;
    PeriodicFromIff(t, 5, 0);
    assert t[5] != t[5 % 5];
    assert !SomePeriodFrom(t, 5);
    assert !SomePeriodFrom(t, 4);
    assert !SomePeriodFrom(t, 3);
    PeriodicFromIff(t, 2, 0);
    assert t[8] != t[8 % 2];
    assert !SomePeriodFrom(t, 2);
    PeriodicFromIff(t, 1, 0);
    assert t[1] != t[1 % 1];
    assert !SomePeriodFrom(t, 1);
    ContributionByText(n, t);
  }

  lemma Number2121212120(n: nat, t: string)
    requires n == 2121212120 && t == "2121212120"
    ensures Contribution(Halves, n) == 0 && Contribution(AnyBlock, n) == 0
  {
    assert Decimal.AllDigits(t);
    assert Decimal.ValueFrom(t, 9, 212121212) == n;
    assert Decimal.ValueFrom(t, 8, 21212121) == n;
    assert Decimal.ValueFrom(t, 7, 2121212) == n;
    assert Decimal.ValueFrom(t, 6, 212121) == n;
    assert Decimal.ValueFrom(t, 5, 21212) == n;
    assert Decimal.ValueFrom(t, 4, 2121) == n;
    assert Decimal.ValueFrom(t, 3, 212) == n;
    assert Decimal.ValueFrom(t, 2, 21) == n;
    assert Decimal.ValueFrom(t, 1, 2) == n;
    assert Decimal.ValueFrom(t, 0, 0) == n;
    PeriodicFromIff(t, 5, 0);
    assert t[5] != t[5 % 5];
    assert !SomePeriodFrom(t, 5);
    assert !SomePeriodFrom(t, 4);
    assert !SomePeriodFrom(t, 3);
    PeriodicFromIff(t, 2, 0);
    assert t[9] != t[9 % 2];
    assert !SomePeriodFrom(t, 2);
    PeriodicFromIff(t, 1, 0);
    assert t[1] != t[1 % 1];
    assert !SomePeriodFrom(t, 1);
    ContributionByText(n, t);
  }

  lemma Number2121212121(n: nat, t: string)
    requires n == 2121212121 && t == "2121212121"
    ensures Contribution(Halves, n) == 0 && Contribution(AnyBlock, n) == n
  {
    assert Decimal.AllDigits(t);
    assert Decimal.ValueFrom(t, 9, 212121212) == n;
    assert Decimal.ValueFrom(t, 8, 21212121) == n;
    assert Decimal.ValueFrom(t, 7, 2121212) == n;
    assert Decimal.ValueFrom(t, 6, 212121) == n;
    assert Decimal.ValueFrom(t, 5, 21212) == n;
    assert Decimal.ValueFrom(t, 4, 2121) == n;
    assert Decimal.ValueFrom(t, 3, 212) == n;
    assert Decimal.ValueFrom(t, 2, 21) == n;
    assert Decimal.ValueFrom(t, 1, 2) == n;
    assert Decimal.ValueFrom(t, 0, 0) == n;
    PeriodicFromIff(t, 5, 0);
    assert t[5] != t[5 % 5];
    assert !SomePeriodFrom(t, 5);
    assert !SomePeriodFrom(t, 4);
    assert !SomePeriodFrom(t, 3);
    assert PeriodicFrom(t, 2, 10);
    assert PeriodicFrom(t, 2, 9);
    assert PeriodicFrom(t, 2, 8);
    assert PeriodicFrom(t, 2, 7);
    assert PeriodicFrom(t, 2, 6);
    assert PeriodicFrom(t, 2, 5);
    assert PeriodicFrom(t, 2, 4);
    assert PeriodicFrom(t, 2, 3);
    assert PeriodicFrom(t, 2, 2);
    assert PeriodicFrom(t, 2, 1);
    assert PeriodicFrom(t, 2, 0);
    assert SomePeriodFrom(t, 2);
    assert SomePeriodFrom(t, 1);
    ContributionByText(n, t);
  }

  lemma Number2121212122(n: nat, t: string)
    requires n == 2121212122 && t == "2121212122"
    ensures Contribution(Halves, n) == 0 && Contribution(AnyBlock, n) == 0
  {
    assert Decimal.AllDigits(t);
    assert Decimal.ValueFrom(t, 9, 212121212) == n;
    assert Decimal.ValueFrom(t, 8, 21212121) == n;
    assert Decimal.ValueFrom(t, 7, 2121212) == n;
    assert Decimal.ValueFrom(t, 6, 212121) == n;
    assert Decimal.ValueFrom(t, 5, 21212) == n;
    assert Decimal.ValueFrom(t, 4, 2121) == n;
    assert Decimal.ValueFrom(t, 3, 212) == n;
    assert Decimal.ValueFrom(t, 2, 21) == n;
    assert Decimal.ValueFrom(t, 1, 2) == n;
    assert Decimal.ValueFrom(t, 0, 0) == n;
    PeriodicFromIff(t, 5, 0);
    assert t[5] != t[5 % 5];
    assert !SomePeriodFrom(t, 5);
    assert !SomePeriodFrom(t, 4);
    assert !SomePeriodFrom(t, 3);
    PeriodicFromIff(t, 2, 0);
    assert t[9] != t[9 % 2];
    assert !SomePeriodFrom(t, 2);
    PeriodicFromIff(t, 1, 0);
    assert t[1] != t[1 % 1];
    assert !SomePeriodFrom(t, 1);
    ContributionByText(n, t);
  }

  lemma Number2121212123(n: nat, t: string)
    requires n == 2121212123 && t == "2121212123"
    ensures Contribution(Halves, n) == 0 && Contribution(AnyBlock, n) == 0
  {
    assert Decimal.AllDigits(t);
    assert Decimal.ValueFrom(t, 9, 212121212) == n;
    assert Decimal.ValueFrom(t, 8, 21212121) == n;
    assert Decimal.ValueFrom(t, 7, 2121212) == n;
    assert Decimal.ValueFrom(t, 6, 212121) == n;
    assert Decimal.ValueFrom(t, 5, 21212) == n;
    assert Decimal.ValueFrom(t, 4, 2121) == n;
    assert Decimal.ValueFrom(t, 3, 212) == n;
    assert Decimal.ValueFrom(t, 2, 21) == n;
    assert Decimal.ValueFrom(t, 1, 2) == n;
    assert Decimal.ValueFrom(t, 0, 0) == n;
    PeriodicFromIff(t, 5, 0);
    assert t[5] != t[5 % 5];
    assert !SomePeriodFrom(t, 5);
    assert !SomePeriodFrom(t, 4);
    assert !SomePeriodFrom(t, 3);
    PeriodicFromIff(t, 2, 0);
    assert t[9] != t[9 % 2];
    assert !SomePeriodFrom(t, 2);
    PeriodicFromIff(t, 1, 0);
    assert t[1] != t[1 % 1];
    assert !SomePeriodFrom(t, 1);
    ContributionByText(n, t);
  }

  lemma Number2121212124(n: nat, t: string)
    requires n == 2121212124 && t == "2121212124"
    ensures Contribution(Halves, n) == 0 && Contribution(AnyBlock, n) == 0
  {
    assert Decimal.AllDigits(t);
    assert Decimal.ValueFrom(t, 9, 212121212) == n;
    assert Decimal.ValueFrom(t, 8, 21212121) == n;
    assert Decimal.ValueFrom(t, 7, 2121212) == n;
    assert Decimal.ValueFrom(t, 6, 212121) == n;
    assert Decimal.ValueFrom(t, 5, 21212) == n;
    assert Decimal.ValueFrom(t, 4, 2121) == n;
    assert Decimal.ValueFrom(t, 3, 212) == n;
    assert Decimal.ValueFrom(t, 2, 21) == n;
    assert Decimal.ValueFrom(t, 1, 2) == n;
    assert Decimal.ValueFrom(t, 0, 0) == n;
    PeriodicFromIff(t, 5, 0);
    assert t[5] != t[5 % 5];
    assert !SomePeriodFrom(t, 5);
    assert !SomePeriodFrom(t, 4);
    assert !SomePeriodFrom(t, 3);
    PeriodicFromIff(t, 2, 0);
    assert t[9] != t[9 % 2];
    assert !SomePeriodFrom(t, 2);
    PeriodicFromIff(t, 1, 0);
    assert t[1] != t[1 % 1];
    assert !SomePeriodFrom(t, 1);
    ContributionByText(n, t);
  }

  /** Both sums over `rs` so far. */
  predicate Totals(rs: seq<IdRange>, halves: nat, anyBlock: nat) {
    TotalSum(Halves, rs) == halves && TotalSum(AnyBlock, rs) == anyBlock
  }

  /** One range more adds its own sums. */
  lemma TotalsStep(rs: seq<IdRange>, r: IdRange, h: nat, a: nat, rh: nat, ra: nat)
    requires Totals(rs, h, a)
    requires RangeSum(Halves, r) == rh && RangeSum(AnyBlock, r) == ra
    ensures Totals(rs + [r], h + rh, a + ra)
  {
    TotalSumAppend(Halves, rs, r);
    TotalSumAppend(AnyBlock, rs, r);
  }

  lemma ExampleRangeSum1(r: IdRange)
    requires r.start == 11 && r.stop == 22
    ensures RangeSum(Halves, r) == 33 && RangeSum(AnyBlock, r) == 33
  {
    Ids11To22(r.start, r.stop + 1);
  }

  lemma ExampleRangeSum2(r: IdRange)
    requires r.start == 95 && r.stop == 115
    ensures RangeSum(Halves, r) == 99 && RangeSum(AnyBlock, r) == 210
  {
    Ids95To115(r.start, r.stop + 1);
  }

  lemma ExampleRangeSum3(r: IdRange)
    requires r.start == 998 && r.stop == 1012
    ensures RangeSum(Halves, r) == 1010 && RangeSum(AnyBlock, r) == 2009
  {
    Ids998To1012(r.start, r.stop + 1);
  }

  lemma ExampleRangeSum4(r: IdRange)
    requires r.start == 1188511880 && r.stop == 1188511890
    ensures RangeSum(Halves, r) == 1188511885 && RangeSum(AnyBlock, r) == 1188511885
  {
    Ids1188511880To1188511890(r.start, r.stop + 1);
  }

  lemma ExampleRangeSum5(r: IdRange)
    requires r.start == 222220 && r.stop == 222224
    ensures RangeSum(Halves, r) == 222222 && RangeSum(AnyBlock, r) == 222222
  {
    Ids222220To222224(r.start, r.stop + 1);
  }

  lemma ExampleRangeSum6(r: IdRange)
    requires r.start == 1698522 && r.stop == 1698528
    ensures RangeSum(Halves, r) == 0 && RangeSum(AnyBlock, r) == 0
  {
    Ids1698522To1698528(r.start, r.stop + 1);
  }

  lemma ExampleRangeSum7(r: IdRange)
    requires r.start == 446443 && r.stop == 446449
    ensures RangeSum(Halves, r) == 446446 && RangeSum(AnyBlock, r) == 446446
  {
    Ids446443To446449(r.start, r.stop + 1);
  }

  lemma ExampleRangeSum8(r: IdRange)
    requires r.start == 38593856 && r.stop == 38593862
    ensures RangeSum(Halves, r) == 38593859 && RangeSum(AnyBlock, r) == 38593859
  {
    Ids38593856To38593862(r.start, r.stop + 1);
  }

  lemma ExampleRangeSum9(r: IdRange)
    requires r.start == 565653 && r.stop == 565659
    ensures RangeSum(Halves, r) == 0 && RangeSum(AnyBlock, r) == 565656
  {
    Ids565653To565659(r.start, r.stop + 1);
  }

  lemma ExampleRangeSum10(r: IdRange)
    requires r.start == 824824821 && r.stop == 824824827
    ensures RangeSum(Halves, r) == 0 && RangeSum(AnyBlock, r) == 824824824
  {
    Ids824824821To824824827(r.start, r.stop + 1);
  }

  lemma ExampleRangeSum11(r: IdRange)
    requires r.start == 2121212118 && r.stop == 2121212124
    ensures RangeSum(Halves, r) == 0 && RangeSum(AnyBlock, r) == 2121212121
  {
    Ids2121212118To2121212124(r.start, r.stop + 1);
  }

  /** Ranges 1 to 6 of the example, appended one at a time. */
  lemma ExampleFirstTotals(rs: seq<IdRange>, r1: IdRange, r2: IdRange, r3: IdRange, r4: IdRange, r5: IdRange, r6: IdRange)
    requires Totals(rs, 0, 0)
    requires RangeSum(Halves, r1) == 33 && RangeSum(AnyBlock, r1) == 33
    requires RangeSum(Halves, r2) == 99 && RangeSum(AnyBlock, r2) == 210
    requires RangeSum(Halves, r3) == 1010 && RangeSum(AnyBlock, r3) == 2009
    requires RangeSum(Halves, r4) == 1188511885 && RangeSum(AnyBlock, r4) == 1188511885
    requires RangeSum(Halves, r5) == 222222 && RangeSum(AnyBlock, r5) == 222222
    requires RangeSum(Halves, r6) == 0 && RangeSum(AnyBlock, r6) == 0
    ensures Totals(rs + [r1] + [r2] + [r3] + [r4] + [r5] + [r6], 1188735249, 1188736359)
  {
    TotalsStep(rs, r1, 0, 0, 33, 33);
    TotalsStep(rs + [r1], r2, 33, 33, 99, 210);
    TotalsStep(rs + [r1] + [r2], r3, 132, 243, 1010, 2009);
    TotalsStep(rs + [r1] + [r2] + [r3], r4, 1142, 2252, 1188511885, 1188511885);
    TotalsStep(rs + [r1] + [r2] + [r3] + [r4], r5, 1188513027, 1188514137, 222222, 222222);
    TotalsStep(rs + [r1] + [r2] + [r3] + [r4] + [r5], r6, 1188735249, 1188736359, 0, 0);
  }

  /** Ranges 7 to 11 of the example, appended one at a time. */
  lemma ExampleLastTotals(rs: seq<IdRange>, r7: IdRange, r8: IdRange, r9: IdRange, r10: IdRange, r11: IdRange)
    requires Totals(rs, 1188735249, 1188736359)
    requires RangeSum(Halves, r7) == 446446 && RangeSum(AnyBlock, r7) == 446446
    requires RangeSum(Halves, r8) == 38593859 && RangeSum(AnyBlock, r8) == 38593859
    requires RangeSum(Halves, r9) == 0 && RangeSum(AnyBlock, r9) == 565656
    requires RangeSum(Halves, r10) == 0 && RangeSum(AnyBlock, r10) == 824824824
    requires RangeSum(Halves, r11) == 0 && RangeSum(AnyBlock, r11) == 2121212121
    ensures Totals(rs + [r7] + [r8] + [r9] + [r10] + [r11], 1227775554, 4174379265)
  {
    TotalsStep(rs, r7, 1188735249, 1188736359, 446446, 446446);
    TotalsStep(rs + [r7], r8, 1189181695, 1189182805, 38593859, 38593859);
    TotalsStep(rs + [r7] + [r8], r9, 1227775554, 1227776664, 0, 565656);
    TotalsStep(rs + [r7] + [r8] + [r9], r10, 1227775554, 1228342320, 0, 824824824);
    TotalsStep(rs + [r7] + [r8] + [r9] + [r10], r11, 1227775554, 2053167144, 0, 2121212121);
  }

  /** Eleven ranges appended one by one make up the list. */
  lemma ExampleRangesAppended(e: seq<IdRange>)
    requires |e| == 11
    ensures [] + [e[0]] + [e[1]] + [e[2]] + [e[3]] + [e[4]] + [e[5]] + [e[6]] + [e[7]] + [e[8]] + [e[9]] + [e[10]] == e
  {
  }

  /** The first six ranges of such a list, with their sums. */
  lemma ExampleFirstSums(rs: seq<IdRange>, e: seq<IdRange>)
    requires ExampleBounds(e) && Totals(rs, 0, 0)
    ensures Totals(rs + [e[0]] + [e[1]] + [e[2]] + [e[3]] + [e[4]] + [e[5]], 1188735249, 1188736359)
  {
    ExampleRangeSum1(e[0]);
    ExampleRangeSum2(e[1]);
    ExampleRangeSum3(e[2]);
    ExampleRangeSum4(e[3]);
    ExampleRangeSum5(e[4]);
    ExampleRangeSum6(e[5]);
    ExampleFirstTotals(rs, e[0], e[1], e[2], e[3], e[4], e[5]);
  }

  /** The last five ranges of such a list, with their sums. */
  lemma ExampleLastSums(rs: seq<IdRange>, e: seq<IdRange>)
    requires ExampleBounds(e) && Totals(rs, 1188735249, 1188736359)
    ensures Totals(rs + [e[6]] + [e[7]] + [e[8]] + [e[9]] + [e[10]], 1227775554, 4174379265)
  {
    ExampleRangeSum7(e[6]);
    ExampleRangeSum8(e[7]);
    ExampleRangeSum9(e[8]);
    ExampleRangeSum10(e[9]);
    ExampleRangeSum11(e[10]);
    ExampleLastTotals(rs, e[6], e[7], e[8], e[9], e[10]);
  }

  /** Any such list totals 1227775554 under part 1's test and 4174379265 under part 2's. */
  lemma ExampleSums(e: seq<IdRange>)
    requires ExampleBounds(e)
    ensures TotalSum(Halves, e) == 1227775554 && TotalSum(AnyBlock, e) == 4174379265
  {
    var none: seq<IdRange> := [];
    ExampleFirstSums(none, e);
    ExampleLastSums(none + [e[0]] + [e[1]] + [e[2]] + [e[3]] + [e[4]] + [e[5]], e);
    ExampleRangesAppended(e);
  }

  /** The example ranges total 1227775554 under part 1's test and 4174379265 under part 2's. */
  lemma ExampleTotals(e: seq<IdRange>)
    requires e == ExampleRanges
    ensures TotalSum(Halves, e) == 1227775554 && TotalSum(AnyBlock, e) == 4174379265
  {
    ExampleSums(e);
  }

  /** Part 1 answers 1227775554 and part 2 answers 4174379265 on the example input. */
  lemma ExampleAnswers()
    ensures Answer(Halves, ExampleInput) == Ok(1227775554)
    ensures Answer(AnyBlock, ExampleInput) == Ok(4174379265)
  {
    ExampleExtracted();
    ExampleTotals(ExampleRanges);
  }
}
