/** Day 2 answers: the sum of every invalid id in every listed range, where
    part 1 (day-02/src/part1.rs:20-65) calls an id invalid when its digits
    are one block written twice and part 2 (day-02/src/part2.rs:23-61) when
    they are one block written two or more times. Ranges are enumerated
    number by number, as the code does; sums are unbounded. */
module IdSums {
  import opened Results
  import Decimal
  import opened IdRanges
  import opened RepeatedIds

  /** Which test decides that an id is invalid. */
  datatype Rule = Halves | AnyBlock

  /** The test of `rule` on the decimal text of `n`. An invalid id has two
      or more digits, and one part 1 rejects has an even number of digits
      and is rejected by part 2 as well. */
  predicate Invalid(rule: Rule, n: nat): (b: bool)
    ensures b ==> n >= 10
    ensures b && rule == Halves ==>
              |Decimal.ToDecimal(n)| % 2 == 0 && IsRepeatedBlock(Decimal.ToDecimal(n))
  {
    var s := Decimal.ToDecimal(n);
    if |s| == 1 then
      SingleDigitNeverRepeated(s);
      false
    else
      match rule
      case Halves =>
        if IsDoubledBlock(s) then
          DoubledIsRepeated(s);
          true
        else false
      case AnyBlock => IsRepeatedBlock(s)
  }

  /** What `n` adds to the sum: itself when invalid, else nothing. */
  function Contribution(rule: Rule, n: nat): nat {
    if Invalid(rule, n) then n else 0
  }

  /** The sum of the contributions of `lo .. hi - 1`. */
  function SumBetween(rule: Rule, lo: nat, hi: nat): nat
    decreases hi
  {
    if hi <= lo then 0 else SumBetween(rule, lo, hi - 1) + Contribution(rule, hi - 1)
  }

  /** The sum over `start..=stop`. */
  function RangeSum(rule: Rule, r: IdRange): nat {
    SumBetween(rule, r.start, r.stop + 1)
  }

  /** Ranges are summed one after another, each on its own. */
  function TotalSum(rule: Rule, rs: seq<IdRange>): nat
    decreases |rs|
  {
    if |rs| == 0 then 0 else TotalSum(rule, rs[..|rs| - 1]) + RangeSum(rule, rs[|rs| - 1])
  }

  /** The answer of `process`: the error of the first bad token, or the total. */
  function Answer(rule: Rule, input: string): Result<nat, RangeError> {
    match ExtractRanges(input)
    case Failure(e) => Failure(e)
    case Ok(rs) => Ok(TotalSum(rule, rs))
  }

  /** A sum over consecutive numbers splits at any point in between. */
  lemma {:induction false} SumBetweenSplit(rule: Rule, lo: nat, mid: nat, hi: nat)
    requires lo <= mid <= hi
    ensures SumBetween(rule, lo, hi) == SumBetween(rule, lo, mid) + SumBetween(rule, mid, hi)
    decreases hi
  {
    if hi > mid {
      SumBetweenSplit(rule, lo, mid, hi - 1);
    }
  }

  /** A range whose start is past its stop adds nothing; a one-number range
      adds that number exactly when it is invalid. */
  lemma RangeSumSmall(rule: Rule, r: IdRange)
    ensures r.start > r.stop ==> RangeSum(rule, r) == 0
    ensures r.start == r.stop ==> RangeSum(rule, r) == (if Invalid(rule, r.start) then r.start else 0)
  {
    if r.start == r.stop {
      assert SumBetween(rule, r.start, r.start) == 0;
    }
  }

  /** Single-digit numbers are never added, under either rule. */
  lemma {:induction false} SingleDigitsAddNothing(rule: Rule, lo: nat, hi: nat)
    requires hi <= 10
    ensures SumBetween(rule, lo, hi) == 0
    decreases hi
  {
    if hi > lo {
      SingleDigitsAddNothing(rule, lo, hi - 1);
      SingleDigitNeverRepeated(Decimal.ToDecimal(hi - 1));
    }
  }

  /** Part 1 skips ids with an odd number of digits: they add nothing. */
  lemma OddLengthAddsNothing(n: nat)
    requires |Decimal.ToDecimal(n)| % 2 == 1
    ensures Contribution(Halves, n) == 0
  {
  }

  /** Part 1's sum never exceeds part 2's: every doubled block is a
      repeated block. */
  lemma {:induction false} HalvesAtMostAnyBlock(lo: nat, hi: nat)
    ensures SumBetween(Halves, lo, hi) <= SumBetween(AnyBlock, lo, hi)
    decreases hi
  {
    if hi > lo {
      HalvesAtMostAnyBlock(lo, hi - 1);
      if Invalid(Halves, hi - 1) {
        DoubledIsRepeated(Decimal.ToDecimal(hi - 1));
      }
    }
  }

  /** The totals keep that order. */
  lemma {:induction false} TotalHalvesAtMostAnyBlock(rs: seq<IdRange>)
    ensures TotalSum(Halves, rs) <= TotalSum(AnyBlock, rs)
    decreases |rs|
  {
    if |rs| > 0 {
      TotalHalvesAtMostAnyBlock(rs[..|rs| - 1]);
      HalvesAtMostAnyBlock(rs[|rs| - 1].start, rs[|rs| - 1].stop + 1);
    }
  }

  /** Lists of ranges add up independently, so an id in two overlapping
      ranges is counted twice. */
  lemma {:induction false} TotalSumConcat(rule: Rule, a: seq<IdRange>, b: seq<IdRange>)
    ensures TotalSum(rule, a + b) == TotalSum(rule, a) + TotalSum(rule, b)
    decreases |b|
  {
    if |b| > 0 {
      var b' := b[..|b| - 1];
      assert (a + b)[..|a + b| - 1] == a + b';
      TotalSumConcat(rule, a, b');
    } else {
      assert a + b == a;
    }
  }

  /** One more range adds its own sum. */
  lemma TotalSumAppend(rule: Rule, rs: seq<IdRange>, r: IdRange)
    ensures TotalSum(rule, rs + [r]) == TotalSum(rule, rs) + RangeSum(rule, r)
  {
    assert (rs + [r])[..|rs|] == rs;
  }

  /** Extending a sum by one number adds that number exactly when it is
      invalid. */
  lemma SumBetweenNext(rule: Rule, lo: nat, hi: nat, invalid: bool)
    requires lo <= hi && (invalid <==> Invalid(rule, hi))
    ensures SumBetween(rule, lo, hi + 1) == SumBetween(rule, lo, hi) + if invalid then hi else 0
  {
  }

  /** One number's test: its decimal text checked by part 1's halves
      comparison or part 2's block search. */
  method TestId(rule: Rule, number: nat) returns (invalid: bool)
    ensures invalid <==> Invalid(rule, number)
  {
    var s := Decimal.ToDecimal(number);
    match rule {
      case Halves => invalid := HalvesMatch(s);
      case AnyBlock => invalid := HasRepeatedBlock(s);
    }
  }

  /** The inner loop of both parts: every number of `start..=stop`, its
      decimal text judged by `rule` and added when invalid. */
  method SumRange(rule: Rule, start: nat, stop: nat) returns (sum: nat)
    ensures sum == RangeSum(rule, IdRange(start, stop))
  {
    sum := 0;
    var number := start;
    while number <= stop
      invariant start <= number <= if start <= stop then stop + 1 else start
      invariant sum == SumBetween(rule, start, number)
    {
      var invalid := TestId(rule, number);
      SumBetweenNext(rule, start, number, invalid);
      sum := sum + if invalid then number else 0;
      number := number + 1;
    }
  }

  /** Part 1's token loop: each token is parsed and its range summed before
      the next token is read, so a bad token fails the whole list even
      after earlier ranges were added. */
  method SumTokens(rule: Rule, tokens: seq<string>) returns (r: Result<nat, RangeError>)
    ensures ParseRanges(tokens).Failure? ==> r == Failure(ParseRanges(tokens).error)
    ensures ParseRanges(tokens).Ok? ==> r == Ok(TotalSum(rule, ParseRanges(tokens).value))
  {
    var sum := 0;
    ghost var rs: seq<IdRange> := [];
    var i := 0;
    while i < |tokens|
      invariant i <= |tokens|
      invariant ParseRanges(tokens[..i]) == Ok(rs)
      invariant sum == TotalSum(rule, rs)
    {
      var parsed := ParseRange(tokens[i]);
      if parsed.Failure? {
        CollectMapFailsAt(ParseRange, tokens, i, rs);
        return Failure(parsed.error);
      }
      var rangeSum := SumRange(rule, parsed.value.start, parsed.value.stop);
      CollectMapAppend(ParseRange, tokens, i, rs);
      TotalSumAppend(rule, rs, parsed.value);
      sum := sum + rangeSum;
      rs := rs + [parsed.value];
      i := i + 1;
    }
    assert tokens[..i] == tokens;
    r := Ok(sum);
  }

  /** Part 1's `process` on the comma-separated tokens of the input. */
  method ProcessHalves(input: string) returns (r: Result<nat, RangeError>)
    ensures r == Answer(Halves, input)
  {
    r := SumTokens(Halves, Tokens(input));
  }

  /** Part 2's summing loop over the extracted ranges. */
  method SumRanges(rule: Rule, ranges: seq<IdRange>) returns (sum: nat)
    ensures sum == TotalSum(rule, ranges)
  {
    sum := 0;
    var i := 0;
    while i < |ranges|
      invariant i <= |ranges|
      invariant sum == TotalSum(rule, ranges[..i])
    {
      var rangeSum := SumRange(rule, ranges[i].start, ranges[i].stop);
      assert ranges[..i + 1] == ranges[..i] + [ranges[i]];
      TotalSumAppend(rule, ranges[..i], ranges[i]);
      sum := sum + rangeSum;
      i := i + 1;
    }
    assert ranges[..i] == ranges;
  }

  /** Part 2's `process`: all ranges are extracted first, then summed. */
  method ProcessAnyBlock(input: string) returns (r: Result<nat, RangeError>)
    ensures r == Answer(AnyBlock, input)
  {
    var extracted := ExtractRanges(input);
    if extracted.Failure? {
      return Failure(extracted.error);
    }
    var sum := SumRanges(AnyBlock, extracted.value);
    r := Ok(sum);
  }
}
