/** Day 3, part 1 (day-03/src/part1.rs): every input line is a bank of
    batteries, one decimal digit each. A bank's peak joltage is found as the
    code finds it: the leftmost highest battery short of the last position
    gives the tens digit, the highest battery after it the units digit. The
    answer is the sum of the peaks. Every line is parsed before any peak is
    computed, so a bad character anywhere wins over a bank that is too small. */
module Joltage {
  import opened Results
  import Text
  import Decimal

  /** One battery, rated by a single decimal digit. */
  datatype Battery = Battery(joltage: nat)

  /** One line of batteries, in order. */
  datatype Bank = Bank(batteries: seq<Battery>)

  /** The two ways `process` fails. */
  datatype JoltageError =
    | InvalidJoltage(c: char)   // a character that is not a decimal digit
    | NoLeftPeak                // a bank of fewer than two batteries

  /** Every battery holds a single digit. */
  predicate DigitBatteries(bs: seq<Battery>) {
    forall i :: 0 <= i < |bs| ==> bs[i].joltage < 10
  }

  /** `char::to_digit(10)` on one character of a line. */
  function ParseBattery(c: char): (r: Result<Battery, JoltageError>)
    ensures r.Ok? <==> Decimal.IsDigit(c)
    ensures r.Ok? ==> r.value.joltage < 10 && Decimal.DigitChar(r.value.joltage) == c
    ensures r.Failure? ==> r.error == InvalidJoltage(c)
  {
    if Decimal.IsDigit(c) then Ok(Battery(Decimal.DigitValue(c))) else Failure(InvalidJoltage(c))
  }

  /** Characters read one by one as batteries; the first character that is
      no digit is the error. */
  function ReadBatteries(t: string): Result<seq<Battery>, JoltageError> {
    Collect(Map(ParseBattery, t))
  }

  /** Text is read exactly when it is all digits, and then gives one digit
      battery per character, in order. */
  lemma ReadBatteriesSpec(t: string)
    ensures ReadBatteries(t).Ok? <==> Decimal.AllDigits(t)
    ensures ReadBatteries(t).Ok? ==>
              var bs := ReadBatteries(t).value;
              |bs| == |t| && DigitBatteries(bs)
              && forall i :: 0 <= i < |t| ==> Decimal.IsDigit(t[i]) && bs[i].joltage == Decimal.DigitValue(t[i])
  {
    var each := Map(ParseBattery, t);
    MapSpec(ParseBattery, t);
    CollectSpec(each);
    forall i | 0 <= i < |t|
      ensures each[i].Ok? <==> Decimal.IsDigit(t[i])
      ensures each[i].Ok? ==> each[i].value.joltage == Decimal.DigitValue(t[i])
    {
      assert each[i] == ParseBattery(t[i]);
    }
  }

  /** Otherwise the error names the first character that is no digit. */
  lemma ReadBatteriesError(t: string)
    requires ReadBatteries(t).Failure?
    ensures exists i :: 0 <= i < |t| && !Decimal.IsDigit(t[i]) && Decimal.AllDigits(t[..i])
                        && ReadBatteries(t).error == InvalidJoltage(t[i])
  {
    var each := Map(ParseBattery, t);
    MapSpec(ParseBattery, t);
    CollectSpec(each);
    var e := ReadBatteries(t).error;
    var i :| 0 <= i < |each| && each[i] == Failure(e) && forall j :: 0 <= j < i ==> each[j].Ok?;
    assert each[i] == ParseBattery(t[i]);
    forall j | 0 <= j < i
      ensures Decimal.IsDigit(t[..i][j])
    {
      assert each[j] == ParseBattery(t[j]);
    }
  }

  /** One line of the input: trimmed, then read as batteries. */
  function ParseBank(line: string): Result<Bank, JoltageError> {
    match ReadBatteries(Text.Trim(line))
    case Failure(e) => Failure(e)
    case Ok(bs) => Ok(Bank(bs))
  }

  /** Index of the leftmost highest battery of a nonempty run. */
  function LeftmostMax(bs: seq<Battery>): (p: nat)
    requires |bs| >= 1
    ensures p < |bs|
    ensures forall i :: 0 <= i < |bs| ==> bs[i].joltage <= bs[p].joltage
    ensures forall i :: 0 <= i < p ==> bs[i].joltage < bs[p].joltage
    decreases |bs|
  {
    if |bs| == 1 then 0
    else
      var init := bs[..|bs| - 1];
      var p := LeftmostMax(init);
      assert forall i :: 0 <= i < |init| ==> init[i] == bs[i];
      if bs[|bs| - 1].joltage > bs[p].joltage then |bs| - 1 else p
  }

  /** The highest joltage of a nonempty run. */
  function MaxJoltage(bs: seq<Battery>): nat
    requires |bs| >= 1
  {
    bs[LeftmostMax(bs)].joltage
  }

  /** `usize::saturating_sub(1)` on a bank's length: where the search for
      the tens digit stops. */
  function SearchEnd(bs: seq<Battery>): nat {
    if |bs| == 0 then 0 else |bs| - 1
  }

  /** A bank's peak joltage as the code computes it. A bank of fewer than two
      batteries leaves nothing to search on the left; otherwise the peak is
      the number two of its batteries make, read in bank order. */
  function Peak(bank: Bank): (r: Result<nat, JoltageError>)
    ensures r.Failure? <==> |bank.batteries| < 2
    ensures r.Failure? ==> r.error == NoLeftPeak
    ensures r.Ok? ==> IsPairValue(bank.batteries, r.value)
  {
    var bs := bank.batteries;
    if SearchEnd(bs) == 0 then Failure(NoLeftPeak)
    else
      var p := LeftmostMax(bs[..SearchEnd(bs)]);
      var right := bs[p + 1..];
      var q := LeftmostMax(right);
      assert right[q] == bs[p + 1 + q];
      assert 10 * bs[p].joltage + MaxJoltage(right) == PairValue(bs, p, p + 1 + q);
      Ok(10 * bs[p].joltage + MaxJoltage(bs[p + 1..]))
  }

  /** The two-digit number batteries `i < j` make, read left to right. */
  function PairValue(bs: seq<Battery>, i: nat, j: nat): nat
    requires i < j < |bs|
  {
    10 * bs[i].joltage + bs[j].joltage
  }

  /** `v` is a number two batteries of `bs` make, in order. */
  predicate IsPairValue(bs: seq<Battery>, v: nat) {
    exists i, j :: 0 <= i < j < |bs| && v == PairValue(bs, i, j)
  }

  /** `v` is the largest number two batteries of `bs` make, in order. */
  predicate IsBestPair(bs: seq<Battery>, v: nat) {
    IsPairValue(bs, v) && forall i, j :: 0 <= i < j < |bs| ==> PairValue(bs, i, j) <= v
  }

  /** The greedy peak is the best pair: no two batteries in order make a
      larger number. It fails exactly for banks of fewer than two batteries,
      and a peak of digits stays below 100. */
  lemma PeakIsBestPair(bank: Bank)
    requires DigitBatteries(bank.batteries)
    ensures Peak(bank).Failure? <==> |bank.batteries| < 2
    ensures Peak(bank).Failure? ==> Peak(bank).error == NoLeftPeak
    ensures Peak(bank).Ok? ==> IsBestPair(bank.batteries, Peak(bank).value) && Peak(bank).value < 100
  {
    var bs := bank.batteries;
    if |bs| >= 2 {
      var left := bs[..|bs| - 1];
      var p := LeftmostMax(left);
      var right := bs[p + 1..];
      var q := LeftmostMax(right);
      var l, r := bs[p].joltage, right[q].joltage;
      var v := Peak(bank).value;
      assert v == 10 * l + r;
      assert right[q] == bs[p + 1 + q];
      assert v == PairValue(bs, p, p + 1 + q);
      forall i, j | 0 <= i < j < |bs|
        ensures PairValue(bs, i, j) <= v
      {
        assert left[i] == bs[i];
        if bs[i].joltage == l {
          assert p <= i;
          assert right[j - p - 1] == bs[j];
        }
      }
    }
  }

  /** The best pair is one number: two values that both qualify are equal. */
  lemma BestPairUnique(bs: seq<Battery>, v: nat, w: nat)
    requires IsBestPair(bs, v) && IsBestPair(bs, w)
    ensures v == w
  {
    var i, j :| 0 <= i < j < |bs| && v == PairValue(bs, i, j);
    var k, m :| 0 <= k < m < |bs| && w == PairValue(bs, k, m);
  }

  /** Any position holding a highest joltage with only lower ones before
      it is the leftmost maximum. */
  lemma LeftmostMaxUnique(bs: seq<Battery>, p: nat)
    requires p < |bs|
    requires forall i :: 0 <= i < |bs| ==> bs[i].joltage <= bs[p].joltage
    requires forall i :: 0 <= i < p ==> bs[i].joltage < bs[p].joltage
    ensures p == LeftmostMax(bs)
  {
    var q := LeftmostMax(bs);
    assert bs[p].joltage == bs[q].joltage;
  }

  /** A joltage some battery holds and none exceeds is the highest. */
  lemma MaxJoltageUnique(bs: seq<Battery>, m: nat)
    requires exists k :: 0 <= k < |bs| && bs[k].joltage == m
    requires forall k :: 0 <= k < |bs| ==> bs[k].joltage <= m
    ensures |bs| >= 1 && m == MaxJoltage(bs)
  {
    var k :| 0 <= k < |bs| && bs[k].joltage == m;
    var q := LeftmostMax(bs);
    assert bs[k].joltage <= bs[q].joltage;
  }

  /** The peak of a bank of two or more, from its two searches. */
  lemma PeakFrom(bank: Bank, p: nat, l: nat, m: nat)
    requires |bank.batteries| >= 2
    requires p == LeftmostMax(bank.batteries[..|bank.batteries| - 1])
    requires l == bank.batteries[p].joltage && m == MaxJoltage(bank.batteries[p + 1..])
    ensures Peak(bank) == Ok(l * 10 + m)
  {
  }

  /** The search for the tens digit: `max_by_key` with the key
      `(joltage, Reverse(i))` keeps the first of equal maxima, so a later
      battery replaces the candidate only when it is strictly higher. */
  method FindLeftPeak(bs: seq<Battery>) returns (peakPos: nat, maxLeft: nat)
    requires |bs| >= 1
    ensures peakPos < |bs| && maxLeft == bs[peakPos].joltage
    ensures forall i :: 0 <= i < |bs| ==> bs[i].joltage <= maxLeft
    ensures forall i :: 0 <= i < peakPos ==> bs[i].joltage < maxLeft
  {
    peakPos, maxLeft := 0, bs[0].joltage;
    var i := 1;
    while i < |bs|
      invariant 1 <= i <= |bs| && peakPos < i && maxLeft == bs[peakPos].joltage
      invariant forall k :: 0 <= k < i ==> bs[k].joltage <= maxLeft
      invariant forall k :: 0 <= k < peakPos ==> bs[k].joltage < maxLeft
    {
      if bs[i].joltage > maxLeft {
        peakPos, maxLeft := i, bs[i].joltage;
      }
      i := i + 1;
    }
  }

  /** The search for the units digit: a plain maximum. */
  method FindMax(bs: seq<Battery>) returns (m: nat)
    requires |bs| >= 1
    ensures exists k :: 0 <= k < |bs| && bs[k].joltage == m
    ensures forall k :: 0 <= k < |bs| ==> bs[k].joltage <= m
  {
    m := bs[0].joltage;
    var j := 1;
    while j < |bs|
      invariant 1 <= j <= |bs|
      invariant exists k :: 0 <= k < j && bs[k].joltage == m
      invariant forall k :: 0 <= k < j ==> bs[k].joltage <= m
    {
      if bs[j].joltage > m {
        m := bs[j].joltage;
      }
      j := j + 1;
    }
  }

  /** One bank's peak, as the iterator chain computes it. */
  method PeakJoltage(bank: Bank) returns (r: Result<nat, JoltageError>)
    ensures r == Peak(bank)
    ensures r.Failure? <==> |bank.batteries| < 2
  {
    var bs := bank.batteries;
    var searchEnd := if |bs| == 0 then 0 else |bs| - 1;
    if searchEnd == 0 {
      return Failure(NoLeftPeak);
    }
    var peakPos, maxLeft := FindLeftPeak(bs[..searchEnd]);
    LeftmostMaxUnique(bs[..searchEnd], peakPos);
    var maxRight := FindMax(bs[peakPos + 1..]);
    MaxJoltageUnique(bs[peakPos + 1..], maxRight);
    PeakFrom(bank, peakPos, maxLeft, maxRight);
    r := Ok(maxLeft * 10 + maxRight);
  }

  /** `Iterator::sum` over the peaks; unbounded, where the code sums into a `u32`. */
  function Total(vs: seq<nat>): nat
    decreases |vs|
  {
    if |vs| == 0 then 0 else Total(vs[..|vs| - 1]) + vs[|vs| - 1]
  }

  /** Adding one more peak. */
  lemma TotalAppend(vs: seq<nat>, v: nat)
    ensures Total(vs + [v]) == Total(vs) + v
  {
    assert (vs + [v])[..|vs|] == vs;
  }

  /** A total of two-digit peaks is below 100 per peak. */
  lemma {:induction false} TotalBound(vs: seq<nat>)
    requires forall i :: 0 <= i < |vs| ==> vs[i] < 100
    ensures Total(vs) <= 99 * |vs|
    decreases |vs|
  {
    if |vs| > 0 {
      var init := vs[..|vs| - 1];
      assert forall i :: 0 <= i < |init| ==> init[i] == vs[i];
      TotalBound(init);
    }
  }

  /** The answer over the input's lines: the parse error of the first bad
      line, else the error of the first bank too small for a peak, else the
      sum of the peaks. */
  function LinesAnswer(lines: seq<string>): Result<nat, JoltageError> {
    match Collect(Map(ParseBank, lines))
    case Failure(e) => Failure(e)
    case Ok(banks) =>
      match Collect(Map(Peak, banks))
      case Failure(e) => Failure(e)
      case Ok(peaks) => Ok(Total(peaks))
  }

  /** The answer of `process`, over `str::lines`. */
  function Answer(input: string): Result<nat, JoltageError> {
    LinesAnswer(Text.Lines(input))
  }

  /** Lines are read exactly when each one is, and then give one bank per
      line, of digit batteries. */
  lemma ParseBanksSpec(lines: seq<string>)
    ensures var r := Collect(Map(ParseBank, lines));
      r.Ok? <==> forall i :: 0 <= i < |lines| ==> Decimal.AllDigits(Text.Trim(lines[i]))
    ensures var r := Collect(Map(ParseBank, lines));
      r.Ok? ==> |r.value| == |lines|
                && forall i :: 0 <= i < |lines| ==>
                     (ParseBank(lines[i]) == Ok(r.value[i]) && DigitBatteries(r.value[i].batteries)
                      && |r.value[i].batteries| == |Text.Trim(lines[i])|)
  {
    var parsed := Map(ParseBank, lines);
    MapSpec(ParseBank, lines);
    CollectSpec(parsed);
    forall i | 0 <= i < |lines|
      ensures ParseBank(lines[i]).Ok? <==> Decimal.AllDigits(Text.Trim(lines[i]))
      ensures ParseBank(lines[i]).Ok? ==> DigitBatteries(ParseBank(lines[i]).value.batteries)
                                          && |ParseBank(lines[i]).value.batteries| == |Text.Trim(lines[i])|
    {
      ReadBatteriesSpec(Text.Trim(lines[i]));
    }
  }

  /** The peaks of digit banks exist exactly when every bank holds two
      batteries or more, and each is that bank's best pair. */
  lemma PeaksSpec(banks: seq<Bank>)
    requires forall i :: 0 <= i < |banks| ==> DigitBatteries(banks[i].batteries)
    ensures var r := Collect(Map(Peak, banks));
      r.Ok? <==> forall i :: 0 <= i < |banks| ==> |banks[i].batteries| >= 2
    ensures var r := Collect(Map(Peak, banks));
      r.Ok? ==> |r.value| == |banks|
                && forall i :: 0 <= i < |banks| ==> IsBestPair(banks[i].batteries, r.value[i]) && r.value[i] < 100
  {
    var peaks := Map(Peak, banks);
    MapSpec(Peak, banks);
    CollectSpec(peaks);
    forall i | 0 <= i < |banks|
      ensures Peak(banks[i]).Failure? <==> |banks[i].batteries| < 2
      ensures Peak(banks[i]).Ok? ==> IsBestPair(banks[i].batteries, Peak(banks[i]).value) && Peak(banks[i]).value < 100
    {
      PeakIsBestPair(banks[i]);
    }
  }

  /** The answer exists exactly when every trimmed line is two digits or
      more. */
  lemma AnswerOkIff(lines: seq<string>)
    ensures LinesAnswer(lines).Ok? <==>
              forall i :: 0 <= i < |lines| ==> Decimal.AllDigits(Text.Trim(lines[i])) && |Text.Trim(lines[i])| >= 2
  {
    ParseBanksSpec(lines);
    var parsed := Collect(Map(ParseBank, lines));
    if parsed.Ok? {
      PeaksOkIffLong(lines, parsed.value);
    } else {
      var i :| 0 <= i < |lines| && !Decimal.AllDigits(Text.Trim(lines[i]));
    }
  }

  /** Banks read from trimmed lines all have peaks exactly when every
      trimmed line is two characters or more. */
  lemma PeaksOkIffLong(lines: seq<string>, banks: seq<Bank>)
    requires |banks| == |lines|
    requires forall i :: 0 <= i < |lines| ==>
               DigitBatteries(banks[i].batteries) && |banks[i].batteries| == |Text.Trim(lines[i])|
    ensures Collect(Map(Peak, banks)).Ok? <==> forall i :: 0 <= i < |lines| ==> |Text.Trim(lines[i])| >= 2
  {
    PeaksSpec(banks);
  }

  /** The answer adds up each line's best pair, at most 99 per line. */
  lemma AnswerSumsBestPairs(lines: seq<string>)
    requires LinesAnswer(lines).Ok?
    ensures LinesAnswer(lines).value <= 99 * |lines|
    ensures exists peaks: seq<nat> :: |peaks| == |lines| && Total(peaks) == LinesAnswer(lines).value
              && forall i :: 0 <= i < |lines| ==>
                   ParseBank(lines[i]).Ok? && IsBestPair(ParseBank(lines[i]).value.batteries, peaks[i])
  {
    ParseBanksSpec(lines);
    var banks := Collect(Map(ParseBank, lines)).value;
    PeaksSpec(banks);
    var peaks := Collect(Map(Peak, banks)).value;
    TotalBound(peaks);
    assert Total(peaks) == LinesAnswer(lines).value;
  }

  /** Every line is parsed before any peak is taken: a line that is not all
      digits makes the answer a bad-character error, even when an earlier
      bank is too small for a peak. */
  lemma ParseErrorWins(lines: seq<string>, k: nat)
    requires k < |lines| && !Decimal.AllDigits(Text.Trim(lines[k]))
    ensures LinesAnswer(lines).Failure? && LinesAnswer(lines).error.InvalidJoltage?
  {
    ParseBanksSpec(lines);
    var parsed := Map(ParseBank, lines);
    MapSpec(ParseBank, lines);
    CollectSpec(parsed);
    var i :| 0 <= i < |parsed| && parsed[i] == Failure(Collect(parsed).error);
    assert parsed[i] == ParseBank(lines[i]);
    ReadBatteriesError(Text.Trim(lines[i]));
  }

  /** `process`: every line is parsed into a bank first, then the peaks are
      computed and summed in order. */
  method Process(input: string) returns (r: Result<nat, JoltageError>)
    ensures r == Answer(input)
  {
    var lines := Text.Lines(input);
    var banks: seq<Bank> := [];
    var i := 0;
    while i < |lines|
      invariant i <= |lines|
      invariant Collect(Map(ParseBank, lines[..i])) == Ok(banks)
    {
      var bank := ParseBank(lines[i]);
      if bank.Failure? {
        CollectMapFailsAt(ParseBank, lines, i, banks);
        return Failure(bank.error);
      }
      CollectMapAppend(ParseBank, lines, i, banks);
      banks := banks + [bank.value];
      i := i + 1;
    }
    assert lines[..i] == lines;
    var sum := 0;
    ghost var peaks: seq<nat> := [];
    var k := 0;
    while k < |banks|
      invariant k <= |banks|
      invariant Collect(Map(Peak, banks[..k])) == Ok(peaks)
      invariant sum == Total(peaks)
    {
      var peak := PeakJoltage(banks[k]);
      if peak.Failure? {
        CollectMapFailsAt(Peak, banks, k, peaks);
        return Failure(peak.error);
      }
      CollectMapAppend(Peak, banks, k, peaks);
      TotalAppend(peaks, peak.value);
      sum := sum + peak.value;
      peaks := peaks + [peak.value];
      k := k + 1;
    }
    assert banks[..k] == banks;
    r := Ok(sum);
  }
}
