/** The worked example of day 3 (day-03/src/part1.rs:80-88): four banks
    whose peaks 98, 89, 78 and 92 add up to 357. */
module JoltageExamples {
  import opened Results
  import Text
  import opened Joltage

  /** The example's lines. */
  const ExampleLines: seq<string> := ["987654321111111", "811111111111119", "234234234234278", "818181911112111"]

  /** The example input: the lines joined by newlines, with no final newline. */
  const ExampleInput: string := Text.Join(ExampleLines, '\n')

  /** The banks the lines hold. */
  const ExampleBanks: seq<Bank> := [
    Bank([Battery(9), Battery(8), Battery(7), Battery(6), Battery(5), Battery(4), Battery(3), Battery(2), Battery(1), Battery(1), Battery(1), Battery(1), Battery(1), Battery(1), Battery(1)]),
    Bank([Battery(8), Battery(1), Battery(1), Battery(1), Battery(1), Battery(1), Battery(1), Battery(1), Battery(1), Battery(1), Battery(1), Battery(1), Battery(1), Battery(1), Battery(9)]),
    Bank([Battery(2), Battery(3), Battery(4), Battery(2), Battery(3), Battery(4), Battery(2), Battery(3), Battery(4), Battery(2), Battery(3), Battery(4), Battery(2), Battery(7), Battery(8)]),
    Bank([Battery(8), Battery(1), Battery(8), Battery(1), Battery(8), Battery(1), Battery(9), Battery(1), Battery(1), Battery(1), Battery(1), Battery(2), Battery(1), Battery(1), Battery(1)])
  ]

  /** Each bank's peak. */
  const ExamplePeaks: seq<nat> := [98, 89, 78, 92]

  /** Line 1 reads as its bank. */
  lemma ReadsLine1(line: string, b: Bank)
    requires line == "987654321111111" && b == Bank([Battery(9), Battery(8), Battery(7), Battery(6), Battery(5), Battery(4), Battery(3), Battery(2), Battery(1), Battery(1), Battery(1), Battery(1), Battery(1), Battery(1), Battery(1)])
    ensures ParseBank(line) == Ok(b)
  {
    Text.TrimUnpadded(line);
    ReadBatteriesSpec(line);
    assert ReadBatteries(line).value == b.batteries;
  }

  /** Bank 1 peaks at 98: the first 9 is at position 0, the best after it is 8. */
  lemma PeakOfBank1(b: Bank)
    requires b == Bank([Battery(9), Battery(8), Battery(7), Battery(6), Battery(5), Battery(4), Battery(3), Battery(2), Battery(1), Battery(1), Battery(1), Battery(1), Battery(1), Battery(1), Battery(1)])
    ensures Peak(b) == Ok(98)
  {
    var bs := b.batteries;
    LeftmostMaxUnique(bs[..14], 0);
    assert bs[1..][0].joltage == 8;
    MaxJoltageUnique(bs[1..], 8);
    PeakFrom(b, 0, 9, 8);
  }

  /** Line 2 reads as its bank. */
  lemma ReadsLine2(line: string, b: Bank)
    requires line == "811111111111119" && b == Bank([Battery(8), Battery(1), Battery(1), Battery(1), Battery(1), Battery(1), Battery(1), Battery(1), Battery(1), Battery(1), Battery(1), Battery(1), Battery(1), Battery(1), Battery(9)])
    ensures ParseBank(line) == Ok(b)
  {
    Text.TrimUnpadded(line);
    ReadBatteriesSpec(line);
    assert ReadBatteries(line).value == b.batteries;
  }

  /** Bank 2 peaks at 89: the first 8 is at position 0, the best after it is 9. */
  lemma PeakOfBank2(b: Bank)
    requires b == Bank([Battery(8), Battery(1), Battery(1), Battery(1), Battery(1), Battery(1), Battery(1), Battery(1), Battery(1), Battery(1), Battery(1), Battery(1), Battery(1), Battery(1), Battery(9)])
    ensures Peak(b) == Ok(89)
  {
    var bs := b.batteries;
    LeftmostMaxUnique(bs[..14], 0);
    assert bs[1..][13].joltage == 9;
    MaxJoltageUnique(bs[1..], 9);
    PeakFrom(b, 0, 8, 9);
  }

  /** Line 3 reads as its bank. */
  lemma ReadsLine3(line: string, b: Bank)
    requires line == "234234234234278" && b == Bank([Battery(2), Battery(3), Battery(4), Battery(2), Battery(3), Battery(4), Battery(2), Battery(3), Battery(4), Battery(2), Battery(3), Battery(4), Battery(2), Battery(7), Battery(8)])
    ensures ParseBank(line) == Ok(b)
  {
    Text.TrimUnpadded(line);
    ReadBatteriesSpec(line);
    assert ReadBatteries(line).value == b.batteries;
  }

  /** Bank 3 peaks at 78: the first 7 is at position 13, the best after it is 8. */
  lemma PeakOfBank3(b: Bank)
    requires b == Bank([Battery(2), Battery(3), Battery(4), Battery(2), Battery(3), Battery(4), Battery(2), Battery(3), Battery(4), Battery(2), Battery(3), Battery(4), Battery(2), Battery(7), Battery(8)])
    ensures Peak(b) == Ok(78)
  {
    var bs := b.batteries;
    LeftmostMaxUnique(bs[..14], 13);
    assert bs[14..][0].joltage == 8;
    MaxJoltageUnique(bs[14..], 8);
    PeakFrom(b, 13, 7, 8);
  }

  /** Line 4 reads as its bank. */
  lemma ReadsLine4(line: string, b: Bank)
    requires line == "818181911112111" && b == Bank([Battery(8), Battery(1), Battery(8), Battery(1), Battery(8), Battery(1), Battery(9), Battery(1), Battery(1), Battery(1), Battery(1), Battery(2), Battery(1), Battery(1), Battery(1)])
    ensures ParseBank(line) == Ok(b)
  {
    Text.TrimUnpadded(line);
    ReadBatteriesSpec(line);
    assert ReadBatteries(line).value == b.batteries;
  }

  /** Bank 4 peaks at 92: the first 9 is at position 6, the best after it is 2. */
  lemma PeakOfBank4(b: Bank)
    requires b == Bank([Battery(8), Battery(1), Battery(8), Battery(1), Battery(8), Battery(1), Battery(9), Battery(1), Battery(1), Battery(1), Battery(1), Battery(2), Battery(1), Battery(1), Battery(1)])
    ensures Peak(b) == Ok(92)
  {
    var bs := b.batteries;
    LeftmostMaxUnique(bs[..14], 6);
    assert bs[7..][4].joltage == 2;
    MaxJoltageUnique(bs[7..], 2);
    PeakFrom(b, 6, 9, 2);
  }

  /** Every line reads as its bank. */
  lemma ExampleBanksRead(lines: seq<string>, banks: seq<Bank>)
    requires lines == ExampleLines && banks == ExampleBanks
    ensures Collect(Map(ParseBank, lines)) == Ok(banks)
  {
    forall i | 0 <= i < |lines|
      ensures ParseBank(lines[i]) == Ok(banks[i])
    {
      if i == 0 {
        ReadsLine1(lines[i], banks[i]);
      } else if i == 1 {
        ReadsLine2(lines[i], banks[i]);
      } else if i == 2 {
        ReadsLine3(lines[i], banks[i]);
      } else if i == 3 {
        ReadsLine4(lines[i], banks[i]);
      }
    }
    CollectMapAll(ParseBank, lines, banks);
  }

  /** Every bank has its peak. */
  lemma ExamplePeaksFound(banks: seq<Bank>, peaks: seq<nat>)
    requires banks == ExampleBanks && peaks == ExamplePeaks
    ensures Collect(Map(Peak, banks)) == Ok(peaks)
  {
    forall i | 0 <= i < |banks|
      ensures Peak(banks[i]) == Ok(peaks[i])
    {
      if i == 0 {
        PeakOfBank1(banks[i]);
      } else if i == 1 {
        PeakOfBank2(banks[i]);
      } else if i == 2 {
        PeakOfBank3(banks[i]);
      } else if i == 3 {
        PeakOfBank4(banks[i]);
      }
    }
    CollectMapAll(Peak, banks, peaks);
  }

  /** The peaks add up to 357. */
  lemma ExampleTotal(peaks: seq<nat>)
    requires peaks == ExamplePeaks
    ensures Total(peaks) == 357
  {
    TotalAppend([], 98);
    TotalAppend([98], 89);
    TotalAppend([98, 89], 78);
    TotalAppend([98, 89, 78], 92);
    assert peaks == [98, 89, 78] + [92];
  }

  /** `process` answers 357 on the example input. */
  lemma ExampleAnswer()
    ensures Answer(ExampleInput) == Ok(357)
  {
    Text.LinesJoin(ExampleLines);
    ExampleBanksRead(ExampleLines, ExampleBanks);
    ExamplePeaksFound(ExampleBanks, ExamplePeaks);
    ExampleTotal(ExamplePeaks);
  }
}
