/** The worked example both day-1 tests use (day-01/src/part1.rs:44-51 and
    day-01/src/part2.rs:52-60). */
module DialExamples {
  import opened Results
  import Text
  import Decimal
  import opened Dial
  import DialPassword
  import DialCrossings

  /** The ten rotations of the example, in order. */
  const Example: seq<Rotation> := [
    Rotation(Left, 68), Rotation(Left, 30), Rotation(Right, 48), Rotation(Left, 5),
    Rotation(Right, 60), Rotation(Left, 55), Rotation(Left, 1), Rotation(Left, 99),
    Rotation(Right, 14), Rotation(Left, 82)
  ]

  /** The example input exactly as the tests build it. */
  const ExampleInput: string :=
    Text.Join(["L68", "L30", "R48", "L5", "R60", "L55", "L1", "L99", "R14", "L82"], '\n')

  /** After `rots` the dial is at `p`, `ends` rotations have ended on 0 and
      `passes` clicks have landed on 0. */
  predicate Reached(rots: seq<Rotation>, p: Position, ends: nat, passes: nat) {
    DialAfter(rots) == p && DialPassword.ZeroEndings(rots) == ends && DialCrossings.ZeroPasses(rots) == passes
  }

  /** Before any rotation the dial is at 50 and nothing has been counted. */
  lemma Start()
    ensures Reached([], StartPosition, 0, 0)
  {
    assert (set i: nat | i < 0 && DialPassword.EndsOnZero([], i)) == {};
  }

  /** One rotation more, in the modular and closed forms the code uses. */
  lemma Step(rots: seq<Rotation>, rot: Rotation, p: Position, ends: nat, passes: nat)
    requires Reached(rots, p, ends, passes)
    ensures Reached(rots + [rot], Rotate(p, rot), ends + (if Rotate(p, rot) == 0 then 1 else 0),
                    passes + DialCrossings.ZeroHits(p, rot))
  {
    DialAfterAppend(rots, rot);
    RotateIsClicks(p, rot);
    DialPassword.ZeroEndingsStep(rots, rot);
    DialCrossings.ZeroPassesAppend(rots, rot);
    DialCrossings.ZeroHitsCountsClicks(p, rot);
  }

  /** The state after each example rotation. */
  lemma ExampleStep1(rots: seq<Rotation>)
    requires Reached(rots, 50, 0, 0)
    ensures Reached(rots + [Rotation(Left, 68)], 82, 0, 1)
  {
    Step(rots, Rotation(Left, 68), 50, 0, 0);
  }

  lemma ExampleStep2(rots: seq<Rotation>)
    requires Reached(rots, 82, 0, 1)
    ensures Reached(rots + [Rotation(Left, 30)], 52, 0, 1)
  {
    Step(rots, Rotation(Left, 30), 82, 0, 1);
  }

  lemma ExampleStep3(rots: seq<Rotation>)
    requires Reached(rots, 52, 0, 1)
    ensures Reached(rots + [Rotation(Right, 48)], 0, 1, 2)
  {
    Step(rots, Rotation(Right, 48), 52, 0, 1);
  }

  lemma ExampleStep4(rots: seq<Rotation>)
    requires Reached(rots, 0, 1, 2)
    ensures Reached(rots + [Rotation(Left, 5)], 95, 1, 2)
  {
    Step(rots, Rotation(Left, 5), 0, 1, 2);
  }

  lemma ExampleStep5(rots: seq<Rotation>)
    requires Reached(rots, 95, 1, 2)
    ensures Reached(rots + [Rotation(Right, 60)], 55, 1, 3)
  {
    Step(rots, Rotation(Right, 60), 95, 1, 2);
  }

  lemma ExampleStep6(rots: seq<Rotation>)
    requires Reached(rots, 55, 1, 3)
    ensures Reached(rots + [Rotation(Left, 55)], 0, 2, 4)
  {
    Step(rots, Rotation(Left, 55), 55, 1, 3);
  }

  lemma ExampleStep7(rots: seq<Rotation>)
    requires Reached(rots, 0, 2, 4)
    ensures Reached(rots + [Rotation(Left, 1)], 99, 2, 4)
  {
    Step(rots, Rotation(Left, 1), 0, 2, 4);
  }

  lemma ExampleStep8(rots: seq<Rotation>)
    requires Reached(rots, 99, 2, 4)
    ensures Reached(rots + [Rotation(Left, 99)], 0, 3, 5)
  {
    Step(rots, Rotation(Left, 99), 99, 2, 4);
  }

  lemma ExampleStep9(rots: seq<Rotation>)
    requires Reached(rots, 0, 3, 5)
    ensures Reached(rots + [Rotation(Right, 14)], 14, 3, 5)
  {
    Step(rots, Rotation(Right, 14), 0, 3, 5);
  }

  lemma ExampleStep10(rots: seq<Rotation>)
    requires Reached(rots, 14, 3, 5)
    ensures Reached(rots + [Rotation(Left, 82)], 32, 3, 6)
  {
    Step(rots, Rotation(Left, 82), 14, 3, 5);
  }

  /** Rotations 1 to 5 of the example, taken one at a time. */
  lemma ExampleFirstHalf(rots: seq<Rotation>)
    requires Reached(rots, 50, 0, 0)
    ensures Reached(rots + [Rotation(Left, 68)] + [Rotation(Left, 30)] + [Rotation(Right, 48)] + [Rotation(Left, 5)] + [Rotation(Right, 60)], 55, 1, 3)
  {
    ExampleStep1(rots);
    ExampleStep2(rots + [Rotation(Left, 68)]);
    ExampleStep3(rots + [Rotation(Left, 68)] + [Rotation(Left, 30)]);
    ExampleStep4(rots + [Rotation(Left, 68)] + [Rotation(Left, 30)] + [Rotation(Right, 48)]);
    ExampleStep5(rots + [Rotation(Left, 68)] + [Rotation(Left, 30)] + [Rotation(Right, 48)] + [Rotation(Left, 5)]);
  }

  /** Rotations 6 to 10 of the example, taken one at a time. */
  lemma ExampleSecondHalf(rots: seq<Rotation>)
    requires Reached(rots, 55, 1, 3)
    ensures Reached(rots + [Rotation(Left, 55)] + [Rotation(Left, 1)] + [Rotation(Left, 99)] + [Rotation(Right, 14)] + [Rotation(Left, 82)], 32, 3, 6)
  {
    ExampleStep6(rots);
    ExampleStep7(rots + [Rotation(Left, 55)]);
    ExampleStep8(rots + [Rotation(Left, 55)] + [Rotation(Left, 1)]);
    ExampleStep9(rots + [Rotation(Left, 55)] + [Rotation(Left, 1)] + [Rotation(Left, 99)]);
    ExampleStep10(rots + [Rotation(Left, 55)] + [Rotation(Left, 1)] + [Rotation(Left, 99)] + [Rotation(Right, 14)]);
  }

  /** The example is its ten rotations appended one by one. */
  lemma ExampleAppended(e: seq<Rotation>)
    requires e == Example
    ensures [] + [Rotation(Left, 68)] + [Rotation(Left, 30)] + [Rotation(Right, 48)] + [Rotation(Left, 5)] + [Rotation(Right, 60)] + [Rotation(Left, 55)] + [Rotation(Left, 1)] + [Rotation(Left, 99)] + [Rotation(Right, 14)] + [Rotation(Left, 82)] == e
  {
  }

  /** Clicked out, the example ends on 0 three times and passes 0 six times. */
  lemma ExampleCountsOf(e: seq<Rotation>)
    requires e == Example
    ensures DialPassword.ZeroEndings(e) == 3
    ensures DialCrossings.ZeroPasses(e) == 6
  {
    var none: seq<Rotation> := [];
    Start();
    ExampleFirstHalf(none);
    ExampleSecondHalf(none + [Rotation(Left, 68)] + [Rotation(Left, 30)] + [Rotation(Right, 48)] + [Rotation(Left, 5)] + [Rotation(Right, 60)]);
    ExampleAppended(e);
  }

  /** Each example rotation is written as its test line. */
  lemma WritesL68()
    ensures WriteRotation(Rotation(Left, 68)) == "L68"
  {
    assert Decimal.ToDecimal(68) == Decimal.ToDecimal(6) + ['8'];
  }

  lemma WritesL30()
    ensures WriteRotation(Rotation(Left, 30)) == "L30"
  {
    assert Decimal.ToDecimal(30) == Decimal.ToDecimal(3) + ['0'];
  }

  lemma WritesR48()
    ensures WriteRotation(Rotation(Right, 48)) == "R48"
  {
    assert Decimal.ToDecimal(48) == Decimal.ToDecimal(4) + ['8'];
  }

  lemma WritesL5()
    ensures WriteRotation(Rotation(Left, 5)) == "L5"
  {
  }

  lemma WritesR60()
    ensures WriteRotation(Rotation(Right, 60)) == "R60"
  {
    assert Decimal.ToDecimal(60) == Decimal.ToDecimal(6) + ['0'];
  }

  lemma WritesL55()
    ensures WriteRotation(Rotation(Left, 55)) == "L55"
  {
    assert Decimal.ToDecimal(55) == Decimal.ToDecimal(5) + ['5'];
  }

  lemma WritesL1()
    ensures WriteRotation(Rotation(Left, 1)) == "L1"
  {
  }

  lemma WritesL99()
    ensures WriteRotation(Rotation(Left, 99)) == "L99"
  {
    assert Decimal.ToDecimal(99) == Decimal.ToDecimal(9) + ['9'];
  }

  lemma WritesR14()
    ensures WriteRotation(Rotation(Right, 14)) == "R14"
  {
    assert Decimal.ToDecimal(14) == Decimal.ToDecimal(1) + ['4'];
  }

  lemma WritesL82()
    ensures WriteRotation(Rotation(Left, 82)) == "L82"
  {
    assert Decimal.ToDecimal(82) == Decimal.ToDecimal(8) + ['2'];
  }

  /** The ten test lines are the written forms of the ten rotations. */
  lemma ExampleLinesWritten()
    ensures WrittenLines(Example) == ["L68", "L30", "R48", "L5", "R60", "L55", "L1", "L99", "R14", "L82"]
  {
    WritesL68();
    WritesL30();
    WritesR48();
    WritesL5();
    WritesR60();
    WritesL55();
    WritesL1();
    WritesL99();
    WritesR14();
    WritesL82();
  }

  /** The test input reads back as the ten rotations. */
  lemma ExampleInputReads()
    ensures ParseRotations(Text.Lines(ExampleInput)) == Ok(Example)
  {
    ExampleLinesWritten();
    ReadWrittenRotations(Example);
  }

  /** Part 1 answers 3 and part 2 answers 6 on the example. */
  lemma ExamplePasswords()
    ensures DialPassword.Password(ExampleInput) == Ok(3)
    ensures DialCrossings.Password(ExampleInput) == Ok(6)
  {
    ExampleInputReads();
    ExampleCountsOf(Example);
  }

  /** A bad letter on the first line is the answer of both parts, although
      an empty line, which `split_at(1)` cannot split, comes later. */
  lemma BadLetterBeforeEmptyLine(input: string)
    requires input == "Q1\n\nL5"
    ensures DialPassword.Password(input) == Failure(BadDirection)
    ensures DialCrossings.Password(input) == Failure(BadDirection)
  {
    var first, rest := "Q1", "\nL5";
    assert input == first + ['\n'] + rest;
    Text.FirstIndexAfter(first, '\n', rest);
    assert input[..2] == first && input[3..] == rest;
    assert Text.StripCr(first) == first;
    assert Text.Lines(input) == [first] + Text.Lines(rest);
    assert Decimal.ToDecimal(1) == "1";
    Decimal.ParseToDecimal(1);
    assert first[1..] == "1";
    assert ParseRotation(first) == Failure(BadDirection);
    assert [first][..0] == [];
    CollectMapFailsAt(ParseRotation, [first], 0, []);
    FailureIgnoresRest([first], Text.Lines(rest));
  }
}
