/** The circular safe dial of day 1 (day-01/src/part1.rs, day-01/src/part2.rs):
    positions 0-99, rotations `Lnn` / `Rnn`, and the dial's click-by-click
    meaning, which both parts compute with modular arithmetic. */
module Dial {
  import opened Results
  import Text
  import Decimal

  /** A mark on the dial. */
  type Position = p: nat | p < 100

  /** Where the dial points before the first rotation. */
  const StartPosition: Position := 50

  datatype Direction = Left | Right

  /** One line of input: a direction and a number of clicks. */
  datatype Rotation = Rotation(dir: Direction, dist: nat)

  /** Why a line stops the run. `SplitPanic` stands for the panic of
      `line.split_at(1)` on a line that is empty or starts with a character
      longer than one byte: the program aborts there without an answer. */
  datatype DialError = BadDistance | BadDirection | SplitPanic

  /** One click. Left from 0 wraps to 99; right from 99 wraps to 0. */
  function Click(p: Position, d: Direction): Position {
    match d
    case Left => if p == 0 then 99 else p - 1
    case Right => if p == 99 then 0 else p + 1
  }

  /** The dial after `n` single clicks in direction `d` from `p`. */
  function Clicks(p: Position, d: Direction, n: nat): Position
    decreases n
  {
    if n == 0 then p else Click(Clicks(p, d, n - 1), d)
  }

  /** The position update both parts perform: only `dist % 100` is used.
      Right moves the mark up by the distance modulo 100, left moves it down. */
  function Rotate(p: Position, r: Rotation): (q: Position)
    ensures r.dir == Right ==> (q - p) % 100 == r.dist % 100
    ensures r.dir == Left ==> (p - q) % 100 == r.dist % 100
  {
    var delta := r.dist % 100;
    Decimal.DivModUnique(r.dist, 100, r.dist / 100, delta);
    MoveByDelta(p, delta);
    match r.dir
    case Left => (p + 100 - delta) % 100
    case Right => (p + delta) % 100
  }

  /** Both updates move the mark by `delta`, modulo 100. */
  lemma MoveByDelta(p: Position, delta: nat)
    requires delta < 100
    ensures ((p + delta) % 100 - p) % 100 == delta
    ensures (p - (p + 100 - delta) % 100) % 100 == delta
  {
    if p + delta < 100 {
      Decimal.DivModUnique(p + delta, 100, 0, p + delta);
      Decimal.DivModUnique(delta, 100, 0, delta);
    } else {
      Decimal.DivModUnique(p + delta, 100, 1, p + delta - 100);
      Decimal.DivModUnique(delta - 100, 100, -1, delta);
    }
    if p >= delta {
      Decimal.DivModUnique(p + 100 - delta, 100, 1, p - delta);
      Decimal.DivModUnique(delta, 100, 0, delta);
    } else {
      Decimal.DivModUnique(p + 100 - delta, 100, 0, p + 100 - delta);
      Decimal.DivModUnique(delta - 100, 100, -1, delta);
    }
  }

  /** `n` clicks move the dial by `n` modulo 100, down for left, up for right. */
  lemma {:induction false} ClicksClosedForm(p: Position, d: Direction, n: nat)
    ensures d == Right ==> Clicks(p, d, n) == (p + n) % 100
    ensures d == Left ==> Clicks(p, d, n) == (p - n) % 100
    decreases n
  {
    if n > 0 {
      ClicksClosedForm(p, d, n - 1);
      var prev := Clicks(p, d, n - 1);
      var x := if d == Right then p + n - 1 else p - n + 1;
      var q := x / 100;
      Decimal.DivModUnique(x, 100, q, prev);
      if d == Right {
        if prev == 99 {
          Decimal.DivModUnique(x + 1, 100, q + 1, 0);
        } else {
          Decimal.DivModUnique(x + 1, 100, q, prev + 1);
        }
      } else {
        if prev == 0 {
          Decimal.DivModUnique(x - 1, 100, q - 1, 99);
        } else {
          Decimal.DivModUnique(x - 1, 100, q, prev - 1);
        }
      }
    }
  }

  /** The modular update lands exactly where clicking one step at a time does. */
  lemma RotateIsClicks(p: Position, r: Rotation)
    ensures Rotate(p, r) == Clicks(p, r.dir, r.dist)
  {
    ClicksClosedForm(p, r.dir, r.dist);
    var q := r.dist / 100;
    var delta := r.dist % 100;
    Decimal.DivModUnique(r.dist, 100, q, delta);
    if r.dir == Right {
      var y := p + delta;
      Decimal.DivModUnique(y, 100, y / 100, y % 100);
      Decimal.DivModUnique(p + r.dist, 100, q + y / 100, y % 100);
    } else {
      var y := p + 100 - delta;
      Decimal.DivModUnique(y, 100, y / 100, y % 100);
      Decimal.DivModUnique(p - r.dist, 100, y / 100 - q - 1, y % 100);
    }
  }

  /** A full turn of 100 clicks leaves the dial where it was, so only the
      distance modulo 100 decides where a rotation ends. */
  lemma ClicksFullTurn(p: Position, d: Direction, n: nat)
    ensures Clicks(p, d, n + 100) == Clicks(p, d, n)
    ensures Clicks(p, d, n) == Clicks(p, d, n % 100)
  {
    SameRemainderSameClicks(p, d, n + 100, n);
    SameRemainderSameClicks(p, d, n % 100, n);
  }

  /** Distances with the same remainder modulo 100 click to the same mark. */
  lemma SameRemainderSameClicks(p: Position, d: Direction, m: nat, n: nat)
    requires m % 100 == n % 100
    ensures Clicks(p, d, m) == Clicks(p, d, n)
  {
    var a, b := Rotation(d, m), Rotation(d, n);
    assert Rotate(p, a) == Rotate(p, b) by {
      var delta := m % 100;
      assert a.dist % 100 == delta && b.dist % 100 == delta;
      match d {
        case Left => assert Rotate(p, a) == (p + 100 - delta) % 100 == Rotate(p, b);
        case Right => assert Rotate(p, a) == (p + delta) % 100 == Rotate(p, b);
      }
    }
    RotateIsClicks(p, a);
    RotateIsClicks(p, b);
  }

  /** The letter a direction is written with. */
  function DirectionChar(d: Direction): char {
    match d
    case Left => 'L'
    case Right => 'R'
  }

  /** `line.split_at(1)` needs a first character that is one byte long. */
  predicate SplittableLine(line: string) {
    |line| >= 1 && line[0] < 128 as char
  }

  /** One line: it is split after its first character, the distance is
      parsed first (a 64-bit `usize`), then the direction letter is checked.
      A parsed line starts with its direction's letter and the rest is its
      distance; a bad distance is reported before a bad letter. */
  function ParseRotation(line: string): (r: Result<Rotation, DialError>)
    ensures r == Failure(SplitPanic) <==> !SplittableLine(line)
    ensures r.Ok? ==>
              line[0] == DirectionChar(r.value.dir) && Decimal.ParseU64(line[1..]) == Some(r.value.dist)
    ensures r == Failure(BadDistance) <==> SplittableLine(line) && Decimal.ParseU64(line[1..]).None?
    ensures r == Failure(BadDirection) <==>
              SplittableLine(line) && Decimal.ParseU64(line[1..]).Some? && line[0] != 'L' && line[0] != 'R'
  {
    if !SplittableLine(line) then Failure(SplitPanic)
    else
      match Decimal.ParseU64(line[1..])
      case None => Failure(BadDistance)
      case Some(dist) =>
        if line[0] == 'L' then Ok(Rotation(Left, dist))
        else if line[0] == 'R' then Ok(Rotation(Right, dist))
        else Failure(BadDirection)
  }

  /** A written rotation reads back as itself. */
  lemma ParseWrittenRotation(r: Rotation)
    requires r.dist < Decimal.U64Limit
    ensures SplittableLine(WriteRotation(r))
    ensures ParseRotation(WriteRotation(r)) == Ok(r)
  {
    var line := WriteRotation(r);
    assert line[1..] == Decimal.ToDecimal(r.dist);
    Decimal.ParseToDecimal(r.dist);
  }

  /** How a rotation is written on its line: `L` or `R`, then the distance. */
  function WriteRotation(r: Rotation): string {
    [DirectionChar(r.dir)] + Decimal.ToDecimal(r.dist)
  }

  /** One written line per rotation. */
  function WrittenLines(rots: seq<Rotation>): (lines: seq<string>)
    ensures |lines| == |rots|
    ensures forall i :: 0 <= i < |rots| ==> lines[i] == WriteRotation(rots[i])
    decreases |rots|
  {
    if |rots| == 0 then [] else WrittenLines(rots[..|rots| - 1]) + [WriteRotation(rots[|rots| - 1])]
  }

  /** The lines of several rotations, joined by `\n` as the tests build them. */
  function WriteRotations(rots: seq<Rotation>): string
    requires |rots| >= 1
  {
    Text.Join(WrittenLines(rots), '\n')
  }

  /** Parses lines in order; the first failing line decides the error. */
  function ParseRotations(lines: seq<string>): Result<seq<Rotation>, DialError> {
    Collect(Map(ParseRotation, lines))
  }

  /** Whatever lines follow a failing prefix, even lines `split_at` could
      not split, the input fails as the prefix does. */
  lemma FailureIgnoresRest(lines: seq<string>, rest: seq<string>)
    requires ParseRotations(lines).Failure?
    ensures ParseRotations(lines + rest) == ParseRotations(lines)
  {
    assert (lines + rest)[..|lines|] == lines;
    CollectMapFailureExtends(ParseRotation, lines + rest, |lines|);
  }

  /** The dial after all of `rots`, clicked one step at a time from 50. */
  function DialAfter(rots: seq<Rotation>): Position
    decreases |rots|
  {
    if |rots| == 0 then StartPosition
    else
      var last := rots[|rots| - 1];
      Clicks(DialAfter(rots[..|rots| - 1]), last.dir, last.dist)
  }

  /** A further rotation clicks on from where the earlier ones left the dial. */
  lemma DialAfterAppend(rots: seq<Rotation>, rot: Rotation)
    ensures DialAfter(rots + [rot]) == Clicks(DialAfter(rots), rot.dir, rot.dist)
  {
    assert (rots + [rot])[..|rots|] == rots;
  }

  /** A written rotation is one non-empty line ending in a digit. */
  lemma WrittenRotationIsLine(r: Rotation)
    ensures |WriteRotation(r)| >= 2
    ensures '\n' !in WriteRotation(r)
    ensures Decimal.IsDigit(WriteRotation(r)[|WriteRotation(r)| - 1])
  {
    var line := WriteRotation(r);
    assert line[1..] == Decimal.ToDecimal(r.dist);
    assert forall k :: 1 <= k < |line| ==> Decimal.IsDigit(line[k]);
  }

  /** Written lines are separate, `\r`-free, non-empty lines that parse. */
  lemma WrittenLinesShape(rots: seq<Rotation>)
    requires forall i :: 0 <= i < |rots| ==> rots[i].dist < Decimal.U64Limit
    ensures forall i :: 0 <= i < |rots| ==> |WrittenLines(rots)[i]| >= 1
    ensures forall i :: 0 <= i < |rots| ==> '\n' !in WrittenLines(rots)[i]
    ensures forall i :: 0 <= i < |rots| ==> WrittenLines(rots)[i][|WrittenLines(rots)[i]| - 1] != '\r'
    ensures forall i :: 0 <= i < |rots| ==> SplittableLine(WrittenLines(rots)[i])
    ensures forall i :: 0 <= i < |rots| ==> ParseRotation(WrittenLines(rots)[i]) == Ok(rots[i])
  {
    forall i | 0 <= i < |rots|
      ensures |WriteRotation(rots[i])| >= 1 && '\n' !in WriteRotation(rots[i])
      ensures WriteRotation(rots[i])[|WriteRotation(rots[i])| - 1] != '\r'
      ensures SplittableLine(WriteRotation(rots[i]))
      ensures ParseRotation(WriteRotation(rots[i])) == Ok(rots[i])
    {
      WrittenRotationIsLine(rots[i]);
      ParseWrittenRotation(rots[i]);
    }
  }

  /** Written rotations, one per line, read back as the same rotations. */
  lemma ReadWrittenRotations(rots: seq<Rotation>)
    requires |rots| >= 1
    requires forall i :: 0 <= i < |rots| ==> rots[i].dist < Decimal.U64Limit
    ensures ParseRotations(Text.Lines(WriteRotations(rots))) == Ok(rots)
  {
    var lines := WrittenLines(rots);
    WrittenLinesShape(rots);
    Text.LinesJoin(lines);
    CollectMapAll(ParseRotation, lines, rots);
  }
}
