/** Day 1, part 1 (day-01/src/part1.rs): the password is the number of
    rotations that leave the dial pointing at 0. */
module DialPassword {
  import opened Results
  import Text
  import opened Dial

  /** Rotation `i` of `rots` leaves the dial on 0. */
  predicate EndsOnZero(rots: seq<Rotation>, i: nat) {
    i < |rots| && DialAfter(rots[..i + 1]) == 0
  }

  /** How many of the rotations end with the dial on 0, each rotation being
      clicked out one step at a time from the start position. */
  function ZeroEndings(rots: seq<Rotation>): nat {
    |set i: nat | i < |rots| && EndsOnZero(rots, i)|
  }

  /** The earlier rotations end where they did before another is added. */
  lemma EndsOnZeroKept(rots: seq<Rotation>, rot: Rotation, i: nat)
    requires i < |rots|
    ensures EndsOnZero(rots + [rot], i) == EndsOnZero(rots, i)
  {
    assert (rots + [rot])[..i + 1] == rots[..i + 1];
  }

  /** One more rotation adds one to the count exactly when it ends on 0. */
  lemma ZeroEndingsAppend(rots: seq<Rotation>, rot: Rotation)
    ensures ZeroEndings(rots + [rot])
            == ZeroEndings(rots) + (if EndsOnZero(rots + [rot], |rots|) then 1 else 0)
  {
    var ext := rots + [rot];
    var before := set i: nat | i < |rots| && EndsOnZero(rots, i);
    var after := set i: nat | i < |ext| && EndsOnZero(ext, i);
    var last: set<nat> := if EndsOnZero(ext, |rots|) then {|rots|} else {};
    forall i: nat
      ensures i in after <==> i in before + last
    {
      if i < |rots| {
        EndsOnZeroKept(rots, rot, i);
      }
    }
    assert after == before + last;
    assert |rots| !in before;
  }

  /** The same step, with the last rotation clicked out from where the
      earlier ones left the dial. */
  lemma ZeroEndingsStep(rots: seq<Rotation>, rot: Rotation)
    ensures ZeroEndings(rots + [rot])
            == ZeroEndings(rots) + (if Clicks(DialAfter(rots), rot.dir, rot.dist) == 0 then 1 else 0)
  {
    ZeroEndingsAppend(rots, rot);
    DialAfterAppend(rots, rot);
    assert (rots + [rot])[..|rots| + 1] == rots + [rot];
  }

  /** One pass of the loop: a good line extends the parsed rotations, moves
      the dial to where its clicks end, and counts it when that is 0. */
  lemma CountStep(lines: seq<string>, i: nat, rots: seq<Rotation>, rot: Rotation, position: Position, count: nat)
    requires i < |lines| && ParseRotations(lines[..i]) == Ok(rots) && ParseRotation(lines[i]) == Ok(rot)
    requires position == DialAfter(rots) && count == ZeroEndings(rots)
    ensures ParseRotations(lines[..i + 1]) == Ok(rots + [rot])
    ensures Rotate(position, rot) == DialAfter(rots + [rot])
    ensures ZeroEndings(rots + [rot]) == count + if Rotate(position, rot) == 0 then 1 else 0
  {
    CollectMapAppend(ParseRotation, lines, i, rots);
    RotateIsClicks(position, rot);
    DialAfterAppend(rots, rot);
    ZeroEndingsStep(rots, rot);
  }

  /** The whole computation: parse every line (the first bad line is the
      error), then count the rotations that end on 0. */
  function Password(input: string): (r: Result<nat, DialError>)
  {
    match ParseRotations(Text.Lines(input))
    case Failure(e) => Failure(e)
    case Ok(rots) => Ok(ZeroEndings(rots))
  }

  /** `process`: one pass over the lines, updating the dial with the modular
      formula and counting landings on 0; a bad line aborts the pass. */
  method Process(input: string) returns (r: Result<nat, DialError>)
    ensures r == Password(input)
  {
    var lines := Text.Lines(input);
    var position: Position := StartPosition;
    var count: nat := 0;
    ghost var rots: seq<Rotation> := [];
    var i := 0;
    while i < |lines|
      invariant 0 <= i <= |lines|
      invariant ParseRotations(lines[..i]) == Ok(rots)
      invariant position == DialAfter(rots)
      invariant count == ZeroEndings(rots)
    {
      var parsed := ParseRotation(lines[i]);
      if parsed.Failure? {
        CollectMapFailsAt(ParseRotation, lines, i, rots);
        return Failure(parsed.error);
      }
      var rot := parsed.value;
      CountStep(lines, i, rots, rot, position, count);
      position := Rotate(position, rot);
      if position == 0 {
        count := count + 1;
      }
      rots := rots + [rot];
      i := i + 1;
    }
    assert lines[..i] == lines;
    return Ok(count);
  }
}
