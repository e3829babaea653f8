/** Day 1, part 2 (day-01/src/part2.rs): the password is the number of
    single clicks, over all rotations, that leave the dial on 0. */
module DialCrossings {
  import opened Results
  import Text
  import Decimal
  import opened Dial

  /** Clicking `a` then `b` steps is clicking `a + b` steps. */
  lemma {:induction false} ClicksAdd(p: Position, d: Direction, a: nat, b: nat)
    ensures Clicks(p, d, a + b) == Clicks(Clicks(p, d, a), d, b)
    decreases b
  {
    if b > 0 {
      ClicksAdd(p, d, a, b - 1);
    }
  }

  /** How many clicks the dial needs to first reach 0 (part2.rs:18-25). */
  function FirstZeroDistance(p: Position, d: Direction): (f: nat)
    ensures 1 <= f <= 100
  {
    var first := if d.Right? then 100 - p else p;
    if d.Left? && p == 0 then 100 else first
  }

  /** That distance is where the dial first reads 0: no earlier click lands there. */
  lemma FirstZeroIsFirst(p: Position, d: Direction)
    ensures Clicks(p, d, FirstZeroDistance(p, d)) == 0
    ensures forall t :: 1 <= t < FirstZeroDistance(p, d) ==> Clicks(p, d, t) != 0
  {
    var f := FirstZeroDistance(p, d);
    ClicksClosedForm(p, d, f);
    Decimal.DivModUnique(if d == Right then p + f else p - f, 100, if d == Right then 1 else if p == 0 then -1 else 0, 0);
    forall t | 1 <= t < f
      ensures Clicks(p, d, t) != 0
    {
      ClicksClosedForm(p, d, t);
      if d == Right {
        Decimal.DivModUnique(p + t, 100, 0, p + t);
      } else if p == 0 {
        Decimal.DivModUnique(p - t, 100, -1, 100 - t);
      } else {
        Decimal.DivModUnique(p - t, 100, 0, p - t);
      }
    }
  }

  /** Zero hits of one rotation, as the code counts them (part2.rs:26-30):
      every full turn passes 0 once and the part turn at most once more;
      there is no hit exactly when the dial stops short of its first 0. */
  function ZeroHits(p: Position, r: Rotation): (h: nat)
    ensures h == 0 <==> r.dist < FirstZeroDistance(p, r.dir)
    ensures r.dist / 100 <= h <= r.dist / 100 + 1
  {
    var first := FirstZeroDistance(p, r.dir);
    if r.dist < first then 0 else 1 + (r.dist - first) / 100
  }

  /** Of the first `n` single clicks from `p`, how many leave the dial on 0. */
  function ZeroClicks(p: Position, d: Direction, n: nat): nat {
    |set t | 1 <= t <= n && Clicks(p, d, t) == 0|
  }

  lemma ZeroClicksStep(p: Position, d: Direction, n: nat)
    requires n >= 1
    ensures ZeroClicks(p, d, n) == ZeroClicks(p, d, n - 1) + (if Clicks(p, d, n) == 0 then 1 else 0)
  {
    var before := set t | 1 <= t <= n - 1 && Clicks(p, d, t) == 0;
    var after := set t | 1 <= t <= n && Clicks(p, d, t) == 0;
    if Clicks(p, d, n) == 0 {
      assert after == before + {n};
    } else {
      assert after == before;
    }
  }

  /** Clicking left `m` times from 0 returns to 0 exactly when `m` is a
      multiple of 100, as clicking right does. */
  lemma ZeroAfterWholeTurns(d: Direction, m: nat)
    ensures Clicks(0, d, m) == 0 <==> m % 100 == 0
  {
    ClicksClosedForm(0, d, m);
    Decimal.DivModUnique(m, 100, m / 100, m % 100);
    if d == Left {
      if m % 100 != 0 {
        Decimal.DivModUnique(0 - m, 100, -(m / 100) - 1, 100 - m % 100);
      } else {
        Decimal.DivModUnique(0 - m, 100, -(m / 100), 0);
      }
    }
  }

  /** After the first zero, the dial is on 0 again exactly every 100 clicks. */
  lemma ZeroAfterFirst(p: Position, d: Direction, n: nat)
    requires n >= FirstZeroDistance(p, d)
    ensures Clicks(p, d, n) == 0 <==> (n - FirstZeroDistance(p, d)) % 100 == 0
  {
    var f := FirstZeroDistance(p, d);
    FirstZeroIsFirst(p, d);
    ClicksAdd(p, d, f, n - f);
    ZeroAfterWholeTurns(d, n - f);
  }

  /** The closed form counts exactly the clicks that land on 0. */
  lemma {:induction false} ZeroHitsCountsClicks(p: Position, r: Rotation)
    ensures ZeroHits(p, r) == ZeroClicks(p, r.dir, r.dist)
    decreases r.dist
  {
    var f := FirstZeroDistance(p, r.dir);
    FirstZeroIsFirst(p, r.dir);
    var n := r.dist;
    if n == 0 {
      assert (set t | 1 <= t <= 0 && Clicks(p, r.dir, t) == 0) == {};
    } else {
      var prev := Rotation(r.dir, n - 1);
      ZeroHitsCountsClicks(p, prev);
      ZeroClicksStep(p, r.dir, n);
      if n > f {
        ZeroAfterFirst(p, r.dir, n);
        var m := n - f;
        Decimal.DivModUnique(m, 100, m / 100, m % 100);
        if m % 100 == 0 {
          Decimal.DivModUnique(m - 1, 100, m / 100 - 1, 99);
        } else {
          Decimal.DivModUnique(m - 1, 100, m / 100, m % 100 - 1);
        }
      } else if n == f {
      }
    }
  }

  /** Landings on 0 over all rotations, each clicked out from where the
      previous rotations left the dial. */
  function ZeroPasses(rots: seq<Rotation>): nat
    decreases |rots|
  {
    if |rots| == 0 then 0
    else
      var init := rots[..|rots| - 1];
      var last := rots[|rots| - 1];
      ZeroPasses(init) + ZeroClicks(DialAfter(init), last.dir, last.dist)
  }

  lemma ZeroPassesAppend(rots: seq<Rotation>, rot: Rotation)
    ensures ZeroPasses(rots + [rot]) == ZeroPasses(rots) + ZeroClicks(DialAfter(rots), rot.dir, rot.dist)
  {
    assert (rots + [rot])[..|rots|] == rots;
  }

  /** The whole computation: parse every line (the first bad line is the
      error), then count every click that lands on 0. */
  function Password(input: string): (r: Result<nat, DialError>)
  {
    match ParseRotations(Text.Lines(input))
    case Failure(e) => Failure(e)
    case Ok(rots) => Ok(ZeroPasses(rots))
  }

  /** `process`: one pass over the lines adding each rotation's closed-form
      hit count and moving the dial; a bad line aborts the pass. */
  method Process(input: string) returns (r: Result<nat, DialError>)
    ensures r == Password(input)
  {
    var lines := Text.Lines(input);
    var position: Position := StartPosition;
    var crossings: nat := 0;
    ghost var rots: seq<Rotation> := [];
    var i := 0;
    while i < |lines|
      invariant 0 <= i <= |lines|
      invariant ParseRotations(lines[..i]) == Ok(rots)
      invariant position == DialAfter(rots)
      invariant crossings == ZeroPasses(rots)
    {
      var parsed := ParseRotation(lines[i]);
      if parsed.Failure? {
        CollectMapFailsAt(ParseRotation, lines, i, rots);
        return Failure(parsed.error);
      }
      var rot := parsed.value;
      CollectMapAppend(ParseRotation, lines, i, rots);
      ZeroHitsCountsClicks(position, rot);
      ZeroPassesAppend(rots, rot);
      crossings := crossings + ZeroHits(position, rot);
      RotateIsClicks(position, rot);
      DialAfterAppend(rots, rot);
      position := Rotate(position, rot);
      rots := rots + [rot];
      i := i + 1;
    }
    assert lines[..i] == lines;
    return Ok(crossings);
  }
}
