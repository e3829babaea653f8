/** The string utilities of Rust's `str` that the puzzles rely on: `trim`,
    `split(',')`, `split_once('-')` and `lines()`. Whitespace is ASCII only. */
module Text {
  import opened Results

  /** ASCII whitespace: space, and tab through carriage return. */
  predicate IsWhitespace(c: char) {
    c == ' ' || '\t' <= c <= '\r'
  }

  predicate AllWhitespace(s: string) {
    forall i :: 0 <= i < |s| ==> IsWhitespace(s[i])
  }

  /** Number of whitespace characters at the front of `s`. */
  function LeadingSpace(s: string): (k: nat)
    ensures k <= |s|
  {
    if |s| == 0 || !IsWhitespace(s[0]) then 0 else 1 + LeadingSpace(s[1..])
  }

  /** The leading run is all whitespace and stops at a non-whitespace
      character or at the end. */
  lemma {:induction false} LeadingSpaceRun(s: string)
    ensures AllWhitespace(s[..LeadingSpace(s)])
    ensures LeadingSpace(s) == |s| || !IsWhitespace(s[LeadingSpace(s)])
    decreases |s|
  {
    if |s| > 0 && IsWhitespace(s[0]) {
      LeadingSpaceRun(s[1..]);
      assert s[..LeadingSpace(s)] == [s[0]] + s[1..][..LeadingSpace(s[1..])];
    }
  }

  /** Number of whitespace characters at the back of `s`. */
  function TrailingSpace(s: string): (k: nat)
    ensures k <= |s|
  {
    if |s| == 0 || !IsWhitespace(s[|s| - 1]) then 0 else 1 + TrailingSpace(s[..|s| - 1])
  }

  /** The trailing run is all whitespace and starts after a non-whitespace
      character or at the start. */
  lemma {:induction false} TrailingSpaceRun(s: string)
    ensures AllWhitespace(s[|s| - TrailingSpace(s)..])
    ensures TrailingSpace(s) == |s| || !IsWhitespace(s[|s| - TrailingSpace(s) - 1])
    decreases |s|
  {
    if |s| > 0 && IsWhitespace(s[|s| - 1]) {
      var init := s[..|s| - 1];
      TrailingSpaceRun(init);
      assert s[|s| - TrailingSpace(s)..] == init[|init| - TrailingSpace(init)..] + [s[|s| - 1]];
      if TrailingSpace(s) < |s| {
        assert s[|s| - TrailingSpace(s) - 1] == init[|init| - TrailingSpace(init) - 1];
      }
    }
  }

  /** `str::trim`: the slice of `s` left once leading and trailing whitespace
      is removed. The contract pins the result down uniquely. */
  function Trim(s: string): string {
    var a := LeadingSpace(s);
    if a == |s| then []
    else
      LeadingSpaceRun(s);
      TrailingSpaceRun(s);
      s[a..|s| - TrailingSpace(s)]
  }

  /** The trim is the slice between whitespace-only ends, and itself starts
      and ends with non-whitespace; this pins it down uniquely. */
  lemma TrimSlice(s: string)
    ensures var r := Trim(s);
      |r| == 0 || (!IsWhitespace(r[0]) && !IsWhitespace(r[|r| - 1]))
    ensures var r := Trim(s);
      exists a :: 0 <= a <= |s| - |r| && r == s[a..a + |r|]
                  && AllWhitespace(s[..a]) && AllWhitespace(s[a + |r|..])
  {
    LeadingSpaceRun(s);
    TrailingSpaceRun(s);
    var a := LeadingSpace(s);
    var r := Trim(s);
    if a == |s| {
      assert r == s[a..a + |r|];
    } else {
      assert s[a + |r|..] == s[|s| - TrailingSpace(s)..];
    }
  }

  /** A string with no whitespace at either end is its own trim. */
  lemma TrimUnpadded(s: string)
    requires |s| == 0 || (!IsWhitespace(s[0]) && !IsWhitespace(s[|s| - 1]))
    ensures Trim(s) == s
  {
  }

  /** Index of the first occurrence of `c` in `s`. */
  function FirstIndex(s: string, c: char): (k: nat)
    requires c in s
    ensures k < |s| && s[k] == c
  {
    if s[0] == c then 0 else 1 + FirstIndex(s[1..], c)
  }

  /** No occurrence of `c` comes before its first index. */
  lemma {:induction false} FirstIndexFirst(s: string, c: char)
    requires c in s
    ensures c !in s[..FirstIndex(s, c)]
    decreases |s|
  {
    if s[0] != c {
      FirstIndexFirst(s[1..], c);
      assert s[..FirstIndex(s, c)] == [s[0]] + s[1..][..FirstIndex(s[1..], c)];
    }
  }

  /** In `p + [c] + rest` with `c` absent from `p`, the first `c` sits right after `p`. */
  lemma FirstIndexAfter(p: string, c: char, rest: string)
    requires c !in p
    ensures c in p + [c] + rest
    ensures FirstIndex(p + [c] + rest, c) == |p|
  {
    var s := p + [c] + rest;
    assert s[|p|] == c;
    assert s[..|p|] == p;
    FirstIndexFirst(s, c);
  }

  /** `parts.join(sep)`: the pieces with one separator between neighbours. */
  function Join(parts: seq<string>, sep: char): string
    requires |parts| >= 1
  {
    if |parts| == 1 then parts[0] else parts[0] + [sep] + Join(parts[1..], sep)
  }

  /** A join starts with the first piece and ends with the last one. */
  lemma {:induction false} JoinFirstLast(parts: seq<string>, sep: char)
    requires |parts| >= 1 && |parts[0]| >= 1 && |parts[|parts| - 1]| >= 1
    ensures |Join(parts, sep)| >= 1
    ensures Join(parts, sep)[0] == parts[0][0]
    ensures Join(parts, sep)[|Join(parts, sep)| - 1] == parts[|parts| - 1][|parts[|parts| - 1]| - 1]
    decreases |parts|
  {
    if |parts| > 1 {
      JoinTail(parts[1..], sep);
    }
  }

  /** The end of a join is the end of its last piece. */
  lemma {:induction false} JoinTail(parts: seq<string>, sep: char)
    requires |parts| >= 1 && |parts[|parts| - 1]| >= 1
    ensures |Join(parts, sep)| >= 1
    ensures Join(parts, sep)[|Join(parts, sep)| - 1] == parts[|parts| - 1][|parts[|parts| - 1]| - 1]
    decreases |parts|
  {
    if |parts| > 1 {
      JoinTail(parts[1..], sep);
    }
  }

  /** `str::split(sep)`: the maximal separator-free pieces, in order. */
  function Split(s: string, sep: char): (parts: seq<string>)
    ensures |parts| >= 1
    ensures forall i :: 0 <= i < |parts| ==> sep !in parts[i]
    ensures Join(parts, sep) == s
    decreases |s|
  {
    if sep !in s then [s]
    else
      var k := FirstIndex(s, sep);
      FirstIndexFirst(s, sep);
      assert s == s[..k] + [sep] + s[k + 1..];
      [s[..k]] + Split(s[k + 1..], sep)
  }

  /** Splitting undoes joining when no piece holds the separator. */
  lemma {:induction false} SplitJoin(parts: seq<string>, sep: char)
    requires |parts| >= 1
    requires forall i :: 0 <= i < |parts| ==> sep !in parts[i]
    ensures Split(Join(parts, sep), sep) == parts
    decreases |parts|
  {
    if |parts| == 1 {
    } else {
      var s := Join(parts, sep);
      var p, rest := parts[0], Join(parts[1..], sep);
      assert s == p + [sep] + rest;
      FirstIndexAfter(p, sep, rest);
      assert s[..|p|] == p && s[|p| + 1..] == rest;
      SplitJoin(parts[1..], sep);
    }
  }

  /** Splitting a trimmed join gives back the pieces when the join has no
      surrounding whitespace and no piece holds the separator. */
  lemma SplitTrimmedJoin(parts: seq<string>, sep: char)
    requires |parts| >= 1
    requires forall i :: 0 <= i < |parts| ==> sep !in parts[i]
    requires |parts[0]| >= 1 && !IsWhitespace(parts[0][0])
    requires |parts[|parts| - 1]| >= 1 && !IsWhitespace(parts[|parts| - 1][|parts[|parts| - 1]| - 1])
    ensures Split(Trim(Join(parts, sep)), sep) == parts
  {
    JoinFirstLast(parts, sep);
    TrimUnpadded(Join(parts, sep));
    SplitJoin(parts, sep);
  }

  /** `str::split_once(sep)`: the text before and after the first separator. */
  function SplitOnce(s: string, sep: char): Option<(string, string)> {
    if sep !in s then None
    else
      var k := FirstIndex(s, sep);
      Some((s[..k], s[k + 1..]))
  }

  /** `split_once` finds a separator exactly when there is one, and then
      the text is the part before it, the separator and the part after,
      with no separator before. */
  lemma SplitOnceParts(s: string, sep: char)
    ensures SplitOnce(s, sep).None? <==> sep !in s
    ensures SplitOnce(s, sep).Some? ==>
              var (a, b) := SplitOnce(s, sep).value;
              s == a + [sep] + b && sep !in a
  {
    if sep in s {
      var k := FirstIndex(s, sep);
      FirstIndexFirst(s, sep);
      assert s == s[..k] + [sep] + s[k + 1..];
    }
  }

  /** Splitting once at the separator recovers the two sides. */
  lemma SplitOnceJoin(a: string, b: string, sep: char)
    requires sep !in a
    ensures SplitOnce(a + [sep] + b, sep) == Some((a, b))
  {
    var s := a + [sep] + b;
    FirstIndexAfter(a, sep, b);
    assert s[..|a|] == a && s[|a| + 1..] == b;
  }

  /** A line without its `\r` when it ended in one (a `\r\n` terminator). */
  function StripCr(line: string): string {
    if |line| > 0 && line[|line| - 1] == '\r' then line[..|line| - 1] else line
  }

  /** `str::lines`: split at `\n`, drop a `\r` that precedes a `\n`, and do
      not report an empty piece after a final `\n`. */
  function Lines(s: string): seq<string>
    decreases |s|
  {
    if |s| == 0 then []
    else if '\n' !in s then [s]
    else
      var k := FirstIndex(s, '\n');
      [StripCr(s[..k])] + Lines(s[k + 1..])
  }

  /** No line holds a `\n`, and only the empty text has no lines. */
  lemma {:induction false} LinesSpec(s: string)
    ensures forall i :: 0 <= i < |Lines(s)| ==> '\n' !in Lines(s)[i]
    ensures |Lines(s)| == 0 <==> |s| == 0
    decreases |s|
  {
    if |s| > 0 && '\n' in s {
      var k := FirstIndex(s, '\n');
      FirstIndexFirst(s, '\n');
      var line, rest := StripCr(s[..k]), s[k + 1..];
      LinesSpec(rest);
      StripCrKeepsOut(s[..k], '\n');
      assert Lines(s) == [line] + Lines(rest);
      forall i | 0 <= i < |Lines(s)|
        ensures '\n' !in Lines(s)[i]
      {
        if i > 0 {
          assert Lines(s)[i] == Lines(rest)[i - 1];
        }
      }
    }
  }

  /** Dropping a final `\r` adds no character. */
  lemma StripCrKeepsOut(line: string, c: char)
    requires c !in line
    ensures c !in StripCr(line)
  {
    if |line| > 0 && line[|line| - 1] == '\r' {
      assert forall i :: 0 <= i < |line| - 1 ==> StripCr(line)[i] == line[i];
    }
  }

  /** A line as `lines` reports it: no `\n` inside and no `\r` at its end. */
  predicate PlainLine(line: string) {
    '\n' !in line && (|line| == 0 || line[|line| - 1] != '\r')
  }

  /** A plain line followed by `\n` is read first. */
  lemma LinesCons(p: string, rest: string)
    requires PlainLine(p)
    ensures Lines(p + ['\n'] + rest) == [p] + Lines(rest)
  {
    var s := p + ['\n'] + rest;
    FirstIndexAfter(p, '\n', rest);
    assert s[..|p|] == p && s[|p| + 1..] == rest;
  }

  /** Plain lines joined by `\n` (as the tests build their inputs) are read
      back unchanged when the last one is not empty. */
  lemma {:induction false} LinesJoin(ls: seq<string>)
    requires |ls| >= 1 && |ls[|ls| - 1]| > 0
    requires forall i :: 0 <= i < |ls| ==> PlainLine(ls[i])
    ensures Lines(Join(ls, '\n')) == ls
    decreases |ls|
  {
    if |ls| > 1 {
      var tail := ls[1..];
      assert forall i :: 0 <= i < |tail| ==> tail[i] == ls[i + 1];
      LinesJoin(tail);
      LinesCons(ls[0], Join(tail, '\n'));
    }
  }
}
