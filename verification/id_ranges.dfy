/** Day 2 input: a comma-separated list of `start-stop` ranges of product ids
    (`extract_ranges`, day-02/src/part2.rs:63-94; the same parsing is written
    inline in day-02/src/part1.rs:24-43). */
module IdRanges {
  import opened Results
  import Text
  import Decimal

  /** A closed range of ids, `start..=stop`. Nothing requires `start <= stop`. */
  datatype IdRange = IdRange(start: nat, stop: nat)

  datatype RangeError = MalformedRange | InvalidStart | InvalidStop

  /** The two sides of a token, start first: the start is parsed first. */
  function ParseBounds(startText: string, stopText: string): (r: Result<IdRange, RangeError>)
    ensures r.Ok? <==> Decimal.ParseU64(startText).Some? && Decimal.ParseU64(stopText).Some?
    ensures r.Ok? ==> r.value == IdRange(Decimal.ParseU64(startText).value, Decimal.ParseU64(stopText).value)
    ensures r == Failure(InvalidStart) <==> Decimal.ParseU64(startText).None?
    ensures r == Failure(InvalidStop) <==>
              Decimal.ParseU64(startText).Some? && Decimal.ParseU64(stopText).None?
  {
    match Decimal.ParseU64(startText)
    case None => Failure(InvalidStart)
    case Some(start) =>
      match Decimal.ParseU64(stopText)
      case None => Failure(InvalidStop)
      case Some(stop) => Ok(IdRange(start, stop))
  }

  /** One token: trimmed, split at its first `-`, both sides parsed as `u64`.
      It is malformed exactly when its trimmed text has no dash, and a parsed
      range has both bounds below 2^64. */
  function ParseRange(token: string): (r: Result<IdRange, RangeError>)
    ensures r == Failure(MalformedRange) <==> '-' !in Text.Trim(token)
    ensures r.Ok? ==> r.value.start < Decimal.U64Limit && r.value.stop < Decimal.U64Limit
  {
    Text.SplitOnceParts(Text.Trim(token), '-');
    match Text.SplitOnce(Text.Trim(token), '-')
    case None => Failure(MalformedRange)
    case Some((startText, stopText)) => ParseBounds(startText, stopText)
  }

  /** Only the first `-` splits: a second one lands in the stop text, which
      then is no number, so the token fails on its stop value, whatever
      whitespace surrounds it. */
  lemma SecondDashRejected(a: string, b: string)
    requires Decimal.ParseU64(a).Some? && '-' in b
    ensures ParseRange(a + "-" + b) == Failure(InvalidStop)
  {
    var token := a + "-" + b;
    Decimal.ParseU64Digits(a);
    assert '-' !in a by {
      if '-' in a { DashIsNoNumber(a); }
    }
    assert token[0] == a[0] && !Text.IsWhitespace(token[0]);
    assert Text.LeadingSpace(token) == 0;
    Text.TrailingSpaceRun(token);
    var end := |token| - Text.TrailingSpace(token);
    var k :| 0 <= k < |b| && b[k] == '-';
    assert token[|a| + 1 + k] == '-';
    assert |a| + 1 + k < end;
    var stopText := token[|a| + 1..end];
    assert stopText[k] == '-';
    assert Text.Trim(token) == token[..end] == a + "-" + stopText;
    Text.SplitOnceJoin(a, stopText, '-');
    DashIsNoNumber(stopText);
  }

  /** No `u64` text holds a dash. */
  lemma DashIsNoNumber(s: string)
    requires '-' in s
    ensures Decimal.ParseU64(s).None?
  {
    var k :| 0 <= k < |s| && s[k] == '-';
    assert !Decimal.IsDigit(s[k]);
  }

  /** How a range is written: two decimal numbers joined by `-`. */
  function WriteRange(r: IdRange): string {
    Decimal.ToDecimal(r.start) + "-" + Decimal.ToDecimal(r.stop)
  }

  /** A written range reads back as itself. */
  lemma ParseWrittenRange(r: IdRange)
    requires r.start < Decimal.U64Limit && r.stop < Decimal.U64Limit
    ensures ParseRange(WriteRange(r)) == Ok(r)
  {
    var a, b := Decimal.ToDecimal(r.start), Decimal.ToDecimal(r.stop);
    WrittenRangeShape(r);
    Text.TrimUnpadded(WriteRange(r));
    assert '-' !in a by { assert forall i :: 0 <= i < |a| ==> Decimal.IsDigit(a[i]); }
    Text.SplitOnceJoin(a, b, '-');
    Decimal.ParseToDecimal(r.start);
    Decimal.ParseToDecimal(r.stop);
  }

  /** A written range starts and ends with a digit and holds no comma. */
  lemma WrittenRangeShape(r: IdRange)
    ensures |WriteRange(r)| >= 3
    ensures Decimal.IsDigit(WriteRange(r)[0])
    ensures Decimal.IsDigit(WriteRange(r)[|WriteRange(r)| - 1])
    ensures ',' !in WriteRange(r)
  {
    var a, b := Decimal.ToDecimal(r.start), Decimal.ToDecimal(r.stop);
    var w := WriteRange(r);
    assert w[0] == a[0];
    assert w[|w| - 1] == b[|b| - 1];
    assert forall i :: 0 <= i < |w| ==> w[i] == '-' || Decimal.IsDigit(w[i]) by {
      forall i | 0 <= i < |w|
        ensures w[i] == '-' || Decimal.IsDigit(w[i])
      {
        if i < |a| {
          assert w[i] == a[i];
        } else if i > |a| {
          assert w[i] == b[i - |a| - 1];
        }
      }
    }
  }

  /** Parses tokens in order; the first failing token decides the error. */
  function ParseRanges(tokens: seq<string>): Result<seq<IdRange>, RangeError> {
    Collect(Map(ParseRange, tokens))
  }

  /** The comma-separated tokens of the trimmed input. */
  function Tokens(input: string): (tokens: seq<string>)
    ensures |tokens| >= 1
  {
    Text.Split(Text.Trim(input), ',')
  }

  /** `extract_ranges`: one range per token, in input order, or the error of
      the first bad token. An empty input is one empty token, hence an error. */
  function ExtractRanges(input: string): (r: Result<seq<IdRange>, RangeError>)
    ensures r.Ok? <==> forall i :: 0 <= i < |Tokens(input)| ==> ParseRange(Tokens(input)[i]).Ok?
    ensures r.Ok? ==>
              |r.value| == |Tokens(input)|
              && forall i :: 0 <= i < |r.value| ==> ParseRange(Tokens(input)[i]) == Ok(r.value[i])
    ensures r.Failure? ==>
              exists i :: 0 <= i < |Tokens(input)| && ParseRange(Tokens(input)[i]) == Failure(r.error)
                          && forall j :: 0 <= j < i ==> ParseRange(Tokens(input)[j]).Ok?
  {
    ParseRangesSpec(Tokens(input));
    ParseRanges(Tokens(input))
  }

  /** The tokens give one range each, in order, exactly when every token
      parses; otherwise the error is that of the first token that does not. */
  lemma ParseRangesSpec(tokens: seq<string>)
    ensures ParseRanges(tokens).Ok? <==> forall i :: 0 <= i < |tokens| ==> ParseRange(tokens[i]).Ok?
    ensures ParseRanges(tokens).Ok? ==>
              |ParseRanges(tokens).value| == |tokens|
              && forall i :: 0 <= i < |tokens| ==> ParseRange(tokens[i]) == Ok(ParseRanges(tokens).value[i])
    ensures ParseRanges(tokens).Failure? ==>
              exists i :: 0 <= i < |tokens| && ParseRange(tokens[i]) == Failure(ParseRanges(tokens).error)
                          && forall j :: 0 <= j < i ==> ParseRange(tokens[j]).Ok?
  {
    MapSpec(ParseRange, tokens);
    CollectSpec(Map(ParseRange, tokens));
  }

  /** One written range per range. */
  function WrittenRanges(rs: seq<IdRange>): (tokens: seq<string>)
    ensures |tokens| == |rs|
    ensures forall i :: 0 <= i < |rs| ==> tokens[i] == WriteRange(rs[i])
  {
    seq(|rs|, i requires 0 <= i < |rs| => WriteRange(rs[i]))
  }

  /** Ranges written and joined by commas, as the tests write them. */
  function WriteRanges(rs: seq<IdRange>): string
    requires |rs| >= 1
  {
    Text.Join(WrittenRanges(rs), ',')
  }

  /** `extract_ranges` reads written ranges back, in order. */
  lemma ExtractWrittenRanges(rs: seq<IdRange>)
    requires |rs| >= 1
    requires forall i :: 0 <= i < |rs| ==> rs[i].start < Decimal.U64Limit && rs[i].stop < Decimal.U64Limit
    ensures ExtractRanges(WriteRanges(rs)) == Ok(rs)
  {
    TokensOfWritten(rs);
    ParseWrittenTokens(rs);
  }

  /** Splitting joined written ranges gives back the written ranges. */
  lemma TokensOfWritten(rs: seq<IdRange>)
    requires |rs| >= 1
    ensures Tokens(WriteRanges(rs)) == WrittenRanges(rs)
  {
    var tokens := WrittenRanges(rs);
    WrittenTokensShape(rs);
    Text.SplitTrimmedJoin(tokens, ',');
  }

  /** Every written range is a comma-free token between digits. */
  lemma WrittenTokensShape(rs: seq<IdRange>)
    ensures forall i :: 0 <= i < |rs| ==>
      var t := WrittenRanges(rs)[i];
      |t| >= 1 && ',' !in t && Decimal.IsDigit(t[0]) && Decimal.IsDigit(t[|t| - 1])
  {
    forall i | 0 <= i < |rs|
      ensures var t := WrittenRanges(rs)[i];
        |t| >= 1 && ',' !in t && Decimal.IsDigit(t[0]) && Decimal.IsDigit(t[|t| - 1])
    {
      WrittenRangeShape(rs[i]);
    }
  }

  /** Written ranges parse back one by one, in order. */
  lemma ParseWrittenTokens(rs: seq<IdRange>)
    requires forall i :: 0 <= i < |rs| ==> rs[i].start < Decimal.U64Limit && rs[i].stop < Decimal.U64Limit
    ensures ParseRanges(WrittenRanges(rs)) == Ok(rs)
  {
    var tokens := WrittenRanges(rs);
    var each := Map(ParseRange, tokens);
    MapSpec(ParseRange, tokens);
    forall i | 0 <= i < |rs|
      ensures each[i] == Ok(rs[i])
    {
      ParseWrittenRange(rs[i]);
    }
    var r := Collect(each);
    CollectSpec(each);
    assert r.Ok?;
    assert r.value == rs;
  }

  /** A missing stop is no `u64`: a number followed by a dash fails on its
      stop value. */
  lemma EmptyStopRejected(a: string)
    requires Decimal.ParseU64(a).Some?
    ensures ParseRange(a + "-") == Failure(InvalidStop)
  {
    var token := a + "-";
    assert token[0] == a[0];
    Text.TrimUnpadded(token);
    Text.SplitOnceJoin(a, "", '-');
    assert a + ['-'] + "" == token;
  }

  /** A missing start is no `u64` either: a token that opens with its dash
      fails on its start value, whatever follows. */
  lemma EmptyStartRejected(b: string)
    ensures ParseRange("-" + b) == Failure(InvalidStart)
  {
    var token := "-" + b;
    assert token[0] == '-' && !Text.IsWhitespace(token[0]);
    assert Text.LeadingSpace(token) == 0;
    Text.TrailingSpaceRun(token);
    var t := Text.Trim(token);
    assert t == token[..|token| - Text.TrailingSpace(token)];
    assert |t| >= 1 && t[0] == '-';
    assert "" + ['-'] + t[1..] == t;
    Text.SplitOnceJoin("", t[1..], '-');
  }

  /** A token without a dash is malformed, whatever else it holds. */
  lemma NoDashMalformed(token: string)
    requires '-' !in token
    ensures ParseRange(token) == Failure(MalformedRange)
  {
    var t := Text.Trim(token);
    Text.TrimSlice(token);
    var a :| 0 <= a <= |token| - |t| && t == token[a..a + |t|]
             && Text.AllWhitespace(token[..a]) && Text.AllWhitespace(token[a + |t|..]);
    forall i | 0 <= i < |t|
      ensures t[i] != '-'
    {
      assert t[i] == token[a + i];
    }
  }

  /** `"12-"` fails on its missing stop. */
  lemma MissingStopToken(token: string)
    requires token == "12-"
    ensures ParseRange(token) == Failure(InvalidStop)
  {
    TwelveParses();
    EmptyStopRejected("12");
    assert "12" + "-" == token;
  }

  /** `"-12"` fails on its missing start. */
  lemma MissingStartToken(token: string)
    requires token == "-12"
    ensures ParseRange(token) == Failure(InvalidStart)
  {
    EmptyStartRejected("12");
    assert "-" + "12" == token;
  }

  /** `" 12 "` has no dash and is malformed. */
  lemma UndashedToken(token: string)
    requires token == " 12 "
    ensures ParseRange(token) == Failure(MalformedRange)
  {
    NoDashMalformed(token);
  }

  lemma TwelveParses()
    ensures Decimal.ParseU64("12") == Some(12)
  {
    Decimal.ParseToDecimal(12);
    assert Decimal.ToDecimal(12) == "12";
  }
}
