/**
 * The worked example of `FillSetsAndStatus`: the set scores
 * "(25-11) (12-25) (25-23) (25-15)" with empty set columns give the home
 * side three sets, the away side one, and a finished match.
 */
module SetScoreExample {
  import opened Wrappers
  import opened Text
  import opened Models
  import opened MatchScraperService
  import opened TextProofs
  import opened SetScoreProofs

  const Sample: string := "(25-11) (12-25) (25-23) (25-15)"

  /** `part` is a dash-separated pair of two-digit scores, `"hh-aa"`. */
  predicate IsPairText(part: string) {
    |part| == 5 && part[2] == '-' &&
    IsDigit(part[0]) && IsDigit(part[1]) && IsDigit(part[3]) && IsDigit(part[4])
  }

  /** A text made of digits and dashes has no white space at its ends. */
  lemma NoSpaceInScore(part: string)
    requires IsPairText(part)
    ensures !HasChar(part[..2], '-') && !HasChar(part[3..], '-')
    ensures Trim(part[..2]) == part[..2] && Trim(part[3..]) == part[3..]
  {
    TrimKeepsTrimmed(part[..2]);
    TrimKeepsTrimmed(part[3..]);
  }

  /** The number written by two decimal digits. */
  function TwoDigits(s: string): nat
    requires |s| == 2 && IsDigit(s[0]) && IsDigit(s[1])
  {
    10 * (s[0] as int - '0' as int) + (s[1] as int - '0' as int)
  }

  /** Two digits read as an integer. */
  lemma ParseTwoDigits(s: string)
    requires |s| == 2 && IsDigit(s[0]) && IsDigit(s[1])
    ensures ParseInt(s) == Some(TwoDigits(s))
  {
    assert s[..1][..0] == "";
    assert s[..1][0] == s[0];
    assert DigitsValue(s[..1]) == Some(s[0] as int - '0' as int);
    assert s[..|s| - 1] == s[..1];
    assert DigitsValue(s) == Some(TwoDigits(s));
    assert s[0] != '-' && s[0] != '+';
  }

  /** A `"hh-aa"` part reads as the pair of its two numbers. */
  lemma PairOfPairText(part: string)
    requires IsPairText(part)
    ensures PairOf(part) == Some((TwoDigits(part[..2]), TwoDigits(part[3..])))
  {
    NoSpaceInScore(part);
    assert part == Join([part[..2], part[3..]], '-');
    SplitOnJoin([part[..2], part[3..]], '-');
    assert Entries([part[..2], part[3..]]) == [part[..2], part[3..]] by {
      assert [part[..2], part[3..]][1..] == [part[3..]];
    }
    ParseTwoDigits(part[..2]);
    ParseTwoDigits(part[3..]);
  }

  /** A pair text in parentheses. */
  function Parenthesised(part: string): string {
    "(" + part + ")"
  }

  /** A parenthesised pair text has no space and no white space at its ends; its pair text has a dash. */
  lemma ParenthesisedPart(part: string)
    requires IsPairText(part)
    ensures !HasChar(Parenthesised(part), ' ')
    ensures Trim(Parenthesised(part)) == Parenthesised(part)
    ensures TrimBy(Parenthesised(part), IsParen) == part
    ensures HasChar(part, '-')
  {
    var q := Parenthesised(part);
    TrimKeepsTrimmed(q);
    var p' := part + ")";
    assert q[1..] == p';
    assert p'[0] == part[0] && !IsParen(part[0]);
    assert TrimStartBy(q, IsParen) == p';
    assert p'[..|p'| - 1] == part;
    assert !IsParen(part[|part| - 1]);
    assert TrimEndBy(part, IsParen) == part;
    assert TrimEndBy(p', IsParen) == part;
    assert part[2] == '-';
  }

  /** The pieces of the sample: its four pairs in parentheses. */
  lemma SamplePieces()
    ensures Sample == Join([Parenthesised("25-11"), Parenthesised("12-25"), Parenthesised("25-23"), Parenthesised("25-15")], ' ')
  {
    var ps := [Parenthesised("25-11"), Parenthesised("12-25"), Parenthesised("25-23"), Parenthesised("25-15")];
    assert ps[1..][1..][1..] == [ps[3]];
    assert Join(ps, ' ') == ps[0] + " " + (ps[1] + " " + (ps[2] + " " + ps[3]));
  }

  /** The parentheses stripped from every piece. */
  lemma {:induction false} StripParensOf(parts: seq<string>)
    requires forall k :: 0 <= k < |parts| ==> IsPairText(parts[k])
    ensures StripParens(seq(|parts|, k requires 0 <= k < |parts| => Parenthesised(parts[k]))) == parts
  {
    var pieces := seq(|parts|, k requires 0 <= k < |parts| => Parenthesised(parts[k]));
    if |parts| > 0 {
      ParenthesisedPart(parts[0]);
      StripParensOf(parts[1..]);
      assert pieces[1..] == seq(|parts[1..]|, k requires 0 <= k < |parts[1..]| => Parenthesised(parts[1..][k]));
      assert parts == [parts[0]] + parts[1..];
    }
  }

  /** The set parts of the sample are its four pairs, parentheses stripped. */
  lemma SampleParts()
    ensures SetParts(Sample) == ["25-11", "12-25", "25-23", "25-15"]
  {
    var parts := ["25-11", "12-25", "25-23", "25-15"];
    var pieces := seq(|parts|, k requires 0 <= k < |parts| => Parenthesised(parts[k]));
    forall k | 0 <= k < |parts|
      ensures IsPairText(parts[k])
      ensures !HasChar(pieces[k], ' ') && Trim(pieces[k]) == pieces[k] != "" && HasChar(parts[k], '-')
    {
      ParenthesisedPart(parts[k]);
    }
    SamplePieces();
    assert pieces == [Parenthesised("25-11"), Parenthesised("12-25"), Parenthesised("25-23"), Parenthesised("25-15")];
    SplitOnJoin(pieces, ' ');
    EntriesKeep(pieces);
    StripParensOf(parts);
    WithCharKeeps(parts, '-');
  }

  /** The score pair of a `"hh-aa"` part. */
  lemma ScoreOfPart(parts: seq<string>, k: nat)
    requires k < |parts| && IsPairText(parts[k])
    ensures Scores(parts)[k] == Some((TwoDigits(parts[k][..2]), TwoDigits(parts[k][3..])))
  {
    PairOfPairText(parts[k]);
  }

  /** The first two parts of the sample: one set each. */
  lemma SampleFirstHalf(parts: seq<string>)
    requires |parts| == 4 && parts[0] == "25-11" && parts[1] == "12-25"
    ensures Tally(Scores(parts), 2).0 == 1 && Tally(Scores(parts), 2).1 == 1
  {
    ScoreOfPart(parts, 0);
    ScoreOfPart(parts, 1);
    assert Tally(Scores(parts), 1).0 == 1 && Tally(Scores(parts), 1).1 == 0;
  }

  /** The last two parts of the sample: two sets to the home side. */
  lemma SampleSecondHalf(parts: seq<string>)
    requires |parts| == 4 && parts[2] == "25-23" && parts[3] == "25-15"
    ensures Tally(Scores(parts), 4).0 == Tally(Scores(parts), 2).0 + 2
    ensures Tally(Scores(parts), 4).1 == Tally(Scores(parts), 2).1
  {
    ScoreOfPart(parts, 2);
    ScoreOfPart(parts, 3);
    assert Tally(Scores(parts), 3).0 == Tally(Scores(parts), 2).0 + 1;
  }

  /** The tally of the sample's parts: three sets to one. */
  lemma SampleTally(parts: seq<string>)
    requires parts == ["25-11", "12-25", "25-23", "25-15"]
    ensures Tally(Scores(parts), |parts|).0 == 3 && Tally(Scores(parts), |parts|).1 == 1
  {
    SampleFirstHalf(parts);
    SampleSecondHalf(parts);
  }

  /** Without set columns, the counts are the tally of the set parts, and a match with set parts is finished. */
  lemma CountsFromParts(m: MatchDto, parts: seq<string>)
    requires m.homeSets.None? && m.awaySets.None? && m.setScores.Some? && !IsBlank(m.setScores.value)
    requires SetParts(m.setScores.value) == parts && |parts| > 0
    ensures SetsAndStatus(m).homeSets == Some(Tally(Scores(parts), |parts|).0)
    ensures SetsAndStatus(m).awaySets == Some(Tally(Scores(parts), |parts|).1)
    ensures SetsAndStatus(m).isFinished == Some(true)
  {
  }

  /** The sample without set columns: three sets to one, finished. */
  lemma SampleResult(m: MatchDto)
    requires m.homeSets.None? && m.awaySets.None? && m.setScores == Some(Sample)
    ensures SetsAndStatus(m).homeSets == Some(3)
    ensures SetsAndStatus(m).awaySets == Some(1)
    ensures SetsAndStatus(m).isFinished == Some(true)
  {
    SampleParts();
    assert !IsBlank(Sample) by {
      assert !IsWhiteSpace(Sample[0]);
    }
    var parts := SetParts(Sample);
    CountsFromParts(m, parts);
    SampleTally(parts);
  }
}
