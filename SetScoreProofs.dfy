/**
 * Properties of `FillSetsAndStatus`: the sets each side won are the parts it
 * scored more in, ties and malformed parts count for nobody, and the
 * finished flag follows the set counts.
 */
module SetScoreProofs {
  import opened Wrappers
  import opened Text
  import opened Models
  import opened TextProofs
  import opened MatchScraperService

  // ---------------------------------------------------------------------
  // The set parts
  // ---------------------------------------------------------------------

  /** `WithChar` keeps exactly the parts that contain the separator. */
  lemma {:induction false} WithCharMembers(parts: seq<string>, sep: char)
    ensures forall x :: x in WithChar(parts, sep) <==> x in parts && HasChar(x, sep)
  {
    if |parts| > 0 {
      WithCharMembers(parts[1..], sep);
      assert parts == [parts[0]] + parts[1..];
    }
  }

  /** `WithChar` keeps the order: filtering a concatenation is concatenating the filtered parts. */
  lemma {:induction false} WithCharAppend(a: seq<string>, b: seq<string>, sep: char)
    ensures WithChar(a + b, sep) == WithChar(a, sep) + WithChar(b, sep)
  {
    if |a| > 0 {
      WithCharAppend(a[1..], b, sep);
      assert (a + b)[1..] == a[1..] + b;
    } else {
      assert a + b == b;
    }
  }

  /** All parts contain the separator: `WithChar` keeps them all. */
  lemma {:induction false} WithCharKeeps(parts: seq<string>, sep: char)
    requires forall k :: 0 <= k < |parts| ==> HasChar(parts[k], sep)
    ensures WithChar(parts, sep) == parts
  {
    if |parts| > 0 {
      WithCharKeeps(parts[1..], sep);
      assert parts == [parts[0]] + parts[1..];
    }
  }

  /** `StripParens` strips the parentheses off each part, position by position. */
  lemma {:induction false} StripParensAt(parts: seq<string>)
    ensures forall k :: 0 <= k < |parts| ==> StripParens(parts)[k] == TrimBy(parts[k], IsParen)
  {
    if |parts| > 0 {
      StripParensAt(parts[1..]);
      forall k | 0 < k < |parts|
        ensures StripParens(parts)[k] == TrimBy(parts[k], IsParen)
      {
        assert StripParens(parts)[k] == StripParens(parts[1..])[k - 1];
        assert parts[k] == parts[1..][k - 1];
      }
    }
  }

  /**
   * The set scores have set parts exactly when one of their space-separated
   * entries, parentheses stripped, contains a dash.
   */
  lemma SetPartsNonEmpty(setScores: string)
    ensures |SetParts(setScores)| > 0 <==>
      exists k :: 0 <= k < |SplitEntries(setScores, ' ')| && HasChar(TrimBy(SplitEntries(setScores, ' ')[k], IsParen), '-')
  {
    var entries := SplitEntries(setScores, ' ');
    var stripped := StripParens(entries);
    StripParensAt(entries);
    WithCharMembers(stripped, '-');
    if |SetParts(setScores)| > 0 {
      var x := SetParts(setScores)[0];
      assert x in SetParts(setScores);
      var k :| 0 <= k < |stripped| && stripped[k] == x;
      assert HasChar(TrimBy(entries[k], IsParen), '-');
    }
    if exists k :: 0 <= k < |entries| && HasChar(TrimBy(entries[k], IsParen), '-') {
      var k :| 0 <= k < |entries| && HasChar(TrimBy(entries[k], IsParen), '-');
      assert stripped[k] in SetParts(setScores);
    }
  }

  /**
   * Without set columns, set scores with an entry that contains a dash once
   * its parentheses are stripped give both set counts and a finished match.
   */
  lemma FinishedWhenDashPart(m: MatchDto, k: nat)
    requires m.homeSets.None? && m.awaySets.None? && m.setScores.Some?
    requires k < |SplitEntries(m.setScores.value, ' ')|
    requires HasChar(TrimBy(SplitEntries(m.setScores.value, ' ')[k], IsParen), '-')
    ensures SetsAndStatus(m).homeSets.Some? && SetsAndStatus(m).awaySets.Some?
    ensures SetsAndStatus(m).isFinished == Some(true)
  {
    SetPartsNonEmpty(m.setScores.value);
    if IsBlank(m.setScores.value) {
      BlankHasNoEntries(m.setScores.value, ' ');
    }
  }

  // ---------------------------------------------------------------------
  // Counting the sets
  // ---------------------------------------------------------------------

  /** The home side scored more in this part. */
  predicate HomeWon(score: Option<(int, int)>) {
    score.Some? && score.value.0 > score.value.1
  }

  /** The away side scored more in this part. */
  predicate AwayWon(score: Option<(int, int)>) {
    score.Some? && score.value.1 > score.value.0
  }

  /** The positions of the first `n` parts that the home side won. */
  function HomeWins(scores: seq<Option<(int, int)>>, n: nat): set<nat>
    requires n <= |scores|
  {
    set i: nat | i < n && HomeWon(scores[i])
  }

  /** The positions of the first `n` parts that the away side won. */
  function AwayWins(scores: seq<Option<(int, int)>>, n: nat): set<nat>
    requires n <= |scores|
  {
    set i: nat | i < n && AwayWon(scores[i])
  }

  /** One part: a set to the side with the higher score, none for a tie or a malformed part. */
  lemma SetWonOfPart(score: Option<(int, int)>)
    ensures SetWon(score) == (if HomeWon(score) then 1 else 0, if AwayWon(score) then 1 else 0)
    ensures !(HomeWon(score) && AwayWon(score))
  {
  }

  /** Adding part `k` to the first `k` adds `k` to the home side's positions exactly when it won that part. */
  lemma HomeWinsStep(scores: seq<Option<(int, int)>>, k: nat)
    requires k < |scores|
    ensures |HomeWins(scores, k + 1)| == |HomeWins(scores, k)| + (if HomeWon(scores[k]) then 1 else 0)
  {
    if HomeWon(scores[k]) {
      assert HomeWins(scores, k + 1) == HomeWins(scores, k) + {k};
    } else {
      assert HomeWins(scores, k + 1) == HomeWins(scores, k);
    }
  }

  /** Adding part `k` to the first `k` adds `k` to the away side's positions exactly when it won that part. */
  lemma AwayWinsStep(scores: seq<Option<(int, int)>>, k: nat)
    requires k < |scores|
    ensures |AwayWins(scores, k + 1)| == |AwayWins(scores, k)| + (if AwayWon(scores[k]) then 1 else 0)
  {
    if AwayWon(scores[k]) {
      assert AwayWins(scores, k + 1) == AwayWins(scores, k) + {k};
    } else {
      assert AwayWins(scores, k + 1) == AwayWins(scores, k);
    }
  }

  /**
   * The tally over the first `n` parts counts, for each side, the parts it
   * won; parts won by neither (ties, malformed parts) count for nobody, so
   * the two counts add up to at most `n`.
   */
  lemma {:induction false} TallyCountsWins(scores: seq<Option<(int, int)>>, n: nat)
    requires n <= |scores|
    ensures Tally(scores, n).0 == |HomeWins(scores, n)|
    ensures Tally(scores, n).1 == |AwayWins(scores, n)|
    ensures Tally(scores, n).0 + Tally(scores, n).1 <= n
  {
    if n > 0 {
      var k := n - 1;
      TallyCountsWins(scores, k);
      SetWonOfPart(scores[k]);
      HomeWinsStep(scores, k);
      AwayWinsStep(scores, k);
    }
  }

  /**
   * What `FillSetsAndStatus` decides. Counts already read from the columns
   * are kept and the match is finished when they add up to more than zero.
   * Otherwise, blank set scores or scores without a dash-containing part
   * leave both counts and the flag unset; and else each side gets the number
   * of parts it won and the match is finished. No other field changes.
   */
  lemma SetsAndStatusSpec(m: MatchDto)
    ensures var r := SetsAndStatus(m);
      r.(homeSets := m.homeSets, awaySets := m.awaySets, isFinished := m.isFinished) == m
    ensures m.homeSets.Some? || m.awaySets.Some? ==>
      var r := SetsAndStatus(m);
      && r.homeSets == m.homeSets && r.awaySets == m.awaySets
      && r.isFinished == Some(m.homeSets.GetOr(0) + m.awaySets.GetOr(0) > 0)
    ensures m.homeSets.None? && m.awaySets.None? &&
            (IsNullOrWhiteSpace(m.setScores) || |SetParts(m.setScores.value)| == 0) ==>
      SetsAndStatus(m) == m.(isFinished := None)
    ensures m.homeSets.None? && m.awaySets.None? &&
            !IsNullOrWhiteSpace(m.setScores) && |SetParts(m.setScores.value)| > 0 ==>
      var parts := SetParts(m.setScores.value);
      var r := SetsAndStatus(m);
      && r.homeSets == Some(|HomeWins(Scores(parts), |parts|)|)
      && r.awaySets == Some(|AwayWins(Scores(parts), |parts|)|)
      && r.homeSets.value + r.awaySets.value <= |parts|
      && r.isFinished == Some(true)
  {
    if m.homeSets.None? && m.awaySets.None? && !IsNullOrWhiteSpace(m.setScores) {
      var parts := SetParts(m.setScores.value);
      if |parts| > 0 {
        TallyCountsWins(Scores(parts), |parts|);
      }
    }
  }
}
