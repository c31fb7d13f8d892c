/**
 * Properties of the row loop of `MatchScraperService`: which rows yield a
 * record, what the record of a row holds, how the carried date and venue
 * evolve over the rows, and what `FillSetsAndStatus` decides.
 */
module MatchScraperProofs {
  import opened Wrappers
  import opened Text
  import opened Models
  import opened MatchScraperService
  import opened SetScoreProofs

  // ---------------------------------------------------------------------
  // One row
  // ---------------------------------------------------------------------

  /** `t` is the first cell of the row that reads as a time. */
  predicate IsAnchor(p: Parsers, cells: Row, t: int) {
    0 <= t < |cells| && IsTime(p, cells[t]) && forall j :: 0 <= j < t ==> !IsTime(p, cells[j])
  }

  /** A row that yields a record: five cells or more, and five more cells after its first time-like cell. */
  predicate Qualifies(p: Parsers, cells: Row) {
    |cells| >= 5 && exists t :: 0 <= t < |cells| && IsAnchor(p, cells, t) && t + 5 < |cells|
  }

  /** The anchor is unique. */
  lemma AnchorUnique(p: Parsers, cells: Row, t: int, u: int)
    requires IsAnchor(p, cells, t) && IsAnchor(p, cells, u)
    ensures t == u
  {
  }

  /** `FirstTime` finds exactly the anchor. */
  lemma FirstTimeIsAnchor(p: Parsers, cells: Row, t: int)
    ensures FirstTime(p, cells) == Some(t) <==> IsAnchor(p, cells, t)
  {
    match FirstTime(p, cells)
    case Some(f) =>
      if IsAnchor(p, cells, t) {
        AnchorUnique(p, cells, f, t);
      }
    case None =>
  }

  /** A row yields a record exactly when it qualifies; the carried values do not matter. */
  lemma StepRecordIff(p: Parsers, c: Carry, cells: Row)
    ensures Step(p, c, cells).1.Some? <==> Qualifies(p, cells)
  {
    if |cells| >= 5 {
      match FirstTime(p, cells)
      case Some(t) =>
        FirstTimeIsAnchor(p, cells, t);
        if Qualifies(p, cells) {
          var u :| IsAnchor(p, cells, u) && u + 5 < |cells|;
          AnchorUnique(p, cells, t, u);
        }
      case None =>
    }
  }

  /**
   * A row of five cells or more whose anchor is `t`: the new carried values,
   * and the record when there are five cells after the anchor. The record
   * reads every field at its own offset from the anchor (the empty-string
   * fallbacks never apply), takes its date from the carried values after the
   * row, and its venue from the row or else from the carried values before it.
   */
  lemma RecordOfRow(p: Parsers, c: Carry, cells: Row, t: nat)
    requires |cells| >= 5 && IsAnchor(p, cells, t)
    ensures Step(p, c, cells).0 == CarryAfter(p, c, cells, t)
    ensures Step(p, c, cells).1.Some? <==> t + 5 < |cells|
    ensures Step(p, c, cells).1.Some? ==>
      var m := Step(p, c, cells).1.value;
      var c' := CarryAfter(p, c, cells, t);
      && m.rawTimeText == Some(cells[t])
      && m.time.Some? && m.time == p.tryParseTimeSpan(Trim(cells[t]))
      && m.homeTeam == Some(cells[t + 1])
      && m.awayTeam == Some(cells[t + 4])
      && m.setScores == Some(cells[t + 5])
      && m.league == Some(cells[|cells| - 4])
      && m.categoryCode == Some(cells[|cells| - 3])
      && m.categoryDescription == None
      && m.date == c'.date
      && m.rawDateText == Some(c'.dateText.GetOr(""))
      && m.venue == Some(AcceptedVenue(p, cells, t).GetOr(c.venueText.GetOr("")))
  {
    FirstTimeIsAnchor(p, cells, t);
  }

  /**
   * The set counts and the finished flag of the record of a row anchored at
   * `t`. When the set column at `t + 2` or `t + 3` reads as an integer, the
   * counts are those columns and the match is finished when they add up to
   * more than zero. Otherwise the set-score cell at `t + 5` decides: with a
   * part containing a dash, each side gets the number of parts it won and the
   * match is finished; without one, there are no counts and no flag.
   */
  lemma RecordSetsOfRow(p: Parsers, c: Carry, cells: Row, t: nat)
    requires |cells| >= 5 && IsAnchor(p, cells, t) && t + 5 < |cells|
    ensures Step(p, c, cells).1.Some?
    ensures ParseInt(cells[t + 2]).Some? || ParseInt(cells[t + 3]).Some? ==>
      var m := Step(p, c, cells).1.value;
      && m.homeSets == ParseInt(cells[t + 2])
      && m.awaySets == ParseInt(cells[t + 3])
      && m.isFinished == Some(ParseInt(cells[t + 2]).GetOr(0) + ParseInt(cells[t + 3]).GetOr(0) > 0)
    ensures ParseInt(cells[t + 2]).None? && ParseInt(cells[t + 3]).None? &&
            (IsBlank(cells[t + 5]) || |SetParts(cells[t + 5])| == 0) ==>
      var m := Step(p, c, cells).1.value;
      m.homeSets.None? && m.awaySets.None? && m.isFinished.None?
    ensures ParseInt(cells[t + 2]).None? && ParseInt(cells[t + 3]).None? &&
            !IsBlank(cells[t + 5]) && |SetParts(cells[t + 5])| > 0 ==>
      var m := Step(p, c, cells).1.value;
      var parts := SetParts(cells[t + 5]);
      && m.homeSets == Some(|HomeWins(Scores(parts), |parts|)|)
      && m.awaySets == Some(|AwayWins(Scores(parts), |parts|)|)
      && m.isFinished == Some(true)
  {
    FirstTimeIsAnchor(p, cells, t);
    var venue := AcceptedVenue(p, cells, t).GetOr(c.venueText.GetOr(""));
    SetsAndStatusSpec(NewRecord(p, CarryAfter(p, c, cells, t), venue, cells, t));
  }

  /** A row with fewer than five cells, or without a time-like cell, is skipped and changes nothing. */
  lemma SkippedRowKeepsCarry(p: Parsers, c: Carry, cells: Row)
    requires |cells| < 5 || forall j :: 0 <= j < |cells| ==> !IsTime(p, cells[j])
    ensures Step(p, c, cells) == (c, None)
  {
  }

  // ---------------------------------------------------------------------
  // The row loop
  // ---------------------------------------------------------------------

  /** Reading `a` and then `b` is reading `a + b`: records come out in row order. */
  lemma {:induction false} RunAppend(p: Parsers, c: Carry, a: seq<Row>, b: seq<Row>)
    ensures Run(p, c, a + b) ==
      var first := Run(p, c, a);
      var second := Run(p, first.carry, b);
      Pass(second.carry, first.matches + second.matches)
    decreases |b|
  {
    if |b| == 0 {
      assert a + b == a;
    } else {
      var b' := b[..|b| - 1];
      assert (a + b)[..|a + b| - 1] == a + b';
      assert (a + b)[|a + b| - 1] == b[|b| - 1];
      RunAppend(p, c, a, b');
    }
  }

  /** The number of qualifying rows. */
  function QualifyingCount(p: Parsers, rows: seq<Row>): (n: nat)
    ensures n <= |rows|
  {
    if |rows| == 0 then 0
    else QualifyingCount(p, rows[..|rows| - 1]) + (if Qualifies(p, rows[|rows| - 1]) then 1 else 0)
  }

  /** One record per qualifying row and none for the others, whatever the carried values. */
  lemma {:induction false} RunCount(p: Parsers, c: Carry, rows: seq<Row>)
    ensures |Run(p, c, rows).matches| == QualifyingCount(p, rows)
    ensures |Run(p, c, rows).matches| <= |rows|
  {
    if |rows| > 0 {
      var before := Run(p, c, rows[..|rows| - 1]);
      RunCount(p, c, rows[..|rows| - 1]);
      StepRecordIff(p, before.carry, rows[|rows| - 1]);
    }
  }

  /** The venue a row establishes for the rows after it, if any. */
  function RowVenue(p: Parsers, cells: Row): Option<string> {
    if |cells| < 5 then None
    else
      match FirstTime(p, cells)
      case None => None
      case Some(t) => AcceptedVenue(p, cells, t)
  }

  /** The date, with its text, that a row establishes for the rows after it, if any. */
  function RowDate(p: Parsers, cells: Row): Option<(string, DateTime)> {
    if |cells| < 5 then None
    else
      match FirstTime(p, cells)
      case None => None
      case Some(t) => AcceptedDate(p, cells, t)
  }

  /** Row `k` is the last of `rows` that establishes a venue. */
  predicate LastVenueRow(p: Parsers, rows: seq<Row>, k: int) {
    0 <= k < |rows| && RowVenue(p, rows[k]).Some? &&
    forall j :: k < j < |rows| ==> RowVenue(p, rows[j]).None?
  }

  /** Row `k` is the last of `rows` that establishes a date. */
  predicate LastDateRow(p: Parsers, rows: seq<Row>, k: int) {
    0 <= k < |rows| && RowDate(p, rows[k]).Some? &&
    forall j :: k < j < |rows| ==> RowDate(p, rows[j]).None?
  }

  /**
   * After the rows, the carried venue is the one of the last row that
   * established a venue, or the initial one when no row did. Rows too short
   * to yield a record but anchored on a time cell establish one too.
   */
  lemma {:induction false} CarriedVenueIsLatest(p: Parsers, c: Carry, rows: seq<Row>)
    ensures (forall k :: 0 <= k < |rows| ==> RowVenue(p, rows[k]).None?) ==>
      Run(p, c, rows).carry.venueText == c.venueText
    ensures forall k :: LastVenueRow(p, rows, k) ==>
      Run(p, c, rows).carry.venueText == RowVenue(p, rows[k])
  {
    if |rows| > 0 {
      var front := rows[..|rows| - 1];
      var last := rows[|rows| - 1];
      CarriedVenueIsLatest(p, c, front);
      var before := Run(p, c, front).carry;
      assert Run(p, c, rows).carry == Step(p, before, last).0;
      assert Step(p, before, last).0.venueText == RowVenue(p, last).Or(before.venueText);
      forall k | LastVenueRow(p, rows, k)
        ensures Run(p, c, rows).carry.venueText == RowVenue(p, rows[k])
      {
        if k < |rows| - 1 {
          assert front[k] == rows[k];
          assert LastVenueRow(p, front, k);
        }
      }
    }
  }

  /**
   * After the rows, the carried date and its text are those of the last row
   * that established a date, or the initial ones when no row did.
   */
  lemma {:induction false} CarriedDateIsLatest(p: Parsers, c: Carry, rows: seq<Row>)
    ensures (forall k :: 0 <= k < |rows| ==> RowDate(p, rows[k]).None?) ==>
      Run(p, c, rows).carry.dateText == c.dateText && Run(p, c, rows).carry.date == c.date
    ensures forall k :: LastDateRow(p, rows, k) ==>
      && Run(p, c, rows).carry.dateText == Some(RowDate(p, rows[k]).value.0)
      && Run(p, c, rows).carry.date == Some(RowDate(p, rows[k]).value.1)
  {
    if |rows| > 0 {
      var front := rows[..|rows| - 1];
      var last := rows[|rows| - 1];
      CarriedDateIsLatest(p, c, front);
      var before := Run(p, c, front).carry;
      assert Run(p, c, rows).carry == Step(p, before, last).0;
      match RowDate(p, last)
      case Some((text, d)) =>
        assert Step(p, before, last).0.dateText == Some(text) && Step(p, before, last).0.date == Some(d);
      case None =>
        assert Step(p, before, last).0.dateText == before.dateText && Step(p, before, last).0.date == before.date;
      forall k | LastDateRow(p, rows, k)
        ensures Run(p, c, rows).carry.dateText == Some(RowDate(p, rows[k]).value.0)
        ensures Run(p, c, rows).carry.date == Some(RowDate(p, rows[k]).value.1)
      {
        if k < |rows| - 1 {
          assert front[k] == rows[k];
          assert LastDateRow(p, front, k);
        }
      }
    }
  }

  // ---------------------------------------------------------------------
  // What every record satisfies
  // ---------------------------------------------------------------------

  /** The carried values are consistent: the date is the parse of its text, the venue is venue-like. */
  predicate CarryOk(p: Parsers, c: Carry) {
    && (c.dateText.Some? <==> c.date.Some?)
    && (c.dateText.Some? ==> TryParseDate(p, c.dateText.value) == c.date)
    && (c.venueText.Some? ==> IsVenueText(p, c.venueText.value))
  }

  /**
   * A record as the scraper builds it: it has a time, and it is the parse of
   * its raw text; the venue is empty or neither blank, a time nor a date; the
   * date is the parse of its raw text; set counts come with a finished flag.
   */
  predicate RecordOk(p: Parsers, m: MatchDto) {
    && m.time.Some? && m.rawTimeText.Some? && IsTime(p, m.rawTimeText.value)
    && m.time == ParseTime(p, m.rawTimeText.value)
    && m.venue.Some? && (m.venue.value == "" || IsVenueText(p, m.venue.value))
    && m.rawDateText.Some?
    && (m.date.Some? ==> TryParseDate(p, m.rawDateText.value) == m.date)
    && (m.date.None? ==> m.rawDateText == Some(""))
    && (m.isFinished.Some? <==> m.homeSets.Some? || m.awaySets.Some?)
  }

  /** `FillSetsAndStatus` leaves a finished flag exactly when it leaves a set count. */
  lemma FinishedIffCounts(m: MatchDto)
    ensures var r := SetsAndStatus(m);
      r.isFinished.Some? <==> r.homeSets.Some? || r.awaySets.Some?
  {
  }

  /** One row keeps the carried values consistent and yields a well-formed record. */
  lemma StepKeepsOk(p: Parsers, c: Carry, cells: Row)
    requires CarryOk(p, c)
    ensures CarryOk(p, Step(p, c, cells).0)
    ensures Step(p, c, cells).1.Some? ==> RecordOk(p, Step(p, c, cells).1.value)
  {
    if |cells| >= 5 && FirstTime(p, cells).Some? {
      var t := FirstTime(p, cells).value;
      FirstTimeIsAnchor(p, cells, t);
      RecordOfRow(p, c, cells, t);
      if t + 5 < |cells| {
        FinishedIffCounts(NewRecord(p, CarryAfter(p, c, cells, t), AcceptedVenue(p, cells, t).GetOr(c.venueText.GetOr("")), cells, t));
      }
    }
  }

  /** Every record of the row loop is well formed, starting from the empty carried values. */
  lemma {:induction false} RunRecordsOk(p: Parsers, c: Carry, rows: seq<Row>)
    requires CarryOk(p, c)
    ensures CarryOk(p, Run(p, c, rows).carry)
    ensures forall i :: 0 <= i < |Run(p, c, rows).matches| ==> RecordOk(p, Run(p, c, rows).matches[i])
  {
    if |rows| > 0 {
      var front := rows[..|rows| - 1];
      RunRecordsOk(p, c, front);
      StepKeepsOk(p, Run(p, c, front).carry, rows[|rows| - 1]);
    }
  }

  /** The records of a page: well formed, in row order, one per qualifying row after the header. */
  lemma ExtractOk(p: Parsers, table: Option<seq<Row>>)
    ensures forall i :: 0 <= i < |Extract(p, table)| ==> RecordOk(p, Extract(p, table)[i])
    ensures table.None? ==> Extract(p, table) == []
    ensures table.Some? ==> |Extract(p, table)| == QualifyingCount(p, SkipHeader(table.value))
  {
    if table.Some? {
      RunRecordsOk(p, InitialCarry, SkipHeader(table.value));
      RunCount(p, InitialCarry, SkipHeader(table.value));
    }
  }

  /** The first row never yields a record: replacing it changes nothing. */
  lemma HeaderIgnored(p: Parsers, header: Row, other: Row, rows: seq<Row>)
    ensures Extract(p, Some([header] + rows)) == Extract(p, Some([other] + rows))
  {
    assert ([header] + rows)[1..] == rows == ([other] + rows)[1..];
  }
}
