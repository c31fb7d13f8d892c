/**
 * The fixture-table extraction of `MatchScraperService`: one forward pass
 * over the table rows (header skipped) that threads the last date and the
 * last venue through the rows, anchors every row on its first time-like
 * cell, and derives set counts and the finished flag of each record.
 *
 * The rows are given as sequences of already-cleaned cell texts; the two
 * .NET parsers the scraper calls are the fields of `Parsers`.
 */
module MatchScraperService {
  import opened Wrappers
  import opened Text
  import opened Models
  import opened TextProofs

  /** The cleaned texts of one `<tr>`'s `<td>` cells; a row without cells is empty. */
  type Row = seq<string>

  /**
   * The culture-bound .NET parsers, left uninterpreted: `TimeSpan.TryParse`
   * with the invariant culture, and `DateTime.TryParseExact` with the
   * pattern `dd.MM.yyyy` and the tr-TR culture. Both get trimmed text.
   */
  datatype Parsers = Parsers(
    tryParseTimeSpan: string -> Option<TimeSpan>,
    tryParseExactDate: string -> Option<DateTime>
  )

  // ---------------------------------------------------------------------
  // Cell-level helpers
  // ---------------------------------------------------------------------

  /** `TryParseDate`: blank text is never a date. */
  function TryParseDate(p: Parsers, text: string): (r: Option<DateTime>)
    ensures IsBlank(text) ==> r.None?
  {
    if IsBlank(text) then None else p.tryParseExactDate(Trim(text))
  }

  /** `IsTime`: blank text is never a time. */
  predicate IsTime(p: Parsers, text: string)
    ensures IsTime(p, text) ==> !IsBlank(text)
  {
    !IsBlank(text) && p.tryParseTimeSpan(Trim(text)).Some?
  }

  /** White space around a text never changes whether it is a time. */
  lemma IsTimeTrimmed(p: Parsers, text: string)
    ensures IsTime(p, text) == IsTime(p, Trim(text))
  {
    TrimIdempotent(text);
    TrimEmptyIffBlank(text);
    TrimEmptyIffBlank(Trim(text));
  }

  /** `ParseTime`: yields a time exactly for the texts `IsTime` accepts. */
  function ParseTime(p: Parsers, text: string): (r: Option<TimeSpan>)
    ensures r.Some? <==> IsTime(p, text)
    ensures r.Some? ==> r == p.tryParseTimeSpan(Trim(text))
  {
    if IsBlank(text) then None else p.tryParseTimeSpan(Trim(text))
  }

  /** `cells.ElementAtOrDefault(i)?.InnerText ?? string.Empty`. */
  function CellAt(cells: Row, i: int): string {
    if 0 <= i < |cells| then cells[i] else ""
  }

  /** The cell left of the anchor is a venue only if it is neither blank, nor a time, nor a date. */
  predicate IsVenueText(p: Parsers, text: string) {
    !IsBlank(text) && !IsTime(p, text) && TryParseDate(p, text).None?
  }

  /** The first cell that `IsTime` accepts: the time anchor of the row. */
  function FirstTime(p: Parsers, cells: Row): (r: Option<nat>)
    ensures r.Some? ==> r.value < |cells| && IsTime(p, cells[r.value])
    ensures r.Some? ==> forall j :: 0 <= j < r.value ==> !IsTime(p, cells[j])
    ensures r.None? ==> forall j :: 0 <= j < |cells| ==> !IsTime(p, cells[j])
  {
    if |cells| == 0 then None
    else if IsTime(p, cells[0]) then Some(0)
    else
      match FirstTime(p, cells[1..])
      case Some(t) => Some(t + 1)
      case None => None
  }

  // ---------------------------------------------------------------------
  // The carried state and one row
  // ---------------------------------------------------------------------

  /** `currentDateText`, `currentDate` and `currentVenueText` of the row loop. */
  datatype Carry = Carry(dateText: Option<string>, date: Option<DateTime>, venueText: Option<string>)

  const InitialCarry: Carry := Carry(None, None, None)

  /** The venue a row establishes from the cell at `t - 1`, if any. */
  function AcceptedVenue(p: Parsers, cells: Row, t: nat): Option<string>
    requires t < |cells|
  {
    if t >= 1 && IsVenueText(p, cells[t - 1]) then Some(cells[t - 1]) else None
  }

  /** The date a row establishes from the cell at `t - 2`, with its text, if any. */
  function AcceptedDate(p: Parsers, cells: Row, t: nat): Option<(string, DateTime)>
    requires t < |cells|
  {
    if t >= 2 && TryParseDate(p, cells[t - 2]).Some? then
      Some((cells[t - 2], TryParseDate(p, cells[t - 2]).value))
    else None
  }

  /** The carried state once a row anchored at `t` has been read, before its width is checked. */
  function CarryAfter(p: Parsers, c: Carry, cells: Row, t: nat): Carry
    requires t < |cells|
  {
    var c1 := match AcceptedVenue(p, cells, t)
      case Some(v) => c.(venueText := Some(v))
      case None => c;
    match AcceptedDate(p, cells, t)
    case Some((text, d)) => c1.(dateText := Some(text), date := Some(d))
    case None => c1
  }

  /** The record of a row anchored at `t`, before `FillSetsAndStatus`. */
  function NewRecord(p: Parsers, c: Carry, venue: string, cells: Row, t: nat): MatchDto
    requires t + 5 < |cells|
  {
    MatchDto(
      date := c.date,
      rawDateText := Some(c.dateText.GetOr("")),
      venue := Some(venue),
      time := ParseTime(p, cells[t]),
      rawTimeText := Some(cells[t]),
      homeTeam := Some(CellAt(cells, t + 1)),
      awayTeam := Some(CellAt(cells, t + 4)),
      setScores := Some(CellAt(cells, t + 5)),
      league := Some(CellAt(cells, |cells| - 4)),
      categoryCode := Some(cells[|cells| - 3]),
      categoryDescription := None,
      homeSets := ParseInt(CellAt(cells, t + 2)),
      awaySets := ParseInt(CellAt(cells, t + 3)),
      isFinished := None
    )
  }

  /** One iteration of the row loop: the new carried state and the record the row yields, if any. */
  function Step(p: Parsers, c: Carry, cells: Row): (Carry, Option<MatchDto>) {
    if |cells| < 5 then (c, None)
    else
      match FirstTime(p, cells)
      case None => (c, None)
      case Some(t) =>
        var c' := CarryAfter(p, c, cells, t);
        var venue := match AcceptedVenue(p, cells, t)
          case Some(v) => v
          case None => c.venueText.GetOr("");
        if t + 5 >= |cells| then (c', None)
        else (c', Some(SetsAndStatus(NewRecord(p, c', venue, cells, t))))
  }

  /** The state of the row loop: the carried values and the records so far. */
  datatype Pass = Pass(carry: Carry, matches: seq<MatchDto>)

  /** The row loop over `rows`, starting from the carried state `c`. */
  function Run(p: Parsers, c: Carry, rows: seq<Row>): Pass {
    if |rows| == 0 then Pass(c, [])
    else
      var before := Run(p, c, rows[..|rows| - 1]);
      var (c', m) := Step(p, before.carry, rows[|rows| - 1]);
      Pass(c', before.matches + (if m.Some? then [m.value] else []))
  }

  /** `rows.Skip(1)`: the first row is a header. */
  function SkipHeader(rows: seq<Row>): seq<Row> {
    if |rows| == 0 then [] else rows[1..]
  }

  /** What `GetMatchesAsync` returns for a page; `None` stands for a page without a table or rows. */
  function Extract(p: Parsers, table: Option<seq<Row>>): seq<MatchDto> {
    match table
    case None => []
    case Some(rows) => Run(p, InitialCarry, SkipHeader(rows)).matches
  }

  // ---------------------------------------------------------------------
  // Set counts and the finished flag
  // ---------------------------------------------------------------------

  predicate IsParen(c: char) {
    c == '(' || c == ')'
  }

  /** Keeps the parts that contain `sep`, in order. */
  function WithChar(parts: seq<string>, sep: char): (r: seq<string>)
    ensures |r| <= |parts|
  {
    if |parts| == 0 then []
    else if HasChar(parts[0], sep) then [parts[0]] + WithChar(parts[1..], sep)
    else WithChar(parts[1..], sep)
  }

  /** Strips the parentheses around every part. */
  function StripParens(parts: seq<string>): (r: seq<string>)
    ensures |r| == |parts|
  {
    if |parts| == 0 then [] else [TrimBy(parts[0], IsParen)] + StripParens(parts[1..])
  }

  /** The `setParts` of `FillSetsAndStatus`: space-separated parts, parentheses stripped, those with a dash. */
  function SetParts(setScores: string): seq<string> {
    WithChar(StripParens(SplitEntries(setScores, ' ')), '-')
  }

  /** One part read as a `home-away` pair of integers, or nothing when it is malformed. */
  function PairOf(part: string): Option<(int, int)> {
    var scores := SplitEntries(part, '-');
    if |scores| != 2 then None
    else
      var home := ParseInt(scores[0]);
      var away := ParseInt(scores[1]);
      if home.Some? && away.Some? then Some((home.value, away.value)) else None
  }

  /** The text `int.ToString` gives two scores joined by a dash reads back as those two scores. */
  lemma PairOfShow(home: nat, away: nat)
    ensures PairOf(Show(home) + "-" + Show(away)) == Some((home, away))
  {
    var x, y := Show(home), Show(away);
    assert [x, y][1..] == [y];
    assert x + "-" + y == Join([x, y], '-');
    TrimKeepsTrimmed(x);
    TrimKeepsTrimmed(y);
    SplitOnJoin([x, y], '-');
    EntriesKeep([x, y]);
    ParseIntShow(home);
    ParseIntShow(away);
  }

  /** A part without a dash is one piece, so it is malformed. */
  lemma PairOfWithoutDash(part: string)
    requires !HasChar(part, '-')
    ensures PairOf(part) == None
  {
    SplitOnPrefix(part, "", '-');
    assert part + "" == part;
  }

  /** The score pair of every part, in order. */
  function Scores(parts: seq<string>): (r: seq<Option<(int, int)>>)
    ensures |r| == |parts|
  {
    seq(|parts|, k requires 0 <= k < |parts| => PairOf(parts[k]))
  }

  /** The sets one score pair gives to each side: one to the higher score, none for a tie or a malformed part. */
  function SetWon(score: Option<(int, int)>): (nat, nat) {
    match score
    case Some((x, y)) => if x > y then (1, 0) else if y > x then (0, 1) else (0, 0)
    case None => (0, 0)
  }

  /** The sets won by the home side and by the away side over the first `n` score pairs. */
  function Tally(scores: seq<Option<(int, int)>>, n: nat): (nat, nat)
    requires n <= |scores|
  {
    if n == 0 then (0, 0)
    else
      var before := Tally(scores, n - 1);
      var won := SetWon(scores[n - 1]);
      (before.0 + won.0, before.1 + won.1)
  }

  /** The record after `FillSetsAndStatus`. */
  function SetsAndStatus(m: MatchDto): MatchDto {
    if m.homeSets.Some? || m.awaySets.Some? then
      m.(isFinished := Some(m.homeSets.GetOr(0) + m.awaySets.GetOr(0) > 0))
    else if IsNullOrWhiteSpace(m.setScores) then
      m.(isFinished := None)
    else
      var parts := SetParts(m.setScores.value);
      if |parts| == 0 then m.(isFinished := None)
      else
        var (h, a) := Tally(Scores(parts), |parts|);
        m.(homeSets := Some(h), awaySets := Some(a), isFinished := Some(|parts| > 0))
  }

  // ---------------------------------------------------------------------
  // The two imperative procedures
  // ---------------------------------------------------------------------

  /** One turn of the `foreach` of `FillSetsAndStatus`: splits a part at its dash and reads both scores. */
  method ReadSetScore(part: string) returns (score: Option<(int, int)>)
    ensures score == PairOf(part)
    ensures !HasChar(part, '-') ==> score.None?
    ensures forall home: nat, away: nat {:trigger Show(home), Show(away)} ::
      part == Show(home) + "-" + Show(away) ==> score == Some((home, away))
  {
    forall home: nat, away: nat | part == Show(home) + "-" + Show(away)
      ensures PairOf(part) == Some((home, away))
    {
      PairOfShow(home, away);
    }
    if !HasChar(part, '-') {
      PairOfWithoutDash(part);
    }
    var scores := SplitEntries(part, '-');
    if |scores| != 2 {
      return None;
    }
    var homeScore := ParseInt(scores[0]);
    var awayScore := ParseInt(scores[1]);
    if homeScore.None? || awayScore.None? {
      return None;
    }
    return Some((homeScore.value, awayScore.value));
  }

  /** The `foreach` of `FillSetsAndStatus`: counts the sets each side won over the dash-containing parts. */
  method CountSetsWon(setParts: seq<string>) returns (homeWon: nat, awayWon: nat)
    ensures homeWon == Tally(Scores(setParts), |setParts|).0
    ensures awayWon == Tally(Scores(setParts), |setParts|).1
  {
    homeWon, awayWon := 0, 0;
    for i := 0 to |setParts|
      invariant homeWon == Tally(Scores(setParts), i).0
      invariant awayWon == Tally(Scores(setParts), i).1
    {
      var score := ReadSetScore(setParts[i]);
      assert score == Scores(setParts)[i];
      if score.None? {
        continue;
      }
      var (homeScore, awayScore) := score.value;
      if homeScore > awayScore {
        homeWon := homeWon + 1;
      } else if awayScore > homeScore {
        awayWon := awayWon + 1;
      }
    }
  }

  /** `FillSetsAndStatus`, counting won sets part by part. */
  method FillSetsAndStatus(m: MatchDto) returns (r: MatchDto)
    ensures r == SetsAndStatus(m)
  {
    r := m;
    if m.homeSets.Some? || m.awaySets.Some? {
      r := r.(isFinished := Some(m.homeSets.GetOr(0) + m.awaySets.GetOr(0) > 0));
      return;
    }
    if IsNullOrWhiteSpace(m.setScores) {
      r := r.(isFinished := None);
      return;
    }
    var setParts := SetParts(m.setScores.value);
    if |setParts| == 0 {
      r := r.(isFinished := None);
      return;
    }
    var homeWon, awayWon := CountSetsWon(setParts);
    r := r.(homeSets := Some(homeWon), awaySets := Some(awayWon), isFinished := Some(|setParts| > 0));
  }

  /** The inner `for` of `GetMatchesAsync`: the index and text of the first time-like cell, or -1. */
  method FindTimeCell(p: Parsers, cells: Row) returns (timeIndex: int, timeText: string)
    ensures timeIndex == -1 <==> FirstTime(p, cells).None?
    ensures timeIndex != -1 ==> FirstTime(p, cells) == Some(timeIndex) && timeText == cells[timeIndex]
  {
    timeIndex, timeText := -1, "";
    for i := 0 to |cells|
      invariant timeIndex == -1
      invariant forall j :: 0 <= j < i ==> !IsTime(p, cells[j])
    {
      if IsTime(p, cells[i]) {
        timeIndex, timeText := i, cells[i];
        break;
      }
    }
  }

  /** Reads the venue and date cells left of the anchor, updating the carried values. */
  method ReadVenueAndDate(p: Parsers, c: Carry, cells: Row, timeIndex: nat) returns (carry: Carry, venue: string)
    requires timeIndex < |cells|
    ensures carry == CarryAfter(p, c, cells, timeIndex)
    ensures venue == AcceptedVenue(p, cells, timeIndex).GetOr(c.venueText.GetOr(""))
  {
    carry := c;
    // The venue is the cell left of the anchor, the date the one left of that.
    var found: Option<string> := None;
    var venueIndex := timeIndex - 1;
    if venueIndex >= 0 {
      var venueCandidate := cells[venueIndex];
      if !IsBlank(venueCandidate) && !IsTime(p, venueCandidate) && TryParseDate(p, venueCandidate).None? {
        found := Some(venueCandidate);
        carry := carry.(venueText := Some(venueCandidate));
      }
    }
    if found.None? {
      found := Some(carry.venueText.GetOr(""));
    }
    venue := found.value;
    var dateIndex := venueIndex - 1;
    if dateIndex >= 0 {
      var dateCandidate := cells[dateIndex];
      var parsedDate := TryParseDate(p, dateCandidate);
      if parsedDate.Some? {
        carry := carry.(dateText := Some(dateCandidate), date := parsedDate);
      }
    }
  }

  /** Builds the record of a row anchored at `timeIndex`, before its set columns are interpreted. */
  method BuildRecord(p: Parsers, carry: Carry, venue: string, cells: Row, timeIndex: nat) returns (m: MatchDto)
    requires timeIndex + 5 < |cells|
    ensures m == NewRecord(p, carry, venue, cells, timeIndex)
  {
    var timeText := cells[timeIndex];
    m := MatchDto(
      date := carry.date,
      rawDateText := Some(carry.dateText.GetOr("")),
      venue := Some(venue),
      time := ParseTime(p, timeText),
      rawTimeText := Some(timeText),
      homeTeam := Some(CellAt(cells, timeIndex + 1)),
      awayTeam := Some(CellAt(cells, timeIndex + 4)),
      setScores := Some(CellAt(cells, timeIndex + 5)),
      league := Some(CellAt(cells, |cells| - 4)),
      categoryCode := Some(cells[|cells| - 3]),
      categoryDescription := None,
      homeSets := None,
      awaySets := None,
      isFinished := None
    );
    var hSets := ParseInt(CellAt(cells, timeIndex + 2));
    if hSets.Some? {
      m := m.(homeSets := hSets);
    }
    var aSets := ParseInt(CellAt(cells, timeIndex + 3));
    if aSets.Some? {
      m := m.(awaySets := aSets);
    }
  }

  /** The body of the row loop of `GetMatchesAsync`. */
  method ReadRow(p: Parsers, c: Carry, cells: Row) returns (carry: Carry, record: Option<MatchDto>)
    ensures (carry, record) == Step(p, c, cells)
  {
    carry, record := c, None;
    if |cells| < 5 {
      return;
    }
    var timeIndex, timeText := FindTimeCell(p, cells);
    if timeIndex == -1 {
      return;
    }
    var venue;
    carry, venue := ReadVenueAndDate(p, c, cells, timeIndex);
    if timeIndex + 5 >= |cells| {
      return;
    }
    var m := BuildRecord(p, carry, venue, cells, timeIndex);
    m := FillSetsAndStatus(m);
    record := Some(m);
  }

  /** The row loop of `GetMatchesAsync`, from the located rows to the records. */
  method GetMatches(p: Parsers, table: Option<seq<Row>>) returns (matches: seq<MatchDto>)
    ensures matches == Extract(p, table)
  {
    if table.None? {
      return [];
    }
    var rows := SkipHeader(table.value);
    matches := [];
    var carry := InitialCarry;
    for k := 0 to |rows|
      invariant Run(p, InitialCarry, rows[..k]) == Pass(carry, matches)
    {
      assert rows[..k + 1][..k] == rows[..k];
      var m;
      carry, m := ReadRow(p, carry, rows[k]);
      if m.Some? {
        matches := matches + [m.value];
      }
    }
    assert rows[..|rows|] == rows;
  }
}
