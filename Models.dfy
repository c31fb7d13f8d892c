/**
 * The record type of the scraper, `MatchDto`, and the .NET value types it
 * holds. Every property of the C# class is nullable, so every field here is
 * an Option.
 */
module Models {
  import opened Wrappers

  /** A `DateTime`, as a count of ticks; the model never does calendar arithmetic. */
  datatype DateTime = DateTime(ticks: int)

  /** A `TimeSpan`, as a count of 100-nanosecond ticks. */
  datatype TimeSpan = TimeSpan(ticks: int)

  const TicksPerMinute: int := 600_000_000

  /** `TimeSpan.FromMinutes` for a whole number of minutes. */
  function FromMinutes(minutes: int): TimeSpan {
    TimeSpan(minutes * TicksPerMinute)
  }

  /** One row of the fixture table. `categoryDescription` is never set by the scraper. */
  datatype MatchDto = MatchDto(
    date: Option<DateTime>,
    rawDateText: Option<string>,
    venue: Option<string>,
    time: Option<TimeSpan>,
    rawTimeText: Option<string>,
    homeTeam: Option<string>,
    awayTeam: Option<string>,
    setScores: Option<string>,
    league: Option<string>,
    categoryCode: Option<string>,
    categoryDescription: Option<string>,
    homeSets: Option<int>,
    awaySets: Option<int>,
    isFinished: Option<bool>
  )
}
