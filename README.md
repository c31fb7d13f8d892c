# maclar: a Dafny model of the match scraper, its cache and its refresh loop

maclar is an ASP.NET application that shows the volleyball fixtures and
results published as an HTML table on the Istanbul volleyball federation's
site. This project models four parts of it in Dafny.

- **The extractor** is `MatchScraperService.GetMatchesAsync` and
  `FillSetsAndStatus`. It makes one pass over the table rows and skips the
  header. Each row is anchored on its first time-like cell. The cell left of
  that anchor is the venue and the cell left of the venue is the date. A
  venue or date that a row does not print is carried over from earlier rows.
  The record's columns sit at fixed offsets from the anchor. The set counts
  and the finished flag come from the set columns, or else from the
  set-score text such as `(25-11) (12-25) (25-23) (25-15)`.
- **The cache** is `CachedMatchService`. It holds the last list, when that
  list was stored, and the last error. A store clears the error. An error
  never touches the stored list or its time.
- **The refresh loop** is `MatchRefreshBackgroundService`. It refreshes once
  straight away and then once per interval until the host stops it. The
  interval defaults to 60 minutes. A failed refresh records the fixed message
  "Maç verileri güncellenirken bir hata oluştu." and never ends the loop.
- **The page** is `MatchesController.Index`. It shows the cache, optionally
  filtered. A filter is applied only when the search is not blank. The search
  is trimmed, and a record is kept when either of its non-empty team names
  contains the search, ignoring case.

Each imperative procedure of the source is a `method` proved equal to a
specification function. These are the row loop, the per-row steps, the
set-counting `foreach`, the cache's methods and the refresh loop. The
properties are proved about those functions. The cache and the two services
are classes whose methods change their fields or their cache. The search
filter is a LINQ query in the source, so it is a function here.

| Module | File | Contents |
|---|---|---|
| `Wrappers` | `Wrappers.dfy` | `Option`, the nullable values of C# |
| `Text` | `Text.dfy` | `char.IsWhiteSpace`, `IsNullOrWhiteSpace`, `Trim`, `Split` with `RemoveEmptyEntries \| TrimEntries`, `int.TryParse` |
| `TextProofs` | `TextProofs.dfy` | the split/join round trip, trimming, `int.TryParse` reading back `ToString` |
| `Models` | `Models.dfy` | `MatchDto`, `DateTime`, `TimeSpan` |
| `MatchScraperService` | `MatchScraperService.dfy` | the row loop and `FillSetsAndStatus`, as functions and as methods |
| `MatchScraperProofs` | `MatchScraperProofs.dfy` | which rows yield records, what a record holds, how the carried date and venue evolve |
| `SetScoreProofs` | `SetScoreProofs.dfy` | what `FillSetsAndStatus` decides |
| `SetScoreExample` | `SetScoreExample.dfy` | the example score text of the source, worked out |
| `CachedMatchService` | `CachedMatchService.dfy` | the cache class |
| `MatchRefreshBackgroundService` | `MatchRefreshBackgroundService.dfy` | the refresh loop class |
| `MatchesController` | `MatchesController.dfy` | the search filter and the view model |

## Model

| member | source | states |
|---|---|---|
| Text.SplitOn | Maclar.Web/Services/MatchScraperService.cs:241 | `Split` always yields at least one piece, and no piece contains the separator |
| Text.Entries | Maclar.Web/Services/MatchScraperService.cs:241 | `TrimEntries \| RemoveEmptyEntries` never yields more pieces than the split; `TextProofs.EntriesMembers` and `TextProofs.EntriesAppend` say which pieces it keeps and in what order |
| Text.DigitsValue | Maclar.Web/Services/MatchScraperService.cs:155-163 | a run of characters has a value exactly when every character is a decimal digit |
| Text.ParseDigits | Maclar.Web/Services/MatchScraperService.cs:155-163 | the digits part parses exactly when it is one or more decimal digits |
| Text.ParseInt | Maclar.Web/Services/MatchScraperService.cs:155-163 | `int.TryParse` succeeds exactly on an optional `+` or `-` sign followed by one or more digits; `TextProofs.ParseIntShow` is its round trip |
| TextProofs.JoinSplitOn | Maclar.Web/Services/MatchScraperService.cs:241 | joining the pieces of a split with the separator gives back the text |
| TextProofs.SplitOnJoin | Maclar.Web/Services/MatchScraperService.cs:257 | splitting pieces joined by a separator they do not contain gives the pieces back |
| TextProofs.SplitOnPrefix | Maclar.Web/Services/MatchScraperService.cs:257 | text without the separator, put before more text, extends the first piece of the split |
| TextProofs.HasCharTail | Maclar.Web/Services/MatchScraperService.cs:243 | text without the separator neither starts with it nor holds it after its first character |
| TextProofs.EntriesMembers | Maclar.Web/Services/MatchScraperService.cs:241 | the entries are exactly the non-empty trims of the pieces |
| TextProofs.EntriesAppend | Maclar.Web/Services/MatchScraperService.cs:241 | the entries keep the order of the pieces: the entries of a concatenation are the concatenated entries |
| TextProofs.EntriesKeep | Maclar.Web/Services/MatchScraperService.cs:241 | pieces that are trimmed and non-empty all pass `TrimEntries \| RemoveEmptyEntries` unchanged |
| TextProofs.SplitOnBlank | Maclar.Web/Services/MatchScraperService.cs:241 | every piece of a blank text is blank |
| TextProofs.EntriesOfBlank | Maclar.Web/Services/MatchScraperService.cs:241 | blank pieces all trim to nothing, so none is kept |
| TextProofs.BlankHasNoEntries | Maclar.Web/Services/MatchScraperService.cs:233-244 | a blank text has no entries, so blank set scores could never give set parts |
| TextProofs.TrimStartByDropsPrefix | Maclar.Web/Services/MatchScraperService.cs:242 | `TrimStart` removes a prefix made only of dropped characters and stops at the first kept one |
| TextProofs.TrimEndByDropsSuffix | Maclar.Web/Services/MatchScraperService.cs:242 | `TrimEnd` removes a suffix made only of dropped characters and stops at the last kept one |
| TextProofs.TrimKeepsTrimmed | Maclar.Web/Controllers/MatchesController.cs:22 | text with no white space at either end is its own `Trim` |
| TextProofs.TrimIdempotent | Maclar.Web/Controllers/MatchesController.cs:22 | `Trim` leaves no white space at either end, so trimming twice is trimming once |
| TextProofs.TrimEmptyIffBlank | Maclar.Web/Controllers/MatchesController.cs:20-22 | `Trim` gives the empty text exactly when the text is all white space, so a search that is not blank trims to a non-empty term |
| TextProofs.DigitsValueOfDecimal | Maclar.Web/Services/MatchScraperService.cs:263 | the decimal digits of a natural number read back as that number |
| TextProofs.ParseIntShow | Maclar.Web/Services/MatchScraperService.cs:155-163 | `int.TryParse` reads back the decimal text of every integer, negative ones included |
| TextProofs.DecimalDigits | Maclar.Web/Services/MatchScraperService.cs:263 | the decimal text of a number is non-empty and made only of digits |
| MatchScraperService.TryParseDate | Maclar.Web/Services/MatchScraperService.cs:180-197 | blank text is never a date |
| MatchScraperService.IsTime | Maclar.Web/Services/MatchScraperService.cs:199-207 | blank text is never a time |
| MatchScraperService.IsTimeTrimmed | Maclar.Web/Services/MatchScraperService.cs:199-207 | white space around a text never changes whether it is a time |
| MatchScraperService.ParseTime | Maclar.Web/Services/MatchScraperService.cs:199-222 | `ParseTime` yields a time exactly for the texts `IsTime` accepts, and then it is the parser's result |
| MatchScraperService.FirstTime | Maclar.Web/Services/MatchScraperService.cs:55-66 | the result is a time-like cell with none before it; no result means no cell is time-like |
| MatchScraperService.WithChar | Maclar.Web/Services/MatchScraperService.cs:243 | the `Where(p => p.Contains('-'))` filter never adds parts |
| MatchScraperService.StripParens | Maclar.Web/Services/MatchScraperService.cs:242 | stripping the parentheses keeps one part per part |
| MatchScraperService.Scores | Maclar.Web/Services/MatchScraperService.cs:255-266 | there is one score pair per set part |
| MatchScraperService.PairOfShow | Maclar.Web/Services/MatchScraperService.cs:257-266 | a part written as two non-negative scores joined by a dash, such as `25-9`, reads back as those two scores |
| MatchScraperService.PairOfWithoutDash | Maclar.Web/Services/MatchScraperService.cs:257-261 | a part without a dash is one piece, so it gives no score pair |
| MatchScraperService.ReadSetScore | Maclar.Web/Services/MatchScraperService.cs:257-266 | one turn of the `foreach`: a part `h-a` written by `int.ToString` reads as `(h, a)`, and a part without a dash gives nothing |
| MatchScraperService.CountSetsWon | Maclar.Web/Services/MatchScraperService.cs:252-276 | the loop's two counters are the home and away tallies over all set parts |
| MatchScraperService.FillSetsAndStatus | Maclar.Web/Services/MatchScraperService.cs:224-283 | the method leaves the record that `SetsAndStatus` describes; `SetScoreProofs.SetsAndStatusSpec` states what that is |
| MatchScraperService.FindTimeCell | Maclar.Web/Services/MatchScraperService.cs:55-66 | the index is -1 exactly when no cell is time-like; otherwise it is the first time-like cell and the text is that cell |
| MatchScraperService.ReadVenueAndDate | Maclar.Web/Services/MatchScraperService.cs:75-109 | the carried values after the venue and date cells are read, and the row's venue: its own, or else the carried one, or else the empty text |
| MatchScraperService.BuildRecord | Maclar.Web/Services/MatchScraperService.cs:130-163 | the record built from the cells at their offsets from the anchor, with set counts only where `int.TryParse` succeeds |
| MatchScraperService.ReadRow | Maclar.Web/Services/MatchScraperService.cs:47-167 | one turn of the row loop is the `Step` whose properties `MatchScraperProofs` proves |
| MatchScraperService.GetMatches | Maclar.Web/Services/MatchScraperService.cs:28-170 | the records of a page: none without a table or rows, else those of the row loop after the header |
| MatchScraperProofs.AnchorUnique | Maclar.Web/Services/MatchScraperService.cs:57-66 | a row has at most one anchor, its first time-like cell |
| MatchScraperProofs.FirstTimeIsAnchor | Maclar.Web/Services/MatchScraperService.cs:57-66 | the time search finds a cell exactly when that cell is the anchor |
| MatchScraperProofs.StepRecordIff | Maclar.Web/Services/MatchScraperService.cs:49-52 | a row yields a record exactly when it has five cells or more, an anchor, and five cells after the anchor; the carried values play no part |
| MatchScraperProofs.RecordOfRow | Maclar.Web/Services/MatchScraperService.cs:74-162 | for an anchored row: the carried values after it, whether it yields a record (the `setIndex` check at 125-128), and every field of the record other than the set counts and the finished flag |
| MatchScraperProofs.RecordSetsOfRow | Maclar.Web/Services/MatchScraperService.cs:131-165 | the set counts and the flag of a row's record. If a set column parses, the counts come from those columns and the match is finished when they add up to more than zero. Otherwise a set-score cell with dash parts gives each side the parts it won and a finished match. Without such parts there are no counts and no flag |
| MatchScraperProofs.SkippedRowKeepsCarry | Maclar.Web/Services/MatchScraperService.cs:49-72 | a row with fewer than five cells or no time-like cell changes nothing |
| MatchScraperProofs.RunAppend | Maclar.Web/Services/MatchScraperService.cs:46-168 | reading rows `a` and then `b` is reading `a + b`, so records come out in row order |
| MatchScraperProofs.QualifyingCount | Maclar.Web/Services/MatchScraperService.cs:46-168 | there are never more qualifying rows than rows |
| MatchScraperProofs.RunCount | Maclar.Web/Services/MatchScraperService.cs:46-168 | there is one record per qualifying row, whatever the carried values |
| MatchScraperProofs.CarriedVenueIsLatest | Maclar.Web/Services/MatchScraperService.cs:79-95 | the carried venue is the one from the last row that set a venue, or the initial one if no row did; skipped rows that set one count too |
| MatchScraperProofs.CarriedDateIsLatest | Maclar.Web/Services/MatchScraperService.cs:97-109 | the carried date and its text come from the last row that set a date, or are the initial ones if no row did |
| MatchScraperProofs.FinishedIffCounts | Maclar.Web/Services/MatchScraperService.cs:224-283 | after `FillSetsAndStatus` there is a finished flag exactly when there is a set count |
| MatchScraperProofs.StepKeepsOk | Maclar.Web/Services/MatchScraperService.cs:47-167 | one row keeps the carried values consistent and yields a well-formed record |
| MatchScraperProofs.RunRecordsOk | Maclar.Web/Services/MatchScraperService.cs:40-168 | every record of the row loop is well formed: a time parsed from its text, a venue that is empty or venue-like, a date parsed from its text (or no date and empty text), and a finished flag exactly when there are set counts |
| MatchScraperProofs.ExtractOk | Maclar.Web/Services/MatchScraperService.cs:28-170 | a page's records are well formed; there are none without a table; there is one per qualifying row after the header |
| MatchScraperProofs.HeaderIgnored | Maclar.Web/Services/MatchScraperService.cs:46 | the first row never affects the result |
| SetScoreProofs.WithCharMembers | Maclar.Web/Services/MatchScraperService.cs:243 | the dash filter keeps exactly the parts that contain a dash |
| SetScoreProofs.WithCharAppend | Maclar.Web/Services/MatchScraperService.cs:243 | the dash filter keeps order: filtering a concatenation is concatenating the filtered parts |
| SetScoreProofs.WithCharKeeps | Maclar.Web/Services/MatchScraperService.cs:243 | parts that all contain the dash all pass the dash filter |
| SetScoreProofs.StripParensAt | Maclar.Web/Services/MatchScraperService.cs:242 | each part has its parentheses stripped at its own position |
| SetScoreProofs.SetPartsNonEmpty | Maclar.Web/Services/MatchScraperService.cs:240-246 | there are set parts exactly when some space-separated entry contains a dash once its parentheses are stripped |
| SetScoreProofs.FinishedWhenDashPart | Maclar.Web/Services/MatchScraperService.cs:227-282 | without set columns, set scores that have such an entry give both set counts and a finished match |
| SetScoreProofs.SetWonOfPart | Maclar.Web/Services/MatchScraperService.cs:268-275 | a part gives one set to the higher score and none for a tie or a malformed part, never one to each side |
| SetScoreProofs.HomeWinsStep | Maclar.Web/Services/MatchScraperService.cs:268-271 | one more part adds one home win exactly when the home side won it |
| SetScoreProofs.AwayWinsStep | Maclar.Web/Services/MatchScraperService.cs:272-275 | one more part adds one away win exactly when the away side won it |
| SetScoreProofs.TallyCountsWins | Maclar.Web/Services/MatchScraperService.cs:252-276 | each side's tally is the number of parts it won, and the two tallies add up to at most the number of parts |
| SetScoreProofs.SetsAndStatusSpec | Maclar.Web/Services/MatchScraperService.cs:224-283 | only the counts and the flag change. Existing counts are kept and the match is finished when they add up to more than zero. Blank scores, or no part with a dash, leave no counts and no flag. Otherwise each side gets the number of parts it won and the match is finished |
| SetScoreExample.NoSpaceInScore | Maclar.Web/Services/MatchScraperService.cs:257 | the two numbers of an `hh-aa` part have no dash and no white space at either end |
| SetScoreExample.ParseTwoDigits | Maclar.Web/Services/MatchScraperService.cs:263 | `int.TryParse` reads two digits as their value |
| SetScoreExample.PairOfPairText | Maclar.Web/Services/MatchScraperService.cs:257-266 | an `hh-aa` part reads as the pair of its two numbers |
| SetScoreExample.ParenthesisedPart | Maclar.Web/Services/MatchScraperService.cs:241-243 | `(hh-aa)` has no space, is its own `Trim`, strips to `hh-aa`, and that contains a dash |
| SetScoreExample.SamplePieces | Maclar.Web/Services/MatchScraperService.cs:239 | the example text is its four parenthesised pairs joined by spaces |
| SetScoreExample.StripParensOf | Maclar.Web/Services/MatchScraperService.cs:242 | stripping the parentheses from parenthesised pairs gives back the pairs |
| SetScoreExample.SampleParts | Maclar.Web/Services/MatchScraperService.cs:239-244 | the set parts of the example are `25-11`, `12-25`, `25-23` and `25-15` |
| SetScoreExample.ScoreOfPart | Maclar.Web/Services/MatchScraperService.cs:257-266 | the score pair of an `hh-aa` part is its two numbers |
| SetScoreExample.SampleFirstHalf | Maclar.Web/Services/MatchScraperService.cs:268-275 | the first two example sets go one to each side |
| SetScoreExample.SampleSecondHalf | Maclar.Web/Services/MatchScraperService.cs:268-275 | the last two example sets both go to the home side |
| SetScoreExample.SampleTally | Maclar.Web/Services/MatchScraperService.cs:252-276 | the example's parts tally three sets to one |
| SetScoreExample.CountsFromParts | Maclar.Web/Services/MatchScraperService.cs:240-282 | with no set columns and some set parts, the counts are the tallies of the parts and the match is finished |
| SetScoreExample.SampleResult | Maclar.Web/Services/MatchScraperService.cs:239-282 | the example score text with no set columns gives three sets to one and a finished match |
| CachedMatchService.CachedMatchService.constructor | Maclar.Web/Services/CachedMatchService.cs:8-10 | a new cache has no records, no time and no error |
| CachedMatchService.CachedMatchService.GetCurrentMatches | Maclar.Web/Services/CachedMatchService.cs:12-19 | a read returns the three fields as they are and changes nothing |
| CachedMatchService.CachedMatchService.UpdateMatches | Maclar.Web/Services/CachedMatchService.cs:21-29 | a store replaces the list and its time and clears the error |
| CachedMatchService.CachedMatchService.SetError | Maclar.Web/Services/CachedMatchService.cs:31-37 | an error replaces only the message |
| CachedMatchService.UpdateThenFail | Maclar.Web/Services/CachedMatchService.cs:21-37 | a store shows its list and time with no error; an error after it shows both beside the message; a second store hides the first list and the error |
| CachedMatchService.FailKeepsData | Maclar.Web/Services/CachedMatchService.cs:31-37 | an error never changes the list or its time, and only the last message shows |
| CachedMatchService.StoreFailRead | Maclar.Web/Services/CachedMatchService.cs:12-37 | a store, then an error, then a read: the read sees the stored list and time with the message |
| MatchRefreshBackgroundService.ElapsedWaits | Maclar.Web/Services/MatchRefreshBackgroundService.cs:35-47 | the loop never counts more waits than there are |
| MatchRefreshBackgroundService.MatchRefreshBackgroundService.constructor | Maclar.Web/Services/MatchRefreshBackgroundService.cs:13-26 | the interval is the configured number of minutes, or 60 when none is configured |
| MatchRefreshBackgroundService.MatchRefreshBackgroundService.RefreshOnce | Maclar.Web/Services/MatchRefreshBackgroundService.cs:50-64 | success stores the list (an empty one too) at that time; failure records the fixed message; nothing else changes and no failure escapes |
| MatchRefreshBackgroundService.MatchRefreshBackgroundService.Execute | Maclar.Web/Services/MatchRefreshBackgroundService.cs:28-48 | one refresh straight away and one after every elapsed wait, stopping at the first cancelled wait; the cache is then that many refreshes on |
| MatchRefreshBackgroundService.ShowsLastSuccess | Maclar.Web/Services/MatchRefreshBackgroundService.cs:50-64 | after the cycles, the cache shows the list and time of the last successful cycle |
| MatchRefreshBackgroundService.NoSuccessKeepsData | Maclar.Web/Services/MatchRefreshBackgroundService.cs:59-63 | when every cycle failed, the cache still shows the list and time it had before |
| MatchRefreshBackgroundService.ErrorShowsLastFailure | Maclar.Web/Services/MatchRefreshBackgroundService.cs:50-64 | the error shows exactly when the last cycle failed, and it is then the fixed message |
| MatchRefreshBackgroundService.ElapsedWaitsStopsAtCancel | Maclar.Web/Services/MatchRefreshBackgroundService.cs:35-47 | every counted wait elapsed, and the next wait, if there is one, was cancelled |
| MatchesController.MatchesController.constructor | Maclar.Web/Controllers/MatchesController.cs:11-14 | the controller keeps the cache it is given |
| MatchesController.FilterByTeam | Maclar.Web/Controllers/MatchesController.cs:23-27 | the filter never adds records |
| MatchesController.MatchesController.Index | Maclar.Web/Controllers/MatchesController.cs:16-39 | the page is the view model that `IndexView` describes for the cache as it is; `IndexViewSpec` states what that is |
| MatchesController.FilterByTeamMembers | Maclar.Web/Controllers/MatchesController.cs:23-27 | a record survives the filter exactly when it was in the list and one of its non-empty team names contains the term |
| MatchesController.FilterByTeamAppend | Maclar.Web/Controllers/MatchesController.cs:23-27 | filtering keeps order: filtering a concatenation is concatenating the filtered parts |
| MatchesController.FilterByTeamTwice | Maclar.Web/Controllers/MatchesController.cs:23-27 | filtering twice with the same term is filtering once |
| MatchesController.FilterByTeamFolded | Maclar.Web/Controllers/MatchesController.cs:25-26 | terms equal after case folding find the same records |
| MatchesController.IndexViewSpec | Maclar.Web/Controllers/MatchesController.cs:16-39 | the search, time and message pass through. A blank or missing search shows every record. Otherwise the trimmed search is non-empty, and the page shows the records kept by the team filter, never more than before |
| MatchesController.NoTeamNeverFound | Maclar.Web/Controllers/MatchesController.cs:25-26 | a record with neither team name is never found by a search |
| MatchesController.TeamNameFound | Maclar.Web/Controllers/MatchesController.cs:22-26 | a record whose home or away team is the trimmed search is found |
| MatchesController.SearchIsTrimmed | Maclar.Web/Controllers/MatchesController.cs:20-22 | white space around the search never changes which records are shown |

## Left out

- Fetching the page (`HttpClient`, `EnsureSuccessStatusCode`) and HTML parsing (`HtmlAgilityPack`'s `SelectSingleNode`/`SelectNodes`, `InnerText`) are not modelled. A page is given as its table's rows, each a sequence of cell texts, or `None` when the page has no table or no rows.
- `CleanText` and `HtmlEntity.DeEntitize` are not modelled. Cell texts are taken as already cleaned: entities decoded, trimmed, and empty when blank.
- `TimeSpan.TryParse` with the invariant culture and `DateTime.TryParseExact` with `dd.MM.yyyy` and tr-TR are not modelled. They are uninterpreted function fields of `Parsers`, and the model depends only on them being functions of the trimmed text.
- Text.ParseInt: does not model the 32-bit range of `int.TryParse`, leading or trailing white space, or culture-specific signs. The scraper only hands it cleaned, trimmed cell texts and `TrimEntries` pieces.
- `OrdinalIgnoreCase` is not modelled beyond comparing characters after one per-character mapping, the `fold` parameter. The Unicode case tables are not modelled.
- Locking in `CachedMatchService`, `async`/`Task`, and threads are not modelled. Each cache method is one atomic step of the class. Concurrent readers, and the interleaving of the web requests with the background loop, are not modelled.
- Real time and timers are not modelled. `DateTime.UtcNow` at cycle `k` is `clock(k)`. How each `Task.Delay` ended is an element of `events`. The token check at the head of the loop and a cancelled delay are both `Cancelled`, and the end of `events` stands for a stop.
- The scraper's result on each cycle is `scrape(k)`. Any exception, cancellation included, is `ScrapeFailed`.
- Logging (`ILogger`) is not modelled. The configuration lookup is the optional integer handed to the constructor.
- MatchRefreshBackgroundService.MatchRefreshBackgroundService.Execute: does not model `Task.Delay` rejecting an interval outside its range. A negative number of minutes, or one too large for the delay, makes `Task.Delay` throw an exception that is not a `TaskCanceledException`. That exception would end `ExecuteAsync` after the first refresh. Here every wait ends as `events` says, whatever the interval.
- MatchScraperService.SetsAndStatus: does not model the 32-bit wrap-around of `HomeSets + AwaySets` in the finished check. With set columns `2147483647` and `1`, the source's sum wraps to a negative number and gives `IsFinished = false`, but the model gives `true`. The model's integers are unbounded, and `int.TryParse`'s range is not modelled either (see `Text.ParseInt`).
- The ASP.NET plumbing is not modelled: dependency injection, the `ICachedMatchService`/`IMatchScraperService` interfaces, `View(...)`, and the `CancellationToken` of `Index`. The interfaces only name the methods the classes above implement.
- A "refresh now" action that fetches on demand does not exist in the controller's code, so it is not modelled. The only writer of the cache is the background loop.
- `MatchDto.CategoryDescription` is never set by the scraper, so it is always `None` here.
- The row loop's body is split into the methods `FindTimeCell`, `ReadVenueAndDate` and `BuildRecord`. They run in the source's order and each keeps the source's branches.
- `FillSetsAndStatus` changes the record in place. Here it returns the changed record. No other reference to the record exists while it runs.
