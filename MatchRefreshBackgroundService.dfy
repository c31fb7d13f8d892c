/**
 * `MatchRefreshBackgroundService`: refreshes the cache once at start-up and
 * then once per interval until the host stops it. A refresh that fails
 * records a fixed message in the cache and never stops the loop.
 *
 * What the scraper returns on each cycle, the clock, and when the host asks
 * to stop are inputs: `scrape(k)` and `clock(k)` are the outcome and the time
 * of cycle `k`, and `events[i]` says how the `i`-th wait ended.
 */
module MatchRefreshBackgroundService {
  import opened Wrappers
  import opened Models
  import opened CachedMatchService

  /** The refresh interval when the configuration sets none, in minutes. */
  const DefaultRefreshMinutes: int := 60

  /** The message the cache shows after a failed refresh. */
  const RefreshErrorMessage: string := "Ma\U{e7} verileri g\U{fc}ncellenirken bir hata olu\U{15f}tu."

  /** How one call of `GetMatchesAsync` ended: with a list, or with an exception (cancellation included). */
  datatype ScrapeOutcome = Scraped(matches: seq<MatchDto>) | ScrapeFailed

  /** How one wait ended: the interval elapsed, or the host asked to stop. */
  datatype WaitEnd = Elapsed | Cancelled

  /** The cache after one refresh with the given outcome at time `now`. */
  function Refreshed(s: Snapshot, outcome: ScrapeOutcome, now: DateTime): Snapshot {
    match outcome
    case Scraped(ms) => Updated(s, ms, now)
    case ScrapeFailed => Failed(s, RefreshErrorMessage)
  }

  /** The cache after the first `n` refresh cycles. */
  function RefreshedTimes(s: Snapshot, scrape: nat -> ScrapeOutcome, clock: nat -> DateTime, n: nat): Snapshot {
    if n == 0 then s
    else Refreshed(RefreshedTimes(s, scrape, clock, n - 1), scrape(n - 1), clock(n - 1))
  }

  /** The number of waits that elapsed before the first cancellation; the end of `events` is a stop. */
  function ElapsedWaits(events: seq<WaitEnd>): (n: nat)
    ensures n <= |events|
  {
    if |events| == 0 || events[0] == Cancelled then 0 else 1 + ElapsedWaits(events[1..])
  }

  class MatchRefreshBackgroundService {
    const cache: CachedMatchService
    const refreshInterval: TimeSpan

    /** Reads `Matches:RefreshMinutes`, 60 when it is absent. */
    constructor (cache: CachedMatchService, configuredMinutes: Option<int>)
      ensures this.cache == cache
      ensures refreshInterval == FromMinutes(configuredMinutes.GetOr(DefaultRefreshMinutes))
    {
      this.cache := cache;
      refreshInterval := FromMinutes(configuredMinutes.GetOr(DefaultRefreshMinutes));
    }

    /** `RefreshOnceAsync`: stores the list on success, records the message on failure; nothing escapes. */
    method RefreshOnce(outcome: ScrapeOutcome, now: DateTime)
      modifies cache
      ensures cache.State() == Refreshed(old(cache.State()), outcome, now)
    {
      match outcome
      case Scraped(ms) =>
        cache.UpdateMatches(ms, now);
      case ScrapeFailed =>
        cache.SetError(RefreshErrorMessage);
    }

    /**
     * `ExecuteAsync`: one refresh straight away, then a refresh after every
     * wait that elapses, until a wait is cancelled. Returns the number of
     * refresh cycles.
     */
    method Execute(events: seq<WaitEnd>, scrape: nat -> ScrapeOutcome, clock: nat -> DateTime)
      returns (cycles: nat)
      modifies cache
      ensures cycles == 1 + ElapsedWaits(events)
      ensures cache.State() == RefreshedTimes(old(cache.State()), scrape, clock, cycles)
    {
      ElapsedWaitsStopsAtCancel(events);
      RefreshOnce(scrape(0), clock(0));
      cycles := 1;
      var i := 0;
      while i < |events|
        invariant 0 <= i <= ElapsedWaits(events)
        invariant cycles == 1 + i
        invariant cache.State() == RefreshedTimes(old(cache.State()), scrape, clock, cycles)
      {
        if events[i] == Cancelled {
          break;
        }
        RefreshOnce(scrape(cycles), clock(cycles));
        cycles := cycles + 1;
        i := i + 1;
      }
    }
  }

  // ---------------------------------------------------------------------
  // What the cache shows after the cycles
  // ---------------------------------------------------------------------

  /** Cycle `k` is the last of the first `n` whose scrape succeeded. */
  predicate LastSuccess(scrape: nat -> ScrapeOutcome, n: nat, k: nat) {
    k < n && scrape(k).Scraped? && forall j: nat :: k < j < n ==> scrape(j).ScrapeFailed?
  }

  /** After `n` cycles the cache shows the list and the time of the last successful cycle. */
  lemma {:induction false} ShowsLastSuccess(s: Snapshot, scrape: nat -> ScrapeOutcome, clock: nat -> DateTime, n: nat, k: nat)
    requires LastSuccess(scrape, n, k)
    ensures RefreshedTimes(s, scrape, clock, n).matches == scrape(k).matches
    ensures RefreshedTimes(s, scrape, clock, n).lastUpdatedAt == Some(clock(k))
  {
    if k < n - 1 {
      assert LastSuccess(scrape, n - 1, k);
      ShowsLastSuccess(s, scrape, clock, n - 1, k);
    }
  }

  /** When no cycle succeeded, the cache still shows the list and the time it had before. */
  lemma {:induction false} NoSuccessKeepsData(s: Snapshot, scrape: nat -> ScrapeOutcome, clock: nat -> DateTime, n: nat)
    requires forall j: nat :: j < n ==> scrape(j).ScrapeFailed?
    ensures RefreshedTimes(s, scrape, clock, n).matches == s.matches
    ensures RefreshedTimes(s, scrape, clock, n).lastUpdatedAt == s.lastUpdatedAt
  {
    if n > 0 {
      NoSuccessKeepsData(s, scrape, clock, n - 1);
    }
  }

  /**
   * After at least one cycle the error shows exactly when the last cycle
   * failed, and it is then the fixed message.
   */
  lemma ErrorShowsLastFailure(s: Snapshot, scrape: nat -> ScrapeOutcome, clock: nat -> DateTime, n: nat)
    requires n > 0
    ensures RefreshedTimes(s, scrape, clock, n).errorMessage ==
      (if scrape(n - 1).ScrapeFailed? then Some(RefreshErrorMessage) else None)
  {
  }

  /**
   * The waits counted are exactly those before the first cancellation: all
   * of them elapsed, and the next one, when there is one, was cancelled. So
   * a service stopped before its first wait still refreshes once.
   */
  lemma {:induction false} ElapsedWaitsStopsAtCancel(events: seq<WaitEnd>)
    ensures forall i :: 0 <= i < ElapsedWaits(events) ==> events[i] == Elapsed
    ensures ElapsedWaits(events) < |events| ==> events[ElapsedWaits(events)] == Cancelled
  {
    if |events| > 0 && events[0] == Elapsed {
      ElapsedWaitsStopsAtCancel(events[1..]);
      forall i | 0 < i < ElapsedWaits(events)
        ensures events[i] == Elapsed
      {
        assert events[i] == events[1..][i - 1];
      }
    }
  }
}
