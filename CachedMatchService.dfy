/**
 * `CachedMatchService`: the in-memory cache between the background refresh
 * and the web pages. It holds the last list of records, when it was stored,
 * and the last error message; a successful store clears the error, and an
 * error leaves the stored list and its time as they were.
 */
module CachedMatchService {
  import opened Wrappers
  import opened Models

  /** What `GetCurrentMatchesAsync` returns: `(Matches, LastUpdatedAt, ErrorMessage)`. */
  datatype Snapshot = Snapshot(matches: seq<MatchDto>, lastUpdatedAt: Option<DateTime>, errorMessage: Option<string>)

  /** The state of a new cache: no records, never updated, no error. */
  const Empty: Snapshot := Snapshot([], None, None)

  /** The state after `UpdateMatches(matches, updatedAt)`. */
  function Updated(s: Snapshot, matches: seq<MatchDto>, updatedAt: DateTime): Snapshot {
    Snapshot(matches, Some(updatedAt), None)
  }

  /** The state after `SetError(errorMessage)`. */
  function Failed(s: Snapshot, errorMessage: string): Snapshot {
    s.(errorMessage := Some(errorMessage))
  }

  class CachedMatchService {
    var matches: seq<MatchDto>
    var lastUpdatedAt: Option<DateTime>
    var lastError: Option<string>

    /** The three fields, as read together under the lock. */
    function State(): Snapshot
      reads this
    {
      Snapshot(matches, lastUpdatedAt, lastError)
    }

    /** A new cache is empty. */
    constructor ()
      ensures State() == Empty
    {
      matches := [];
      lastUpdatedAt := None;
      lastError := None;
    }

    /** `GetCurrentMatchesAsync`: the three fields, unchanged. */
    method GetCurrentMatches() returns (snapshot: Snapshot)
      ensures snapshot == State()
    {
      snapshot := Snapshot(matches, lastUpdatedAt, lastError);
    }

    /** `UpdateMatches`: stores the list and its time, and clears the error. */
    method UpdateMatches(newMatches: seq<MatchDto>, updatedAt: DateTime)
      modifies this
      ensures State() == Updated(old(State()), newMatches, updatedAt)
    {
      matches := newMatches;
      lastUpdatedAt := Some(updatedAt);
      lastError := None;
    }

    /** `SetError`: records the message and keeps the list and its time. */
    method SetError(errorMessage: string)
      modifies this
      ensures State() == Failed(old(State()), errorMessage)
    {
      lastError := Some(errorMessage);
    }
  }

  /**
   * A store is visible as written and leaves no error; an error after it
   * keeps the stored list and time visible beside the message; a second
   * store hides both the first list and the error.
   */
  lemma UpdateThenFail(s: Snapshot, ms: seq<MatchDto>, at: DateTime, msg: string, ms': seq<MatchDto>, at': DateTime)
    ensures Updated(s, ms, at).matches == ms && Updated(s, ms, at).lastUpdatedAt == Some(at)
    ensures Updated(s, ms, at).errorMessage.None?
    ensures Failed(Updated(s, ms, at), msg) == Snapshot(ms, Some(at), Some(msg))
    ensures Updated(Failed(Updated(s, ms, at), msg), ms', at') == Updated(s, ms', at')
  {
  }

  /** An error never changes the list or its time, and only the last message shows. */
  lemma FailKeepsData(s: Snapshot, msg: string, msg': string)
    ensures Failed(s, msg).matches == s.matches && Failed(s, msg).lastUpdatedAt == s.lastUpdatedAt
    ensures Failed(Failed(s, msg), msg') == Failed(s, msg')
  {
  }

  /** A store, an error, and a read: the read sees the stored list with the error. */
  method StoreFailRead(cache: CachedMatchService, ms: seq<MatchDto>, at: DateTime, msg: string)
    returns (snapshot: Snapshot)
    modifies cache
    ensures snapshot == Snapshot(ms, Some(at), Some(msg))
  {
    cache.UpdateMatches(ms, at);
    cache.SetError(msg);
    snapshot := cache.GetCurrentMatches();
  }
}
