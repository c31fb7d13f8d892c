/**
 * `MatchesController.Index`: the page of records, optionally narrowed by a
 * search over the team names. The search is trimmed and compared with each
 * team name ignoring case; a record stays when either of its non-empty team
 * names contains it. The time of the last store and the error message pass
 * through unchanged.
 *
 * `OrdinalIgnoreCase` compares characters after mapping each to a common
 * case; that mapping is the parameter `fold`.
 */
module MatchesController {
  import opened Wrappers
  import opened Text
  import opened Models
  import opened TextProofs
  import opened CachedMatchService

  /** What the page shows. */
  datatype MatchesIndexViewModel = MatchesIndexViewModel(
    search: Option<string>,
    matches: seq<MatchDto>,
    lastUpdatedAt: Option<DateTime>,
    errorMessage: Option<string>
  )

  /** `term` occurs in `text` at offset `i` once both are folded. */
  predicate OccursAt(text: string, term: string, i: int, fold: char -> char)
    requires 0 <= i && i + |term| <= |text|
  {
    forall j :: 0 <= j < |term| ==> fold(text[i + j]) == fold(term[j])
  }

  /** `text.Contains(term, StringComparison.OrdinalIgnoreCase)`. */
  predicate ContainsIgnoreCase(text: string, term: string, fold: char -> char) {
    exists i :: 0 <= i <= |text| - |term| && OccursAt(text, term, i, fold)
  }

  /** A team name that is present, not empty, and contains the term. */
  predicate TeamMatches(team: Option<string>, term: string, fold: char -> char) {
    !IsNullOrEmpty(team) && ContainsIgnoreCase(team.value, term, fold)
  }

  /** The condition of the `Where`: the home or the away team matches. */
  predicate Keep(m: MatchDto, term: string, fold: char -> char) {
    TeamMatches(m.homeTeam, term, fold) || TeamMatches(m.awayTeam, term, fold)
  }

  /** `matches.Where(Keep).ToList()`: the records kept, in their order. */
  function FilterByTeam(ms: seq<MatchDto>, term: string, fold: char -> char): (r: seq<MatchDto>)
    ensures |r| <= |ms|
  {
    if |ms| == 0 then []
    else (if Keep(ms[0], term, fold) then [ms[0]] else []) + FilterByTeam(ms[1..], term, fold)
  }

  /** The view model `Index` builds from a snapshot of the cache. */
  function IndexView(search: Option<string>, s: Snapshot, fold: char -> char): MatchesIndexViewModel {
    var matches := if IsNullOrWhiteSpace(search) then s.matches else FilterByTeam(s.matches, Trim(search.value), fold);
    MatchesIndexViewModel(search, matches, s.lastUpdatedAt, s.errorMessage)
  }

  class MatchesController {
    const cache: CachedMatchService

    constructor (cache: CachedMatchService)
      ensures this.cache == cache
    {
      this.cache := cache;
    }

    /** `Index`: reads the cache once and builds the view model; the cache is not changed. */
    method Index(search: Option<string>, fold: char -> char) returns (viewModel: MatchesIndexViewModel)
      ensures viewModel == IndexView(search, cache.State(), fold)
    {
      var snapshot := cache.GetCurrentMatches();
      var matches := snapshot.matches;
      if !IsNullOrWhiteSpace(search) {
        var term := Trim(search.value);
        matches := FilterByTeam(matches, term, fold);
      }
      viewModel := MatchesIndexViewModel(search, matches, snapshot.lastUpdatedAt, snapshot.errorMessage);
    }
  }

  // ---------------------------------------------------------------------
  // Properties of the filter
  // ---------------------------------------------------------------------

  /** A record is kept exactly when it was there and one of its team names matches. */
  lemma {:induction false} FilterByTeamMembers(ms: seq<MatchDto>, term: string, fold: char -> char)
    ensures forall m :: m in FilterByTeam(ms, term, fold) <==> m in ms && Keep(m, term, fold)
  {
    if |ms| > 0 {
      FilterByTeamMembers(ms[1..], term, fold);
      assert ms == [ms[0]] + ms[1..];
    }
  }

  /** The filter keeps the order: filtering two lists one after the other is filtering their concatenation. */
  lemma {:induction false} FilterByTeamAppend(a: seq<MatchDto>, b: seq<MatchDto>, term: string, fold: char -> char)
    ensures FilterByTeam(a + b, term, fold) == FilterByTeam(a, term, fold) + FilterByTeam(b, term, fold)
  {
    if |a| > 0 {
      FilterByTeamAppend(a[1..], b, term, fold);
      assert (a + b)[1..] == a[1..] + b;
    } else {
      assert a + b == b;
    }
  }

  /** Filtering twice with the same term is filtering once. */
  lemma {:induction false} FilterByTeamTwice(ms: seq<MatchDto>, term: string, fold: char -> char)
    ensures FilterByTeam(FilterByTeam(ms, term, fold), term, fold) == FilterByTeam(ms, term, fold)
  {
    if |ms| > 0 {
      var rest := FilterByTeam(ms[1..], term, fold);
      FilterByTeamTwice(ms[1..], term, fold);
      if Keep(ms[0], term, fold) {
        var kept := [ms[0]] + rest;
        assert kept[0] == ms[0] && kept[1..] == rest;
        assert FilterByTeam(kept, term, fold) == [ms[0]] + FilterByTeam(rest, term, fold);
        assert FilterByTeam(ms, term, fold) == kept;
      } else {
        assert FilterByTeam(ms, term, fold) == rest;
      }
    }
  }

  /** Terms that fold to the same characters find the same records: the search ignores case. */
  lemma {:induction false} FilterByTeamFolded(ms: seq<MatchDto>, term: string, term': string, fold: char -> char)
    requires |term| == |term'|
    requires forall j :: 0 <= j < |term| ==> fold(term[j]) == fold(term'[j])
    ensures FilterByTeam(ms, term, fold) == FilterByTeam(ms, term', fold)
  {
    if |ms| > 0 {
      FilterByTeamFolded(ms[1..], term, term', fold);
      forall text: string
        ensures ContainsIgnoreCase(text, term, fold) <==> ContainsIgnoreCase(text, term', fold)
      {
        forall i | 0 <= i <= |text| - |term|
          ensures OccursAt(text, term, i, fold) <==> OccursAt(text, term', i, fold)
        {
        }
      }
    }
  }

  /**
   * What `Index` shows: the search and the cache's time and message as they
   * are; all the records for a missing or blank search; otherwise the
   * records, in order, that one of their non-empty team names matches with
   * the trimmed search, which is then never empty.
   */
  lemma IndexViewSpec(search: Option<string>, s: Snapshot, fold: char -> char)
    ensures IndexView(search, s, fold).search == search
    ensures IndexView(search, s, fold).lastUpdatedAt == s.lastUpdatedAt
    ensures IndexView(search, s, fold).errorMessage == s.errorMessage
    ensures IsNullOrWhiteSpace(search) ==> IndexView(search, s, fold).matches == s.matches
    ensures !IsNullOrWhiteSpace(search) ==>
      && Trim(search.value) != ""
      && |IndexView(search, s, fold).matches| <= |s.matches|
      && forall m :: m in IndexView(search, s, fold).matches <==> m in s.matches && Keep(m, Trim(search.value), fold)
  {
    if !IsNullOrWhiteSpace(search) {
      TrimEmptyIffBlank(search.value);
      FilterByTeamMembers(s.matches, Trim(search.value), fold);
    }
  }

  /** A record with neither team name is never found by a search. */
  lemma NoTeamNeverFound(search: Option<string>, s: Snapshot, fold: char -> char, m: MatchDto)
    requires !IsNullOrWhiteSpace(search)
    requires IsNullOrEmpty(m.homeTeam) && IsNullOrEmpty(m.awayTeam)
    ensures m !in IndexView(search, s, fold).matches
  {
    FilterByTeamMembers(s.matches, Trim(search.value), fold);
  }

  /** A record whose home or away team is the trimmed search is found. */
  lemma TeamNameFound(search: Option<string>, s: Snapshot, fold: char -> char, m: MatchDto)
    requires !IsNullOrWhiteSpace(search) && m in s.matches
    requires m.homeTeam == Some(Trim(search.value)) || m.awayTeam == Some(Trim(search.value))
    ensures m in IndexView(search, s, fold).matches
  {
    var term := Trim(search.value);
    TrimEmptyIffBlank(search.value);
    assert OccursAt(term, term, 0, fold);
    FilterByTeamMembers(s.matches, term, fold);
  }

  /** White space around the search does not change what is found. */
  lemma SearchIsTrimmed(search: string, s: Snapshot, fold: char -> char)
    ensures IndexView(Some(search), s, fold).matches == IndexView(Some(Trim(search)), s, fold).matches
  {
    TrimIdempotent(search);
    TrimEmptyIffBlank(search);
    TrimEmptyIffBlank(Trim(search));
  }
}
