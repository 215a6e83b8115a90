/** The first half of the visible sequence: the records that match the
    search box and the status drop-down, in collection order. */
module Filtering {
  import opened Text
  import opened Seqs
  import opened Records
  import Stats

  const All := "all"

  /** The search term occurs, ignoring ASCII case, in the company, the
      position or the location. */
  predicate MatchesSearch(a: Application, term: string) {
    var t := Lower(term);
    Contains(Lower(a.company), t) || Contains(Lower(a.position), t) || Contains(Lower(a.location), t)
  }

  /** The drop-down is "all" or names the record's status. */
  predicate MatchesStatus(a: Application, filterStatus: string) {
    filterStatus == All || a.status == filterStatus
  }

  predicate Matches(a: Application, term: string, filterStatus: string) {
    MatchesSearch(a, term) && MatchesStatus(a, filterStatus)
  }

  /** `applications.filter(app => matchesSearch && matchesStatus)`. */
  function Filter(apps: seq<Application>, term: string, filterStatus: string): (r: seq<Application>)
    ensures IsSubseq(r, apps)
    ensures forall i | 0 <= i < |r| :: Matches(r[i], term, filterStatus)
  {
    if apps == [] then []
    else
      var rest := Filter(apps[1..], term, filterStatus);
      assert apps == [apps[0]] + apps[1..];
      if Matches(apps[0], term, filterStatus) then
        SubseqConsBoth(rest, apps[0], apps[1..]);
        assert forall i | 1 <= i < |rest| + 1 :: ([apps[0]] + rest)[i] == rest[i - 1];
        [apps[0]] + rest
      else
        SubseqCons(rest, apps[0], apps[1..]);
        rest
  }

  /** A record is kept exactly when it matches, and then as often as it
      occurs in the collection. */
  lemma {:induction false} FilterCounts(apps: seq<Application>, term: string, filterStatus: string, x: Application)
    ensures multiset(Filter(apps, term, filterStatus))[x]
         == if Matches(x, term, filterStatus) then multiset(apps)[x] else 0
  {
    if apps != [] {
      FilterCounts(apps[1..], term, filterStatus, x);
      assert apps == [apps[0]] + apps[1..];
    }
  }

  /** Membership: kept if and only if present and matching. */
  lemma FilterMembers(apps: seq<Application>, term: string, filterStatus: string, x: Application)
    ensures x in Filter(apps, term, filterStatus) <==> x in apps && Matches(x, term, filterStatus)
  {
    FilterCounts(apps, term, filterStatus, x);
  }

  /** The empty search term matches every record. */
  lemma EmptyTermMatches(a: Application)
    ensures MatchesSearch(a, "")
  {
    ContainsEmpty(Lower(a.company));
  }

  /** With an empty search box and "all", nothing is filtered out. */
  lemma {:induction false} FilterEverything(apps: seq<Application>)
    ensures Filter(apps, "", All) == apps
  {
    if apps != [] {
      EmptyTermMatches(apps[0]);
      FilterEverything(apps[1..]);
      assert apps == [apps[0]] + apps[1..];
    }
  }

  /** With an empty search box the status drop-down alone decides, and the
      list has as many records as the dashboard's count for that status. */
  lemma {:induction false} FilterByStatusOnly(apps: seq<Application>, status: string)
    requires status != All
    ensures |Filter(apps, "", status)| == Stats.CountStatus(apps, status)
    ensures forall i | 0 <= i < |Filter(apps, "", status)| :: Filter(apps, "", status)[i].status == status
  {
    if apps != [] {
      EmptyTermMatches(apps[0]);
      FilterByStatusOnly(apps[1..], status);
    }
  }

  /** Filtering, by search term and status together, never lengthens the list. */
  lemma FilterNoLonger(apps: seq<Application>, term: string, filterStatus: string)
    ensures |Filter(apps, term, filterStatus)| <= |apps|
  {
    SubseqNoLonger(Filter(apps, term, filterStatus), apps);
  }
}
