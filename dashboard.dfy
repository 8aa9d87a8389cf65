/** The request list of src/pages/Dashboard.tsx: the status tabs with the
    text search, and the counters above them. */
module Dashboard {
  import opened Wrappers
  import opened Seqs
  import opened Strings
  import opened TravelTypes

  /** `status && status !== 'all'`: a missing, empty or `'all'` status
      argument applies no status filter. */
  predicate StatusFilterActive(status: Option<string>) {
    status.Some? && status.value != "" && status.value != "all"
  }

  predicate HasStatusTag(t: TravelRequest, tag: string) {
    TravelStatusName(t.status) == tag
  }

  /** The text search: the lower-cased term occurs in the lower-cased
      requester name, purpose or destination city. */
  predicate MatchesSearch(t: TravelRequest, searchTerm: string) {
    Includes(Lower(t.requesterName), Lower(searchTerm))
    || Includes(Lower(t.purpose), Lower(searchTerm))
    || Includes(Lower(t.destination.city), Lower(searchTerm))
  }

  /** Which travels a tab lists, stated as one condition per travel: the
      status test when a status filter applies, the text test when the term
      is not empty. */
  predicate Selected(t: TravelRequest, status: Option<string>, searchTerm: string) {
    (StatusFilterActive(status) ==> HasStatusTag(t, status.value))
    && (searchTerm != "" ==> MatchesSearch(t, searchTerm))
  }

  function SelectTravels(travels: seq<TravelRequest>, status: Option<string>, searchTerm: string): (r: seq<TravelRequest>)
    ensures forall t :: t in r <==> t in travels && Selected(t, status, searchTerm)
    ensures IsSubseq(r, travels)
  {
    Filter((t: TravelRequest) => Selected(t, status, searchTerm), travels)
  }

  /** The status step's test, and the text step's, as values. */
  function StatusStep(status: Option<string>): TravelRequest -> bool {
    (t: TravelRequest) => StatusFilterActive(status) ==> HasStatusTag(t, status.value)
  }

  function SearchStep(searchTerm: string): TravelRequest -> bool {
    (t: TravelRequest) => searchTerm != "" ==> MatchesSearch(t, searchTerm)
  }

  /** The two steps, one after the other, select what `Selected` describes. */
  lemma TwoStepsSelect(travels: seq<TravelRequest>, status: Option<string>, searchTerm: string)
    ensures Filter(SearchStep(searchTerm), Filter(StatusStep(status), travels))
      == SelectTravels(travels, status, searchTerm)
  {
    FilterFilter(StatusStep(status), SearchStep(searchTerm),
                 (t: TravelRequest) => Selected(t, status, searchTerm), travels);
  }

  /** `filterTravels(status)`: start from the whole list, narrow it by status
      when a status filter applies, then by the search term when it is not
      empty. The result is the travels `Selected` describes, in list order. */
  method FilterTravels(travels: seq<TravelRequest>, searchTerm: string, status: Option<string>)
    returns (filtered: seq<TravelRequest>)
    ensures filtered == SelectTravels(travels, status, searchTerm)
  {
    filtered := travels;
    if StatusFilterActive(status) {
      filtered := Filter((t: TravelRequest) => HasStatusTag(t, status.value), filtered);
      FilterCongruent((t: TravelRequest) => HasStatusTag(t, status.value), StatusStep(status), travels);
    } else {
      FilterKeepsAll(StatusStep(status), travels);
    }
    ghost var afterStatus := filtered;
    assert afterStatus == Filter(StatusStep(status), travels);
    if searchTerm != "" {
      filtered := Filter((t: TravelRequest) => MatchesSearch(t, searchTerm), filtered);
      FilterCongruent((t: TravelRequest) => MatchesSearch(t, searchTerm), SearchStep(searchTerm), afterStatus);
    } else {
      FilterKeepsAll(SearchStep(searchTerm), afterStatus);
    }
    TwoStepsSelect(travels, status, searchTerm);
  }

  /** `filterTravels('all')` lists the same travels as `filterTravels()`. */
  lemma AllTabIsUnfiltered(travels: seq<TravelRequest>, searchTerm: string)
    ensures SelectTravels(travels, Some("all"), searchTerm) == SelectTravels(travels, None, searchTerm)
  {
    FilterCongruent((t: TravelRequest) => Selected(t, Some("all"), searchTerm),
                    (t: TravelRequest) => Selected(t, None, searchTerm), travels);
  }

  /** With no status filter and an empty term, a tab lists every travel. */
  lemma NoFilterListsAll(travels: seq<TravelRequest>)
    ensures SelectTravels(travels, None, "") == travels
  {
    FilterKeepsAll((t: TravelRequest) => Selected(t, None, ""), travels);
  }

  /** Terms that lower-case alike list the same travels. */
  lemma SearchIgnoresCase(travels: seq<TravelRequest>, status: Option<string>, t1: string, t2: string)
    requires Lower(t1) == Lower(t2)
    ensures SelectTravels(travels, status, t1) == SelectTravels(travels, status, t2)
  {
    if t1 == "" || t2 == "" {
      assert t1 == "" && t2 == "";
    }
    FilterCongruent((t: TravelRequest) => Selected(t, status, t1),
                    (t: TravelRequest) => Selected(t, status, t2), travels);
  }

  /** The search never looks at the e-mail address or the street address:
      two travels that differ only there are matched alike. */
  lemma SearchIgnoresEmailAndAddress(t: TravelRequest, email: string, address: string, searchTerm: string)
    ensures MatchesSearch(t.(requesterEmail := email, destination := t.destination.(address := address)), searchTerm)
      == MatchesSearch(t, searchTerm)
  {
  }

  /** The counters above the tabs. */
  datatype Stats = Stats(total: nat, pending: nat, approved: nat, inProgress: nat)

  /** The travels that have status `s`. */
  function WithStatus(travels: seq<TravelRequest>, s: TravelStatus): seq<TravelRequest> {
    Filter((t: TravelRequest) => t.status == s, travels)
  }

  /** Every travel has exactly one of the five statuses. */
  lemma {:induction false} StatusCountsPartition(travels: seq<TravelRequest>)
    ensures |WithStatus(travels, Pending)| + |WithStatus(travels, Approved)| + |WithStatus(travels, InProgress)|
      + |WithStatus(travels, Completed)| + |WithStatus(travels, Rejected)| == |travels|
  {
    if travels != [] {
      StatusCountsPartition(travels[1..]);
    }
  }

  /** `getStats()`: the list length and the numbers of pending, approved and
      in-progress travels; completed and rejected travels fall in no bucket,
      so the three buckets never exceed the total. Each bucket is the length
      of the matching tab with an empty search. */
  function GetStats(travels: seq<TravelRequest>): (s: Stats)
    ensures s.total == |travels|
    ensures s.pending + s.approved + s.inProgress <= s.total
    ensures s.pending + s.approved + s.inProgress == s.total
      <==> forall t :: t in travels ==> t.status != Completed && t.status != Rejected
    ensures s.pending == |SelectTravels(travels, Some("pending"), "")|
    ensures s.approved == |SelectTravels(travels, Some("approved"), "")|
    ensures s.inProgress == |SelectTravels(travels, Some("in_progress"), "")|
  {
    StatusCountsPartition(travels);
    TabMatchesBucket(travels, Pending);
    TabMatchesBucket(travels, Approved);
    TabMatchesBucket(travels, InProgress);
    UncountedBuckets(travels);
    Stats(|travels|, |WithStatus(travels, Pending)|, |WithStatus(travels, Approved)|,
          |WithStatus(travels, InProgress)|)
  }

  /** A status tab with an empty search lists exactly that status's bucket. */
  lemma TabMatchesBucket(travels: seq<TravelRequest>, s: TravelStatus)
    ensures SelectTravels(travels, Some(TravelStatusName(s)), "") == WithStatus(travels, s)
  {
    forall t: TravelRequest ensures Selected(t, Some(TravelStatusName(s)), "") == (t.status == s) {
      TravelStatusNameInjective(t.status, s);
    }
    FilterCongruent((t: TravelRequest) => Selected(t, Some(TravelStatusName(s)), ""),
                    (t: TravelRequest) => t.status == s, travels);
  }

  /** The completed and rejected buckets are empty exactly when no travel
      is completed or rejected. */
  lemma UncountedBuckets(travels: seq<TravelRequest>)
    ensures |WithStatus(travels, Completed)| + |WithStatus(travels, Rejected)| == 0
      <==> forall t :: t in travels ==> t.status != Completed && t.status != Rejected
  {
    var c, r := WithStatus(travels, Completed), WithStatus(travels, Rejected);
    if c != [] {
      assert c[0] in c;
    }
    if r != [] {
      assert r[0] in r;
    }
  }
}
