/**
 * The cases list page: search and status filter, the summary counts and the
 * page's own status colours.
 */
module CasesPage {
  import opened Text
  import opened Seqs

  datatype Case = Case(
    id: string,
    caseNumber: string,
    clientFirstName: string,
    clientLastName: string,
    clientEmail: string,
    clientPhone: string,
    status: string,
    priority: string,
    serviceType: string,
    tier: string,
    createdAt: int,
    updatedAt: int)

  // ---------------------------------------------------------------------
  // filteredCases

  /** The case number, both names and the email are searched ignoring case;
      the phone is not searched. */
  predicate MatchesSearch(c: Case, term: string) {
    || term == ""
    || IncludesIgnoringCase(c.caseNumber, term)
    || IncludesIgnoringCase(c.clientFirstName, term)
    || IncludesIgnoringCase(c.clientLastName, term)
    || IncludesIgnoringCase(c.clientEmail, term)
  }

  predicate CaseMatches(c: Case, term: string, statusFilter: string) {
    MatchesSearch(c, term) && (statusFilter == "all" || c.status == statusFilter)
  }

  function FilteredCases(cases: seq<Case>, term: string, statusFilter: string): (r: seq<Case>)
    ensures |r| <= |cases|
  {
    Filter(cases, (c: Case) => CaseMatches(c, term, statusFilter))
  }

  /** "Showing n of m": the shown cases are exactly the matching ones, in
      order, and with no search and 'all' statuses every case is shown. */
  lemma FilteredCasesSound(cases: seq<Case>, term: string, statusFilter: string)
    ensures IsSubsequence(FilteredCases(cases, term, statusFilter), cases)
    ensures forall c :: c in FilteredCases(cases, term, statusFilter) <==> c in cases && CaseMatches(c, term, statusFilter)
    ensures term == "" && statusFilter == "all" ==> FilteredCases(cases, term, statusFilter) == cases
  {
    var p := (c: Case) => CaseMatches(c, term, statusFilter);
    FilterIsSubsequence(cases, p);
    forall c ensures c in FilteredCases(cases, term, statusFilter) <==> c in cases && CaseMatches(c, term, statusFilter) {
      FilterMembership(cases, p, c);
    }
    if term == "" && statusFilter == "all" {
      FilterKeepsAll(cases, p);
    }
  }

  /** A search for a case's number, in any letter case, finds it. */
  lemma SearchFindsCaseNumber(c: Case, term: string)
    requires ToLower(term) == ToLower(c.caseNumber)
    ensures MatchesSearch(c, term)
  {
    assert StartsWith(ToLower(c.caseNumber), ToLower(term));
  }

  /** A term found only in the phone number does not find the case. */
  lemma SearchSkipsPhone(c: Case, term: string)
    requires term != ""
    requires !IncludesIgnoringCase(c.caseNumber, term) && !IncludesIgnoringCase(c.clientFirstName, term)
    requires !IncludesIgnoringCase(c.clientLastName, term) && !IncludesIgnoringCase(c.clientEmail, term)
    ensures !MatchesSearch(c, term)
  {
  }

  // ---------------------------------------------------------------------
  // The statistics cards

  const ActiveStatuses: set<string> := {"INITIATED", "DOCUMENTS_PENDING", "UNDER_REVIEW", "IN_PROGRESS"}

  predicate IsActive(c: Case) {
    c.status in ActiveStatuses
  }

  predicate IsCompleted(c: Case) {
    c.status == "COMPLETED"
  }

  /** The cards: all cases, the active ones, the completed ones, and those
      whose creation month (`monthOf`, 0 to 11, in local time) is the current
      month, in whatever year. */
  datatype CaseStats = CaseStats(total: nat, active: nat, completed: nat, thisMonth: nat)

  /** The cases the "this month" card counts: those whose creation month is the current month. */
  function ThisMonthCases(cases: seq<Case>, monthOf: int -> int, now: int): (r: seq<Case>)
    ensures |r| <= |cases|
  {
    Filter(cases, (c: Case) => monthOf(c.createdAt) == monthOf(now))
  }

  function Stats(cases: seq<Case>, monthOf: int -> int, now: int): (r: CaseStats)
    ensures r.total == |cases|
    ensures r.active + r.completed <= r.total
    ensures r.thisMonth <= r.total
  {
    CountDisjoint(cases, IsActive, IsCompleted);
    CaseStats(|cases|, |Filter(cases, IsActive)|, |Filter(cases, IsCompleted)|,
              |ThisMonthCases(cases, monthOf, now)|)
  }

  /** Only the month is compared: a case is counted this month exactly when its
      creation month equals the current one, and nothing else about its date
      (the year included) is looked at. */
  lemma ThisMonthCounts(cases: seq<Case>, monthOf: int -> int, now: int)
    ensures Stats(cases, monthOf, now).thisMonth == |ThisMonthCases(cases, monthOf, now)|
    ensures forall c :: c in ThisMonthCases(cases, monthOf, now) <==>
              c in cases && monthOf(c.createdAt) == monthOf(now)
  {
    forall c ensures c in ThisMonthCases(cases, monthOf, now) <==> c in cases && monthOf(c.createdAt) == monthOf(now) {
      FilterMembership(cases, (c: Case) => monthOf(c.createdAt) == monthOf(now), c);
    }
  }

  // ---------------------------------------------------------------------
  // getStatusColor (the page's own table)

  const StatusClasses: map<string, string> := map[
    "INITIATED" := "bg-blue-100 text-blue-800",
    "DOCUMENTS_PENDING" := "bg-yellow-100 text-yellow-800",
    "UNDER_REVIEW" := "bg-purple-100 text-purple-800",
    "DOCUMENTS_APPROVED" := "bg-green-100 text-green-800",
    "APPLICATION_SUBMITTED" := "bg-indigo-100 text-indigo-800",
    "IN_PROGRESS" := "bg-orange-100 text-orange-800",
    "APPROVED" := "bg-green-100 text-green-800",
    "COMPLETED" := "bg-gray-100 text-gray-800"
  ]

  const DefaultClasses := "bg-gray-100 text-gray-800"

  function StatusColor(status: string): (r: string)
    ensures status in StatusClasses ==> r == StatusClasses[status]
    ensures status !in StatusClasses ==> r == DefaultClasses
  {
    LookupOr(StatusClasses, status, DefaultClasses)
  }

  /** Every active status has a colour of its own kind (none is gray), and a
      status the table does not list, such as REJECTED, is shown like COMPLETED. */
  lemma StatusColorActive(status: string)
    ensures status in ActiveStatuses ==> StatusColor(status) != DefaultClasses
    ensures status !in StatusClasses ==> StatusColor(status) == StatusColor("COMPLETED")
  {
    if status in ActiveStatuses {
      assert StatusClasses[status][3] != DefaultClasses[3];
    }
  }
}
