/**
 * The leads list page: search and filters, the sort column and direction,
 * the nulls-last comparator and the CSV export.
 */
module LeadsPage {
  import opened Wrappers
  import opened Text
  import opened Seqs

  datatype Lead = Lead(
    id: string,
    firstName: string,
    lastName: string,
    email: Option<string>,
    phone: string,
    source: string,
    status: string,
    priority: string,
    capturedAt: Option<int>,
    updatedAt: int,
    createdAt: int)

  // ---------------------------------------------------------------------
  // filteredLeads

  /** The search box, the status select and the priority select. */
  datatype LeadQuery = LeadQuery(searchTerm: string, statusFilter: string, priorityFilter: string)

  /** `filter === 'all' || value === filter`. */
  predicate MatchesSelect(value: string, filter: string) {
    filter == "all" || value == filter
  }

  /** Names and email are searched ignoring case, the phone as typed; an
      absent or empty email is never searched. */
  predicate MatchesSearch(lead: Lead, term: string) {
    || term == ""
    || IncludesIgnoringCase(lead.firstName, term)
    || IncludesIgnoringCase(lead.lastName, term)
    || (lead.email.Some? && lead.email.value != "" && IncludesIgnoringCase(lead.email.value, term))
    || Includes(lead.phone, term)
  }

  predicate LeadMatches(lead: Lead, q: LeadQuery) {
    MatchesSearch(lead, q.searchTerm) && MatchesSelect(lead.status, q.statusFilter)
      && MatchesSelect(lead.priority, q.priorityFilter)
  }

  function FilteredLeads(leads: seq<Lead>, q: LeadQuery): (r: seq<Lead>)
    ensures |r| <= |leads|
  {
    Filter(leads, (l: Lead) => LeadMatches(l, q))
  }

  /** With an empty search and both selects on 'all' every lead is shown. */
  lemma FilteredLeadsUnfiltered(leads: seq<Lead>)
    ensures FilteredLeads(leads, LeadQuery("", "all", "all")) == leads
  {
    FilterKeepsAll(leads, (l: Lead) => LeadMatches(l, LeadQuery("", "all", "all")));
  }

  /** The shown leads are the matching leads, in their original order; each
      has the selected status and priority unless that select is 'all'. */
  lemma FilteredLeadsSound(leads: seq<Lead>, q: LeadQuery)
    ensures IsSubsequence(FilteredLeads(leads, q), leads)
    ensures forall l :: l in FilteredLeads(leads, q) <==> l in leads && LeadMatches(l, q)
    ensures forall l :: l in FilteredLeads(leads, q) ==>
              (q.statusFilter != "all" ==> l.status == q.statusFilter) &&
              (q.priorityFilter != "all" ==> l.priority == q.priorityFilter)
  {
    var p := (l: Lead) => LeadMatches(l, q);
    FilterIsSubsequence(leads, p);
    forall l ensures l in FilteredLeads(leads, q) <==> l in leads && LeadMatches(l, q) {
      FilterMembership(leads, p, l);
    }
  }

  /** Any spelling of a lead's first name, in whatever letter case, finds the lead. */
  lemma SearchFindsNameInAnyCase(lead: Lead, term: string)
    requires ToLower(term) == ToLower(lead.firstName)
    ensures MatchesSearch(lead, term)
  {
    assert StartsWith(ToLower(lead.firstName), ToLower(term));
  }

  /** The phone is searched with the term as typed: a term that occurs in no
      lower-cased name or email matches exactly when it occurs in the phone. */
  lemma SearchPhoneIsCaseSensitive(lead: Lead, term: string)
    requires term != ""
    requires !IncludesIgnoringCase(lead.firstName, term) && !IncludesIgnoringCase(lead.lastName, term)
    requires lead.email.Some? ==> !IncludesIgnoringCase(lead.email.value, term)
    ensures MatchesSearch(lead, term) <==> Includes(lead.phone, term)
  {
  }

  /** A lead without an email is matched only through its names or phone. */
  lemma SearchWithoutEmail(lead: Lead, term: string)
    requires lead.email.None? || lead.email == Some("")
    ensures MatchesSearch(lead, term) <==>
              term == "" || IncludesIgnoringCase(lead.firstName, term) ||
              IncludesIgnoringCase(lead.lastName, term) || Includes(lead.phone, term)
  {
  }

  // ---------------------------------------------------------------------
  // handleSort and getSortIcon

  datatype Direction = Asc | Desc

  datatype SortState = SortState(field: string, direction: Direction)

  const InitialSort := SortState("createdAt", Desc)

  /** The sort state after clicking the header of column `field`. */
  function ClickSort(s: SortState, field: string): (r: SortState)
    ensures r.field == field
    ensures s.field == field ==> r.direction != s.direction
    ensures s.field != field ==> r.direction.Asc?
  {
    if s.field == field then SortState(field, if s.direction.Asc? then Desc else Asc)
    else SortState(field, Asc)
  }

  /** Clicking the current column twice restores the state; clicking twice
      on another column leaves it sorted descending by that column. */
  lemma ClickSortTwice(s: SortState, field: string)
    ensures ClickSort(ClickSort(s, field), field) ==
              if s.field == field then s else SortState(field, Desc)
  {
  }

  const UpArrow := "\U{2191}"
  const DownArrow := "\U{2193}"

  /** The arrow shown beside column `field`: none on the other columns, up
      when ascending and down when descending. */
  function SortIcon(s: SortState, field: string): (r: Option<string>)
    ensures r.None? <==> field != s.field
    ensures r.Some? ==> (r.value == UpArrow <==> s.direction.Asc?)
    ensures r.Some? ==> (r.value == DownArrow <==> s.direction.Desc?)
  {
    assert UpArrow[0] != DownArrow[0];
    if s.field != field then None
    else if s.direction.Asc? then Some(UpArrow) else Some(DownArrow)
  }

  // ---------------------------------------------------------------------
  // sortedLeads

  /** The value `lead[sortField]`; absent when the field is optional and
      unset, or is not one of the lead's scalar fields. */
  datatype SortValue = Absent | Str(s: string) | Num(n: int)

  function FieldValue(lead: Lead, field: string): SortValue {
    match field
    case "_id" => Str(lead.id)
    case "firstName" => Str(lead.firstName)
    case "lastName" => Str(lead.lastName)
    case "email" => if lead.email.Some? then Str(lead.email.value) else Absent
    case "phone" => Str(lead.phone)
    case "source" => Str(lead.source)
    case "status" => Str(lead.status)
    case "priority" => Str(lead.priority)
    case "capturedAt" => if lead.capturedAt.Some? then Num(lead.capturedAt.value) else Absent
    case "updatedAt" => Num(lead.updatedAt)
    case "createdAt" => Num(lead.createdAt)
    case _ => Absent
  }

  /** `a > b` on two values of one column. */
  predicate Greater(a: SortValue, b: SortValue) {
    if a.Str? && b.Str? then StrLess(b.s, a.s)
    else if a.Num? && b.Num? then a.n > b.n
    else false
  }

  lemma GreaterAsymmetric(a: SortValue, b: SortValue)
    ensures !(Greater(a, b) && Greater(b, a))
  {
    if a.Str? && b.Str? {
      StrLessAsymmetric(a.s, b.s);
    }
  }

  /** The comparator handed to `sort`. */
  function CompareValues(a: SortValue, b: SortValue, dir: Direction): int {
    if a.Absent? && b.Absent? then 0
    else if a.Absent? then 1
    else if b.Absent? then -1
    else if dir.Asc? then (if Greater(a, b) then 1 else -1)
    else (if Greater(b, a) then 1 else -1)
  }

  /** Two absent values tie, an absent value goes after a present one in
      both directions, and two present values never tie: equal values
      compare as -1 whichever comes first. */
  lemma CompareValuesCases(a: SortValue, b: SortValue, dir: Direction)
    ensures a.Absent? && b.Absent? ==> CompareValues(a, b, dir) == 0
    ensures a.Absent? && !b.Absent? ==> CompareValues(a, b, dir) == 1 && CompareValues(b, a, dir) == -1
    ensures !a.Absent? && !b.Absent? ==> CompareValues(a, b, dir) in {1, -1}
    ensures !a.Absent? && !b.Absent? && dir.Asc? ==> (CompareValues(a, b, dir) == 1 <==> Greater(a, b))
    ensures !a.Absent? && !b.Absent? && dir.Desc? ==> (CompareValues(a, b, dir) == 1 <==> Greater(b, a))
    ensures !a.Absent? && a == b ==> CompareValues(a, b, dir) == -1
  {
    if a.Str? && a == b {
      StrLessIrreflexive(a.s);
    }
  }

  /** `a[sortField]` against `b[sortField]` in the chosen direction. */
  function CompareBy(s: SortState, a: Lead, b: Lead): int {
    CompareValues(FieldValue(a, s.field), FieldValue(b, s.field), s.direction)
  }

  function CompareLeads(s: SortState): (Lead, Lead) -> int {
    (a: Lead, b: Lead) => CompareBy(s, a, b)
  }

  /** What `compare(a, b) <= 0` says about the two leads' values. */
  lemma CompareByOrdered(s: SortState, a: Lead, b: Lead)
    requires CompareBy(s, a, b) <= 0
    ensures var x := FieldValue(a, s.field);
            var y := FieldValue(b, s.field);
            (x.Absent? ==> y.Absent?) &&
            (!x.Absent? && !y.Absent? ==> if s.direction.Asc? then !Greater(x, y) else !Greater(y, x))
  {
  }

  /** `[...filteredLeads].sort(...)`. */
  function SortedLeads(leads: seq<Lead>, q: LeadQuery, s: SortState): (r: seq<Lead>)
    ensures multiset(r) == multiset(FilteredLeads(leads, q))
    ensures |r| == |FilteredLeads(leads, q)|
  {
    var r := Sort(FilteredLeads(leads, q), CompareLeads(s));
    assert |r| == |multiset(r)|;
    r
  }

  /** The comparator never orders two leads both ways. */
  lemma CompareLeadsTotal(s: SortState)
    ensures Total(CompareLeads(s))
  {
    forall a: Lead, b: Lead ensures CompareLeads(s)(a, b) <= 0 || CompareLeads(s)(b, a) <= 0 {
      assert CompareLeads(s)(a, b) == CompareBy(s, a, b);
      assert CompareLeads(s)(b, a) == CompareBy(s, b, a);
      GreaterAsymmetric(FieldValue(a, s.field), FieldValue(b, s.field));
    }
  }

  /** The sorted list is in column order for the chosen direction, and the
      leads with no value in the column come last. */
  lemma SortedLeadsOrdered(leads: seq<Lead>, q: LeadQuery, s: SortState)
    ensures var r := SortedLeads(leads, q, s);
            forall i :: 0 <= i < |r| - 1 ==>
              var a := FieldValue(r[i], s.field);
              var b := FieldValue(r[i + 1], s.field);
              (a.Absent? ==> b.Absent?) &&
              (!a.Absent? && !b.Absent? ==> if s.direction.Asc? then !Greater(a, b) else !Greater(b, a))
    ensures var r := SortedLeads(leads, q, s);
            forall i, j :: 0 <= i < j < |r| && FieldValue(r[i], s.field).Absent? ==> FieldValue(r[j], s.field).Absent?
  {
    var r := SortedLeads(leads, q, s);
    CompareLeadsTotal(s);
    SortSorted(FilteredLeads(leads, q), CompareLeads(s));
    assert SortedBy(r, CompareLeads(s));
    forall i | 0 <= i < |r| - 1
      ensures var a := FieldValue(r[i], s.field);
              var b := FieldValue(r[i + 1], s.field);
              (a.Absent? ==> b.Absent?) &&
              (!a.Absent? && !b.Absent? ==> if s.direction.Asc? then !Greater(a, b) else !Greater(b, a))
    {
      assert CompareLeads(s)(r[i], r[i + 1]) == CompareBy(s, r[i], r[i + 1]);
      CompareByOrdered(s, r[i], r[i + 1]);
    }
    forall i, j | 0 <= i < j < |r| && FieldValue(r[i], s.field).Absent?
      ensures FieldValue(r[j], s.field).Absent?
    {
      AbsentStaysAbsent(r, s, i, j);
    }
  }

  lemma {:induction false} AbsentStaysAbsent(r: seq<Lead>, s: SortState, i: nat, j: nat)
    requires SortedBy(r, CompareLeads(s))
    requires i < j < |r| && FieldValue(r[i], s.field).Absent?
    ensures FieldValue(r[j], s.field).Absent?
    decreases j - i
  {
    assert CompareLeads(s)(r[i], r[i + 1]) == CompareBy(s, r[i], r[i + 1]);
    CompareByOrdered(s, r[i], r[i + 1]);
    if i + 1 < j {
      AbsentStaysAbsent(r, s, i + 1, j);
    }
  }

  // ---------------------------------------------------------------------
  // handleExport

  const CsvHeader: seq<string> := ["Name", "Email", "Phone", "Status", "Priority", "Source", "Created"]

  /** The seven cells of a lead's line; `dateText` is `toLocaleDateString` of the creation time. */
  function CsvCells(lead: Lead, dateText: int -> string): (r: seq<string>)
    ensures |r| == |CsvHeader|
  {
    [lead.firstName + " " + lead.lastName, lead.email.GetOr(""), lead.phone, lead.status,
     lead.priority, lead.source, dateText(lead.createdAt)]
  }

  function CsvLines(leads: seq<Lead>, dateText: int -> string): (r: seq<string>)
    ensures |r| == |leads| + 1
  {
    [Join(CsvHeader, ',')] + seq(|leads|, i requires 0 <= i < |leads| => Join(CsvCells(leads[i], dateText), ','))
  }

  /** The file's text: the header and one line per lead, joined by newlines, with no quoting. */
  function ExportCsv(leads: seq<Lead>, dateText: int -> string): string {
    Join(CsvLines(leads, dateText), '\n')
  }

  predicate CellsFree(leads: seq<Lead>, dateText: int -> string, c: char) {
    forall i, k :: 0 <= i < |leads| && 0 <= k < |CsvHeader| ==> c !in CsvCells(leads[i], dateText)[k]
  }

  lemma CsvLinesFree(leads: seq<Lead>, dateText: int -> string)
    requires CellsFree(leads, dateText, '\n')
    ensures forall k :: 0 <= k < |CsvLines(leads, dateText)| ==> '\n' !in CsvLines(leads, dateText)[k]
  {
    var lines := CsvLines(leads, dateText);
    forall k | 0 <= k < |lines| ensures '\n' !in lines[k] {
      if k == 0 {
        HeaderLine();
      } else {
        assert lines[k] == Join(CsvCells(leads[k - 1], dateText), ',');
        LineFree(leads, dateText, k - 1);
      }
    }
  }

  /** A lead's line holds no newline when none of its cells does. */
  lemma LineFree(leads: seq<Lead>, dateText: int -> string, i: int)
    requires CellsFree(leads, dateText, '\n') && 0 <= i < |leads|
    ensures '\n' !in Join(CsvCells(leads[i], dateText), ',')
  {
    var cells := CsvCells(leads[i], dateText);
    assert forall j :: 0 <= j < |cells| ==> '\n' !in cells[j];
    JoinExcludes(cells, ',', '\n');
  }

  /** The header line holds no newline and splits back into the column names. */
  lemma HeaderLine()
    ensures '\n' !in Join(CsvHeader, ',')
    ensures Split(Join(CsvHeader, ','), ',') == CsvHeader
  {
    forall i | 0 <= i < |CsvHeader| ensures ',' !in CsvHeader[i] && '\n' !in CsvHeader[i] {
    }
    JoinExcludes(CsvHeader, ',', '\n');
    SplitJoin(CsvHeader, ',');
  }

  /** When no cell holds a newline, the file reads back as the header line
      followed by the leads' lines in order. */
  lemma ExportCsvLines(leads: seq<Lead>, dateText: int -> string)
    requires CellsFree(leads, dateText, '\n')
    ensures Split(ExportCsv(leads, dateText), '\n') == CsvLines(leads, dateText)
    ensures Split(CsvLines(leads, dateText)[0], ',') == CsvHeader
    ensures forall i :: 0 <= i < |leads| ==>
              CsvLines(leads, dateText)[i + 1] == Join(CsvCells(leads[i], dateText), ',')
  {
    CsvLinesFree(leads, dateText);
    SplitJoin(CsvLines(leads, dateText), '\n');
    HeaderLine();
  }

  /** When no cell holds a newline or a comma, each lead's line of the file
      splits back into its seven cells. */
  lemma ExportCsvCells(leads: seq<Lead>, dateText: int -> string, i: int)
    requires CellsFree(leads, dateText, '\n') && CellsFree(leads, dateText, ',')
    requires 0 <= i < |leads|
    ensures var lines := Split(ExportCsv(leads, dateText), '\n');
            |lines| == |leads| + 1 && Split(lines[i + 1], ',') == CsvCells(leads[i], dateText)
  {
    ExportCsvLines(leads, dateText);
    SplitJoin(CsvCells(leads[i], dateText), ',');
  }

  /** Cells are not quoted: a comma inside a first name shifts the line to eight cells. */
  lemma ExportCsvUnescaped(lead: Lead, dateText: int -> string, x: string, y: string)
    requires lead.firstName == x + "," + y && ',' !in x && ',' !in y && ',' !in lead.lastName
    requires forall k :: 1 <= k < |CsvHeader| ==> ',' !in CsvCells(lead, dateText)[k]
    ensures |Split(Join(CsvCells(lead, dateText), ','), ',')| == |CsvHeader| + 1
  {
    var cells := CsvCells(lead, dateText);
    var first := y + " " + lead.lastName;
    var rest := [first] + cells[1..];
    forall k | 0 <= k < |rest| ensures ',' !in rest[k] {
      if k > 0 {
        assert rest[k] == cells[k];
      }
    }
    assert Join(cells, ',') == x + [','] + Join(rest, ',') by {
      assert cells[0] == x + [','] + first;
      assert rest[1..] == cells[1..];
      assert Join(rest, ',') == first + [','] + Join(cells[1..], ',');
    }
    SplitAfterPiece(x, ',', Join(rest, ','));
    SplitJoin(rest, ',');
  }

  // ---------------------------------------------------------------------
  // The page's state

  /** The page's React state: the query inputs and the sort column and direction. */
  class LeadsView {
    var query: LeadQuery
    var sort: SortState

    constructor ()
      ensures query == LeadQuery("", "all", "all") && sort == InitialSort
    {
      query := LeadQuery("", "all", "all");
      sort := InitialSort;
    }

    method HandleSort(field: string)
      modifies this
      ensures sort == ClickSort(old(sort), field)
      ensures query == old(query)
    {
      if sort.field == field {
        sort := sort.(direction := if sort.direction.Asc? then Desc else Asc);
      } else {
        sort := SortState(field, Asc);
      }
    }

    /** The rows the table shows for `leads`. */
    function Rows(leads: seq<Lead>): seq<Lead>
      reads this
    {
      SortedLeads(leads, query, sort)
    }
  }
}
