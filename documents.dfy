/**
 * The documents list page: the status filter, the counts, the status icon
 * and badge, the file-size text and the review actions.
 */
module DocumentsPage {
  import opened Wrappers
  import opened Text
  import opened Seqs
  import opened Palette

  datatype CaseRef = CaseRef(id: string, caseNumber: string, clientFirstName: string, clientLastName: string)

  datatype Document = Document(
    id: string,
    fileName: string,
    documentType: string,
    category: string,
    status: string,
    fileSize: int,
    uploadedAt: int,
    linkedCase: Option<CaseRef>)

  // ---------------------------------------------------------------------
  // filteredDocuments and the counts

  predicate StatusSelected(d: Document, statusFilter: string) {
    statusFilter == "all" || d.status == statusFilter
  }

  function FilteredDocuments(docs: seq<Document>, statusFilter: string): (r: seq<Document>)
    ensures |r| <= |docs|
  {
    Filter(docs, (d: Document) => StatusSelected(d, statusFilter))
  }

  /** The shown documents are those with the selected status, in order;
      'all' shows every document. */
  lemma FilteredDocumentsSound(docs: seq<Document>, statusFilter: string)
    ensures IsSubsequence(FilteredDocuments(docs, statusFilter), docs)
    ensures statusFilter != "all" ==> forall d :: d in FilteredDocuments(docs, statusFilter) <==> d in docs && d.status == statusFilter
    ensures statusFilter == "all" ==> FilteredDocuments(docs, statusFilter) == docs
  {
    var p := (d: Document) => StatusSelected(d, statusFilter);
    FilterIsSubsequence(docs, p);
    forall d ensures d in FilteredDocuments(docs, statusFilter) <==> d in docs && StatusSelected(d, statusFilter) {
      FilterMembership(docs, p, d);
    }
    if statusFilter == "all" {
      FilterKeepsAll(docs, p);
    }
  }

  function CountWithStatus(docs: seq<Document>, status: string): (r: nat)
    ensures r <= |docs|
  {
    |Filter(docs, (d: Document) => d.status == status)|
  }

  /** The pending, approved and rejected cards never add up to more than the total. */
  lemma CountsWithinTotal(docs: seq<Document>)
    ensures CountWithStatus(docs, "PENDING") + CountWithStatus(docs, "APPROVED") + CountWithStatus(docs, "REJECTED") <= |docs|
  {
    CountDisjoint3(docs, (d: Document) => d.status == "PENDING", (d: Document) => d.status == "APPROVED",
                   (d: Document) => d.status == "REJECTED");
  }

  /** A status filter shows exactly as many documents as its card counts. */
  lemma FilterMatchesCard(docs: seq<Document>, status: string)
    requires status != "all"
    ensures |FilteredDocuments(docs, status)| == CountWithStatus(docs, status)
  {
    assert FilteredDocuments(docs, status) == Filter(docs, (d: Document) => d.status == status) by {
      FilterSamePredicate(docs, (d: Document) => StatusSelected(d, status), (d: Document) => d.status == status);
    }
  }

  lemma {:induction false} FilterSamePredicate(docs: seq<Document>, p: Document -> bool, q: Document -> bool)
    requires forall d :: p(d) == q(d)
    ensures Filter(docs, p) == Filter(docs, q)
    decreases |docs|
  {
    if |docs| > 0 {
      FilterSamePredicate(docs[1..], p, q);
    }
  }

  /** The text shown when no document is listed. */
  function EmptyMessage(statusFilter: string): (r: string)
    ensures statusFilter == "all" <==> r == "Documents will appear here once uploaded"
  {
    if statusFilter != "all" then "Try adjusting your filters" else "Documents will appear here once uploaded"
  }

  // ---------------------------------------------------------------------
  // getStatusIcon and getStatusColor

  datatype Icon = Clock | CheckCircle | XCircle | FileText

  /** The icon and its tone for a status. */
  function StatusIcon(status: string): (Icon, Tone) {
    match status
    case "PENDING" => (Clock, Yellow)
    case "APPROVED" => (CheckCircle, Green)
    case "REJECTED" => (XCircle, Red)
    case _ => (FileText, Gray)
  }

  /** The badge tone for a status. */
  function StatusColor(status: string): Tone {
    match status
    case "PENDING" => Yellow
    case "APPROVED" => Green
    case "REJECTED" => Red
    case _ => Gray
  }

  /** The two switches agree: a status's icon and badge share one tone, and
      only the three review statuses get an icon and a tone of their own. */
  lemma IconMatchesBadge(status: string)
    ensures StatusIcon(status).1 == StatusColor(status)
    ensures StatusIcon(status).0 == FileText <==> status !in {"PENDING", "APPROVED", "REJECTED"}
    ensures StatusColor(status) == Gray <==> status !in {"PENDING", "APPROVED", "REJECTED"}
  {
  }

  // ---------------------------------------------------------------------
  // formatFileSize

  /** `x.toFixed(1)` for a value whose tenths, rounded, are `n`. */
  function Tenths(n: nat): (r: string)
    ensures |r| >= 3 && r[|r| - 2] == '.' && AllDigits(r[..|r| - 2]) && IsDigit(r[|r| - 1])
  {
    var whole := NatToString(n / 10);
    var r := whole + "." + [DigitChar(n % 10)];
    assert r[..|r| - 2] == whole;
    r
  }

  /** The number of tenths written by `Tenths`. */
  function ParseTenths(s: string): nat
    requires |s| >= 3 && AllDigits(s[..|s| - 2]) && IsDigit(s[|s| - 1])
  {
    ParseDigits(s[..|s| - 2]) * 10 + DigitValue(s[|s| - 1])
  }

  lemma ParseTenthsInverse(n: nat)
    ensures ParseTenths(Tenths(n)) == n
  {
    var r := Tenths(n);
    assert r[..|r| - 2] == NatToString(n / 10);
    ParseNatToString(n / 10);
  }

  /** `bytes / unit` in tenths, rounded half up: what `toFixed(1)` prints for
      the exact quotient. */
  function RoundedTenths(bytes: nat, unit: nat): (n: nat)
    requires unit > 0 && unit % 2 == 0
    ensures n * unit <= bytes * 10 + unit / 2 < n * unit + unit
  {
    (bytes * 10 + unit / 2) / unit
  }

  const KiB := 1024
  const MiB := 1024 * 1024

  function FormatFileSize(bytes: int): (r: string)
    ensures |r| >= 3
  {
    if bytes < KiB then IntToString(bytes) + " B"
    else if bytes < MiB then Tenths(RoundedTenths(bytes, KiB)) + " KB"
    else Tenths(RoundedTenths(bytes, MiB)) + " MB"
  }

  /** Below 1024 the size is written as a whole number of bytes, which reads back. */
  lemma FormatFileSizeBytes(bytes: int)
    requires 0 <= bytes < KiB
    ensures var r := FormatFileSize(bytes);
            r[|r| - 2..] == " B" && AllDigits(r[..|r| - 2]) && ParseDigits(r[..|r| - 2]) == bytes
  {
    var r := FormatFileSize(bytes);
    assert r[..|r| - 2] == NatToString(bytes);
    ParseNatToString(bytes);
  }

  /** From 1024 bytes up to a mebibyte the size is in kilobytes, to the
      nearest tenth (halves rounded up); 1048575 bytes reads 1024.0 KB. */
  lemma FormatFileSizeKilobytes(bytes: int)
    requires KiB <= bytes < MiB
    ensures var r := FormatFileSize(bytes);
            var t := r[..|r| - 3];
            r[|r| - 3..] == " KB" && |t| >= 3 && AllDigits(t[..|t| - 2]) && IsDigit(t[|t| - 1]) &&
            var n := ParseTenths(t);
            n * KiB <= bytes * 10 + KiB / 2 < n * KiB + KiB && 10 <= n <= 10240
  {
    var n := RoundedTenths(bytes, KiB);
    var r := FormatFileSize(bytes);
    assert r[..|r| - 3] == Tenths(n);
    ParseTenthsInverse(n);
  }

  /** From a mebibyte up the size is in megabytes, to the nearest tenth. */
  lemma FormatFileSizeMegabytes(bytes: int)
    requires bytes >= MiB
    ensures var r := FormatFileSize(bytes);
            var t := r[..|r| - 3];
            r[|r| - 3..] == " MB" && |t| >= 3 && AllDigits(t[..|t| - 2]) && IsDigit(t[|t| - 1]) &&
            var n := ParseTenths(t);
            n * MiB <= bytes * 10 + MiB / 2 < n * MiB + MiB && n >= 10
  {
    var n := RoundedTenths(bytes, MiB);
    var r := FormatFileSize(bytes);
    assert r[..|r| - 3] == Tenths(n);
    ParseTenthsInverse(n);
  }

  // ---------------------------------------------------------------------
  // The row: client name, actions and rejection

  /** `doc.case ? first + ' ' + last : ''`. */
  function ClientName(d: Document): (r: string)
    ensures d.linkedCase.None? ==> r == ""
    ensures d.linkedCase.Some? ==>
              var first := d.linkedCase.value.clientFirstName;
              |r| == |first| + 1 + |d.linkedCase.value.clientLastName| &&
              r[..|first|] == first && r[|first|] == ' ' && r[|first| + 1..] == d.linkedCase.value.clientLastName
  {
    match d.linkedCase
    case None => ""
    case Some(c) => c.clientFirstName + " " + c.clientLastName
  }

  datatype Action = Approve | Reject | View

  /** The row's buttons: approve and reject while the document is pending, and always view. */
  function Actions(d: Document): (r: seq<Action>)
    ensures (Approve in r) == (d.status == "PENDING") && (Reject in r) == (d.status == "PENDING")
    ensures |r| >= 1 && r[|r| - 1] == View && View !in r[..|r| - 1]
  {
    (if d.status == "PENDING" then [Approve, Reject] else []) + [View]
  }

  /** `handleReject` goes on only with the reason the prompt returned; a
      cancelled prompt (null) or an empty reason stops it. */
  function RejectReason(answer: Option<string>): (r: Option<string>)
    ensures r.Some? <==> answer.Some? && answer.value != ""
    ensures r.Some? ==> r == answer
  {
    if answer.None? || answer.value == "" then None else answer
  }
}
