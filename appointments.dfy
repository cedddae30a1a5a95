/**
 * The appointments list page: the status filter, the counts, the status
 * icon and badge and the linked-case label.
 */
module AppointmentsPage {
  import opened Wrappers
  import opened Seqs
  import opened Palette

  datatype CaseRef = CaseRef(id: string, caseNumber: string, clientFirstName: string, clientLastName: string)

  datatype Appointment = Appointment(
    id: string,
    title: string,
    description: Option<string>,
    appointmentType: string,
    status: string,
    scheduledAt: int,
    duration: int,
    location: Option<string>,
    meetingLink: Option<string>,
    linkedCase: Option<CaseRef>)

  // ---------------------------------------------------------------------
  // filteredAppointments and the counts

  predicate StatusSelected(a: Appointment, statusFilter: string) {
    statusFilter == "all" || a.status == statusFilter
  }

  function FilteredAppointments(apts: seq<Appointment>, statusFilter: string): (r: seq<Appointment>)
    ensures |r| <= |apts|
  {
    Filter(apts, (a: Appointment) => StatusSelected(a, statusFilter))
  }

  /** The listed appointments are those with the selected status, in order;
      'all' lists every appointment. */
  lemma FilteredAppointmentsSound(apts: seq<Appointment>, statusFilter: string)
    ensures IsSubsequence(FilteredAppointments(apts, statusFilter), apts)
    ensures forall a :: a in FilteredAppointments(apts, statusFilter) <==> a in apts && StatusSelected(a, statusFilter)
    ensures statusFilter == "all" ==> FilteredAppointments(apts, statusFilter) == apts
  {
    var p := (a: Appointment) => StatusSelected(a, statusFilter);
    FilterIsSubsequence(apts, p);
    forall a ensures a in FilteredAppointments(apts, statusFilter) <==> a in apts && StatusSelected(a, statusFilter) {
      FilterMembership(apts, p, a);
    }
    if statusFilter == "all" {
      FilterKeepsAll(apts, p);
    }
  }

  const WeekMs := 7 * 24 * 60 * 60 * 1000

  /** Scheduled from now up to a week from now, both ends included. */
  predicate WithinWeek(a: Appointment, now: int) {
    now <= a.scheduledAt <= now + WeekMs
  }

  /** The appointments counted on the "This Week" card. */
  function ThisWeek(apts: seq<Appointment>, now: int): (r: seq<Appointment>)
    ensures |r| <= |apts|
  {
    Filter(apts, (a: Appointment) => WithinWeek(a, now))
  }

  datatype AppointmentStats = AppointmentStats(total: nat, scheduled: nat, completed: nat, thisWeek: nat)

  function Stats(apts: seq<Appointment>, now: int): (r: AppointmentStats)
    ensures r.total == |apts|
    ensures r.scheduled + r.completed <= r.total
    ensures r.thisWeek <= r.total
  {
    var scheduled := (a: Appointment) => a.status == "SCHEDULED";
    var completed := (a: Appointment) => a.status == "COMPLETED";
    CountDisjoint(apts, scheduled, completed);
    AppointmentStats(|apts|, |Filter(apts, scheduled)|, |Filter(apts, completed)|,
                     |ThisWeek(apts, now)|)
  }

  /** The week card counts exactly the appointments in the coming week,
      whatever their status. */
  lemma ThisWeekCounts(apts: seq<Appointment>, now: int)
    ensures forall a :: a in ThisWeek(apts, now) <==> a in apts && now <= a.scheduledAt <= now + 604800000
  {
    forall a ensures a in ThisWeek(apts, now) <==> a in apts && WithinWeek(a, now) {
      FilterMembership(apts, (a: Appointment) => WithinWeek(a, now), a);
    }
  }

  // ---------------------------------------------------------------------
  // getStatusIcon and getStatusColor

  datatype Icon = Clock | CheckCircle | XCircle

  function StatusIcon(status: string): (Icon, Tone) {
    match status
    case "SCHEDULED" => (Clock, Blue)
    case "COMPLETED" => (CheckCircle, Green)
    case "CANCELLED" => (XCircle, Red)
    case _ => (Clock, Gray)
  }

  function StatusColor(status: string): Tone {
    match status
    case "SCHEDULED" => Blue
    case "COMPLETED" => Green
    case "CANCELLED" => Red
    case "NO_SHOW" => Orange
    case _ => Gray
  }

  /** The icon's tone agrees with the badge's for every status except
      NO_SHOW, whose badge is orange while its icon falls to the gray clock. */
  lemma IconMatchesBadge(status: string)
    ensures status != "NO_SHOW" ==> StatusIcon(status).1 == StatusColor(status)
    ensures StatusIcon("NO_SHOW") == (Clock, Gray) && StatusColor("NO_SHOW") == Orange
  {
  }

  /** `case ? first last - number : 'No Case Linked'`. */
  function CaseLabel(a: Appointment): (r: string)
    ensures a.linkedCase.None? <==> r == "No Case Linked"
  {
    match a.linkedCase
    case None => "No Case Linked"
    case Some(c) =>
      var r := c.clientFirstName + " " + c.clientLastName + " - " + c.caseNumber;
      assert r[|c.clientFirstName| + 1 + |c.clientLastName| + 1] == '-';
      assert '-' !in "No Case Linked";
      r
  }
}
