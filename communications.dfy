/**
 * The communications page: search and type filter, the per-channel counts,
 * the channel icon and the delivery status badge.
 */
module CommunicationsPage {
  import opened Wrappers
  import opened Text
  import opened Seqs
  import opened Palette

  datatype CommType = Email | Sms | Call
  datatype CommDirection = Inbound | Outbound

  datatype Recipient = Recipient(name: string, email: string, phone: string)

  /** The `status` field is kept as the text the record holds, so that the
      badge's fallback for an unknown status is part of the model. */
  datatype Communication = Communication(
    id: string,
    commType: CommType,
    direction: CommDirection,
    subject: string,
    content: string,
    status: string,
    recipient: Recipient,
    caseNumber: Option<string>,
    createdAt: string)

  /** The value the type select compares against. */
  function TypeName(t: CommType): (r: string)
    ensures r != "all"
  {
    match t
    case Email => "email"
    case Sms => "sms"
    case Call => "call"
  }

  lemma TypeNameInjective(t: CommType, u: CommType)
    ensures TypeName(t) == TypeName(u) <==> t == u
  {
  }

  // ---------------------------------------------------------------------
  // filteredCommunications

  /** Subject, recipient name and case number are searched ignoring case; a
      message with no case number is found only by its subject or recipient. */
  predicate MatchesSearch(c: Communication, term: string) {
    || term == ""
    || IncludesIgnoringCase(c.subject, term)
    || IncludesIgnoringCase(c.recipient.name, term)
    || (c.caseNumber.Some? && IncludesIgnoringCase(c.caseNumber.value, term))
  }

  predicate CommMatches(c: Communication, term: string, typeFilter: string) {
    MatchesSearch(c, term) && (typeFilter == "all" || TypeName(c.commType) == typeFilter)
  }

  function FilteredCommunications(comms: seq<Communication>, term: string, typeFilter: string): (r: seq<Communication>)
    ensures |r| <= |comms|
  {
    Filter(comms, (c: Communication) => CommMatches(c, term, typeFilter))
  }

  /** The listed messages are exactly the matching ones, in order; a type
      filter lists only that channel, and an unknown filter value lists nothing. */
  lemma FilteredCommunicationsSound(comms: seq<Communication>, term: string, typeFilter: string)
    ensures IsSubsequence(FilteredCommunications(comms, term, typeFilter), comms)
    ensures forall c :: c in FilteredCommunications(comms, term, typeFilter) <==> c in comms && CommMatches(c, term, typeFilter)
    ensures typeFilter !in {"all", "email", "sms", "call"} ==> FilteredCommunications(comms, term, typeFilter) == []
    ensures term == "" && typeFilter == "all" ==> FilteredCommunications(comms, term, typeFilter) == comms
  {
    var p := (c: Communication) => CommMatches(c, term, typeFilter);
    FilterIsSubsequence(comms, p);
    forall c ensures c in FilteredCommunications(comms, term, typeFilter) <==> c in comms && CommMatches(c, term, typeFilter) {
      FilterMembership(comms, p, c);
    }
    if typeFilter !in {"all", "email", "sms", "call"} {
      var r := FilteredCommunications(comms, term, typeFilter);
      if |r| > 0 {
        FilterMembership(comms, p, r[0]);
        assert false;
      }
    }
    if term == "" && typeFilter == "all" {
      FilterKeepsAll(comms, p);
    }
  }

  // ---------------------------------------------------------------------
  // The per-channel counts

  function CountOfType(comms: seq<Communication>, t: CommType): (r: nat)
    ensures r <= |comms|
  {
    |Filter(comms, (c: Communication) => c.commType == t)|
  }

  /** The email, SMS and call cards add up to the total card. */
  lemma CountsAddUp(comms: seq<Communication>)
    ensures CountOfType(comms, Email) + CountOfType(comms, Sms) + CountOfType(comms, Call) == |comms|
  {
    CountPartition3(comms, (c: Communication) => c.commType == Email, (c: Communication) => c.commType == Sms,
                    (c: Communication) => c.commType == Call);
  }

  // ---------------------------------------------------------------------
  // getTypeIcon and getStatusBadge

  datatype TypeIcon = MailIcon | MessageSquare | PhoneIcon

  /** Every channel of the declared union has its own icon and tone, so the
      switch's gray fallback is never reached. */
  function TypeIconOf(t: CommType): (r: (TypeIcon, Tone))
    ensures r.1 != Gray
  {
    match t
    case Email => (MailIcon, Blue)
    case Sms => (MessageSquare, Green)
    case Call => (PhoneIcon, Purple)
  }

  datatype BadgeIcon = CheckCircle | XCircle

  datatype StatusBadge = StatusBadge(tone: Tone, icon: Option<BadgeIcon>, caption: string)

  function GetStatusBadge(status: string): (r: StatusBadge)
    ensures r.icon == Some(CheckCircle) <==> status in {"sent", "delivered", "received"}
    ensures r.icon == Some(XCircle) <==> status == "failed"
    ensures r.icon.None? ==> r == StatusBadge(Gray, None, status)
  {
    match status
    case "sent" => StatusBadge(Green, Some(CheckCircle), Capitalize(status))
    case "delivered" => StatusBadge(Green, Some(CheckCircle), Capitalize(status))
    case "received" => StatusBadge(Green, Some(CheckCircle), Capitalize(status))
    case "failed" => StatusBadge(Red, Some(XCircle), "Failed")
    case _ => StatusBadge(Gray, None, status)
  }

  /** For every known status the label is the status with its first letter
      raised, the fixed "Failed" included; an unknown status is shown as is. */
  lemma StatusBadgeLabel(status: string)
    ensures status in {"sent", "delivered", "received", "failed"} ==> GetStatusBadge(status).caption == Capitalize(status)
    ensures status !in {"sent", "delivered", "received", "failed"} ==> GetStatusBadge(status).caption == status
    ensures GetStatusBadge(status).tone == Green <==> status in {"sent", "delivered", "received"}
  {
    if status == "failed" {
      assert Capitalize(status) == [UpperChar('f')] + "ailed";
    }
  }
}
