/**
 * The activity log page: search and type filter, the timestamp-text counts
 * and the action badge.
 */
module ActivityPage {
  import opened Wrappers
  import opened Text
  import opened Seqs
  import opened Palette

  datatype ActivityType = CaseActivity | LeadActivity | DocumentActivity | AppointmentActivity
                        | CommunicationActivity | SystemActivity

  /** The value the type select compares against. */
  function TypeName(t: ActivityType): (r: string)
    ensures r != "all"
  {
    match t
    case CaseActivity => "case"
    case LeadActivity => "lead"
    case DocumentActivity => "document"
    case AppointmentActivity => "appointment"
    case CommunicationActivity => "communication"
    case SystemActivity => "system"
  }

  /** `timestamp` is display text such as "2 hours ago". */
  datatype ActivityItem = ActivityItem(
    id: string,
    activityType: ActivityType,
    action: string,
    description: string,
    user: string,
    entityId: Option<string>,
    entityName: Option<string>,
    timestamp: string)

  // ---------------------------------------------------------------------
  // filteredActivities

  /** Description, user and entity name are searched ignoring case; an item
      without an entity name is found only by its description or user. */
  predicate MatchesSearch(a: ActivityItem, term: string) {
    || term == ""
    || IncludesIgnoringCase(a.description, term)
    || IncludesIgnoringCase(a.user, term)
    || (a.entityName.Some? && IncludesIgnoringCase(a.entityName.value, term))
  }

  predicate ActivityMatches(a: ActivityItem, term: string, typeFilter: string) {
    MatchesSearch(a, term) && (typeFilter == "all" || TypeName(a.activityType) == typeFilter)
  }

  function FilteredActivities(items: seq<ActivityItem>, term: string, typeFilter: string): (r: seq<ActivityItem>)
    ensures |r| <= |items|
  {
    Filter(items, (a: ActivityItem) => ActivityMatches(a, term, typeFilter))
  }

  /** The listed items are exactly the matching ones, in order; with no
      search and 'all' types every item is listed. */
  lemma FilteredActivitiesSound(items: seq<ActivityItem>, term: string, typeFilter: string)
    ensures IsSubsequence(FilteredActivities(items, term, typeFilter), items)
    ensures forall a :: a in FilteredActivities(items, term, typeFilter) <==> a in items && ActivityMatches(a, term, typeFilter)
    ensures typeFilter != "all" ==> forall a :: a in FilteredActivities(items, term, typeFilter) ==> TypeName(a.activityType) == typeFilter
    ensures term == "" && typeFilter == "all" ==> FilteredActivities(items, term, typeFilter) == items
  {
    var p := (a: ActivityItem) => ActivityMatches(a, term, typeFilter);
    FilterIsSubsequence(items, p);
    forall a ensures a in FilteredActivities(items, term, typeFilter) <==> a in items && ActivityMatches(a, term, typeFilter) {
      FilterMembership(items, p, a);
    }
    if term == "" && typeFilter == "all" {
      FilterKeepsAll(items, p);
    }
  }

  /** An item with no entity name is matched by a search only through its
      description or user. */
  lemma SearchWithoutEntityName(a: ActivityItem, term: string)
    requires a.entityName.None?
    ensures MatchesSearch(a, term) <==>
              term == "" || IncludesIgnoringCase(a.description, term) || IncludesIgnoringCase(a.user, term)
  {
  }

  // ---------------------------------------------------------------------
  // The cards

  /** "Today": timestamps whose text contains "hour". */
  function Today(items: seq<ActivityItem>): (r: seq<ActivityItem>)
    ensures |r| <= |items|
  {
    Filter(items, (a: ActivityItem) => Includes(a.timestamp, "hour"))
  }

  /** "This Week": timestamps whose text contains "day". */
  function ThisWeek(items: seq<ActivityItem>): (r: seq<ActivityItem>)
    ensures |r| <= |items|
  {
    Filter(items, (a: ActivityItem) => Includes(a.timestamp, "day"))
  }

  /** "System": the items of the system type. */
  function SystemItems(items: seq<ActivityItem>): (r: seq<ActivityItem>)
    ensures |r| <= |items|
  {
    Filter(items, (a: ActivityItem) => a.activityType == SystemActivity)
  }

  /** The cards count by the words in the timestamp text: an item is in
      "Today" exactly when its timestamp mentions "hour" and in "This Week"
      exactly when it mentions "day", so an item from two hours ago is not
      counted in the week. */
  lemma CardsByTimestampText(items: seq<ActivityItem>)
    ensures forall a :: a in Today(items) <==> a in items && Includes(a.timestamp, "hour")
    ensures forall a :: a in ThisWeek(items) <==> a in items && Includes(a.timestamp, "day")
    ensures forall a :: a in SystemItems(items) <==> a in items && a.activityType == SystemActivity
  {
    forall a ensures a in Today(items) <==> a in items && Includes(a.timestamp, "hour") {
      FilterMembership(items, (a: ActivityItem) => Includes(a.timestamp, "hour"), a);
    }
    forall a ensures a in ThisWeek(items) <==> a in items && Includes(a.timestamp, "day") {
      FilterMembership(items, (a: ActivityItem) => Includes(a.timestamp, "day"), a);
    }
    forall a ensures a in SystemItems(items) <==> a in items && a.activityType == SystemActivity {
      FilterMembership(items, (a: ActivityItem) => a.activityType == SystemActivity, a);
    }
  }

  /** Text of the form "n hours ago" is counted today and never this week,
      whatever the number. */
  lemma HoursAgoNotThisWeek(n: nat)
    ensures var s := NatToString(n) + " hours ago";
            Includes(s, "hour") && !Includes(s, "day")
  {
    var d := NatToString(n);
    var s := d + " hours ago";
    assert OccursAt(s, "hour", |d| + 1) by {
      assert s[|d| + 1..|d| + 5] == " hours ago"[1..5];
    }
    IncludesFromOccurrence(s, "hour", |d| + 1);
    forall i | 0 <= i < |s| ensures s[i] != 'd' {
      if i < |d| {
        assert s[i] == d[i] && IsDigit(d[i]);
      } else {
        assert s[i] == " hours ago"[i - |d|];
      }
    }
    MissingFirstChar(s, "day");
  }

  // ---------------------------------------------------------------------
  // getTypeIcon and getActionBadge

  datatype TypeIcon = FileTextIcon | UserIcon | CalendarIcon | MailIcon | AlertCircle

  /** The icon and its colour for each type. The union has exactly these six
      members, so the switch's `default` branch has no counterpart here. Only
      the system type is gray, and case and document share the file icon,
      told apart by colour. */
  function TypeIconOf(t: ActivityType): (r: (TypeIcon, Tone))
    ensures r.1 == Gray <==> t == SystemActivity
    ensures r.0 == FileTextIcon <==> t == CaseActivity || t == DocumentActivity
  {
    match t
    case CaseActivity => (FileTextIcon, Blue)
    case LeadActivity => (UserIcon, Green)
    case DocumentActivity => (FileTextIcon, Purple)
    case AppointmentActivity => (CalendarIcon, Orange)
    case CommunicationActivity => (MailIcon, Indigo)
    case SystemActivity => (AlertCircle, Gray)
  }

  /** Different types never show the same icon in the same colour. */
  lemma TypeIconsDistinct(t: ActivityType, u: ActivityType)
    ensures t != u ==> TypeIconOf(t) != TypeIconOf(u)
  {
  }

  const ActionTones: map<string, Tone> := map[
    "status_update" := Blue,
    "upload" := Purple,
    "create" := Green,
    "schedule" := Orange,
    "send" := Indigo,
    "convert" := Green,
    "reminder" := Gray
  ]

  datatype ActionBadge = ActionBadge(tone: Tone, caption: string)

  /** The badge for an action: the table's tone, gray for an action the table
      does not list, and the action's name with every underscore shown as a space. */
  function GetActionBadge(action: string): (r: ActionBadge)
    ensures action in ActionTones ==> r.tone == ActionTones[action]
    ensures action !in ActionTones ==> r.tone == Gray
    ensures |r.caption| == |action| && '_' !in r.caption
    ensures forall i :: 0 <= i < |action| && action[i] != '_' ==> r.caption[i] == action[i]
    ensures forall i :: 0 <= i < |action| && action[i] == '_' ==> r.caption[i] == ' '
  {
    ActionBadge(if action in ActionTones then ActionTones[action] else Gray, ReplaceAll(action, '_', ' '))
  }

  lemma ActionBadgeExamples()
    ensures GetActionBadge("status_update") == ActionBadge(Blue, "status update")
    ensures GetActionBadge("archive").tone == Gray
  {
    assert ReplaceAll("status_update", '_', ' ') == "status update";
  }
}
