/** The administrator's dashboard (src/pages/AdminDashboard.tsx): the loaded
    registrations and events with their statistics, the two search filters,
    the confirmation-gated deletes with their error branches, the per-row
    fallback of the delete-all, the spreadsheet export rows and file name,
    and the badge colours. */
module Admin {
  import opened Wrappers
  import opened Strings
  import opened Remote
  import opened EventData
  import Lists
  import Catalog

  /** A row of the `registrations` table. */
  datatype Registration = Registration(
    id: string,
    fullName: string,
    email: string,
    phone: Option<string>,
    eventType: string,
    ticketType: string,
    status: string,
    createdAt: string,
    updatedAt: string)

  // ---------------------------------------------------------------------------
  // Search filters

  /** The lower-cased term occurs in the lower-cased name, email or event type. */
  predicate RegistrationMatches(r: Registration, term: string) {
    || Includes(ToLower(r.fullName), ToLower(term))
    || Includes(ToLower(r.email), ToLower(term))
    || Includes(ToLower(r.eventType), ToLower(term))
  }

  /** `filteredRegistrations`: the matching registrations, in their order. */
  function FilterRegistrations(regs: seq<Registration>, term: string): (r: seq<Registration>)
    ensures forall x :: x in r <==> x in regs && RegistrationMatches(x, term)
    ensures forall x :: multiset(r)[x] == if RegistrationMatches(x, term) then multiset(regs)[x] else 0
    ensures Lists.IsSubsequence(r, regs)
  {
    Lists.Filter(regs, (x: Registration) => RegistrationMatches(x, term))
  }

  /** An empty term keeps every registration. */
  lemma EmptyTermKeepsRegistrations(regs: seq<Registration>)
    ensures FilterRegistrations(regs, "") == regs
  {
    Lists.FilterAcceptingAll(regs, (x: Registration) => RegistrationMatches(x, ""));
  }

  /** The admin event search: the catalogue's title-or-description search,
      and the event's type as well. */
  predicate EventMatches(e: Event, term: string) {
    Catalog.MatchesSearch(e, term) || Includes(ToLower(e.eventType), ToLower(term))
  }

  /** `filteredEvents` of the dashboard: the matching events, in their order. */
  function FilterEvents(events: seq<Event>, term: string): (r: seq<Event>)
    ensures forall e :: e in r <==> e in events && EventMatches(e, term)
    ensures forall e :: multiset(r)[e] == if EventMatches(e, term) then multiset(events)[e] else 0
    ensures Lists.IsSubsequence(r, events)
  {
    Lists.Filter(events, (e: Event) => EventMatches(e, term))
  }

  /** Every event the public catalogue finds for a term (under "All") the
      dashboard finds too, and an event whose type contains the term is found
      by the dashboard even where the catalogue does not find it. */
  lemma DashboardSearchWidensCatalogSearch(events: seq<Event>, term: string, e: Event)
    ensures e in Catalog.FilterEvents(events, term, Catalog.AllTypes) ==> e in FilterEvents(events, term)
    ensures e in events && Includes(ToLower(e.eventType), ToLower(term)) ==> e in FilterEvents(events, term)
  {
  }

  // ---------------------------------------------------------------------------
  // Statistics

  datatype Stats = Stats(totalEvents: int, totalRegistrations: int, activeEvents: int, revenue: int)

  const InitialStats := Stats(0, 0, 0, 0)

  /** The price assumed for every paid ticket. */
  const TicketPrice := 50

  function IsPaid(r: Registration): bool {
    r.ticketType == "paid"
  }

  function PaidRegistrations(regs: seq<Registration>): (r: seq<Registration>)
    ensures forall x :: x in r <==> x in regs && x.ticketType == "paid"
    ensures forall x :: multiset(r)[x] == if x.ticketType == "paid" then multiset(regs)[x] else 0
    ensures Lists.IsSubsequence(r, regs)
    ensures |r| <= |regs|
  {
    Lists.Filter(regs, IsPaid)
  }

  /** The revenue figure: 50 per paid registration, so a multiple of 50 and at
      most 50 per registration. */
  function Revenue(regs: seq<Registration>): (r: nat)
    ensures r % TicketPrice == 0
    ensures r <= TicketPrice * |regs|
  {
    TicketPrice * |PaidRegistrations(regs)|
  }

  /** The revenue of two lists together is the sum of their revenues. */
  lemma RevenueAppend(a: seq<Registration>, b: seq<Registration>)
    ensures Revenue(a + b) == Revenue(a) + Revenue(b)
  {
    Lists.FilterAppend(a, b, IsPaid);
  }

  /** Free registrations bring no revenue, and a list of paid registrations
      brings 50 for each. */
  lemma RevenueBounds(regs: seq<Registration>)
    ensures (forall x :: x in regs ==> x.ticketType != "paid") ==> Revenue(regs) == 0
    ensures (forall x :: x in regs ==> x.ticketType == "paid") ==> Revenue(regs) == TicketPrice * |regs|
  {
    if forall x :: x in regs ==> x.ticketType == "paid" {
      Lists.FilterAcceptingAll(regs, IsPaid);
    }
    if forall x :: x in regs ==> x.ticketType != "paid" {
      if PaidRegistrations(regs) != [] {
        assert PaidRegistrations(regs)[0] in PaidRegistrations(regs);
      }
    }
  }

  /** The statistics the dashboard shows for the loaded lists: every count is
      the length of its list (active events are simply all events). */
  function StatsFor(regs: seq<Registration>, events: seq<Event>): (s: Stats)
    ensures s.totalRegistrations == |regs| && s.revenue == Revenue(regs)
    ensures s.totalEvents == |events| && s.activeEvents == s.totalEvents
  {
    Stats(|events|, |regs|, |events|, Revenue(regs))
  }

  // ---------------------------------------------------------------------------
  // Loaded state

  class Dashboard {
    var registrations: seq<Registration>
    var events: seq<Event>
    var stats: Stats
    var loading: bool
    var eventsLoading: bool
    var searchTerm: string
    var eventSearchTerm: string

    /** The statistics describe the loaded lists. */
    ghost predicate Valid()
      reads this
    {
      stats == StatsFor(registrations, events)
    }

    /** Before either fetch has answered. */
    constructor ()
      ensures Valid()
      ensures registrations == [] && events == [] && stats == InitialStats
      ensures loading && eventsLoading && searchTerm == "" && eventSearchTerm == ""
    {
      registrations := [];
      events := [];
      stats := InitialStats;
      loading := true;
      eventsLoading := true;
      searchTerm := "";
      eventSearchTerm := "";
    }

    function FilteredRegistrations(): seq<Registration>
      reads this
    {
      FilterRegistrations(registrations, searchTerm)
    }

    function FilteredEvents(): seq<Event>
      reads this
    {
      FilterEvents(events, eventSearchTerm)
    }

    method SetSearchTerm(t: string)
      modifies this`searchTerm
      ensures searchTerm == t
    {
      searchTerm := t;
    }

    method SetEventSearchTerm(t: string)
      modifies this`eventSearchTerm
      ensures eventSearchTerm == t
    {
      eventSearchTerm := t;
    }

    /** `fetchRegistrations`, given the store's answer: rows replace the list
        (`null` as none) and the registration statistics follow them; an error
        or an exception keeps the list and the statistics. Loading ends either
        way. */
    method FetchRegistrations(answer: Fetch<Registration>)
      requires Valid()
      modifies this`registrations, this`stats, this`loading
      ensures Valid()
      ensures !loading
      ensures answer.Rows? ==> registrations == answer.data.GetOr([])
      ensures !answer.Rows? ==> registrations == old(registrations) && stats == old(stats)
      ensures stats.totalEvents == old(stats.totalEvents) && stats.activeEvents == old(stats.activeEvents)
    {
      match answer {
        case Rows(data) =>
          registrations := data.GetOr([]);
          stats := stats.(totalRegistrations := |registrations|, revenue := Revenue(registrations));
        case FetchErr(_) =>
        case FetchThrew =>
      }
      loading := false;
    }

    /** `fetchEvents`, given the store's answer: the mapped rows replace the
        list and the event statistics follow them; an error or an exception
        keeps the list and the statistics. Loading ends either way. */
    method FetchEvents(answer: Fetch<EventRow>)
      requires Valid()
      modifies this`events, this`stats, this`eventsLoading
      ensures Valid()
      ensures !eventsLoading
      ensures answer.Rows? ==> events == Lists.Map(answer.data.GetOr([]), MapRow)
      ensures !answer.Rows? ==> events == old(events) && stats == old(stats)
      ensures stats.totalRegistrations == old(stats.totalRegistrations) && stats.revenue == old(stats.revenue)
    {
      eventsLoading := true;
      match answer {
        case Rows(data) =>
          events := Lists.Map(data.GetOr([]), MapRow);
          stats := stats.(totalEvents := |events|, activeEvents := |events|);
        case FetchErr(_) =>
        case FetchThrew =>
      }
      eventsLoading := false;
    }
  }

  // ---------------------------------------------------------------------------
  // Deletes

  /** A delete request sent to the store. */
  datatype Request =
    | DeleteEventRow(eventId: string)
    | DeleteRegistrationRow(registrationId: string)
    | DeleteEveryRegistration

  /** How a delete handler ends: declined at the confirmation, done, refused
      by the store with a message and possibly a hint, or an exception. */
  datatype Report = Declined | Done | Refused(message: string, hint: Option<string>) | Unexpected

  /** The requests a handler issued, how it ended, and which lists it fetches again. */
  datatype Handled = Handled(requests: seq<Request>, report: Report, refetchEvents: bool, refetchRegistrations: bool)

  /** `deleteEvent`: nothing is sent unless confirmed; a clean answer fetches
      both lists again, anything else fetches nothing. */
  function DeleteEvent(confirmed: bool, eventId: string, outcome: Outcome): (h: Handled)
    ensures !confirmed ==> h == Handled([], Declined, false, false)
    ensures confirmed ==> h.requests == [DeleteEventRow(eventId)]
    ensures h.refetchEvents <==> confirmed && outcome == Ok
    ensures h.refetchRegistrations <==> confirmed && outcome == Ok
    ensures confirmed && outcome == Ok ==> h.report == Done
    ensures confirmed && outcome.Err? ==> h.report == Refused("Failed to delete event: " + outcome.message, None)
    ensures confirmed && outcome.Threw? ==> h.report == Unexpected
  {
    if !confirmed then Handled([], Declined, false, false)
    else
      var sent := [DeleteEventRow(eventId)];
      match outcome
      case Ok => Handled(sent, Done, true, true)
      case Err(_, message) => Handled(sent, Refused("Failed to delete event: " + message, None), false, false)
      case Threw => Handled(sent, Unexpected, false, false)
  }

  /** The extra explanation shown for a refused registration delete. */
  function DeleteHint(code: string): (h: Option<string>)
    ensures code == PermissionDenied ==> h == Some("Permission denied. Check RLS policies.")
    ensures code == StillReferenced ==> h == Some("Cannot delete: Registration is referenced by other data.")
    ensures code != PermissionDenied && code != StillReferenced ==> h == None
  {
    if code == PermissionDenied then Some("Permission denied. Check RLS policies.")
    else if code == StillReferenced then Some("Cannot delete: Registration is referenced by other data.")
    else None
  }

  /** `deleteRegistration`: nothing is sent unless confirmed; a clean answer
      fetches the registrations again; a refusal reports the message and, for
      the permission and reference codes, a hint. */
  function DeleteRegistration(confirmed: bool, registrationId: string, outcome: Outcome): (h: Handled)
    ensures !confirmed ==> h == Handled([], Declined, false, false)
    ensures confirmed ==> h.requests == [DeleteRegistrationRow(registrationId)]
    ensures !h.refetchEvents
    ensures h.refetchRegistrations <==> confirmed && outcome == Ok
    ensures confirmed && outcome == Ok ==> h.report == Done
    ensures confirmed && outcome.Err? ==>
              h.report == Refused("Failed to delete registration: " + outcome.message, DeleteHint(outcome.code))
    ensures confirmed && outcome.Threw? ==> h.report == Unexpected
  {
    if !confirmed then Handled([], Declined, false, false)
    else
      var sent := [DeleteRegistrationRow(registrationId)];
      match outcome
      case Ok => Handled(sent, Done, false, true)
      case Err(code, message) =>
        Handled(sent, Refused("Failed to delete registration: " + message, DeleteHint(code)), false, false)
      case Threw => Handled(sent, Unexpected, false, false)
  }

  function DeleteRequestFor(r: Registration): Request {
    DeleteRegistrationRow(r.id)
  }

  /** The messages of the refused per-row deletes, in the order of the rows. */
  function Failures(regs: seq<Registration>, answer: string -> Outcome): (m: seq<string>)
    ensures |m| <= |regs|
    decreases |regs|
  {
    if regs == [] then []
    else
      var rest := Failures(regs[1..], answer);
      match answer(regs[0].id)
      case Err(_, message) => [message] + rest
      case _ => rest
  }

  /** Some per-row delete threw. */
  predicate AnyThrew(regs: seq<Registration>, answer: string -> Outcome) {
    exists i :: 0 <= i < |regs| && answer(regs[i].id).Threw?
  }

  /** The per-row fallback reports no failure and no exception exactly when
      every row's delete is answered cleanly. */
  lemma {:induction false} FallbackCleanIffAllOk(regs: seq<Registration>, answer: string -> Outcome)
    ensures Failures(regs, answer) == [] && !AnyThrew(regs, answer)
            <==> forall i :: 0 <= i < |regs| ==> answer(regs[i].id) == Ok
    decreases |regs|
  {
    if regs != [] {
      FallbackCleanIffAllOk(regs[1..], answer);
      if answer(regs[0].id) == Ok {
        forall i | 0 <= i < |regs[1..]| && answer(regs[1..][i].id).Threw?
          ensures AnyThrew(regs, answer)
        {
          assert regs[i + 1] == regs[1..][i];
        }
        forall i | 0 <= i < |regs| && answer(regs[i].id).Threw?
          ensures AnyThrew(regs[1..], answer)
        {
          assert regs[1..][i - 1] == regs[i];
        }
        forall i | 0 <= i < |regs[1..]|
          ensures regs[1..][i] == regs[i + 1]
        {
        }
      } else {
        assert !(answer(regs[0].id) == Ok);
        if answer(regs[0].id).Threw? {
          assert AnyThrew(regs, answer);
        }
      }
    }
  }

  /** `deleteAllRegistrations`, given the answer to the bulk delete and the
      answer to each per-row delete by id. Nothing is sent unless confirmed.
      A clean bulk delete is done; a refusal with code 42501 falls back to
      one delete per loaded registration, which is done (and fetches the
      registrations again) exactly when none of them is refused, and reports
      the first refusal otherwise; any other refusal reports its message;
      an exception is unexpected. The per-row deletes run one after the
      other here. */
  method DeleteAllRegistrations(confirmed: bool, regs: seq<Registration>, bulk: Outcome, answer: string -> Outcome)
    returns (h: Handled)
    ensures !confirmed ==> h == Handled([], Declined, false, false)
    ensures confirmed && bulk == Ok ==> h == Handled([DeleteEveryRegistration], Done, false, true)
    ensures confirmed && bulk.Threw? ==> h == Handled([DeleteEveryRegistration], Unexpected, false, false)
    ensures confirmed && bulk.Err? && bulk.code != PermissionDenied ==>
              h == Handled([DeleteEveryRegistration], Refused("Failed to delete all registrations: " + bulk.message, None), false, false)
    ensures confirmed && bulk.Err? && bulk.code == PermissionDenied ==>
              && h.requests == [DeleteEveryRegistration] + Lists.Map(regs, DeleteRequestFor)
              && h.report == (if AnyThrew(regs, answer) then Unexpected
                              else if Failures(regs, answer) == [] then Done
                              else Refused("Failed to delete: " + Failures(regs, answer)[0], None))
              && !h.refetchEvents
              && (h.refetchRegistrations <==> forall i :: 0 <= i < |regs| ==> answer(regs[i].id) == Ok)
  {
    if !confirmed {
      return Handled([], Declined, false, false);
    }
    match bulk {
      case Ok =>
        return Handled([DeleteEveryRegistration], Done, false, true);
      case Threw =>
        return Handled([DeleteEveryRegistration], Unexpected, false, false);
      case Err(code, message) =>
        if code != PermissionDenied {
          return Handled([DeleteEveryRegistration], Refused("Failed to delete all registrations: " + message, None), false, false);
        }
    }
    var sent := [DeleteEveryRegistration];
    var failures: seq<string> := [];
    var threw := false;
    // The answers are collected from the last row back, so that the refusal
    // of the earliest row ends up first, as in the answers of `Promise.all`.
    var i := |regs|;
    while i > 0
      invariant 0 <= i <= |regs|
      invariant failures == Failures(regs[i..], answer)
      invariant threw <==> AnyThrew(regs[i..], answer)
      decreases i
    {
      i := i - 1;
      assert regs[i..][1..] == regs[i + 1..];
      match answer(regs[i].id) {
        case Ok =>
        case Err(_, m) =>
          failures := [m] + failures;
        case Threw =>
          threw := true;
      }
      if AnyThrew(regs[i + 1..], answer) {
        var j :| 0 <= j < |regs[i + 1..]| && answer(regs[i + 1..][j].id).Threw?;
        assert regs[i..][j + 1] == regs[i + 1..][j];
      }
      if AnyThrew(regs[i..], answer) && !answer(regs[i].id).Threw? {
        var j :| 0 <= j < |regs[i..]| && answer(regs[i..][j].id).Threw?;
        assert regs[i + 1..][j - 1] == regs[i..][j];
      }
    }
    assert regs[0..] == regs;
    sent := sent + Lists.Map(regs, DeleteRequestFor);
    FallbackCleanIffAllOk(regs, answer);
    if threw {
      h := Handled(sent, Unexpected, false, false);
    } else if failures == [] {
      h := Handled(sent, Done, false, true);
    } else {
      h := Handled(sent, Refused("Failed to delete: " + failures[0], None), false, false);
    }
  }

  // ---------------------------------------------------------------------------
  // Export

  /** The nine column headings of the export sheet, in order. */
  const ExportHeaders := ["Registration ID", "Full Name", "Email", "Phone", "Event Type",
                          "Ticket Type", "Status", "Registration Date", "Last Updated"]

  const NoPhone := "N/A"

  /** One row of the export sheet. */
  datatype ExportRow = ExportRow(
    registrationId: string,
    fullName: string,
    email: string,
    phone: string,
    eventType: string,
    ticketType: string,
    status: string,
    registrationDate: string,
    lastUpdated: string)

  /** The row's cells under the headings, in the headings' order. */
  function Cells(r: ExportRow): (c: seq<string>)
    ensures |c| == |ExportHeaders|
    ensures ExportHeaders[0] == "Registration ID" && c[0] == r.registrationId
    ensures ExportHeaders[1] == "Full Name" && c[1] == r.fullName
    ensures ExportHeaders[2] == "Email" && c[2] == r.email
    ensures ExportHeaders[3] == "Phone" && c[3] == r.phone
    ensures ExportHeaders[4] == "Event Type" && c[4] == r.eventType
    ensures ExportHeaders[5] == "Ticket Type" && c[5] == r.ticketType
    ensures ExportHeaders[6] == "Status" && c[6] == r.status
    ensures ExportHeaders[7] == "Registration Date" && c[7] == r.registrationDate
    ensures ExportHeaders[8] == "Last Updated" && c[8] == r.lastUpdated
  {
    [r.registrationId, r.fullName, r.email, r.phone, r.eventType, r.ticketType, r.status, r.registrationDate, r.lastUpdated]
  }

  /** The export row of a registration: its fields as stored, a missing or
      empty phone as "N/A", and both timestamps through the locale formatter. */
  function ExportRowOf(r: Registration, formatDate: string -> string): (x: ExportRow)
    ensures x.registrationId == r.id && x.fullName == r.fullName && x.email == r.email
    ensures x.eventType == r.eventType && x.ticketType == r.ticketType && x.status == r.status
    ensures x.phone == if r.phone == None || r.phone == Some("") then NoPhone else r.phone.value
    ensures x.registrationDate == formatDate(r.createdAt) && x.lastUpdated == formatDate(r.updatedAt)
  {
    ExportRow(r.id, r.fullName, r.email,
              if r.phone == None || r.phone == Some("") then NoPhone else r.phone.value,
              r.eventType, r.ticketType, r.status, formatDate(r.createdAt), formatDate(r.updatedAt))
  }

  /** `exportToExcel`'s rows: refused for an empty list, otherwise one row
      per loaded registration (not only the filtered ones), in order. */
  function ExportRows(regs: seq<Registration>, formatDate: string -> string): (r: Result<seq<ExportRow>, string>)
    ensures r.Failure? <==> regs == []
    ensures r.Failure? ==> r.error == "No data to export"
    ensures r.Success? ==> |r.value| == |regs| && forall i :: 0 <= i < |regs| ==> r.value[i] == ExportRowOf(regs[i], formatDate)
  {
    if regs == [] then Failure("No data to export")
    else Success(Lists.Map(regs, (x: Registration) => ExportRowOf(x, formatDate)))
  }

  /** The file name: the date part of the ISO timestamp, before its "T". */
  function ExportFileName(isoNow: string): (name: string)
    ensures |name| >= 28 && name[..23] == "EventHub_Registrations_" && name[|name| - 5..] == ".xlsx"
    ensures name[23..|name| - 5] <= isoNow && 'T' !in name[23..|name| - 5]
  {
    "EventHub_Registrations_" + Split(isoNow, 'T')[0] + ".xlsx"
  }

  /** For a timestamp `<date>T<time>` the file name carries exactly `<date>`. */
  lemma ExportFileNameOfTimestamp(date: string, time: string)
    requires 'T' !in date
    ensures ExportFileName(date + "T" + time) == "EventHub_Registrations_" + date + ".xlsx"
  {
    assert date + "T" + time == date + (['T'] + time);
    SplitPrepend(date, ['T'] + time, 'T');
    assert Split(['T'] + time, 'T')[0] == [];
    assert date + [] == date;
  }

  // ---------------------------------------------------------------------------
  // Badge colours

  const KnownStatuses := ["confirmed", "pending", "cancelled"]

  const MutedColor := "bg-muted text-muted-foreground"

  /** `getStatusColor`: a class per known status, the muted class otherwise. */
  function StatusColor(status: string): (c: string)
    ensures status !in KnownStatuses <==> c == MutedColor
  {
    match status
    case "confirmed" => "bg-success text-success-foreground"
    case "pending" => "bg-warning text-warning-foreground"
    case "cancelled" => "bg-destructive text-destructive-foreground"
    case _ => MutedColor
  }

  /** The known statuses get pairwise different colours. */
  lemma StatusColorsDistinct(i: int, j: int)
    requires 0 <= i < |KnownStatuses| && 0 <= j < |KnownStatuses| && i != j
    ensures StatusColor(KnownStatuses[i]) != StatusColor(KnownStatuses[j])
  {
  }

  /** `getTicketTypeColor`: the primary class for "paid" and the secondary
      class for anything else. */
  function TicketTypeColor(ticketType: string): (c: string)
    ensures c == "bg-primary text-primary-foreground" <==> ticketType == "paid"
    ensures c == "bg-secondary text-secondary-foreground" <==> ticketType != "paid"
  {
    if ticketType == "paid" then "bg-primary text-primary-foreground" else "bg-secondary text-secondary-foreground"
  }
}
