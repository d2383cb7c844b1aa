/** The registration page of one event (src/pages/EventRegistration.tsx):
    loading the event, the registration form and its single-field updates,
    the submission guard (terms first, then the required fields), the insert
    record, and the `isSubmitting` flag around the store request. */
module Registration {
  import opened Wrappers
  import opened EventData
  import opened Remote
  import EventCard

  // ---------------------------------------------------------------------------
  // Loading the event

  /** What the page shows before the form: a spinner, a redirect to the home
      page, or the form for the event. */
  datatype Screen = Loading | RedirectHome | Shown(event: Event)

  /** The built-in list is consulted first; it never has the event, so the
      row is fetched by id. A missing id issues no fetch and the spinner stays;
      an error or no row redirects home. `answer` is the fetched row, `None`
      for an error or an empty answer. */
  function LoadScreen(eventId: string, answer: Option<EventRow>): (s: Screen)
    ensures eventId == "" ==> s == Loading
    ensures eventId != "" && answer.None? ==> s == RedirectHome
    ensures eventId != "" && answer.Some? ==> s == Shown(MapRow(answer.value))
  {
    var local := if eventId == "" then None else GetEventById(eventId);
    match local
    case Some(e) => Shown(e)
    case None =>
      if eventId == "" then Loading
      else
        match answer
        case Some(row) => Shown(MapRow(row))
        case None => RedirectHome
  }

  // ---------------------------------------------------------------------------
  // The form

  datatype RegistrationForm = RegistrationForm(
    fullName: string,
    email: string,
    phone: string,
    ticketType: string,
    specialRequests: string,
    agreeToTerms: bool,
    subscribeNewsletter: bool)

  /** The form as first rendered, with the given initial ticket type. */
  function InitialForm(ticketType: string): (f: RegistrationForm)
    ensures f.ticketType == ticketType && !f.agreeToTerms && !f.subscribeNewsletter
    ensures f.fullName == "" && f.email == "" && f.phone == "" && f.specialRequests == ""
  {
    RegistrationForm("", "", "", ticketType, "", false, false)
  }

  /** The ticket type the page computes: from the event found in the
      built-in list at first render, which is never there, so it is always
      "paid" (see Findings). */
  function InitialTicketTypeAsWritten(eventId: string): (t: string)
    ensures t == "paid"
  {
    var local := if eventId == "" then None else GetEventById(eventId);
    match local
    case Some(e) => if e.price == Free then "free" else "paid"
    case None => "paid"
  }

  /** The intended initial ticket type: "free" exactly for a free event,
      taken from the event the form is shown for. */
  function InitialTicketType(e: Event): (t: string)
    ensures t == "free" <==> e.price == Free
    ensures t == "paid" <==> e.price != Free
  {
    if e.price == Free then "free" else "paid"
  }

  /** The names of the form's fields. */
  datatype FieldName = FullName | Email | Phone | TicketType | SpecialRequests | AgreeToTerms | SubscribeNewsletter

  datatype FieldValue = Text(text: string) | Flag(flag: bool)

  /** `handleChange(field, value)`. */
  datatype Change =
    | SetFullName(name: string)
    | SetEmail(email: string)
    | SetPhone(phone: string)
    | SetTicketType(ticketType: string)
    | SetSpecialRequests(requests: string)
    | SetAgreeToTerms(agree: bool)
    | SetSubscribeNewsletter(subscribe: bool)

  function Target(c: Change): FieldName {
    match c
    case SetFullName(_) => FullName
    case SetEmail(_) => Email
    case SetPhone(_) => Phone
    case SetTicketType(_) => TicketType
    case SetSpecialRequests(_) => SpecialRequests
    case SetAgreeToTerms(_) => AgreeToTerms
    case SetSubscribeNewsletter(_) => SubscribeNewsletter
  }

  function ValueOf(c: Change): FieldValue {
    match c
    case SetFullName(v) => Text(v)
    case SetEmail(v) => Text(v)
    case SetPhone(v) => Text(v)
    case SetTicketType(v) => Text(v)
    case SetSpecialRequests(v) => Text(v)
    case SetAgreeToTerms(b) => Flag(b)
    case SetSubscribeNewsletter(b) => Flag(b)
  }

  /** The value of one field. */
  function Get(f: RegistrationForm, n: FieldName): FieldValue {
    match n
    case FullName => Text(f.fullName)
    case Email => Text(f.email)
    case Phone => Text(f.phone)
    case TicketType => Text(f.ticketType)
    case SpecialRequests => Text(f.specialRequests)
    case AgreeToTerms => Flag(f.agreeToTerms)
    case SubscribeNewsletter => Flag(f.subscribeNewsletter)
  }

  /** `{...prev, [field]: value}`: the named field takes the value, every
      other field keeps its value. */
  function Apply(f: RegistrationForm, c: Change): (r: RegistrationForm)
    ensures Get(r, Target(c)) == ValueOf(c)
    ensures forall n :: n != Target(c) ==> Get(r, n) == Get(f, n)
  {
    match c
    case SetFullName(v) => f.(fullName := v)
    case SetEmail(v) => f.(email := v)
    case SetPhone(v) => f.(phone := v)
    case SetTicketType(v) => f.(ticketType := v)
    case SetSpecialRequests(v) => f.(specialRequests := v)
    case SetAgreeToTerms(b) => f.(agreeToTerms := b)
    case SetSubscribeNewsletter(b) => f.(subscribeNewsletter := b)
  }

  /** Forms that agree on every field are equal. */
  lemma FormExtensionality(f: RegistrationForm, g: RegistrationForm)
    requires forall n :: Get(f, n) == Get(g, n)
    ensures f == g
  {
    assert Get(f, FullName) == Get(g, FullName) && Get(f, Email) == Get(g, Email);
    assert Get(f, Phone) == Get(g, Phone) && Get(f, TicketType) == Get(g, TicketType);
    assert Get(f, SpecialRequests) == Get(g, SpecialRequests);
    assert Get(f, AgreeToTerms) == Get(g, AgreeToTerms);
    assert Get(f, SubscribeNewsletter) == Get(g, SubscribeNewsletter);
  }

  /** Changes to different fields can be applied in either order. */
  lemma ChangesCommute(f: RegistrationForm, c: Change, d: Change)
    requires Target(c) != Target(d)
    ensures Apply(Apply(f, c), d) == Apply(Apply(f, d), c)
  {
    var x := Apply(Apply(f, c), d);
    var y := Apply(Apply(f, d), c);
    forall n ensures Get(x, n) == Get(y, n) {
    }
    FormExtensionality(x, y);
  }

  /** Of two changes to the same field the later one wins. */
  lemma LastChangeWins(f: RegistrationForm, c: Change, d: Change)
    requires Target(c) == Target(d)
    ensures Apply(Apply(f, c), d) == Apply(f, d)
  {
    var x := Apply(Apply(f, c), d);
    var y := Apply(f, d);
    forall n ensures Get(x, n) == Get(y, n) {
    }
    FormExtensionality(x, y);
  }

  /** The changes the visible controls can make: the ticket radio exists only
      for an event with a price, and its only option is "paid". */
  predicate Offered(e: Event, c: Change) {
    c.SetTicketType? ==> e.price != Free && c.ticketType == "paid"
  }

  /** Under the intended initial ticket type, every change the controls
      offer keeps the ticket type in step with the event's price. */
  lemma OfferedChangeKeepsTicket(e: Event, f: RegistrationForm, c: Change)
    requires f.ticketType == InitialTicketType(e)
    requires Offered(e, c)
    ensures Apply(f, c).ticketType == InitialTicketType(e)
  {
  }

  // ---------------------------------------------------------------------------
  // Submission

  datatype Rejection = TermsNotAccepted | MissingRequiredFields

  /** The record inserted into `registrations`. */
  datatype RegistrationInsert = RegistrationInsert(
    fullName: string,
    email: string,
    phone: string,
    eventType: string,
    ticketType: string,
    status: string)

  const UnknownEventType := "Unknown"

  predicate HasRequiredFields(f: RegistrationForm) {
    f.fullName != "" && f.email != "" && f.phone != ""
  }

  /** The guard of `handleSubmit` and the record it inserts. Unchecked terms
      are refused before the fields are looked at; then a missing name, email
      or phone is refused. An accepted form is inserted as confirmed, under
      the event's type ("Unknown" for an empty one), with a "paid" ticket
      exactly when the form says "paid" and "free" otherwise; the special
      requests and the newsletter choice are not sent. */
  function Submission(f: RegistrationForm, e: Event): (r: Result<RegistrationInsert, Rejection>)
    ensures !f.agreeToTerms ==> r == Failure(TermsNotAccepted)
    ensures f.agreeToTerms && !HasRequiredFields(f) ==> r == Failure(MissingRequiredFields)
    ensures r.Success? <==> f.agreeToTerms && HasRequiredFields(f)
    ensures r.Success? ==>
              && r.value.fullName == f.fullName && r.value.email == f.email && r.value.phone == f.phone
              && r.value.status == "confirmed"
              && r.value.eventType == (if e.eventType == "" then UnknownEventType else e.eventType)
              && (r.value.ticketType == "paid" <==> f.ticketType == "paid")
              && (r.value.ticketType == "free" <==> f.ticketType != "paid")
  {
    if !f.agreeToTerms then Failure(TermsNotAccepted)
    else if !HasRequiredFields(f) then Failure(MissingRequiredFields)
    else
      Success(RegistrationInsert(
        f.fullName, f.email, f.phone,
        if e.eventType == "" then UnknownEventType else e.eventType,
        if f.ticketType == "paid" then "paid" else "free",
        "confirmed"))
  }

  /** The special requests and the newsletter box never reach the store. */
  lemma SubmissionIgnoresExtras(f: RegistrationForm, e: Event, requests: string, subscribe: bool)
    ensures Submission(f.(specialRequests := requests, subscribeNewsletter := subscribe), e) == Submission(f, e)
  {
  }

  /** A form filled in from the first render: the three required fields
      typed and the terms accepted. */
  function Filled(initial: RegistrationForm, name: string, email: string, phone: string): RegistrationForm {
    Apply(Apply(Apply(Apply(initial, SetFullName(name)), SetEmail(email)), SetPhone(phone)), SetAgreeToTerms(true))
  }

  /** As written, a free event (whose page hides the ticket radio) is
      registered with a "paid" ticket. */
  lemma FreeEventRegisteredAsPaid(e: Event, name: string, email: string, phone: string)
    requires e.price == Free && name != "" && email != "" && phone != ""
    ensures Submission(Filled(InitialForm(InitialTicketTypeAsWritten(e.id)), name, email, phone), e).Success?
    ensures Submission(Filled(InitialForm(InitialTicketTypeAsWritten(e.id)), name, email, phone), e).value.ticketType == "paid"
  {
  }

  /** With the intended initial ticket type the inserted ticket follows the
      event's price. */
  lemma RegisteredTicketFollowsPrice(e: Event, name: string, email: string, phone: string)
    requires name != "" && email != "" && phone != ""
    ensures Submission(Filled(InitialForm(InitialTicketType(e)), name, email, phone), e).Success?
    ensures Submission(Filled(InitialForm(InitialTicketType(e)), name, email, phone), e).value.ticketType
            == if e.price == Free then "free" else "paid"
  {
  }

  /** The data handed to the success page: the event's own fields and the
      form's ticket type as typed. */
  datatype Confirmation = Confirmation(
    eventTitle: string,
    eventDate: string,
    eventTime: string,
    eventLocation: string,
    eventType: string,
    fullName: string,
    email: string,
    ticketType: string)

  function ConfirmationOf(e: Event, f: RegistrationForm): Confirmation {
    Confirmation(e.title, e.date, e.time, e.location, e.eventType, f.fullName, f.email, f.ticketType)
  }

  // ---------------------------------------------------------------------------
  // What the page shows about availability

  /** The badge under the event details; exactly one is shown. */
  function AvailabilityBadge(e: Event): (b: string)
    ensures b == "Event Full - Registration Closed" <==> EventCard.IsFull(EventCard.AvailableSpots(e.capacity, e.registered))
    ensures b == "Almost Full - Register Soon!" <==>
              !EventCard.IsFull(EventCard.AvailableSpots(e.capacity, e.registered))
              && EventCard.IsAlmostFull(EventCard.AvailableSpots(e.capacity, e.registered))
    ensures b == "Registration Open" <==> !EventCard.IsAlmostFull(EventCard.AvailableSpots(e.capacity, e.registered))
  {
    match EventCard.Classify(e.capacity, e.registered)
    case SoldOut => "Event Full - Registration Closed"
    case AlmostFull => "Almost Full - Register Soon!"
    case Open => "Registration Open"
  }

  /** The page of an event that has been loaded. */
  class RegistrationPage {
    const event: Event
    var form: RegistrationForm
    var isSubmitting: bool

    /** The page as written: the form's ticket type comes from
        the built-in lookup of the route's id, so it starts as "paid" for
        every event (see Findings). */
    constructor (e: Event)
      ensures event == e && form == InitialForm(InitialTicketTypeAsWritten(e.id)) && !isSubmitting
      ensures form.ticketType == "paid"
    {
      event := e;
      form := InitialForm(InitialTicketTypeAsWritten(e.id));
      isSubmitting := false;
    }

    /** The form is rendered only while a place is left, that is exactly when
        the badge does not say that registration is closed. */
    predicate FormShown(): (b: bool)
      reads this
      ensures b <==> AvailabilityBadge(event) != "Event Full - Registration Closed"
    {
      !EventCard.IsFull(EventCard.AvailableSpots(event.capacity, event.registered))
    }

    /** The submit button is disabled exactly while a request runs or the
        terms are unchecked. It is never enabled for a form the submission
        would refuse for unchecked terms, and when enabled on a filled form
        the submission is accepted. */
    predicate SubmitDisabled(): (b: bool)
      reads this
      ensures !form.agreeToTerms ==> b && Submission(form, event) == Failure(TermsNotAccepted)
      ensures !b && HasRequiredFields(form) ==> Submission(form, event).Success?
      ensures isSubmitting ==> b
      ensures !isSubmitting && form.agreeToTerms ==> !b
    {
      isSubmitting || !form.agreeToTerms
    }

    /** `handleChange`. */
    method HandleChange(c: Change)
      modifies this`form
      ensures form == Apply(old(form), c)
    {
      form := Apply(form, c);
    }

    /** `handleSubmit`, given the store's answer to the insert. It returns the
        record it inserted, if any, and the confirmation it navigates to, if
        any. A refused form issues nothing and leaves `isSubmitting` alone;
        once the insert is issued `isSubmitting` ends false whatever the
        answer, and only a clean answer navigates. The form is never reset. */
    method HandleSubmit(outcome: Outcome) returns (issued: Option<RegistrationInsert>, next: Option<Confirmation>)
      modifies this`isSubmitting
      ensures issued == match Submission(form, event) case Success(p) => Some(p) case Failure(_) => None
      ensures issued.None? ==> isSubmitting == old(isSubmitting) && next == None
      ensures issued.Some? ==> !isSubmitting
      ensures next.Some? <==> issued.Some? && outcome == Ok
      ensures next.Some? ==> next.value == ConfirmationOf(event, form)
    {
      next := None;
      if !form.agreeToTerms {
        return None, None;
      }
      if !HasRequiredFields(form) {
        return None, None;
      }
      isSubmitting := true;
      issued := Some(Submission(form, event).value);
      match outcome {
        case Err(_, _) =>
        case Threw =>
        case Ok =>
          next := Some(ConfirmationOf(event, form));
      }
      isSubmitting := false;
    }
  }
}
