/** The dialog that edits an event (src/components/EditEventDialog.tsx): the
    form is filled from the event, submitted as an update of the row with the
    event's id, and a clean answer closes the dialog. */
module EditEvent {
  import opened Wrappers
  import opened Strings
  import opened Remote
  import opened EventData
  import opened EventForm
  import Lists

  /** The form filled from an event: text fields copied, an empty type shown
      as "College Fest", the price as its text, a zero capacity as 100, and
      the features joined with ", " (an absent list as ""). */
  function Prefill(e: Event): (f: EventFormData)
    ensures f.title == e.title && f.description == e.description && f.date == e.date
    ensures f.time == e.time && f.location == e.location && f.image == e.image
    ensures f.eventType == if e.eventType == "" then EventForm.DefaultEventType else e.eventType
    ensures f.price == PriceText(e.price) && f.price != ""
    ensures f.capacity == StoredCapacity(e.capacity)
    ensures f.features == match e.features case None => "" case Some(fs) => JoinFeatures(fs)
  {
    EventFormData(
      e.title,
      e.description,
      if e.eventType == "" then EventForm.DefaultEventType else e.eventType,
      e.date,
      e.time,
      e.location,
      if PriceText(e.price) == "" then DefaultPriceText else PriceText(e.price),
      if e.capacity == 0 then EventForm.DefaultCapacity else e.capacity,
      e.image,
      match e.features case None => "" case Some(fs) => JoinFeatures(fs))
  }

  /** The features of an event are each non-empty, comma-free and trimmed. */
  predicate WellFormedFeatures(fs: Option<seq<string>>) {
    fs.Some? ==> forall i :: 0 <= i < |fs.value| ==> WellFormedFeature(fs.value[i])
  }

  /** Submitting the prefilled form unchanged sends back the event's own
      features, with an empty list sent as no list. */
  lemma PrefillFeaturesRoundTrip(e: Event)
    requires WellFormedFeatures(e.features)
    ensures BuildPayload(Prefill(e)).features == if e.features == Some([]) then None else e.features
  {
    if e.features.Some? {
      FeaturesRoundTrip(e.features.value);
    }
  }

  /** An update of the `events` table, keyed by the event's id. */
  datatype EventUpdate = EventUpdate(id: string, payload: EventPayload)

  /** A stored row after the update record is written to it: every field of
      the record replaces its column; the id and the registered count are not
      part of the record and stay. */
  function ApplyPayload(row: EventRow, p: EventPayload): (r: EventRow)
    ensures r.id == row.id && r.registered == row.registered
    ensures r.title == p.title && r.eventType == p.eventType && r.price == p.price
    ensures r.date == p.date && r.time == p.time && r.location == p.location
    ensures r.description == p.description && r.image == p.image && r.features == p.features
    ensures r.capacity == Some(p.capacity)
  {
    EventRow(row.id, p.title, p.description, p.eventType, p.date, p.time, p.location,
             p.price, Some(p.capacity), row.registered, p.image, p.features)
  }

  function UpdateRow(u: EventUpdate): EventRow -> EventRow {
    (row: EventRow) => if row.id == u.id then ApplyPayload(row, u.payload) else row
  }

  /** The table after the update: exactly the rows with the update's id are
      rewritten, every other row is left as it was, and no row is added or
      removed. */
  function StoreUpdate(rows: seq<EventRow>, u: EventUpdate): (r: seq<EventRow>)
    ensures |r| == |rows|
    ensures forall i :: 0 <= i < |rows| && rows[i].id != u.id ==> r[i] == rows[i]
    ensures forall i :: 0 <= i < |rows| && rows[i].id == u.id ==> r[i] == ApplyPayload(rows[i], u.payload)
  {
    Lists.Map(rows, UpdateRow(u))
  }

  /** Opening the editor on a stored event and saving it unchanged gives the
      same event back when it is read again, except that a zero capacity is
      now stored as 100 and an empty feature list as no list. */
  lemma EditRoundTrip(row: EventRow)
    requires WellFormedFeatures(row.features)
    ensures MapRow(ApplyPayload(row, BuildPayload(Prefill(MapRow(row)))))
            == MapRow(row).(capacity := StoredCapacity(MapRow(row).capacity),
                            features := if row.features == Some([]) then None else row.features)
  {
    var e := MapRow(row);
    MapRowDefaults(row);
    ParsePriceText(e.price);
    PrefillFeaturesRoundTrip(e);
  }

  class EditEventDialog {
    var event: Event
    var open: bool
    var isSubmitting: bool
    var form: EventFormData

    /** Mounted with an event, the effect fills the form and opens the dialog. */
    constructor (e: Event)
      ensures event == e && form == Prefill(e) && open && !isSubmitting
    {
      event := e;
      form := Prefill(e);
      open := true;
      isSubmitting := false;
    }

    /** A new event passed in: the effect fills the form again and opens the dialog. */
    method ChangeEvent(e: Event)
      modifies this`event, this`form, this`open
      ensures event == e && form == Prefill(e) && open
    {
      event := e;
      form := Prefill(e);
      open := true;
    }

    /** `onOpenChange`; closing also reports `onClose`, which it returns. */
    method SetOpen(b: bool) returns (closed: bool)
      modifies this`open
      ensures open == b && closed == !b
    {
      open := b;
      closed := !b;
    }

    /** `updateField`: one field of the form changes. */
    method ChangeField(c: Change)
      modifies this`form
      ensures form == UpdateField(old(form), c)
    {
      form := UpdateField(form, c);
    }

    /** `handleSubmit`, given the store's answer to the update. It returns the
        update it issued, if any, and whether `onUpdated` fired. A form
        missing a required field issues nothing. The update carries the form's
        record and the event's id; once it is issued `isSubmitting` ends
        false, and only a clean answer closes the dialog. The form is kept. */
    method HandleSubmit(outcome: Outcome) returns (issued: Option<EventUpdate>, updated: bool)
      modifies this`open, this`isSubmitting
      ensures issued.None? <==> !HasRequiredFields(form)
      ensures issued.Some? ==> issued.value == EventUpdate(event.id, BuildPayload(form))
      ensures issued.None? ==> isSubmitting == old(isSubmitting)
      ensures issued.Some? ==> !isSubmitting
      ensures updated <==> issued.Some? && outcome == Ok
      ensures open == if updated then false else old(open)
    {
      if !HasRequiredFields(form) {
        return None, false;
      }
      isSubmitting := true;
      issued := Some(EventUpdate(event.id, BuildPayload(form)));
      updated := false;
      match outcome {
        case Err(_, _) =>
        case Threw =>
        case Ok =>
          open := false;
          updated := true;
      }
      isSubmitting := false;
    }
  }
}
