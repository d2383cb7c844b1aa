/** The application's event value, the mapping from a row of the `events`
    table to it, and the lookups over the built-in event list
    (src/data/events.ts). */
module EventData {
  import opened Wrappers
  import opened Strings
  import Lists

  /** An event's price: the literal `'Free'` or a number. */
  datatype Price = Free | Amount(value: nat)

  /** An event as the pages use it. */
  datatype Event = Event(
    id: string,
    title: string,
    description: string,
    date: string,
    time: string,
    location: string,
    capacity: int,
    registered: int,
    eventType: string,
    price: Price,
    image: string,
    longDescription: Option<string>,
    features: Option<seq<string>>,
    organizer: Option<string>)

  /** A row of the `events` table as the database returns it: description,
      image and features may be `null`, the price is text, and capacity and
      registered may be missing. */
  datatype EventRow = EventRow(
    id: string,
    title: string,
    description: Option<string>,
    eventType: string,
    date: string,
    time: string,
    location: string,
    price: string,
    capacity: Option<int>,
    registered: Option<int>,
    image: Option<string>,
    features: Option<seq<string>>)

  const PlaceholderImage := "/placeholder.svg"
  const DefaultEventType := "Event"
  const DefaultCapacity := 100
  const DefaultRegistered := 0

  /** The text of a price (`price.toString()`, and what a template literal
      shows): `"Free"`, or the decimal digits of the amount. */
  function PriceText(p: Price): (t: string)
    ensures p == Free ==> t == "Free"
    ensures p.Amount? ==> t != [] && AllDigits(t) && ToNumber(t) == Some(p.value)
  {
    match p
    case Free => "Free"
    case Amount(n) => ToNumberOfNatToString(n); NatToString(n)
  }

  /** The stored price text normalised: `'Free'` when the text is "free" in
      any letter case or when `Number` gives NaN for it, and the number
      otherwise. */
  function ParsePrice(text: string): (p: Price)
    ensures ToLower(text) == "free" ==> p == Free
    ensures ToNumber(text) == None ==> p == Free
    ensures ToLower(text) != "free" && ToNumber(text).Some? ==> p == Amount(ToNumber(text).value)
    ensures p.Amount? ==> ToLower(text) != "free" && ToNumber(text) == Some(p.value)
  {
    if ToLower(text) == "free" then Free
    else
      match ToNumber(text)
      case None => Free
      case Some(n) => Amount(n)
  }

  /** Reading back the text of a price gives the price. */
  lemma ParsePriceText(p: Price)
    ensures ParsePrice(PriceText(p)) == p
  {
    if p.Amount? {
      var t := PriceText(p);
      assert ToLower(t)[0] == LowerChar(t[0]) == t[0];
      assert ToLower(t) != "free";
    }
  }

  /** "free" is free in any letter case. */
  lemma ParsePriceFreeSpellings()
    ensures ParsePrice("free") == Free
    ensures ParsePrice("FREE") == Free
  {
    LowerFree("free");
    LowerFree("FREE");
  }

  /** Both spellings lower-case to "free". */
  lemma LowerFree(s: string)
    requires s == "free" || s == "FREE"
    ensures ToLower(s) == "free"
  {
    var u := ToLower(s);
    assert u[0] == 'f' && u[1] == 'r' && u[2] == 'e' && u[3] == 'e';
  }

  /** Text that is not a number is free. */
  lemma ParsePriceNotANumber()
    ensures ParsePrice("abc") == Free
  {
    TrimTrimmed("abc");
    assert !IsDigit("abc"[0]);
  }

  /** "250" is the number 250. */
  lemma ParsePriceDigits()
    ensures ParsePrice("250") == Amount(250)
  {
    TrimTrimmed("250");
    assert ToLower("250") == "250";
    assert "250"[..2] == "25" && "25"[..1] == "2" && "2"[..0] == "";
  }

  /** `mapSupabaseEventToEvent`: the identifying and scheduling fields are
      copied, the price is normalised, `||` replaces a null or empty
      description, type or image by its default, `??` replaces only a missing
      capacity or registered count, and null features become absent. */
  function MapRow(row: EventRow): (e: Event)
    ensures e.id == row.id && e.title == row.title && e.date == row.date
    ensures e.time == row.time && e.location == row.location
    ensures e.price == ParsePrice(row.price)
    ensures e.description == row.description.GetOr("")
    ensures e.eventType == if row.eventType == "" then DefaultEventType else row.eventType
    ensures e.image == if row.image == None || row.image == Some("") then PlaceholderImage else row.image.value
    ensures e.capacity == row.capacity.GetOr(DefaultCapacity)
    ensures e.registered == row.registered.GetOr(DefaultRegistered)
    ensures e.features == row.features
    ensures e.longDescription == None && e.organizer == None
  {
    Event(
      row.id,
      row.title,
      if row.description == None || row.description == Some("") then "" else row.description.value,
      row.date,
      row.time,
      row.location,
      match row.capacity case Some(c) => c case None => DefaultCapacity,
      match row.registered case Some(r) => r case None => DefaultRegistered,
      if row.eventType == "" then DefaultEventType else row.eventType,
      ParsePrice(row.price),
      if row.image == None || row.image == Some("") then PlaceholderImage else row.image.value,
      None,
      match row.features case Some(fs) => Some(fs) case None => None,
      None)
  }

  /** What every mapped event looks like: a non-empty type and image, and no
      long description or organizer. */
  predicate Normalized(e: Event) {
    e.eventType != "" && e.image != "" && e.longDescription == None && e.organizer == None
  }

  /** The row that stores an event: every field in its column, the price as text. */
  function StoredRow(e: Event): EventRow {
    EventRow(e.id, e.title, Some(e.description), e.eventType, e.date, e.time, e.location,
             PriceText(e.price), Some(e.capacity), Some(e.registered), Some(e.image), e.features)
  }

  /** The mapper's results are normalised, a stored capacity or count of 0 is
      kept, and only a missing one is defaulted. */
  lemma MapRowDefaults(row: EventRow)
    ensures Normalized(MapRow(row))
    ensures row.capacity == Some(0) ==> MapRow(row).capacity == 0
    ensures row.registered == Some(0) ==> MapRow(row).registered == 0
    ensures row.features == Some([]) ==> MapRow(row).features == Some([])
  {
  }

  /** Mapping is the inverse of storing: a normalised event read back from
      its row is the same event. */
  lemma MapStoredRow(e: Event)
    requires Normalized(e)
    ensures MapRow(StoredRow(e)) == e
  {
    ParsePriceText(e.price);
  }

  // ---------------------------------------------------------------------------
  // Lookups over the built-in list

  /** The built-in event list; it is empty, every event comes from the database. */
  const MockEvents: seq<Event> := []

  /** `i` is the position of the first event with that id. */
  predicate FirstWithId(events: seq<Event>, id: string, i: int) {
    0 <= i < |events| && events[i].id == id && forall j :: 0 <= j < i ==> events[j].id != id
  }

  function IndexOfId(events: seq<Event>, id: string): (r: Option<nat>)
    ensures r.Some? ==> FirstWithId(events, id, r.value)
    ensures r.None? ==> forall i :: 0 <= i < |events| ==> events[i].id != id
    decreases |events|
  {
    if events == [] then None
    else if events[0].id == id then Some(0)
    else
      match IndexOfId(events[1..], id)
      case None => None
      case Some(i) => Some(i + 1)
  }

  /** `events.find(e => e.id === id)`: the first event with that id, or none
      when no event has it. */
  function FindById(events: seq<Event>, id: string): (r: Option<Event>)
    ensures r.None? <==> forall i :: 0 <= i < |events| ==> events[i].id != id
    ensures r.Some? ==> r.value.id == id && r.value in events
    ensures forall i :: FirstWithId(events, id, i) ==> r == Some(events[i])
  {
    match IndexOfId(events, id)
    case None => None
    case Some(i) => Some(events[i])
  }

  /** `getEventById`: a lookup in the built-in list, which finds nothing. */
  function GetEventById(id: string): (r: Option<Event>)
    ensures r == None
  {
    FindById(MockEvents, id)
  }

  /** `events.filter(e => e.type === t)`: exactly the events of that type, in order. */
  function EventsOfType(events: seq<Event>, t: string): (r: seq<Event>)
    ensures forall e :: e in r <==> e in events && e.eventType == t
    ensures forall e :: multiset(r)[e] == if e.eventType == t then multiset(events)[e] else 0
    ensures Lists.IsSubsequence(r, events)
  {
    Lists.Filter(events, (e: Event) => e.eventType == t)
  }

  /** `getEventsByType` over the built-in list: always empty. */
  function GetEventsByType(t: string): (r: seq<Event>)
    ensures r == []
  {
    EventsOfType(MockEvents, t)
  }

  /** `events.slice(0, 3)`: the first three events, or all when there are fewer. */
  function FirstThree(events: seq<Event>): (r: seq<Event>)
    ensures r <= events && |r| == Lists.Min(3, |events|)
  {
    Lists.Slice(events, 0, 3)
  }

  /** `getFeaturedEvents` over the built-in list: always empty. */
  function GetFeaturedEvents(): (r: seq<Event>)
    ensures r == []
  {
    FirstThree(MockEvents)
  }
}
