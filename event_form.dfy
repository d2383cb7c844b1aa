/** The event form shared by the create and the edit dialog
    (src/components/CreateEventDialog.tsx, src/components/EditEventDialog.tsx):
    its fields, single-field updates, the required-field check and the record
    sent to the `events` table, including the parsing of the comma-separated
    features text. Both dialogs use the same code for each of these. */
module EventForm {
  import opened Wrappers
  import opened Strings
  import Lists

  /** The form's state; capacity is the number the capacity input gives. */
  datatype EventFormData = EventFormData(
    title: string,
    description: string,
    eventType: string,
    date: string,
    time: string,
    location: string,
    price: string,
    capacity: int,
    image: string,
    features: string)

  const DefaultEventType := "College Fest"
  const DefaultPriceText := "Free"
  const DefaultCapacity := 100

  /** The empty form both dialogs start from. */
  const DefaultForm := EventFormData("", "", DefaultEventType, "", "", "", DefaultPriceText, DefaultCapacity, "", "")

  // ---------------------------------------------------------------------------
  // Updating one field

  datatype FieldName = Title | Description | EventType | Date | Time | Location | PriceField | Capacity | Image | Features

  datatype FieldValue = Text(text: string) | Count(count: int)

  /** `updateField(key, value)`. */
  datatype Change =
    | SetTitle(title: string)
    | SetDescription(description: string)
    | SetEventType(eventType: string)
    | SetDate(date: string)
    | SetTime(time: string)
    | SetLocation(location: string)
    | SetPrice(price: string)
    | SetCapacity(capacity: int)
    | SetImage(image: string)
    | SetFeatures(features: string)

  function Target(c: Change): FieldName {
    match c
    case SetTitle(_) => Title
    case SetDescription(_) => Description
    case SetEventType(_) => EventType
    case SetDate(_) => Date
    case SetTime(_) => Time
    case SetLocation(_) => Location
    case SetPrice(_) => PriceField
    case SetCapacity(_) => Capacity
    case SetImage(_) => Image
    case SetFeatures(_) => Features
  }

  function ValueOf(c: Change): FieldValue {
    match c
    case SetTitle(v) => Text(v)
    case SetDescription(v) => Text(v)
    case SetEventType(v) => Text(v)
    case SetDate(v) => Text(v)
    case SetTime(v) => Text(v)
    case SetLocation(v) => Text(v)
    case SetPrice(v) => Text(v)
    case SetCapacity(n) => Count(n)
    case SetImage(v) => Text(v)
    case SetFeatures(v) => Text(v)
  }

  function Get(f: EventFormData, n: FieldName): FieldValue {
    match n
    case Title => Text(f.title)
    case Description => Text(f.description)
    case EventType => Text(f.eventType)
    case Date => Text(f.date)
    case Time => Text(f.time)
    case Location => Text(f.location)
    case PriceField => Text(f.price)
    case Capacity => Count(f.capacity)
    case Image => Text(f.image)
    case Features => Text(f.features)
  }

  /** `{...prev, [key]: value}`: the named field takes the value, every other
      field keeps its value. */
  function UpdateField(f: EventFormData, c: Change): (r: EventFormData)
    ensures Get(r, Target(c)) == ValueOf(c)
    ensures forall n :: n != Target(c) ==> Get(r, n) == Get(f, n)
  {
    match c
    case SetTitle(v) => f.(title := v)
    case SetDescription(v) => f.(description := v)
    case SetEventType(v) => f.(eventType := v)
    case SetDate(v) => f.(date := v)
    case SetTime(v) => f.(time := v)
    case SetLocation(v) => f.(location := v)
    case SetPrice(v) => f.(price := v)
    case SetCapacity(n) => f.(capacity := n)
    case SetImage(v) => f.(image := v)
    case SetFeatures(v) => f.(features := v)
  }

  /** Forms that agree on every field are equal. */
  lemma FormExtensionality(f: EventFormData, g: EventFormData)
    requires forall n :: Get(f, n) == Get(g, n)
    ensures f == g
  {
    assert Get(f, Title) == Get(g, Title) && Get(f, Description) == Get(g, Description);
    assert Get(f, EventType) == Get(g, EventType) && Get(f, Date) == Get(g, Date);
    assert Get(f, Time) == Get(g, Time) && Get(f, Location) == Get(g, Location);
    assert Get(f, PriceField) == Get(g, PriceField) && Get(f, Capacity) == Get(g, Capacity);
    assert Get(f, Image) == Get(g, Image) && Get(f, Features) == Get(g, Features);
  }

  /** Updates of different fields can be applied in either order. */
  lemma UpdatesCommute(f: EventFormData, c: Change, d: Change)
    requires Target(c) != Target(d)
    ensures UpdateField(UpdateField(f, c), d) == UpdateField(UpdateField(f, d), c)
  {
    var x := UpdateField(UpdateField(f, c), d);
    var y := UpdateField(UpdateField(f, d), c);
    forall n ensures Get(x, n) == Get(y, n) {
    }
    FormExtensionality(x, y);
  }

  /** Of two updates of the same field the later one wins. */
  lemma LastUpdateWins(f: EventFormData, c: Change, d: Change)
    requires Target(c) == Target(d)
    ensures UpdateField(UpdateField(f, c), d) == UpdateField(f, d)
  {
    var x := UpdateField(UpdateField(f, c), d);
    var y := UpdateField(f, d);
    forall n ensures Get(x, n) == Get(y, n) {
    }
    FormExtensionality(x, y);
  }

  // ---------------------------------------------------------------------------
  // Validation and the stored record

  /** Title, date, time and location are required. */
  predicate HasRequiredFields(f: EventFormData) {
    f.title != "" && f.date != "" && f.time != "" && f.location != ""
  }

  /** `Number(capacity) || 100`: zero becomes 100, every other number is kept. */
  function StoredCapacity(c: int): (r: int)
    ensures r != 0
    ensures c != 0 ==> r == c
    ensures c == 0 ==> r == DefaultCapacity
  {
    if c == 0 then DefaultCapacity else c
  }

  /** `text || null`. */
  function NullIfEmpty(s: string): (r: Option<string>)
    ensures r.None? <==> s == ""
    ensures r.Some? ==> r.value == s
  {
    if s == "" then None else Some(s)
  }

  /** What a parsed feature looks like. */
  predicate WellFormedFeature(f: string) {
    f != "" && ',' !in f && IsTrimmed(f)
  }

  function NonEmpty(s: string): bool {
    s != ""
  }

  /** `features ? features.split(",").map(trim).filter(Boolean) : null`:
      no list for an empty text, otherwise the trimmed comma-separated pieces
      that are not empty, each of them non-empty, comma-free and trimmed. */
  function ParseFeatures(text: string): (r: Option<seq<string>>)
    ensures r.None? <==> text == ""
    ensures r.Some? ==> forall i :: 0 <= i < |r.value| ==> WellFormedFeature(r.value[i])
  {
    if text == "" then None
    else
      var pieces := Split(text, ',');
      var trimmed := Lists.Map(pieces, Trim);
      var kept := Lists.Filter(trimmed, NonEmpty);
      assert forall i :: 0 <= i < |kept| ==> WellFormedFeature(kept[i]) by {
        forall i | 0 <= i < |kept|
          ensures WellFormedFeature(kept[i])
        {
          var x := kept[i];
          assert x in kept;
          var j :| 0 <= j < |trimmed| && trimmed[j] == x;
          assert pieces[j] in pieces;
          if ',' in x {
            TrimKeepsCharacters(pieces[j], ',');
          }
        }
      }
      Some(kept)
  }

  /** A text without a comma is one feature, the text trimmed, or none when
      it is blank; the empty text is no list at all. */
  lemma ParseSingleFeature(t: string)
    requires ',' !in t
    ensures ParseFeatures(t) == if t == "" then None else Some(if Trim(t) == "" then [] else [Trim(t)])
  {
    if t != "" {
      SplitWithoutSeparator(t, ',');
      assert Lists.Map([t], Trim) == [Trim(t)];
      var kept := Lists.Filter([Trim(t)], NonEmpty);
      assert [Trim(t)][1..] == [];
    }
  }

  /** The features of two texts joined by a comma are the features of the
      first followed by those of the second. */
  lemma ParseFeaturesAtComma(a: string, b: string)
    requires a != "" && b != ""
    ensures ParseFeatures(a + "," + b) == Some(ParseFeatures(a).value + ParseFeatures(b).value)
  {
    SplitAtSeparator(a, b, ',');
    var sa := Split(a, ',');
    var sb := Split(b, ',');
    Lists.MapAppend(sa, sb, Trim);
    Lists.FilterAppend(Lists.Map(sa, Trim), Lists.Map(sb, Trim), NonEmpty);
  }

  /** The record sent to the store. */
  datatype EventPayload = EventPayload(
    title: string,
    description: Option<string>,
    eventType: string,
    date: string,
    time: string,
    location: string,
    price: string,
    capacity: int,
    image: Option<string>,
    features: Option<seq<string>>)

  /** The insert or update record: text fields as typed, an empty description
      or image as `null`, the price text unparsed, the stored capacity and the
      parsed features. */
  function BuildPayload(f: EventFormData): (p: EventPayload)
    ensures p.title == f.title && p.eventType == f.eventType && p.date == f.date
    ensures p.time == f.time && p.location == f.location && p.price == f.price
    ensures p.description.None? <==> f.description == ""
    ensures p.description.Some? ==> p.description.value == f.description
    ensures p.image.None? <==> f.image == ""
    ensures p.image.Some? ==> p.image.value == f.image
    ensures p.capacity == StoredCapacity(f.capacity)
    ensures p.features == ParseFeatures(f.features)
  {
    EventPayload(f.title, NullIfEmpty(f.description), f.eventType, f.date, f.time, f.location,
                 f.price, StoredCapacity(f.capacity), NullIfEmpty(f.image), ParseFeatures(f.features))
  }

  /** `features.join(", ")`. */
  function JoinFeatures(fs: seq<string>): string {
    Join(fs, ", ")
  }

  /** Trimming the pieces of joined features, each after the first led by
      the space of ", ", gives the features back. */
  lemma TrimPaddedPieces(fs: seq<string>)
    requires |fs| >= 1
    requires forall i :: 0 <= i < |fs| ==> WellFormedFeature(fs[i])
    ensures Lists.Map([fs[0]] + PrefixEach(" ", fs[1..]), Trim) == fs
  {
    var pieces := [fs[0]] + PrefixEach(" ", fs[1..]);
    var trimmed := Lists.Map(pieces, Trim);
    forall i | 0 <= i < |fs|
      ensures trimmed[i] == fs[i]
    {
      if i == 0 {
        TrimTrimmed(fs[0]);
      } else {
        assert pieces[i] == [' '] + fs[i];
        TrimLeadingSpace(' ', fs[i]);
        TrimTrimmed(fs[i]);
      }
    }
  }

  /** The joined text of features that contain no comma splits at each ", ". */
  lemma SplitJoinedFeatures(fs: seq<string>)
    requires |fs| >= 1
    requires forall i :: 0 <= i < |fs| ==> ',' !in fs[i]
    ensures Split(JoinFeatures(fs), ',') == [fs[0]] + PrefixEach(" ", fs[1..])
  {
    assert ", " == [','] + " ";
    SplitJoinPadded(fs, ',', " ");
  }

  /** Parsing the joined text of well-formed features gives the features
      back; an empty list comes back as no list. */
  lemma FeaturesRoundTrip(fs: seq<string>)
    requires forall i :: 0 <= i < |fs| ==> WellFormedFeature(fs[i])
    ensures ParseFeatures(JoinFeatures(fs)) == if fs == [] then None else Some(fs)
  {
    if fs != [] {
      var text := JoinFeatures(fs);
      assert fs[0] <= text;
      SplitJoinedFeatures(fs);
      TrimPaddedPieces(fs);
      Lists.FilterAcceptingAll(fs, NonEmpty);
    }
  }
}
