/** The catalogue card of one event (src/components/EventCard.tsx): how full
    the event is, which status badge and register button that selects, the
    price label, and the colour class of the type badge. */
module EventCard {
  import opened Wrappers
  import opened Strings
  import opened EventData

  /** Places left: capacity minus registrations. Nothing stops registrations
      from exceeding the capacity, so the count can be negative. */
  function AvailableSpots(capacity: int, registered: int): (r: int)
    ensures registered > capacity <==> r < 0
    ensures r == 0 <==> registered == capacity
  {
    capacity - registered
  }

  /** Ten places or fewer left. */
  predicate IsAlmostFull(spots: int) {
    spots <= 10
  }

  /** No place left. */
  predicate IsFull(spots: int) {
    spots <= 0
  }

  /** A full event is always also almost full. */
  lemma FullIsAlmostFull(spots: int)
    requires IsFull(spots)
    ensures IsAlmostFull(spots)
  {
  }

  /** The three states the card distinguishes. */
  datatype Availability = SoldOut | AlmostFull | Open

  /** Full first, then almost full, then open; exactly one of them holds. */
  function Classify(capacity: int, registered: int): (a: Availability)
    ensures a == SoldOut <==> IsFull(AvailableSpots(capacity, registered))
    ensures a == AlmostFull <==> !IsFull(AvailableSpots(capacity, registered)) && IsAlmostFull(AvailableSpots(capacity, registered))
    ensures a == Open <==> !IsAlmostFull(AvailableSpots(capacity, registered))
  {
    var spots := AvailableSpots(capacity, registered);
    if IsFull(spots) then SoldOut
    else if IsAlmostFull(spots) then AlmostFull
    else Open
  }

  /** Registering one more person never makes an event less full. */
  lemma ClassifyMonotone(capacity: int, registered: int)
    ensures Classify(capacity, registered) == SoldOut ==> Classify(capacity, registered + 1) == SoldOut
    ensures Classify(capacity, registered) == AlmostFull ==> Classify(capacity, registered + 1) != Open
  {
  }

  /** The availability badge over the image: "Sold Out" for a full event,
      "Almost Full" for one that is almost full but not full, and no badge
      otherwise; at most one is shown. */
  function StatusBadge(capacity: int, registered: int): (b: Option<string>)
    ensures b == Some("Sold Out") <==> IsFull(AvailableSpots(capacity, registered))
    ensures b == Some("Almost Full") <==> !IsFull(AvailableSpots(capacity, registered)) && IsAlmostFull(AvailableSpots(capacity, registered))
    ensures b == None <==> !IsAlmostFull(AvailableSpots(capacity, registered))
  {
    match Classify(capacity, registered)
    case SoldOut => Some("Sold Out")
    case AlmostFull => Some("Almost Full")
    case Open => None
  }

  /** The register button of the card. */
  datatype Button = Button(caption: string, disabled: bool)

  /** The button is disabled and reads "Event Full" exactly when the event is
      full, and reads "Register Now" otherwise. */
  function RegisterButton(capacity: int, registered: int): (b: Button)
    ensures b.disabled <==> IsFull(AvailableSpots(capacity, registered))
    ensures b.caption == "Event Full" <==> IsFull(AvailableSpots(capacity, registered))
    ensures b.caption == "Register Now" <==> !IsFull(AvailableSpots(capacity, registered))
  {
    var full := IsFull(AvailableSpots(capacity, registered));
    Button(if full then "Event Full" else "Register Now", full)
  }

  const Rupee: char := '₹'

  /** The price badge: "Free", or the rupee sign followed by the amount's digits. */
  function PriceLabel(p: Price): (t: string)
    ensures p == Free ==> t == "Free"
    ensures p.Amount? ==> t != [] && t[0] == Rupee && AllDigits(t[1..]) && ToNumber(t[1..]) == Some(p.value)
  {
    match p
    case Free => "Free"
    case Amount(n) =>
      ToNumberOfNatToString(n);
      assert ([Rupee] + NatToString(n))[1..] == NatToString(n);
      [Rupee] + NatToString(n)
  }

  /** Different prices get different labels. */
  lemma PriceLabelInjective(p: Price, q: Price)
    requires PriceLabel(p) == PriceLabel(q)
    ensures p == q
  {
    if p.Amount? && q.Amount? {
      assert PriceLabel(p)[1..] == PriceLabel(q)[1..];
      assert ToNumber(PriceLabel(p)[1..]) == Some(p.value);
      assert ToNumber(PriceLabel(q)[1..]) == Some(q.value);
    }
  }

  /** The four categories the type badge knows. */
  const KnownTypes := ["College Fest", "Corporate Training", "Webinar", "Sports"]

  const DefaultTypeColor := "bg-gradient-primary"

  /** `getTypeColor`: a gradient per known category, the default class for
      every other type. */
  function TypeColor(eventType: string): (c: string)
    ensures eventType !in KnownTypes <==> c == DefaultTypeColor
  {
    match eventType
    case "College Fest" => "bg-gradient-to-r from-purple-500 to-pink-500"
    case "Corporate Training" => "bg-gradient-to-r from-blue-500 to-cyan-500"
    case "Webinar" => "bg-gradient-to-r from-green-500 to-emerald-500"
    case "Sports" => "bg-gradient-to-r from-orange-500 to-red-500"
    case _ => DefaultTypeColor
  }

  /** The known categories get pairwise different colours. */
  lemma TypeColorsDistinct(i: int, j: int)
    requires 0 <= i < |KnownTypes| && 0 <= j < |KnownTypes| && i != j
    ensures TypeColor(KnownTypes[i]) != TypeColor(KnownTypes[j])
  {
  }
}
