/** The flight offer record both backend files exchange (one dict per offer
    in the program), and the JSON values the ranking model's reply decodes to. */
module Flights {

  datatype Cabin = Economy | PremiumEconomy | Business | FirstClass

  /** The `cabin_class` string stored in an offer. */
  function CabinName(c: Cabin): string
  {
    match c
    case Economy => "Economy"
    case PremiumEconomy => "Premium Economy"
    case Business => "Business"
    case FirstClass => "First Class"
  }

  datatype Baggage = Baggage(carryOn: int, checked: int)

  /** A wall-clock time at minute resolution: the calendar day (counted from
      a fixed epoch day) and the minute within that day. */
  datatype Timestamp = Timestamp(day: int, minuteOfDay: int)

  const MinutesPerDay := 1440

  /** Minutes elapsed since the start of the epoch day. */
  function Minutes(t: Timestamp): int
  {
    t.day * MinutesPerDay + t.minuteOfDay
  }

  /** `t + timedelta(minutes=d)`, kept in normal form (minute of day in [0, 1440)). */
  function AddMinutes(t: Timestamp, d: nat): (r: Timestamp)
    requires 0 <= t.minuteOfDay < MinutesPerDay
    ensures 0 <= r.minuteOfDay < MinutesPerDay
    ensures Minutes(r) == Minutes(t) + d
  {
    var m := t.minuteOfDay + d;
    Timestamp(t.day + m / MinutesPerDay, m % MinutesPerDay)
  }

  /** One flight offer. */
  datatype Flight = Flight(
    id: string,
    airline: string,
    flightNumber: string,
    origin: string,
    destination: string,
    departureTime: Timestamp,
    arrivalTime: Timestamp,
    duration: string,
    price: int,
    currency: string,
    stops: int,
    cabinClass: Cabin,
    availableSeats: int,
    baggage: Baggage,
    amenities: seq<string>,
    bookingUrl: string)
}

/** A decoded JSON document, as Python's `json.loads` returns it. */
module Json {
  import opened Wrappers

  datatype Json =
    | JNull
    | JBool(b: bool)
    | JNumber(n: int)
    | JString(s: string)
    | JArray(items: seq<Json>)
    | JObject(fields: map<string, Json>)

  /** `obj.get(name)` on a decoded object. */
  function Get(fields: map<string, Json>, name: string): (r: Option<Json>)
    ensures r.Some? <==> name in fields
    ensures r.Some? ==> r.value == fields[name]
  {
    if name in fields then Some(fields[name]) else None
  }
}
