/** The simulated search backend of `backend/mock_data.py`: 8 to 15 random
    offers between two cities, sorted by price, plus the city-to-airport
    lookup. Every random draw is a parameter, and the range the program
    draws it from is a precondition on it. */
module MockData {
  import opened Wrappers
  import opened Text
  import opened Sorting
  import opened Flights

  const Airlines: seq<string> := [
    "Air France", "El Al", "Lufthansa", "Emirates", "British Airways",
    "Turkish Airlines", "KLM", "Ryanair", "EasyJet", "Wizz Air"]

  const AmenityCatalog: seq<string> := [
    "WiFi gratuit", "Divertissement à bord", "Prise électrique", "USB",
    "Repas inclus", "Snacks gratuits", "Boissons incluses",
    "Espace pour les jambes étendu", "Siège inclinable"]

  /** How many other airlines join a preferred one: `min(4, len(airlines) - 1)`. */
  const PoolOthers := Min(4, |Airlines| - 1)

  const MinOffers := 8
  const MaxOffers := 15
  const MinBasePrice := 150
  const MaxBasePrice := 1200
  const MinAmenities := 3
  const MaxAmenities := 7
  const FirstIdNumber := 1000
  const IdPrefix := "FL"
  const BookingUrlPrefix := "https://booking.example.com/flight/"
  const Currency := "EUR"
  const CarryOnBags := 1

  /** Pairwise different elements. */
  ghost predicate Distinct<T>(s: seq<T>)
  {
    forall i, j :: 0 <= i < j < |s| ==> s[i] != s[j]
  }

  // ---------------------------------------------------------------------------
  // random.sample
  // ---------------------------------------------------------------------------

  /** The positions `random.sample(population, k)` may pick: `k` different
      positions of a population of size `n`. */
  predicate ValidSample(picks: seq<nat>, n: nat)
  {
    && (forall i :: 0 <= i < |picks| ==> picks[i] < n)
    && (forall i, j :: 0 <= i < j < |picks| ==> picks[i] != picks[j])
  }

  /** `random.sample(population, len(picks))` with the positions drawn. */
  function Sample<T>(population: seq<T>, picks: seq<nat>): (r: seq<T>)
    requires ValidSample(picks, |population|)
    ensures |r| == |picks|
    ensures forall x :: x in r ==> x in population
    ensures Distinct(population) ==> Distinct(r)
  {
    seq(|picks|, i requires 0 <= i < |picks| => population[picks[i]])
  }

  // ---------------------------------------------------------------------------
  // Airlines
  // ---------------------------------------------------------------------------

  /** `[a for a in roster if a.lower() != preferred.lower()]` */
  function Unlike(roster: seq<string>, preferred: string): (r: seq<string>)
    ensures |r| <= |roster|
    ensures forall x :: x in r <==> x in roster && Lower(x) != Lower(preferred)
  {
    if roster == [] then []
    else
      var rest := Unlike(roster[1..], preferred);
      assert roster == [roster[0]] + roster[1..];
      if Lower(roster[0]) != Lower(preferred) then [roster[0]] + rest else rest
  }

  /** Pairwise different once lower-cased. */
  ghost predicate DistinctIgnoringCase(s: seq<string>)
  {
    forall i, j :: 0 <= i < j < |s| ==> Lower(s[i]) != Lower(s[j])
  }

  lemma {:induction false} UnlikeNone(roster: seq<string>, preferred: string)
    requires forall i :: 0 <= i < |roster| ==> Lower(roster[i]) != Lower(preferred)
    ensures Unlike(roster, preferred) == roster
  {
    if roster != [] {
      UnlikeNone(roster[1..], preferred);
      assert roster == [roster[0]] + roster[1..];
    }
  }

  /** Among entries that differ ignoring case, the filter drops at most one. */
  lemma {:induction false} UnlikeDropsAtMostOne(roster: seq<string>, preferred: string)
    requires DistinctIgnoringCase(roster)
    ensures |Unlike(roster, preferred)| >= |roster| - 1
  {
    if roster != [] {
      var rest := roster[1..];
      if Lower(roster[0]) == Lower(preferred) {
        forall i | 0 <= i < |rest|
          ensures Lower(rest[i]) != Lower(preferred)
        {
          assert Lower(roster[0]) != Lower(roster[i + 1]);
        }
        UnlikeNone(rest, preferred);
      } else {
        UnlikeDropsAtMostOne(rest, preferred);
      }
    }
  }

  /** Two strings whose first two characters differ ignoring case differ ignoring case. */
  lemma HeadsDiffer(a: string, b: string)
    requires |a| >= 2 && |b| >= 2
    requires LowerChar(a[0]) != LowerChar(b[0]) || LowerChar(a[1]) != LowerChar(b[1])
    ensures Lower(a) != Lower(b)
  {
    assert Lower(a)[0] == LowerChar(a[0]) && Lower(a)[1] == LowerChar(a[1]);
    assert Lower(b)[0] == LowerChar(b[0]) && Lower(b)[1] == LowerChar(b[1]);
  }

  /** No two airlines of the roster differ only in case. */
  lemma AirlinesDistinct()
    ensures DistinctIgnoringCase(Airlines)
  {
    forall i, j | 0 <= i < j < |Airlines|
      ensures Lower(Airlines[i]) != Lower(Airlines[j])
    {
      HeadsDiffer(Airlines[i], Airlines[j]);
    }
  }

  /** The roster minus a preferred airline always has enough airlines for
      the sample: `random.sample` never raises here. */
  lemma OthersSuffice(preferred: string)
    ensures |Unlike(Airlines, preferred)| >= PoolOthers
  {
    AirlinesDistinct();
    UnlikeDropsAtMostOne(Airlines, preferred);
  }

  /** The airlines offers are drawn from: the whole roster without a
      preference, otherwise the preferred airline (as typed) and four other
      roster airlines. `picks` are the positions `random.sample` draws. */
  function AirlinePool(preferred: string, picks: seq<nat>): (pool: seq<string>)
    requires !IsBlank(preferred) ==> |picks| == PoolOthers && ValidSample(picks, |Unlike(Airlines, preferred)|)
    ensures IsBlank(preferred) ==> pool == Airlines
    ensures !IsBlank(preferred) ==> |pool| == 1 + PoolOthers && pool[0] == preferred
    ensures !IsBlank(preferred) ==> forall i :: 1 <= i < |pool| ==>
              pool[i] in Airlines && Lower(pool[i]) != Lower(preferred)
    ensures |pool| >= 1
  {
    if IsBlank(preferred) then Airlines
    else
      var others := Sample(Unlike(Airlines, preferred), picks);
      var pool := [preferred] + others;
      assert forall i :: 1 <= i < |pool| ==> pool[i] == others[i - 1] && others[i - 1] in others;
      pool
  }

  /** The other airlines of a pool are different airlines of the roster. */
  lemma PoolOthersDistinct(preferred: string, picks: seq<nat>)
    requires !IsBlank(preferred) && |picks| == PoolOthers
    requires ValidSample(picks, |Unlike(Airlines, preferred)|)
    ensures Distinct(AirlinePool(preferred, picks)[1..])
  {
    var roster := Unlike(Airlines, preferred);
    AirlinesDistinct();
    forall i, j | 0 <= i < j < |roster|
      ensures roster[i] != roster[j]
    {
      UnlikeKeepsDistinct(Airlines, preferred);
    }
    assert AirlinePool(preferred, picks)[1..] == Sample(roster, picks);
  }

  /** The filter keeps entries that differ ignoring case apart. */
  lemma {:induction false} UnlikeKeepsDistinct(roster: seq<string>, preferred: string)
    requires DistinctIgnoringCase(roster)
    ensures DistinctIgnoringCase(Unlike(roster, preferred))
  {
    if roster != [] {
      var rest := roster[1..];
      assert DistinctIgnoringCase(rest);
      UnlikeKeepsDistinct(rest, preferred);
      var r := Unlike(roster, preferred);
      if Lower(roster[0]) != Lower(preferred) {
        var tail := Unlike(rest, preferred);
        forall x | x in rest
          ensures Lower(x) != Lower(roster[0])
        {
          var k :| 0 <= k < |rest| && rest[k] == x;
          assert roster[k + 1] == x;
        }
        forall i, j | 0 <= i < j < |r|
          ensures Lower(r[i]) != Lower(r[j])
        {
          assert r[j] == tail[j - 1] && tail[j - 1] in tail;
          if i > 0 {
            assert r[i] == tail[i - 1];
          }
        }
      }
    }
  }

  // ---------------------------------------------------------------------------
  // One offer
  // ---------------------------------------------------------------------------

  /** The base price adjusted to the cabin: Premium Economy `int(p * 1.5)`,
      Business `int(p * 2.5)`, First `p * 4`. */
  function CabinPrice(base: nat, cabin: Cabin): (r: nat)
    ensures base <= r <= 4 * base
    ensures cabin == Economy ==> r == base
    ensures cabin == PremiumEconomy ==> 2 * r <= 3 * base < 2 * r + 2
    ensures cabin == Business ==> 2 * r <= 5 * base < 2 * r + 2
    ensures cabin == FirstClass ==> r == 4 * base
  {
    match cabin
    case Economy => base
    case PremiumEconomy => base * 3 / 2
    case Business => base * 5 / 2
    case FirstClass => base * 4
  }

  /** The position of a cabin in the price ladder. */
  function CabinTier(c: Cabin): nat
  {
    match c
    case Economy => 0
    case PremiumEconomy => 1
    case Business => 2
    case FirstClass => 3
  }

  /** A better cabin never costs less, and a higher base never costs less. */
  lemma CabinPriceMonotone(b1: nat, b2: nat, c1: Cabin, c2: Cabin)
    requires b1 <= b2 && CabinTier(c1) <= CabinTier(c2)
    ensures CabinPrice(b1, c1) <= CabinPrice(b2, c2)
  {
    var p1, p2 := CabinPrice(b1, c1), CabinPrice(b2, c2);
    assert p1 <= CabinPrice(b2, c1);
    if c1 != c2 {
      assert CabinPrice(b2, c1) <= CabinPrice(b2, c2);
    }
  }

  /** Every final price lies between 150 and 4800 euros. */
  lemma CabinPriceRange(base: nat, cabin: Cabin)
    requires MinBasePrice <= base <= MaxBasePrice
    ensures MinBasePrice <= CabinPrice(base, cabin) <= 4 * MaxBasePrice
  {
  }

  /** `random.sample(all_amenities, randint(3, 7))` with the positions drawn. */
  function Amenities(picks: seq<nat>): (r: seq<string>)
    requires MinAmenities <= |picks| <= MaxAmenities && ValidSample(picks, |AmenityCatalog|)
    ensures MinAmenities <= |r| <= MaxAmenities
    ensures Distinct(r)
    ensures forall a :: a in r ==> a in AmenityCatalog
  {
    CatalogDistinct();
    Sample(AmenityCatalog, picks)
  }

  lemma CatalogDistinct()
    ensures Distinct(AmenityCatalog)
  {
    forall i, j | 0 <= i < j < |AmenityCatalog|
      ensures AmenityCatalog[i] != AmenityCatalog[j]
    {
      HeadsDiffer(AmenityCatalog[i], AmenityCatalog[j]);
    }
  }

  /** `f"FL{1000 + i}"` */
  function OfferId(i: nat): string
  {
    IdPrefix + NatToString(FirstIdNumber + i)
  }

  /** `f"https://booking.example.com/flight/{1000 + i}"` */
  function BookingUrl(i: nat): string
  {
    BookingUrlPrefix + NatToString(FirstIdNumber + i)
  }

  /** Different positions get different ids. */
  lemma OfferIdInjective(i: nat, j: nat)
    ensures OfferId(i) == OfferId(j) <==> i == j
  {
    if OfferId(i) == OfferId(j) {
      assert OfferId(i)[|IdPrefix|..] == NatToString(FirstIdNumber + i);
      assert OfferId(j)[|IdPrefix|..] == NatToString(FirstIdNumber + j);
      NatToStringInjective(FirstIdNumber + i, FirstIdNumber + j);
    }
  }

  /** The booking link ends with the number of the id. */
  lemma BookingUrlMatchesId(i: nat)
    ensures |OfferId(i)| > |IdPrefix|
    ensures BookingUrl(i) == BookingUrlPrefix + OfferId(i)[|IdPrefix|..]
  {
    assert OfferId(i)[|IdPrefix|..] == NatToString(FirstIdNumber + i);
  }

  /** `f"{hours}h {minutes}m"` */
  function DurationText(hours: nat, minutes: nat): string
  {
    NatToString(hours) + "h " + NatToString(minutes) + "m"
  }

  /** The duration text determines the hours and minutes it was made from. */
  lemma DurationTextInjective(h1: nat, m1: nat, h2: nat, m2: nat)
    ensures DurationText(h1, m1) == DurationText(h2, m2) <==> h1 == h2 && m1 == m2
  {
    if DurationText(h1, m1) == DurationText(h2, m2) {
      var a1, b1 := NatToString(h1), NatToString(m1);
      var a2, b2 := NatToString(h2), NatToString(m2);
      var x1, x2 := "h " + b1 + "m", "h " + b2 + "m";
      assert DurationText(h1, m1) == a1 + x1;
      assert DurationText(h2, m2) == a2 + x2;
      DigitsPrefixCancel(a1, x1, a2, x2);
      NatToStringInjective(h1, h2);
      assert x1[2..] == b1 + "m" && x2[2..] == b2 + "m";
      DigitsPrefixCancel(b1, "m", b2, "m");
      NatToStringInjective(m1, m2);
    }
  }

  /** `f"{airline_name[:2].upper()}{number}"` */
  function FlightNumber(airline: string, number: nat): (r: string)
    ensures var n := Min(2, |airline|);
            && |r| == n + |NatToString(number)|
            && (forall k :: 0 <= k < n ==> r[k] == UpperChar(airline[k]))
            && r[n..] == NatToString(number)
  {
    Upper(airline[..Min(2, |airline|)]) + NatToString(number)
  }

  /** Everything drawn at random for one offer. Only the ranges are
      modelled, not the probabilities (stops are weighted 50/35/15, and half
      the cabins drawn are Economy). */
  datatype Draw = Draw(
    departureHour: int,
    departureMinute: int,
    durationHours: int,
    durationMinutes: int,
    basePrice: int,
    stops: int,
    seats: int,
    cabin: Cabin,
    airlineIndex: int,
    flightSuffix: int,
    checkedBags: int,
    amenityPicks: seq<nat>)

  /** `random.choice([0, 15, 30, 45])` */
  predicate QuarterHour(m: int)
  {
    m == 0 || m == 15 || m == 30 || m == 45
  }

  /** `h` hours and `m` minutes, with `m` a quarter hour, in minutes. */
  lemma QuarterHoursSplit(h: nat, m: int)
    requires QuarterHour(m)
    ensures (60 * h + m) / 60 == h && (60 * h + m) % 60 == m && (60 * h + m) % 15 == 0
  {
  }

  /** The ranges the program draws from, for a pool of `poolSize` airlines. */
  predicate ValidDraw(d: Draw, poolSize: nat)
  {
    && 0 <= d.departureHour <= 23 && QuarterHour(d.departureMinute)
    && 2 <= d.durationHours <= 15 && QuarterHour(d.durationMinutes)
    && MinBasePrice <= d.basePrice <= MaxBasePrice
    && 0 <= d.stops <= 2
    && 1 <= d.seats <= 150
    && 0 <= d.airlineIndex < poolSize
    && 100 <= d.flightSuffix <= 999
    && 0 <= d.checkedBags <= 2
    && MinAmenities <= |d.amenityPicks| <= MaxAmenities
    && ValidSample(d.amenityPicks, |AmenityCatalog|)
  }

  /** What every generated offer satisfies. The duration text agrees with
      the time between the two timestamps. */
  ghost predicate WellFormedOffer(f: Flight)
  {
    var flown := Minutes(f.arrivalTime) - Minutes(f.departureTime);
    && MinBasePrice <= f.price <= 4 * MaxBasePrice
    && 0 <= f.stops <= 2
    && 1 <= f.availableSeats <= 150
    && f.currency == Currency
    && f.baggage.carryOn == CarryOnBags && 0 <= f.baggage.checked <= 2
    && MinAmenities <= |f.amenities| <= MaxAmenities
    && Distinct(f.amenities)
    && (forall a :: a in f.amenities ==> a in AmenityCatalog)
    && 0 <= f.departureTime.minuteOfDay < MinutesPerDay && f.departureTime.minuteOfDay % 15 == 0
    && 0 <= f.arrivalTime.minuteOfDay < MinutesPerDay
    && 2 * 60 <= flown <= 15 * 60 + 45 && flown % 15 == 0
    && f.duration == DurationText(flown / 60, flown % 60)
  }

  /** The offer built in iteration `i` of the loop, departing on `day`. */
  function MakeOffer(i: nat, d: Draw, pool: seq<string>, origin: string, destination: string, day: int): (f: Flight)
    requires ValidDraw(d, |pool|)
    ensures WellFormedOffer(f)
    ensures f.id == OfferId(i) && f.bookingUrl == BookingUrl(i)
    ensures f.airline == pool[d.airlineIndex] && f.origin == origin && f.destination == destination
    ensures f.cabinClass == d.cabin && f.stops == d.stops && f.availableSeats == d.seats
    ensures f.baggage.checked == d.checkedBags && f.amenities == Amenities(d.amenityPicks)
    ensures f.flightNumber == FlightNumber(f.airline, d.flightSuffix)
    ensures f.departureTime.day == day
    ensures f.departureTime.minuteOfDay == 60 * d.departureHour + d.departureMinute
    ensures Minutes(f.arrivalTime) - Minutes(f.departureTime) == 60 * d.durationHours + d.durationMinutes
    ensures f.price == CabinPrice(d.basePrice, d.cabin)
  {
    var airline := pool[d.airlineIndex];
    var start := 60 * d.departureHour + d.departureMinute;
    var flown := 60 * d.durationHours + d.durationMinutes;
    QuarterHoursSplit(d.departureHour, d.departureMinute);
    QuarterHoursSplit(d.durationHours, d.durationMinutes);
    var departure := Timestamp(day, start);
    var arrival := AddMinutes(departure, flown);
    CabinPriceRange(d.basePrice, d.cabin);
    Flight(
      OfferId(i), airline, FlightNumber(airline, d.flightSuffix), origin, destination,
      departure, arrival, DurationText(d.durationHours, d.durationMinutes),
      CabinPrice(d.basePrice, d.cabin), Currency, d.stops, d.cabin, d.seats,
      Baggage(CarryOnBags, d.checkedBags), Amenities(d.amenityPicks), BookingUrl(i))
  }

  // ---------------------------------------------------------------------------
  // The whole list
  // ---------------------------------------------------------------------------

  /** `flights.sort(key=lambda x: x["price"])` */
  function PriceKey(f: Flight): Key
  {
    Key(f.price, 0)
  }

  /** The draws the generator accepts: one per offer, 8 to 15 of them, each
      in range for the airline pool. */
  predicate ValidDraws(preferred: string, picks: seq<nat>, draws: seq<Draw>)
  {
    && (!IsBlank(preferred) ==> |picks| == PoolOthers && ValidSample(picks, |Unlike(Airlines, preferred)|))
    && MinOffers <= |draws| <= MaxOffers
    && forall i :: 0 <= i < |draws| ==> ValidDraw(draws[i], |AirlinePool(preferred, picks)|)
  }

  /** Offer `f` carries what draw `d` picked, on departure day `day`. */
  ghost predicate OfferFromDraw(f: Flight, d: Draw, pool: seq<string>, day: int)
    requires ValidDraw(d, |pool|)
  {
    && f.airline == pool[d.airlineIndex]
    && f.price == CabinPrice(d.basePrice, d.cabin)
    && f.cabinClass == d.cabin && f.stops == d.stops && f.availableSeats == d.seats
    && f.baggage.checked == d.checkedBags && f.amenities == Amenities(d.amenityPicks)
    && f.departureTime == Timestamp(day, 60 * d.departureHour + d.departureMinute)
    && Minutes(f.arrivalTime) - Minutes(f.departureTime) == 60 * d.durationHours + d.durationMinutes
  }

  /** The offers in loop order, before the sort. */
  function Unsorted(origin: string, destination: string, day: int, preferred: string, picks: seq<nat>, draws: seq<Draw>): (fs: seq<Flight>)
    requires ValidDraws(preferred, picks, draws)
    ensures |fs| == |draws|
    ensures forall i :: 0 <= i < |fs| ==> WellFormedOffer(fs[i]) && fs[i].id == OfferId(i)
    ensures forall i :: 0 <= i < |fs| ==> fs[i].airline in AirlinePool(preferred, picks)
    ensures forall i :: 0 <= i < |fs| ==> OfferFromDraw(fs[i], draws[i], AirlinePool(preferred, picks), day)
    ensures forall i :: 0 <= i < |fs| ==> fs[i].origin == origin && fs[i].destination == destination
  {
    var pool := AirlinePool(preferred, picks);
    seq(|draws|, i requires 0 <= i < |draws| => MakeOffer(i, draws[i], pool, origin, destination, day))
  }

  /** `generate_mock_flights`: 8 to 15 well-formed offers, ordered by price
      (ties in loop order), with pairwise different ids. */
  function GenerateMockFlights(origin: string, destination: string, day: int, preferred: string, picks: seq<nat>, draws: seq<Draw>): (r: seq<Flight>)
    requires ValidDraws(preferred, picks, draws)
    ensures MinOffers <= |r| <= MaxOffers
    ensures Sorted(r, PriceKey)
    ensures multiset(r) == multiset(Unsorted(origin, destination, day, preferred, picks, draws))
    ensures SameTies(Unsorted(origin, destination, day, preferred, picks, draws), r, PriceKey)
    ensures forall f :: f in r ==> WellFormedOffer(f) && f.origin == origin && f.destination == destination
    ensures forall f :: f in r ==> f.airline in AirlinePool(preferred, picks)
  {
    var fs := Unsorted(origin, destination, day, preferred, picks, draws);
    var r := SortBy(fs, PriceKey);
    forall f | f in r
      ensures f in fs
    {
      assert f in multiset(r);
    }
    r
  }

  /** Offer ids stay pairwise different after the sort. */
  lemma MockIdsDistinct(origin: string, destination: string, day: int, preferred: string, picks: seq<nat>, draws: seq<Draw>)
    requires ValidDraws(preferred, picks, draws)
    ensures Injective(GenerateMockFlights(origin, destination, day, preferred, picks, draws), (f: Flight) => f.id)
  {
    var fs := Unsorted(origin, destination, day, preferred, picks, draws);
    forall i, j | 0 <= i < j < |fs|
      ensures fs[i].id != fs[j].id
    {
      OfferIdInjective(i, j);
    }
    PermutationKeepsInjective(fs, GenerateMockFlights(origin, destination, day, preferred, picks, draws), (f: Flight) => f.id);
  }

  /** Every offer in the result is one the loop built, at some position. */
  lemma FromLoop(origin: string, destination: string, day: int, preferred: string, picks: seq<nat>, draws: seq<Draw>, f: Flight)
    returns (i: nat)
    requires ValidDraws(preferred, picks, draws)
    requires f in GenerateMockFlights(origin, destination, day, preferred, picks, draws)
    ensures i < |draws| && f == Unsorted(origin, destination, day, preferred, picks, draws)[i]
  {
    var fs := Unsorted(origin, destination, day, preferred, picks, draws);
    var r := GenerateMockFlights(origin, destination, day, preferred, picks, draws);
    i := PermutedMember(fs, r, f);
  }

  lemma PermutedMember<T>(a: seq<T>, b: seq<T>, x: T) returns (i: nat)
    requires multiset(a) == multiset(b) && x in b
    ensures i < |a| && a[i] == x
  {
    assert x in multiset(b);
    i :| 0 <= i < |a| && a[i] == x;
  }

  /** The ids are FL1000 up to FL{999 + n}, each with its own booking link,
      and the offer numbered i carries what draw i picked. */
  lemma MockIdsAreNumbered(origin: string, destination: string, day: int, preferred: string, picks: seq<nat>, draws: seq<Draw>)
    requires ValidDraws(preferred, picks, draws)
    ensures forall f :: f in GenerateMockFlights(origin, destination, day, preferred, picks, draws) ==>
              exists i :: && 0 <= i < |draws| && f.id == OfferId(i) && f.bookingUrl == BookingUrl(i)
                          && OfferFromDraw(f, draws[i], AirlinePool(preferred, picks), day)
  {
    var pool := AirlinePool(preferred, picks);
    forall f | f in GenerateMockFlights(origin, destination, day, preferred, picks, draws)
      ensures exists i :: && 0 <= i < |draws| && f.id == OfferId(i) && f.bookingUrl == BookingUrl(i)
                          && OfferFromDraw(f, draws[i], pool, day)
    {
      var i := FromLoop(origin, destination, day, preferred, picks, draws, f);
      assert f == MakeOffer(i, draws[i], pool, origin, destination, day);
    }
  }

  /** A preferred airline is only in the pool, not guaranteed in the list:
      when every draw picks one of the other airlines, no offer carries it. */
  lemma PreferredMayBeMissing(origin: string, destination: string, day: int, preferred: string, picks: seq<nat>, draws: seq<Draw>)
    requires ValidDraws(preferred, picks, draws) && !IsBlank(preferred)
    requires forall i :: 0 <= i < |draws| ==> draws[i].airlineIndex >= 1
    ensures forall f :: f in GenerateMockFlights(origin, destination, day, preferred, picks, draws) ==> f.airline != preferred
  {
    var pool := AirlinePool(preferred, picks);
    forall f | f in GenerateMockFlights(origin, destination, day, preferred, picks, draws)
      ensures f.airline != preferred
    {
      var i := FromLoop(origin, destination, day, preferred, picks, draws, f);
      assert f == MakeOffer(i, draws[i], pool, origin, destination, day);
      assert Lower(pool[draws[i].airlineIndex]) != Lower(preferred);
    }
  }

  // ---------------------------------------------------------------------------
  // Airport codes
  // ---------------------------------------------------------------------------

  const PopularDestinations: map<string, string> := map[
    "Paris" := "CDG", "New York" := "JFK", "London" := "LHR", "Tokyo" := "NRT",
    "Dubai" := "DXB", "Barcelona" := "BCN", "Rome" := "FCO", "Amsterdam" := "AMS",
    "Berlin" := "BER", "Istanbul" := "IST", "Tel Aviv" := "TLV", "Los Angeles" := "LAX",
    "Bangkok" := "BKK", "Singapore" := "SIN", "Sydney" := "SYD"]

  /** `get_airport_code`: the table's code for a known city, otherwise the
      upper-cased first three characters of the name. */
  function AirportCode(city: string): (code: string)
    ensures city in PopularDestinations ==> code == PopularDestinations[city]
    ensures city in PopularDestinations ==> |code| == 3 && forall k :: 0 <= k < 3 ==> 'A' <= code[k] <= 'Z'
    ensures city !in PopularDestinations ==>
              && |code| == Min(3, |city|)
              && forall k :: 0 <= k < |code| ==> code[k] == UpperChar(city[k])
  {
    if city in PopularDestinations then PopularDestinations[city]
    else Upper(city)[..Min(3, |city|)]
  }
}
