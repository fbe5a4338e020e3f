# Flight recommendation backend — a Dafny model

This project models the two backend pieces of a flight-search assistant.

- `backend/flight_analyzer.py` covers the recommendation step. The offers go to a language model, which ranks them. The model's text reply is cleaned of Markdown code fences and decoded as JSON. Each entry it names is matched back to the offer with that id. If anything on that path fails, a deterministic fallback takes over: the five best offers by (stops, price), each annotated with a rank, highlights and a French justification sentence.
- `backend/mock_data.py` covers the simulated search. It generates 8 to 15 offers between two cities and sorts them by price. It builds the airline pool the offers are drawn from, picks each offer's amenities, and maps city names to airport codes.

Modules:

- `Wrappers` defines `Option` and `Min`.
- `Text` models Python's string operations on `seq<char>`: `strip`, `in`, `split(sep)[0]` and `split(sep)[1]`, `str(n)` for naturals, ASCII `lower`/`upper` and `join`.
- `Sorting` is a stable insertion sort keyed by an integer pair compared as a Python tuple. It also holds the facts that a stable sort is unique, idempotent and a permutation.
- `Flights` holds the offer record and a minute-resolution timestamp.
- `Json` is a decoded JSON value.
- `Analyzer` models `flight_analyzer.py`.
- `MockData` models `mock_data.py`.

Three things outside the model become function parameters:

- The language-model call is `invoke: Request -> Option<string>`. `None` means the call raised.
- `json.loads` is `parse: string -> Option<Json>`. `None` means the text is not JSON.
- Every random draw of the generator is a parameter. The range it is drawn from is a precondition: `ValidDraw`, and `ValidSample` for `random.sample`.

Python exceptions on the model path become `None`, and `Analyze` routes every `None` to the fallback:

- An `AttributeError` from `.get` on a reply or entry that is not an object.
- A `TypeError` from slicing a `"recommendations"` value that is a number, a boolean or `null`. An object value fails as well, with a `KeyError` from Python 3.12 on and a `TypeError` before.
- An `AttributeError` from iterating a non-empty string value, whose one-character pieces have no `.get`. An empty string value yields no entries and succeeds.

Exceptions from the random generator cannot happen within the drawn ranges. `OthersSuffice` proves that `random.sample` always has enough airlines.

Two behaviours of the code are worth stating, because a reader might expect otherwise:

- **The "good value" band.** "Bon rapport qualité/prix" is given for 300 ≤ price < 500 only, so a direct offer at 550 gets just "Vol direct" (`Analyzer.FallbackScenario`).
- **The preferred airline.** The generator puts a requested airline first in the pool offers are drawn from (the comment at `backend/mock_data.py:44` says it is used "en priorité"). Nothing guarantees that any offer carries it (`MockData.PreferredMayBeMissing`).

A missing preferred airline (`None` in Python) behaves like the empty string in both files: `analyze_flights` tests it with `if airline`, and `generate_mock_flights` with `airline and airline.strip()`. The model takes it as a string, and `None` is `""`.

## Model

| member | source | states |
|---|---|---|
| Analyzer.Highlights | backend/flight_analyzer.py:169-176 | "Vol direct" present iff stops = 0; "Prix très compétitif" iff price < 300; "Bon rapport qualité/prix" iff 300 ≤ price < 500; at most two remarks, the direct one first |
| Analyzer.Reason | backend/flight_analyzer.py:180 | the sentence starts with "Recommandé pour: " followed by "Bon choix général" when there are no highlights, else the highlights joined by ", " |
| Analyzer.Annotated | backend/flight_analyzer.py:169-182 | the i-th record holds the i-th offer unchanged, with rank i + 1, highlights `Highlights` of that offer and reason `Reason` of those highlights |
| Analyzer.TopOffers | backend/flight_analyzer.py:161-166 | min(5, n) offers, sorted by (stops, price), drawn from the input without duplication beyond its own |
| Analyzer.Fallback | backend/flight_analyzer.py:154-189 | success, total = n, the fallback note present, min(5, n) offers from the input in (stops, price) order, each annotated by its position |
| Analyzer.FallbackIsSortedPrefix | backend/flight_analyzer.py:161-166 | the chosen offers are exactly the first min(5, n) of the stable sort by (stops, price) |
| Analyzer.FallbackRanks | backend/flight_analyzer.py:169-182 | ranks are 1..n in list order, highlights and reason follow the price and stop thresholds |
| Analyzer.FallbackKeepsTheBest | backend/flight_analyzer.py:161-166 | any offer strictly better in (stops, price) than a chosen one is chosen, every copy of it |
| Analyzer.FallbackKeepsTieOrder | backend/flight_analyzer.py:161-164 | among offers with equal (stops, price) the chosen ones are the earliest in input order (the sort is stable) |
| Analyzer.FallbackIdempotent | backend/flight_analyzer.py:154-189 | running the fallback on its own chosen offers yields the same ranked list |
| Analyzer.FallbackScenario | backend/flight_analyzer.py:169-176 | offers (0 stops, 280), (0 stops, 550), (1 stop, 200) rank in that order with remarks [direct, competitive], [direct], [competitive] |
| Analyzer.FallbackOfTop | backend/flight_analyzer.py:161-182 | a sorted list of at most five offers is ranked in the order given |
| Analyzer.StripFences | backend/flight_analyzer.py:109-113 | when the stripped reply holds a fence the payload holds none; otherwise the payload is the stripped reply |
| Analyzer.PlainFencePayload | backend/flight_analyzer.py:112-113 | with only "```" fences, the payload is the text from the first fence to the next one or the end |
| Analyzer.JsonFencePayload | backend/flight_analyzer.py:110-111 | with a "```json" fence, the payload is the text from it to the next "```" or the end, when that fence is not followed by a backtick |
| Analyzer.JsonFenceOverlap | backend/flight_analyzer.py:111 | on "```json````json{}" the two splits give a lone backtick, not the empty text before the next fence |
| Analyzer.FirstWithId | backend/flight_analyzer.py:122-125 | the position returned is the first offer whose id equals the entry's flight_id; none when no offer has it |
| Analyzer.EnrichOne | backend/flight_analyzer.py:120-135 | an entry yields a record iff some offer carries its flight_id; the record holds the first such offer, with the entry's rank and reason (missing ones absent) and its highlights (missing ones `[]`) |
| Analyzer.EnrichFrom | backend/flight_analyzer.py:118-135 | the loop succeeds iff every entry is an object; it yields at most one record per entry, each an input offer with the model's analysis |
| Analyzer.KnownFrom | backend/flight_analyzer.py:127 | the strictly increasing positions of exactly the entries that name a known offer |
| Analyzer.EnrichKeepsModelOrder | backend/flight_analyzer.py:118-135 | the output is, in the model's order, one merged record per entry naming a known offer and nothing else |
| Analyzer.Enrich | backend/flight_analyzer.py:119 | a reply that is not an object fails; a success has at most five records, all input offers |
| Analyzer.EnrichValue | backend/flight_analyzer.py:119 | success iff the value is the empty string or a list whose first five entries are all objects |
| Analyzer.EnrichMissingField | backend/flight_analyzer.py:119 | a reply without "recommendations" is a success with no records |
| Analyzer.EnrichTruncatesBeforeDropping | backend/flight_analyzer.py:119-127 | for any reply object whose "recommendations" is a list, one unknown id among the first five entries leaves fewer than five records, whatever follows |
| Analyzer.PositionsMissOne | backend/flight_analyzer.py:119-127 | strictly increasing positions below n that miss one of them are fewer than n |
| Analyzer.BuildRequest | backend/flight_analyzer.py:98-104 | an empty preferred airline is sent as "Aucune préférence", any other as given; origin, destination, date and offers pass through unchanged |
| Analyzer.ModelAnswer | backend/flight_analyzer.py:98-141 | an answer exists iff the call returns, the cleaned text decodes, and the merge does not raise; it has at most five records, all input offers |
| Analyzer.Analyze | backend/flight_analyzer.py:93-151 | always success with total = n and at most five input offers; the fallback note appears exactly when the model path failed |
| Analyzer.AnalyzeFallsBack | backend/flight_analyzer.py:143-151 | any failure of the call, the decoding or the merge returns exactly the fallback report |
| Analyzer.AnalyzeUsesModel | backend/flight_analyzer.py:137-141 | otherwise the merged records are returned, without a note |
| Flights.AddMinutes | backend/mock_data.py:77-80 | adding d minutes moves the timestamp by exactly d minutes and keeps the minute of day in [0, 1440) |
| Text.Strip | backend/flight_analyzer.py:109 | the result is the input minus leading and trailing whitespace, and neither end of it is whitespace |
| Text.BlankIsAllSpace | backend/mock_data.py:45 | a string strips to nothing iff it is all whitespace |
| Text.SplitHead | backend/flight_analyzer.py:111 | `split(sep)[0]` is the longest prefix before the first separator, and holds no separator |
| Text.SplitHeadIdempotent | backend/flight_analyzer.py:113 | splitting the first piece again changes nothing |
| Text.ParseNatToString | backend/mock_data.py:110 | `str(n)` read back as decimal digits is n |
| Text.NatToStringInjective | backend/mock_data.py:110 | different numbers print differently |
| Text.DigitsPrefixCancel | backend/mock_data.py:117 | a digit run followed by a non-digit is determined by the combined text |
| Sorting.SortBy | backend/flight_analyzer.py:161-164 | the result is a permutation of the input, sorted by the key, and equal keys keep their input order |
| Sorting.SortedTiesUnique | backend/flight_analyzer.py:161-164 | two sorted sequences agreeing on every class of equal keys are the same: a stable sort has one answer |
| Sorting.SortSortedIsIdentity | backend/mock_data.py:134 | sorting an already sorted list changes nothing |
| Sorting.SortIdempotent | backend/mock_data.py:134 | sorting twice is sorting once |
| Sorting.PermutationKeepsInjective | backend/mock_data.py:134 | reordering a list keeps pairwise different ids different |
| MockData.Sample | backend/mock_data.py:155 | k picks, each from the population, pairwise different when the population is |
| MockData.Unlike | backend/mock_data.py:47 | keeps exactly the roster airlines whose lower-cased name differs from the preferred one's |
| MockData.UnlikeDropsAtMostOne | backend/mock_data.py:47 | among names different ignoring case, the filter removes at most one |
| MockData.AirlinesDistinct | backend/mock_data.py:31-42 | no two roster airlines differ only in case |
| MockData.OthersSuffice | backend/mock_data.py:46-49 | at least four other airlines are left, so the sample never raises |
| MockData.AirlinePool | backend/mock_data.py:44-51 | blank preference: the whole roster; otherwise the preferred name first, then four roster airlines none equal to it ignoring case |
| MockData.PoolOthersDistinct | backend/mock_data.py:46-49 | the four sampled airlines are pairwise different |
| MockData.UnlikeKeepsDistinct | backend/mock_data.py:47 | filtering keeps names that differ ignoring case apart |
| MockData.CabinPrice | backend/mock_data.py:94-100 | Economy ×1, Premium Economy ⌊1.5 p⌋, Business ⌊2.5 p⌋, First ×4; never below the base, never above four times it |
| MockData.CabinPriceMonotone | backend/mock_data.py:94-100 | a better cabin or a higher base never costs less |
| MockData.CabinPriceRange | backend/mock_data.py:83 | every final price lies in [150, 4800] |
| MockData.Amenities | backend/mock_data.py:139-155 | 3 to 7 pairwise different items of the catalog |
| MockData.CatalogDistinct | backend/mock_data.py:141-151 | the nine catalog items are pairwise different |
| MockData.OfferIdInjective | backend/mock_data.py:110 | "FL{1000 + i}" equals "FL{1000 + j}" iff i = j |
| MockData.BookingUrlMatchesId | backend/mock_data.py:128 | the booking link ends with the number of the offer's id |
| MockData.DurationTextInjective | backend/mock_data.py:117 | "{h}h {m}m" determines h and m |
| MockData.FlightNumber | backend/mock_data.py:112 | the upper-cased first two letters of the airline (fewer for a shorter name) followed by the drawn number |
| MockData.QuarterHoursSplit | backend/mock_data.py:73-74 | h hours and a quarter-hour m make 60h + m minutes, a multiple of 15, splitting back into h and m |
| MockData.MakeOffer | backend/mock_data.py:63-131 | each offer is well formed (price, stops, seats, baggage, amenities, times) and carries its draw: the drawn airline, cabin, stops, seats, bags and amenities, the cabin-adjusted drawn price, the drawn departure; its arrival is 60h + m minutes after departure and its duration text says so |
| MockData.Unsorted | backend/mock_data.py:63-131 | one well-formed offer per draw, offer i numbered i and built from draw i (price, cabin, stops, seats, bags, amenities, airline, times) |
| MockData.GenerateMockFlights | backend/mock_data.py:11-136 | 8 to 15 well-formed offers, sorted by price, a stable permutation of the loop's offers, airlines from the pool |
| MockData.MockIdsDistinct | backend/mock_data.py:134 | the offer ids stay pairwise different after the sort |
| MockData.MockIdsAreNumbered | backend/mock_data.py:109-131 | every returned offer is FL{1000 + i} for a loop position i, with the booking link of the same i, and carries what draw i picked (cabin-adjusted price, cabin, stops, seats, airline, times) |
| MockData.PreferredMayBeMissing | backend/mock_data.py:103 | when every draw picks a non-preferred airline of the pool, no offer carries the preferred one |
| MockData.AirportCode | backend/mock_data.py:178-180 | a listed city gets its three-capital code; any other name its first min(3, length) characters upper-cased |

## Left out

- The prompt template, `json.dumps` of the offers and the language-model client are not modelled. The call is the `invoke` parameter, and its text output is whatever that parameter returns.
- `print` of errors is not modelled, because it has no effect on the result.
- The draw probabilities are not modelled, only their ranges. Stops are weighted 50/35/15, Economy is drawn half the time, and the draw count and amenity count are uniform.
- Date handling is not modelled. `strptime` of the date, the `now() + 30 days` substitute for an unparsable date, and `strftime` are out of scope. The departure day is the `day` parameter and times are (day, minute of day) pairs. On the substitute path the source also keeps the seconds of `now()`, which the minute-resolution format drops.
- JSON numbers are integers. Floats in the model's reply are not modelled, because the core only compares and copies them.
- MockData.CabinPrice: `int(p * 1.5)` and `int(p * 2.5)` are modelled as exact floors. The float products are exact for the drawn bases (150 to 1200), so nothing is lost there.
- Text.Lower: follows ASCII case mapping only, not Python's full Unicode mapping, and keeps the length. Text.Upper does the same.
- MockData.Unlike: inherits the ASCII-only `Lower`. Python's `"\u212aLM".lower()` (Kelvin sign) is "klm", so Python filters that name out against "KLM", and the model keeps it. MockData.AirlinePool inherits this through `Unlike`.
- MockData.FlightNumber: inherits the ASCII-only `Upper`. Python's `"ßa".upper()` is "SSA", so for such names the stated length and characters differ from Python's.
- MockData.AirportCode: inherits the ASCII-only `Upper` for unlisted city names.
- Analyzer.Fallback: does not model that the source writes `ai_analysis` into the caller's own offer dicts. Those offers come back annotated and stay shared with the caller. The model returns new records instead.
- Analyzer.JsonFencePayload: requires that no backtick directly follows the closing fence. Without that, the source's two splits can disagree with "text up to the next fence", and Analyzer.JsonFenceOverlap shows the input where they do.
- Analyzer.EnrichValue: keeps only the outcome of a bad `"recommendations"` value, a failure that leads to the fallback, not the exception kind. A number, boolean or `null` gives a `TypeError`. An object gives a `KeyError` (Python 3.12 on). A non-empty string gives an `AttributeError` on its characters.
- The web server, WebSocket gateway, progress events and simulated delays are not part of this model.
