/** The recommendation engine of `backend/flight_analyzer.py`: the heuristic
    fallback ranker, the clean-up of the ranking model's text reply, the
    matching of the model's entries back to offers, and the routing of every
    failure to the fallback. The model call and the JSON decoder are
    parameters: `invoke` returns `None` when the call raises, `parse` returns
    `None` when the text is not JSON. */
module Analyzer {
  import opened Wrappers
  import opened Text
  import opened Sorting
  import opened Flights
  import opened Json

  const MaxRecommendations := 5
  const CompetitivePriceBelow := 300
  const GoodValuePriceBelow := 500

  const DirectHighlight := "Vol direct"
  const CompetitiveHighlight := "Prix très compétitif"
  const GoodValueHighlight := "Bon rapport qualité/prix"
  const ReasonPrefix := "Recommandé pour: "
  const GeneralChoice := "Bon choix général"
  const HighlightSeparator := ", "
  const FallbackNote := "Recommandations basées sur le prix et les escales (mode de secours)"
  const NoPreference := "Aucune préférence"

  const JsonFence := "```json"
  const Fence := "```"

  const RecommendationsField := "recommendations"
  const FlightIdField := "flight_id"
  const RankField := "rank"
  const ReasonField := "reason"
  const HighlightsField := "highlights"

  /** The `ai_analysis` attached to a recommended offer: computed by the
      fallback, or copied from the model's entry (whatever JSON it holds;
      a missing `rank` or `reason` is `None`, missing highlights are `[]`). */
  datatype Analysis =
    | Heuristic(rank: nat, reason: string, highlights: seq<string>)
    | FromModel(modelRank: Option<Json>, modelReason: Option<Json>, modelHighlights: Json)

  /** An input offer plus its `ai_analysis`. */
  datatype Recommendation = Recommendation(offer: Flight, analysis: Analysis)

  /** The dict `analyze_flights` returns; `note` is present on the fallback path only. */
  datatype Report = Report(
    success: bool,
    recommendations: seq<Recommendation>,
    totalFlightsAnalyzed: nat,
    note: Option<string>)

  /** What the prompt is filled with. */
  datatype Request = Request(
    origin: string,
    destination: string,
    date: string,
    airline: string,
    flights: seq<Flight>)

  function Offers(recs: seq<Recommendation>): (fs: seq<Flight>)
    ensures |fs| == |recs|
    ensures forall i :: 0 <= i < |recs| ==> fs[i] == recs[i].offer
  {
    seq(|recs|, i requires 0 <= i < |recs| => recs[i].offer)
  }

  // ---------------------------------------------------------------------------
  // Fallback ranking
  // ---------------------------------------------------------------------------

  /** The fallback's sort key: the tuple `(stops, price)`. */
  function StopsThenPrice(f: Flight): Key
  {
    Key(f.stops, f.price)
  }

  /** The highlight list of one offer: direct first, then at most one price remark. */
  function Highlights(f: Flight): (h: seq<string>)
    ensures DirectHighlight in h <==> f.stops == 0
    ensures CompetitiveHighlight in h <==> f.price < CompetitivePriceBelow
    ensures GoodValueHighlight in h <==> CompetitivePriceBelow <= f.price < GoodValuePriceBelow
    ensures forall x :: x in h ==> x == DirectHighlight || x == CompetitiveHighlight || x == GoodValueHighlight
    ensures |h| <= 2
    ensures |h| == 2 ==> h[0] == DirectHighlight && h[1] != DirectHighlight
  {
    (if f.stops == 0 then [DirectHighlight] else [])
    + (if f.price < CompetitivePriceBelow then [CompetitiveHighlight]
       else if f.price < GoodValuePriceBelow then [GoodValueHighlight]
       else [])
  }

  /** The justification sentence built from a highlight list. */
  function Reason(h: seq<string>): (r: string)
    ensures |r| >= |ReasonPrefix| && r[..|ReasonPrefix|] == ReasonPrefix
    ensures h == [] ==> r == ReasonPrefix + GeneralChoice
    ensures |h| == 1 ==> r == ReasonPrefix + h[0]
    ensures |h| == 2 ==> r == ReasonPrefix + h[0] + HighlightSeparator + h[1]
  {
    var r := ReasonPrefix + (if h == [] then GeneralChoice else Join(h, HighlightSeparator));
    assert r[..|ReasonPrefix|] == ReasonPrefix;
    r
  }

  /** The offer at position `i` of the fallback list, with its analysis. */
  function Annotate(i: nat, f: Flight): Recommendation
  {
    var h := Highlights(f);
    Recommendation(f, Heuristic(i + 1, Reason(h), h))
  }

  /** The offers in the given order, each ranked by its position. */
  function Annotated(top: seq<Flight>): (recs: seq<Recommendation>)
    ensures |recs| == |top| && Offers(recs) == top
    ensures forall i :: 0 <= i < |top| ==>
              && recs[i].analysis.Heuristic?
              && recs[i].analysis.rank == i + 1
              && recs[i].analysis.highlights == Highlights(top[i])
              && recs[i].analysis.reason == Reason(Highlights(top[i]))
  {
    seq(|top|, i requires 0 <= i < |top| => Annotate(i, top[i]))
  }

  /** `sorted(flights, key=lambda x: (x["stops"], x["price"]))[:5]` */
  function TopOffers(flights: seq<Flight>): (top: seq<Flight>)
    ensures |top| == Min(MaxRecommendations, |flights|)
    ensures Sorted(top, StopsThenPrice)
    ensures multiset(top) <= multiset(flights)
  {
    var sorted := SortBy(flights, StopsThenPrice);
    var n := Min(MaxRecommendations, |sorted|);
    assert sorted == sorted[..n] + sorted[n..];
    assert multiset(sorted) == multiset(sorted[..n]) + multiset(sorted[n..]);
    sorted[..n]
  }

  /** `_fallback_recommendations`: the first five offers by `(stops, price)`,
      stable, each ranked by its position. */
  function Fallback(flights: seq<Flight>): (r: Report)
    ensures r.success && r.totalFlightsAnalyzed == |flights| && r.note == Some(FallbackNote)
    ensures |r.recommendations| == Min(MaxRecommendations, |flights|)
    ensures Sorted(Offers(r.recommendations), StopsThenPrice)
    ensures multiset(Offers(r.recommendations)) <= multiset(flights)
    ensures forall x :: x in r.recommendations ==> x.offer in flights
    ensures forall i :: 0 <= i < |r.recommendations| ==>
              r.recommendations[i] == Annotate(i, r.recommendations[i].offer)
  {
    var top := TopOffers(flights);
    var recs := Annotated(top);
    forall x | x in recs
      ensures x.offer in flights
    {
      var i :| 0 <= i < |recs| && recs[i] == x;
      assert top[i] in multiset(top);
    }
    Report(true, recs, |flights|, Some(FallbackNote))
  }

  /** The fallback's chosen offers, before annotation: the sorted prefix. */
  lemma FallbackIsSortedPrefix(flights: seq<Flight>)
    ensures Offers(Fallback(flights).recommendations)
         == SortBy(flights, StopsThenPrice)[..Min(MaxRecommendations, |flights|)]
  {
  }

  /** Ranks are 1, 2, ..., n in list order, so unique and contiguous, and
      the highlights and reason follow the thresholds. */
  lemma FallbackRanks(flights: seq<Flight>)
    ensures var recs := Fallback(flights).recommendations;
            forall i :: 0 <= i < |recs| ==>
              && recs[i].analysis.Heuristic?
              && recs[i].analysis.rank == i + 1
              && recs[i].analysis.highlights == Highlights(recs[i].offer)
              && recs[i].analysis.reason == Reason(Highlights(recs[i].offer))
  {
  }

  /** In a sorted sequence, nothing after position `n` is strictly smaller
      than something before it; so every copy of such a smaller element lies
      in the first `n`. */
  lemma PrefixKeepsTheBest(sorted: seq<Flight>, n: nat, c: Flight, f: Flight)
    requires Sorted(sorted, StopsThenPrice) && n <= |sorted|
    requires c in sorted[..n] && KeyLt(StopsThenPrice(f), StopsThenPrice(c))
    ensures multiset(sorted[..n])[f] == multiset(sorted)[f]
  {
    var top, rest := sorted[..n], sorted[n..];
    assert sorted == top + rest;
    var p :| 0 <= p < n && top[p] == c;
    forall q | 0 <= q < |rest|
      ensures rest[q] != f
    {
      assert !KeyLt(StopsThenPrice(sorted[n + q]), StopsThenPrice(sorted[p]));
    }
    assert multiset(sorted) == multiset(top) + multiset(rest);
  }

  /** No offer left out is better than one chosen: every input offer
      strictly smaller in `(stops, price)` than a chosen one is chosen, with
      all of its copies. */
  lemma FallbackKeepsTheBest(flights: seq<Flight>, c: Flight, f: Flight)
    requires c in Offers(Fallback(flights).recommendations)
    requires KeyLt(StopsThenPrice(f), StopsThenPrice(c))
    ensures multiset(Offers(Fallback(flights).recommendations))[f] == multiset(flights)[f]
  {
    FallbackIsSortedPrefix(flights);
    PrefixKeepsTheBest(SortBy(flights, StopsThenPrice), Min(MaxRecommendations, |flights|), c, f);
  }

  lemma {:induction false} FilterOfPrefix<T>(s: seq<T>, key: T -> Key, k: Key, n: nat)
    requires n <= |s|
    ensures var a, b := Filter(s[..n], key, k), Filter(s, key, k);
            |a| <= |b| && a == b[..|a|]
  {
    if n > 0 {
      assert s[..n][1..] == s[1..][..n - 1];
      FilterOfPrefix(s[1..], key, k, n - 1);
    }
  }

  /** Offers tied on `(stops, price)` keep their input order: for every key,
      the chosen offers with that key are the first ones of the input with it. */
  lemma FallbackKeepsTieOrder(flights: seq<Flight>, k: Key)
    ensures var chosen, all := Filter(Offers(Fallback(flights).recommendations), StopsThenPrice, k),
                              Filter(flights, StopsThenPrice, k);
            |chosen| <= |all| && chosen == all[..|chosen|]
  {
    var sorted := SortBy(flights, StopsThenPrice);
    FallbackIsSortedPrefix(flights);
    FilterOfPrefix(sorted, StopsThenPrice, k, Min(MaxRecommendations, |flights|));
  }

  /** Re-ranking the fallback's own choice gives the same list back. */
  lemma FallbackIdempotent(flights: seq<Flight>)
    ensures var recs := Fallback(flights).recommendations;
            Fallback(Offers(recs)).recommendations == recs
  {
    var top := TopOffers(flights);
    var recs := Fallback(flights).recommendations;
    assert recs == Annotated(top);
    assert Offers(recs) == top;
    TopOffersOfTop(top);
    assert Fallback(top).recommendations == Annotated(TopOffers(top));
  }

  /** Three offers, two direct ones at 280 and 550 euros and a one-stop one
      at 200: the direct ones come first, cheaper first; the 550-euro offer
      gets no price remark (500 and up is not "good value"), and the one-stop
      offer is still flagged for its price. */
  lemma FallbackScenario(a: Flight, b: Flight, c: Flight)
    requires a.stops == 0 && a.price == 280
    requires b.stops == 0 && b.price == 550
    requires c.stops == 1 && c.price == 200
    ensures var recs := Fallback([a, b, c]).recommendations;
            && Offers(recs) == [a, b, c]
            && recs[0].analysis.highlights == [DirectHighlight, CompetitiveHighlight]
            && recs[1].analysis.highlights == [DirectHighlight]
            && recs[2].analysis.highlights == [CompetitiveHighlight]
  {
    assert Highlights(a) == [DirectHighlight, CompetitiveHighlight];
    assert Highlights(b) == [DirectHighlight];
    assert Highlights(c) == [CompetitiveHighlight];
    var top := [a, b, c];
    assert Sorted(top, StopsThenPrice);
    FallbackOfTop(top);
  }

  /** A sorted list of at most five offers is ranked as it stands. */
  lemma FallbackOfTop(top: seq<Flight>)
    requires Sorted(top, StopsThenPrice) && |top| <= MaxRecommendations
    ensures Fallback(top).recommendations == Annotated(top)
  {
    TopOffersOfTop(top);
  }

  /** A sorted list of at most five offers is its own top five. */
  lemma TopOffersOfTop(top: seq<Flight>)
    requires Sorted(top, StopsThenPrice) && |top| <= MaxRecommendations
    ensures TopOffers(top) == top
  {
    SortSortedIsIdentity(top, StopsThenPrice);
    assert SortBy(top, StopsThenPrice)[..|top|] == top;
  }

  // ---------------------------------------------------------------------------
  // Cleaning the model's reply
  // ---------------------------------------------------------------------------

  /** The JSON payload cut out of the model's reply: the text after the first
      "```json" fence, or else after the first "```" fence, up to the next
      fence; the whole stripped reply when it holds no fence. */
  function StripFences(response: string): (payload: string)
    ensures Contains(Strip(response), Fence) ==> !Contains(payload, Fence)
    ensures !Contains(Strip(response), Fence) ==> payload == Strip(response)
  {
    var t := Strip(response);
    ContainsJsonFence(t);
    if Contains(t, JsonFence) then SplitHead(SplitSecond(t, JsonFence), Fence)
    else if Contains(t, Fence) then SplitHead(SplitSecond(t, Fence), Fence)
    else t
  }

  /** Every "```json" starts with a "```". */
  lemma FenceInJsonFence(t: string, i: int)
    requires OccursAt(t, JsonFence, i)
    ensures OccursAt(t, Fence, i)
  {
    OccursPrefixOfPattern(t, JsonFence, 3, i);
    assert JsonFence[..3] == Fence;
  }

  lemma ContainsJsonFence(t: string)
    ensures Contains(t, JsonFence) ==> Contains(t, Fence)
  {
    if Contains(t, JsonFence) {
      FenceInJsonFence(t, Find(t, JsonFence).value);
    }
  }

  /** With a plain fence only, the payload is exactly the text between the
      first and the second "```" (or the end of the reply). */
  lemma PlainFencePayload(response: string)
    requires !Contains(Strip(response), JsonFence) && Contains(Strip(response), Fence)
    ensures StripFences(response) == SplitHead(After(Strip(response), Fence), Fence)
  {
    SplitHeadIdempotent(After(Strip(response), Fence), Fence);
  }

  /** With a "```json" fence, the payload is the text between it and the next
      "```" (or the end of the reply), provided that closing fence is not
      directly followed by another backtick. */
  lemma JsonFencePayload(response: string)
    requires Contains(Strip(response), JsonFence)
    requires var rest := After(Strip(response), JsonFence);
             var q := |SplitHead(rest, Fence)|;
             q + 3 < |rest| ==> rest[q + 3] != '`'
    ensures StripFences(response) == SplitHead(After(Strip(response), JsonFence), Fence)
  {
    var rest := After(Strip(response), JsonFence);
    var close := SplitHead(rest, Fence);
    var q := |close|;
    var cut := SplitHead(rest, JsonFence);
    assert StripFences(response) == SplitHead(cut, Fence);
    ContainsJsonFence(rest);
    if Contains(rest, Fence) {
      var c := |cut|;
      if Contains(rest, JsonFence) {
        ClosingJsonFence(rest, c, q);
      }
      if c <= q {
        SplitHeadOfShortPrefix(rest, Fence, c);
      } else {
        SplitHeadOfLongPrefix(rest, Fence, c);
      }
    }
  }

  /** A "```json" at `c`, no "```" before `q`, and none overlapping the
      "```" at `q` unless a backtick follows it: `c == q` or `c >= q + 3`. */
  lemma ClosingJsonFence(rest: string, c: nat, q: nat)
    requires OccursAt(rest, JsonFence, c) && OccursAt(rest, Fence, q)
    requires forall j :: 0 <= j < q ==> !OccursAt(rest, Fence, j)
    requires q + 3 < |rest| ==> rest[q + 3] != '`'
    ensures c == q || c >= q + 3
  {
    FenceInJsonFence(rest, c);
  }

  /** On "```json````json{}" the payload is a lone backtick, where the text
      up to the next "```" is empty: the second "```json" found by the first
      split starts inside the closing fence. */
  lemma JsonFenceOverlap()
    ensures StripFences("```json````json{}") == "`"
  {
    var t := "```json````json{}";
    assert SkipSpace(t, 0) == 0;
    assert SkipSpaceBack(t, 0, |t|) == |t|;
    assert Strip(t) == t;
    assert OccursAt(t, JsonFence, 0);
    assert Find(t, JsonFence) == Some(0);
    var rest := t[7..];
    assert rest == "````json{}";
    assert rest[0..7][3] != JsonFence[3];
    assert OccursAt(rest, JsonFence, 1);
    assert Find(rest, JsonFence) == Some(1);
    assert SplitHead(rest, JsonFence) == "`";
    assert !Contains("`", Fence);
  }

  // ---------------------------------------------------------------------------
  // Matching the model's entries back to offers
  // ---------------------------------------------------------------------------

  /** `next((f for f in flights if f["id"] == flight_id), None)`, as a position. */
  function FirstWithId(flights: seq<Flight>, id: Option<Json>, from: nat): (r: Option<nat>)
    requires from <= |flights|
    ensures r.Some? ==> from <= r.value < |flights| && id == Some(JString(flights[r.value].id))
    ensures r.Some? ==> forall j :: from <= j < r.value ==> id != Some(JString(flights[j].id))
    ensures r.None? ==> forall j :: from <= j < |flights| ==> id != Some(JString(flights[j].id))
    decreases |flights| - from
  {
    if from == |flights| then None
    else if id == Some(JString(flights[from].id)) then Some(from)
    else FirstWithId(flights, id, from + 1)
  }

  /** One model entry merged with the first offer carrying its id, or
      `None` when no offer has that id. */
  function EnrichOne(flights: seq<Flight>, entry: map<string, Json>): (r: Option<Recommendation>)
    ensures r.Some? ==> r.value.offer in flights
    ensures r.Some? <==> exists i :: 0 <= i < |flights| && Get(entry, FlightIdField) == Some(JString(flights[i].id))
    ensures r.Some? ==> exists i :: && 0 <= i < |flights| && r.value.offer == flights[i]
                                    && Get(entry, FlightIdField) == Some(JString(flights[i].id))
                                    && forall j :: 0 <= j < i ==> Get(entry, FlightIdField) != Some(JString(flights[j].id))
    ensures r.Some? ==> r.value.analysis == FromModel(
              Get(entry, RankField), Get(entry, ReasonField), Get(entry, HighlightsField).GetOr(JArray([])))
  {
    match FirstWithId(flights, Get(entry, FlightIdField), 0)
    case None => None
    case Some(i) =>
      Some(Recommendation(flights[i], FromModel(
        Get(entry, RankField),
        Get(entry, ReasonField),
        Get(entry, HighlightsField).GetOr(JArray([])))))
  }

  /** An entry that the loop keeps: an object naming a known offer. */
  predicate Known(flights: seq<Flight>, e: Json)
  {
    e.JObject? && EnrichOne(flights, e.fields).Some?
  }

  /** The loop over the model's entries from position `from` on. `None`
      stands for the `AttributeError` a non-object entry raises. */
  function EnrichFrom(flights: seq<Flight>, entries: seq<Json>, from: nat): (r: Option<seq<Recommendation>>)
    requires from <= |entries|
    ensures r.Some? <==> forall i :: from <= i < |entries| ==> entries[i].JObject?
    ensures r.Some? ==> |r.value| <= |entries| - from
    ensures r.Some? ==> forall x :: x in r.value ==> x.offer in flights && x.analysis.FromModel?
    decreases |entries| - from
  {
    if from == |entries| then Some([])
    else if !entries[from].JObject? then None
    else
      var rest := EnrichFrom(flights, entries, from + 1);
      if rest.None? then None
      else match EnrichOne(flights, entries[from].fields)
        case None => rest
        case Some(x) => Some([x] + rest.value)
  }

  /** The positions, from `from` on, of the entries the loop keeps. */
  function KnownFrom(flights: seq<Flight>, entries: seq<Json>, from: nat): (pos: seq<nat>)
    requires from <= |entries|
    ensures forall k :: 0 <= k < |pos| ==> from <= pos[k] < |entries| && Known(flights, entries[pos[k]])
    ensures forall k, l :: 0 <= k < l < |pos| ==> pos[k] < pos[l]
    ensures forall i :: from <= i < |entries| && Known(flights, entries[i]) ==> i in pos
    decreases |entries| - from
  {
    if from == |entries| then []
    else if Known(flights, entries[from]) then [from] + KnownFrom(flights, entries, from + 1)
    else KnownFrom(flights, entries, from + 1)
  }

  /** When no entry raises, the output lists, in the model's order, one
      merged record per entry that names a known offer, and nothing else. */
  lemma {:induction false} EnrichKeepsModelOrder(flights: seq<Flight>, entries: seq<Json>, from: nat)
    requires from <= |entries|
    requires forall i :: from <= i < |entries| ==> entries[i].JObject?
    ensures var out, pos := EnrichFrom(flights, entries, from).value, KnownFrom(flights, entries, from);
            && |out| == |pos|
            && forall k :: 0 <= k < |pos| ==> out[k] == EnrichOne(flights, entries[pos[k]].fields).value
    decreases |entries| - from
  {
    if from < |entries| {
      EnrichKeepsModelOrder(flights, entries, from + 1);
      EnrichFromStep(flights, entries, from);
      var rest, tail := EnrichFrom(flights, entries, from + 1).value, KnownFrom(flights, entries, from + 1);
      var out, pos := EnrichFrom(flights, entries, from).value, KnownFrom(flights, entries, from);
      if Known(flights, entries[from]) {
        assert pos == [from] + tail;
        forall k | 0 <= k < |pos|
          ensures out[k] == EnrichOne(flights, entries[pos[k]].fields).value
        {
          if k > 0 {
            assert out[k] == rest[k - 1] && pos[k] == tail[k - 1];
          }
        }
      } else {
        assert pos == tail;
      }
    }
  }

  /** One step of the loop over entries that are all objects. */
  lemma EnrichFromStep(flights: seq<Flight>, entries: seq<Json>, from: nat)
    requires from < |entries|
    requires forall i :: from <= i < |entries| ==> entries[i].JObject?
    ensures var rest := EnrichFrom(flights, entries, from + 1).value;
            EnrichFrom(flights, entries, from).value
              == if Known(flights, entries[from])
                 then [EnrichOne(flights, entries[from].fields).value] + rest
                 else rest
  {
  }

  /** The handling of the decoded reply: `None` when Python would raise
      (the reply is not an object, its "recommendations" value cannot be
      sliced, or an entry among the first five is not an object). */
  function Enrich(flights: seq<Flight>, analysis: Json): (r: Option<seq<Recommendation>>)
    ensures r.Some? ==> |r.value| <= MaxRecommendations
    ensures r.Some? ==> forall x :: x in r.value ==> x.offer in flights && x.analysis.FromModel?
    ensures !analysis.JObject? ==> r.None?
  {
    if !analysis.JObject? then None
    else EnrichValue(flights, Get(analysis.fields, RecommendationsField).GetOr(JArray([])))
  }

  /** `for rec in value[:5]: ...` for each kind of JSON value. Slicing
      fails on everything but lists and strings; iterating a non-empty
      string yields one-character strings, which have no `.get`. */
  function EnrichValue(flights: seq<Flight>, value: Json): (r: Option<seq<Recommendation>>)
    ensures r.Some? ==> |r.value| <= MaxRecommendations
    ensures r.Some? ==> forall x :: x in r.value ==> x.offer in flights && x.analysis.FromModel?
    ensures r.Some? <==> value == JString([]) || (value.JArray? && forall i :: 0 <= i < Min(MaxRecommendations, |value.items|) ==> value.items[i].JObject?)
  {
    match value
    case JArray(items) => EnrichFrom(flights, items[..Min(MaxRecommendations, |items|)], 0)
    case JString(s) => if s == [] then Some([]) else None
    case _ => None
  }

  /** A reply without a "recommendations" field is a success with no offers. */
  lemma EnrichMissingField(flights: seq<Flight>, fields: map<string, Json>)
    requires RecommendationsField !in fields
    ensures Enrich(flights, JObject(fields)) == Some([])
  {
  }

  /** Only the first five entries are looked at, and unknown ids are dropped
      after that cut: a single unknown id among them leaves fewer than five,
      whatever follows. */
  lemma EnrichTruncatesBeforeDropping(flights: seq<Flight>, fields: map<string, Json>, items: seq<Json>, u: nat)
    requires RecommendationsField in fields && fields[RecommendationsField] == JArray(items)
    requires u < |items| && u < MaxRecommendations
    requires items[u].JObject? && !Known(flights, items[u])
    requires Enrich(flights, JObject(fields)).Some?
    ensures |Enrich(flights, JObject(fields)).value| < MaxRecommendations
  {
    var entries := items[..Min(MaxRecommendations, |items|)];
    assert forall i :: 0 <= i < |entries| ==> entries[i].JObject?;
    EnrichKeepsModelOrder(flights, entries, 0);
    var pos := KnownFrom(flights, entries, 0);
    assert u !in pos by {
      forall k | 0 <= k < |pos|
        ensures pos[k] != u
      {
        assert Known(flights, entries[pos[k]]);
        assert entries[u] == items[u];
      }
    }
    PositionsMissOne(pos, |entries|, u);
  }

  /** Strictly increasing positions below `n` that miss one of them number fewer than `n`. */
  lemma PositionsMissOne(pos: seq<nat>, n: nat, u: nat)
    requires forall k :: 0 <= k < |pos| ==> pos[k] < n
    requires forall k, l :: 0 <= k < l < |pos| ==> pos[k] < pos[l]
    requires u < n && u !in pos
    ensures |pos| < n
  {
    FullPositions(pos, n, u);
  }

  /** Strictly increasing positions below `n` number at most `n`, and when
      there are `n` of them every position below `n` is one. */
  lemma FullPositions(pos: seq<nat>, n: nat, u: nat)
    requires forall k :: 0 <= k < |pos| ==> pos[k] < n
    requires forall k, l :: 0 <= k < l < |pos| ==> pos[k] < pos[l]
    requires u < n
    ensures |pos| <= n
    ensures |pos| == n ==> u in pos
  {
    IncreasingFromIndex(pos, |pos|);
    IncreasingBelowBound(pos, n, |pos|);
    if |pos| > 0 {
      assert pos[0] <= n - |pos|;
    }
    if |pos| == n {
      assert pos[u] == u;
    }
  }

  lemma {:induction false} IncreasingFromIndex(pos: seq<nat>, m: nat)
    requires m <= |pos|
    requires forall k, l :: 0 <= k < l < |pos| ==> pos[k] < pos[l]
    ensures forall k :: 0 <= k < m ==> k <= pos[k]
  {
    if m > 0 {
      IncreasingFromIndex(pos, m - 1);
      assert m >= 2 ==> pos[m - 2] < pos[m - 1];
    }
  }

  lemma {:induction false} IncreasingBelowBound(pos: seq<nat>, n: nat, m: nat)
    requires m <= |pos|
    requires forall k :: 0 <= k < |pos| ==> pos[k] < n
    requires forall k, l :: 0 <= k < l < |pos| ==> pos[k] < pos[l]
    ensures forall k :: |pos| - m <= k < |pos| ==> pos[k] <= n - |pos| + k
  {
    if m > 0 {
      IncreasingBelowBound(pos, n, m - 1);
      var k := |pos| - m;
      assert m >= 2 ==> pos[k] < pos[k + 1];
    }
  }

  // ---------------------------------------------------------------------------
  // The whole analysis
  // ---------------------------------------------------------------------------

  /** The prompt's inputs; an empty preferred airline reads "no preference". */
  function BuildRequest(flights: seq<Flight>, origin: string, destination: string, date: string, airline: string): (q: Request)
    ensures q.airline != []
    ensures airline != [] ==> q.airline == airline
    ensures airline == [] ==> q.airline == NoPreference
    ensures q.origin == origin && q.destination == destination && q.date == date
    ensures q.flights == flights
  {
    Request(origin, destination, date, if airline != [] then airline else NoPreference, flights)
  }

  /** The model path of `analyze_flights`: ask, clean the reply, decode,
      merge. `None` is any failure along the way (the call raised, the text
      is not JSON, or the merge raised). */
  function ModelAnswer(
    flights: seq<Flight>, request: Request,
    invoke: Request -> Option<string>, parse: string -> Option<Json>): (r: Option<seq<Recommendation>>)
    ensures r.Some? ==> |r.value| <= MaxRecommendations
    ensures r.Some? ==> forall x :: x in r.value ==> x.offer in flights && x.analysis.FromModel?
    ensures r.Some? <==> && invoke(request).Some?
                         && parse(StripFences(invoke(request).value)).Some?
                         && Enrich(flights, parse(StripFences(invoke(request).value)).value).Some?
  {
    match invoke(request)
    case None => None
    case Some(response) =>
      match parse(StripFences(response))
      case None => None
      case Some(analysis) => Enrich(flights, analysis)
  }

  /** `analyze_flights`: the model's answer when there is one, the fallback
      otherwise. Both paths report success and the number of offers seen. */
  function Analyze(
    flights: seq<Flight>, origin: string, destination: string, date: string, airline: string,
    invoke: Request -> Option<string>, parse: string -> Option<Json>): (r: Report)
    ensures r.success && r.totalFlightsAnalyzed == |flights|
    ensures |r.recommendations| <= MaxRecommendations
    ensures forall x :: x in r.recommendations ==> x.offer in flights
    ensures r.note.Some? <==> ModelAnswer(flights, BuildRequest(flights, origin, destination, date, airline), invoke, parse).None?
  {
    match ModelAnswer(flights, BuildRequest(flights, origin, destination, date, airline), invoke, parse)
    case None => Fallback(flights)
    case Some(recs) => Report(true, recs, |flights|, None)
  }

  /** Every failure on the model path lands on the fallback. */
  lemma AnalyzeFallsBack(
    flights: seq<Flight>, origin: string, destination: string, date: string, airline: string,
    invoke: Request -> Option<string>, parse: string -> Option<Json>)
    requires var reply := invoke(BuildRequest(flights, origin, destination, date, airline));
             || reply.None?
             || parse(StripFences(reply.value)).None?
             || Enrich(flights, parse(StripFences(reply.value)).value).None?
    ensures Analyze(flights, origin, destination, date, airline, invoke, parse) == Fallback(flights)
  {
  }

  /** Otherwise the model's merged entries are the answer, without the note. */
  lemma AnalyzeUsesModel(
    flights: seq<Flight>, origin: string, destination: string, date: string, airline: string,
    invoke: Request -> Option<string>, parse: string -> Option<Json>, analysis: Json)
    requires var reply := invoke(BuildRequest(flights, origin, destination, date, airline));
             && reply.Some?
             && parse(StripFences(reply.value)) == Some(analysis)
             && Enrich(flights, analysis).Some?
    ensures Analyze(flights, origin, destination, date, airline, invoke, parse)
         == Report(true, Enrich(flights, analysis).value, |flights|, None)
  {
  }
}
