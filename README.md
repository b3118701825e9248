# Route planner core: route matching and risk scoring

This project is a Dafny model of the selection logic of a freight route planner.
Cargo offers are rows of an offer store. Each row has an origin city, a
destination city, an optional price, an optional road distance and an optional
estimated price. The model covers five operations:

- **Offer scoring** (`_format_offer`): the effective price is the stated price, or the estimate when the stated price is missing or zero. The price per km exists only when the effective price and the distance are both truthy in Python's sense.
- **Two-offer combination** (`_combine_offers`): sums the distances and effective prices of two offers. Missing values count as 0. The aggregate ratio is 0 when the total distance is 0.
- **Single-load selector** (`find_single_load_anywhere`): sorts the offers departing a city by price per km in descending order, with an undefined ratio ranked as 0. The sort is Python's stable `sorted`. The selector keeps the first five.
- **Point-to-point router** (`find_single_load_a_to_b`): returns every direct offer if any exists. Otherwise it returns the first two-leg connection, in A-then-B visiting order, whose aggregate ratio reaches `bad_rate`.
- **Greedy multi-leg builder** (`find_multi_leg_route`): up to `max_legs` times, it takes the first offer of maximal ratio (as Python's `max` does) and moves on to that offer's destination.

It also models the return-load risk classifier (`assess_return_load_risk`), the
distance-based price estimate (`estimate_price`) and the normalizer's rule for
filling in `estimated_price`.

Layout, one module per component:

| file | module | models |
|---|---|---|
| wrappers.dfy | `Wrappers` | `Option`, standing in for Python's `None` |
| offers.dfy | `Offers` | the `offers` row and Python truthiness on optional numbers |
| repository.dfy | `Repository` | the read-only query contract of the offer store |
| scoring.dfy | `Scoring` | `_format_offer`, `_combine_offers`, route totals |
| single_load.dfy | `SingleLoad`, `SingleLoadScenario` | `find_single_load_anywhere` and its stable sort |
| point_to_point.dfy | `PointToPoint` | `find_single_load_a_to_b` (nested loops, as a method) |
| multi_leg.dfy | `MultiLeg` | `find_multi_leg_route` (bounded loop, as a method) |
| price_estimator.dfy | `PriceEstimator` | `estimate_price` and the normalizer's estimate |
| risk_assessor.dfy | `RiskAssessor` | `assess_return_load_risk` |

The two methods are proved against specification functions:

- `FindSingleLoadAToB` builds the list `Candidates` in its loops.
- `FindMultiLegRoute` builds the segments `Legs` and their `Summarize`d route.

The lemmas beside those functions state what the source promises.

## Store, clock and configuration

- The store is a value: `Available(rows)` in table order, or `Unavailable`.
- A query is a filter on loading city and `timestamp >= cutoff`, in table order. The SQL has no `ORDER BY`; the model takes table order as the row order.
- Timestamps are integer seconds. The cutoff is `now - days * 86400`.
- The clock is the parameter `now`, read once per call. The source reads the clock again for every query.
- `bad_rate` and `default_rate` are parameters.
- The source's default arguments are the constants `DefaultWindowDays` (7) and `DefaultMaxLegs` (3). Callers pass them explicitly.
- The number of repository queries `FindSingleLoadAToB` makes is a ghost out-parameter. The Python returns only the plan.
- Money and distances are exact `real`s.

## Where the code and the design description differ (the model follows the code)

- **A zero price counts as absent.** The effective price falls through to the estimate. A zero distance likewise leaves the ratio undefined.
- **A negative distance still gets a ratio.** The ratio is defined for any non-zero distance, not only positive ones (route_planner.py:115).
- **Ties keep table order.** Equal ratios keep the order of the store's rows, because `sorted` is stable and `max` keeps the first maximum. No offer-identifier tie-break exists.
- **No route below zero total distance.** The multi-leg builder gives no route when the total distance is not positive. This covers a negative total as well as zero.
- **Storage failure reads as High risk.** A storage failure during the count becomes a count of 0, which the assessor reports as `High` (see Findings).
- **A failed offer query reads as "no offers".** `get_offers_by_loading_city` logs a storage error and returns `[]` (database.py:248-250). So the selector, the router and the multi-leg builder all treat an unavailable store as a city with no offers. The design asks that a storage failure not be reported that way. `Repository.OffersByLoadingCity` keeps the code's behaviour.
- **No "not found" outcome.** The code has no outcome for an unknown city identifier. An unknown city behaves like a city with no offers.
- **Partly mixed results.** The router returns formatted offers in the direct case and combined routes in the indirect case. The model keeps the two apart in `PointToPoint.Plan`.

## Model

| member | source | states |
|---|---|---|
| `Repository.Departing` | database.py:243-247 | the query returns exactly the rows of the city inside the window, never more rows than the table |
| `Repository.DepartingNone` | database.py:243-247 | when no row departs the city inside the window the query returns nothing |
| `Repository.OffersByLoadingCity` | database.py:231-250 | an available store returns exactly its rows that depart the queried city no earlier than the cutoff (each one and every one); a failed query returns the empty list |
| `Repository.CountOffersFromCity` | database.py:252-268 | the count is the length of the departing query; a failed store gives no count rather than a number |
| `Repository.CountOffersFromCityAsWritten` | database.py:262-271 | as written, a failed store is counted as 0 |
| `Scoring.EffectivePrice` | route_planner.py:113 | the stated price when it is truthy, otherwise the estimated price |
| `Scoring.FormatOffer` | route_planner.py:112-126 | routing, money and text columns are copied unchanged; the ratio exists iff effective price and distance are both truthy |
| `Scoring.FormatRatio` | route_planner.py:113-115 | a defined ratio is never zero, and times the offer's distance gives back the effective price (via the real-number helpers `NonZeroQuotient` and `RatioTimesDistance`) |
| `Scoring.FormatAll` | route_planner.py:31 | one formatted offer per row, in order |
| `Scoring.RatioUndefinedCases` | route_planner.py:113-115 | zero or missing distance, or no price and no estimate, leave the ratio undefined; it is never zero |
| `Scoring.TotalsPair` | route_planner.py:142-143 | the totals of two segments are the sums of their distances and of their effective prices, missing values as 0 |
| `Scoring.TotalsAppend` | route_planner.py:92-93 | adding a segment adds its distance and effective price (missing as 0) to the totals |
| `Scoring.CombineOffers` | route_planner.py:141-149 | two segments, the formatted offers; totals are the sums over the segments with missing values as 0; the ratio is `Ratio` of those totals |
| `Scoring.Ratio` | route_planner.py:148 | for a non-zero distance the ratio times the distance is the revenue; for a zero distance the ratio is 0 |
| `SingleLoad.Insert` | route_planner.py:32-36 | insertion adds exactly one element, keeping every other one |
| `SingleLoad.Sort` | route_planner.py:32-36 | the sort returns a permutation of its input |
| `SingleLoad.InsertSorted` | route_planner.py:32-36 | inserting into a ratio-sorted sequence keeps it sorted |
| `SingleLoad.InsertWithKey` | route_planner.py:32-36 | the inserted offer lands after every earlier offer of the same ratio |
| `SingleLoad.InsertWithKeyFront` | route_planner.py:32-36 | an offer that outranks the head of a sorted sequence goes in front, and its ratio class gains only that offer, at the end |
| `SingleLoad.SortSorted` | route_planner.py:32-36 | the result is non-increasing in ratio (undefined as 0) and keeps the input order among equal ratios (stability) |
| `SingleLoad.SortedSameClassesEqual` | route_planner.py:32-36 | two ratio-sorted sequences with the same offers per ratio, in the same order, are equal |
| `SingleLoad.SortUnique` | route_planner.py:32-36 | any stable descending sort of the input equals `Sort` |
| `SingleLoad.PrefixRanksAbove` | route_planner.py:36 | no offer cut off by the slice ranks above an offer kept |
| `SingleLoad.PrefixClasses` | route_planner.py:36 | per ratio, the offers kept are the first ones of that ratio |
| `SingleLoad.FindSingleLoadAnywhere` | route_planner.py:20-36 | min(5, n) offers, each departing the queried city |
| `SingleLoad.SingleLoadIsTop` | route_planner.py:30-36 | the result is sorted, drawn from the departing offers, holds min(5, n) of them, outranks every offer left out, and keeps repository order within a ratio |
| `SingleLoadScenario.SortLoads` | route_planner.py:32-36 | the two formatted loads sort with the 2.5 per km load ahead of the 2.0 per km load |
| `SingleLoadScenario.BetterRateRanksFirst` | route_planner.py:30-36 | of A to B at 300/150 km and A to C at 250/100 km, A to C (2.5 per km) ranks above A to B (2.0 per km) |
| `PointToPoint.ToCity` | route_planner.py:52 | the direct offers are exactly the departing offers whose destination is the end city |
| `PointToPoint.First` | route_planner.py:64 | at most one route, the first one when there is any |
| `PointToPoint.FindSingleLoadAToB` | route_planner.py:41-64 | with a direct offer: exactly the formatted direct offers after one query, no indirect search; otherwise the first qualifying combination of the nested A-then-B loops, after 2 + (number of first legs) queries |
| `PointToPoint.PairsWithStep` | route_planner.py:59-63 | one turn of the inner loop keeps the combination with the next second leg exactly when it qualifies |
| `PointToPoint.CandidatesStep` | route_planner.py:58-63 | one turn of the outer loop appends the combinations of the next first leg, in order |
| `PointToPoint.DirectOffersConnect` | route_planner.py:52-54 | every direct offer departs the start and arrives at the end |
| `PointToPoint.PairsWithConnect` | route_planner.py:59-63 | every combination the inner loop keeps is a two-leg connection reaching the floor |
| `PointToPoint.CandidatesConnect` | route_planner.py:58-63 | every kept combination has two segments, start to C and C to end, with ratio at least `bad_rate` |
| `PointToPoint.PairsWithEmpty` | route_planner.py:59-63 | the inner loop keeps nothing iff no second leg qualifies |
| `PointToPoint.PairsWithFirst` | route_planner.py:59-63 | the first kept combination uses the first qualifying second leg |
| `PointToPoint.QualifiesAtPrefix` | route_planner.py:58 | visiting one more first leg leaves the earlier pairs unchanged |
| `PointToPoint.CandidatesEmpty` | route_planner.py:56-64 | the search finds nothing iff no pair of legs qualifies |
| `PointToPoint.CandidatesFirst` | route_planner.py:56-64 | the first kept combination is that of the first qualifying pair in A-then-B order |
| `PointToPoint.IndirectPlan` | route_planner.py:56-64 | without direct offers: at most one route; none iff no pair qualifies; otherwise a start-C-end connection reaching the floor from the first qualifying pair |
| `MultiLeg.MaxIndex` | route_planner.py:86-88 | the index of the first offer of maximal ratio (undefined as 0), as Python's `max` picks it |
| `MultiLeg.Legs` | route_planner.py:82-94 | the greedy segments never exceed `max_legs` (none for a non-positive bound) |
| `MultiLeg.Pick` | route_planner.py:83-88 | there is no pick exactly when no offer departs the city |
| `MultiLeg.LegsAdvance` | route_planner.py:82-94 | one turn of the loop: appending the pick to the segments so far leaves the greedy segments from its destination, with one pick fewer, still to come |
| `MultiLeg.Summarize` | route_planner.py:95-98 | no route iff no segment or total distance not positive; otherwise segment sums of distance and effective price (missing as 0), and the ratio is `Ratio` of revenue and distance |
| `MultiLeg.FindMultiLegRoute` | route_planner.py:69-98 | the loop's route is the summary of the greedy segments from the start |
| `MultiLeg.LegsConnect` | route_planner.py:83-94 | the first segment departs the start and each later one departs the previous segment's destination |
| `MultiLeg.LegsGreedy` | route_planner.py:83-94 | each segment is the first maximal-ratio offer among the offers departing its city |
| `MultiLeg.LegsStopOnlyWhenStranded` | route_planner.py:82-85 | fewer than `max_legs` segments only when no offer departs the city reached |
| `MultiLeg.GreedyChoicesCons` | route_planner.py:83-94 | a greedy pick at the start followed by greedy choices from its destination is a greedy route |
| `MultiLegScenario.ShuttlePicks` | route_planner.py:83-88 | on the two-city shuttle store, the pick at each city is its only departing offer |
| `MultiLegScenario.ShuttleRunsDefaultLegs` | route_planner.py:69-98 | with the default `max_legs` of 3, a shuttle between two cities gives a route of exactly three legs, 400 km for 800 at 2 per km |
| `MultiLeg.StrandedStartNoRoute` | route_planner.py:84-85 | no offer from the start gives no route |
| `PriceEstimator.EstimatePrice` | price_estimator.py:20-22 | an estimate exists iff the distance is present and positive, and is distance times the default rate |
| `PriceEstimator.EstimatePositive` | price_estimator.py:20-21 | with a positive rate every estimate is positive (via the real-number helper `PositiveProduct`) |
| `PriceEstimator.IngestEstimate` | data_normalizer.py:90 | the stored estimate exists iff the distance is truthy and no non-zero price is stated, and is distance times the default rate |
| `PriceEstimator.IngestEstimateAgrees` | data_normalizer.py:90 | for positive distances and no price the stored estimate equals `estimate_price`; for negative ones only the stored rule estimates |
| `PriceEstimator.NoPriceNoDistanceNoEstimate` | data_normalizer.py:86-90 | an offer without price and distance gets no estimate, no effective price and no ratio |
| `RiskAssessor.ClassifyCount` | risk_assessor.py:32-36 | never `Unknown`; High iff count < 3, Medium iff 3 <= count <= 10, Low iff count > 10 |
| `RiskAssessor.RiskNonIncreasing` | risk_assessor.py:32-36 | a larger count never yields a higher risk |
| `RiskAssessor.RiskBoundaries` | risk_assessor.py:32-36 | 0 and 2 are High, 3 and 10 are Medium, 11 is Low |
| `RiskAssessor.AssessReturnLoadRisk` | risk_assessor.py:20-39 | `Unknown` iff the lookup fails; otherwise the level of the number of offers departing in the given `days` window |
| `RiskAssessor.AssessReturnLoadRiskAsWritten` | risk_assessor.py:31-36 | over the swallowing count, `Unknown` never occurs, and the result agrees with the corrected assessor whenever the store answers |
| `RiskAssessor.OutageReadsAsHighAsWritten` | database.py:269-271 | as written an outage is reported as High; the corrected assessor reports Unknown |
| `RiskAssessor.NoRecentOffersIsHigh` | risk_assessor.py:31-33 | a city with no offer in the window is a high risk |

## Definitions

The contracts in the Model table are stated over these definitions, which have no contract of their own:

| definition | source | defines |
|---|---|---|
| `Repository.Cutoff` | database.py:242 | `now - timedelta(days=days)` on the integer clock (also database.py:263) |
| `Repository.DepartsWithin` | database.py:244-245 | the `WHERE loading_city_id = ? AND timestamp >= ?` condition on one row |
| `Scoring.RankKey` | route_planner.py:34 | the sort and `max` key: the ratio, or 0 when it is undefined (also route_planner.py:87) |
| `Scoring.Revenue` | route_planner.py:93 | `price or estimated_price or 0` for one segment (also route_planner.py:143) |
| `Scoring.Distance` | route_planner.py:92 | `distance or 0` for one segment (also route_planner.py:142) |
| `Scoring.TotalDistance` | route_planner.py:92 | the sum of the segments' distances, missing as 0 (also route_planner.py:142) |
| `Scoring.TotalRevenue` | route_planner.py:93 | the sum of the segments' revenues (also route_planner.py:143) |
| `PointToPoint.Onward` | route_planner.py:59 | the second legs tried after a first leg: the offers departing its destination |
| `PointToPoint.Qualifies` | route_planner.py:60-62 | the second leg arrives at the end and the combined ratio reaches `bad_rate` |
| `PointToPoint.PairsWith` | route_planner.py:59-63 | the routes the inner loop appends for one first leg, in order |
| `PointToPoint.Candidates` | route_planner.py:57-63 | `intermediate_offers` after the outer loop has visited the given first legs |
| `MultiLeg.BestOffer` | route_planner.py:86-88 | the formatted offer `max` picks among the departing offers |
| `MultiLeg.Built` | route_planner.py:80-94 | the loop state: the segments appended so far, then the greedy segments still to come from `current_city`, are the greedy segments from the start |

## Findings

| source | as written | input that shows it | evidently intended | confidence | as-written member | corrected member |
|---|---|---|---|---|---|---|
| database.py:269-271 | `count_offers_from_city` logs a storage error and returns 0, so the `Unknown` branch at risk_assessor.py:37-39 can never be reached and an outage is reported as `High` | an unavailable store, any city | a failed lookup yields `Unknown`, distinct from the three real levels | medium; not executed | `RiskAssessor.OutageReadsAsHighAsWritten` | `RiskAssessor.AssessReturnLoadRisk` |

## Left out

- Logging and the `try/except` fallbacks in route_planner.py (lines 37-39, 65-67, 99-101, 127-129, 150-152) are not modelled. On the model's typed values none of the guarded expressions can raise.
- The `if not best_offer: break` at route_planner.py:89-90 is not modelled. A formatted offer is never empty, and `max` over a non-empty list never returns its default.
- `ConcurrentModificationException` (route_planner.py:154-158) is never raised. Concurrent changes to the store between the queries of one call are out of scope: each call sees one fixed store value.
- The SQL, sqlite and the rest of database.py are not modelled. Only the two queries' filter-and-count contract is kept.
- Timestamps are integers, and the clock is read once per call.
- IEEE floating point rounding is not modelled: money and distances are exact reals.
- config.py's environment loading is not modelled. The two rates are parameters.
- Geocoding, routing, ingestion and presentation are not part of this model: data_normalizer.py apart from line 90, email_fetcher.py, gpt_api.py, web_scraper.py, whatsapp_parser.py, ui.py and main.py. They are network I/O, foreign libraries, file reading or display.
- The columns `lf_number`, `urgency` and `additional_info` are copied as optional strings. Their contents play no part in selection.
