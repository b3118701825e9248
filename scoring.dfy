/**
 * Offer scoring and route aggregates: `RoutePlanner._format_offer` and
 * `RoutePlanner._combine_offers`, plus the totals every route carries.
 */
module Scoring {
  import opened Wrappers
  import opened Offers

  /** The formatted offer: the row's routing and money columns plus its ratio. */
  datatype ScoredOffer = ScoredOffer(
    loadingCity: CityId,
    unloadingCity: CityId,
    distance: Option<real>,
    price: Option<real>,
    estimatedPrice: Option<real>,
    pricePerKm: Option<real>,
    lfNumber: Option<string>,
    urgency: Option<string>,
    additionalInfo: Option<string>)

  /** A chain of formatted offers with its aggregate distance, revenue and ratio. */
  datatype Route = Route(
    segments: seq<ScoredOffer>,
    totalDistance: real,
    totalRevenue: real,
    pricePerKm: real)

  /** `price or estimated_price`: a zero stated price counts as absent. */
  function EffectivePrice(price: Option<real>, estimatedPrice: Option<real>): (r: Option<real>)
    ensures Truthy(price) ==> r == price
    ensures !Truthy(price) ==> r == estimatedPrice
  {
    Or(price, estimatedPrice)
  }

  /**
   * `_format_offer`: copies the row's columns and adds the price per km,
   * which exists exactly when the effective price and the distance are both
   * present and non-zero (`FormatRatio` says what its value is).
   */
  function FormatOffer(o: Offer): (s: ScoredOffer)
    ensures s.loadingCity == o.loadingCity && s.unloadingCity == o.unloadingCity
    ensures s.distance == o.distance && s.price == o.price && s.estimatedPrice == o.estimatedPrice
    ensures s.lfNumber == o.lfNumber && s.urgency == o.urgency && s.additionalInfo == o.additionalInfo
    ensures s.pricePerKm.Some? <==> Truthy(EffectivePrice(o.price, o.estimatedPrice)) && Truthy(o.distance)
  {
    var price := EffectivePrice(o.price, o.estimatedPrice);
    var distance := o.distance;
    var pricePerKm := if Truthy(price) && Truthy(distance) then Some(price.value / distance.value) else None;
    ScoredOffer(o.loadingCity, o.unloadingCity, distance, o.price, o.estimatedPrice,
                pricePerKm, o.lfNumber, o.urgency, o.additionalInfo)
  }

  /** `[self._format_offer(o) for o in offers]`. */
  function FormatAll(offers: seq<Offer>): (r: seq<ScoredOffer>)
    ensures |r| == |offers|
    ensures forall i :: 0 <= i < |offers| ==> r[i] == FormatOffer(offers[i])
  {
    seq(|offers|, i requires 0 <= i < |offers| => FormatOffer(offers[i]))
  }

  /**
   * A defined price per km is never zero, and over the offer's distance it
   * earns back exactly the effective price.
   */
  lemma FormatRatio(o: Offer)
    ensures var s := FormatOffer(o);
            s.pricePerKm.Some? ==>
              && s.pricePerKm.value != 0.0
              && s.pricePerKm.value * o.distance.value == EffectivePrice(o.price, o.estimatedPrice).value
  {
    var price := EffectivePrice(o.price, o.estimatedPrice);
    if Truthy(price) && Truthy(o.distance) {
      RatioTimesDistance(price.value, o.distance.value);
      NonZeroQuotient(price.value, o.distance.value);
    }
  }

  /** A non-zero amount over a non-zero distance is a non-zero rate. */
  lemma NonZeroQuotient(a: real, b: real)
    requires a != 0.0 && b != 0.0
    ensures a / b != 0.0
  {
    if a / b == 0.0 {
      RatioTimesDistance(a, b);
    }
  }

  /** The ranking key of the planner: the price per km, an undefined one ranked as 0. */
  function RankKey(s: ScoredOffer): real
  {
    OrZero(s.pricePerKm)
  }

  /** `price or estimated_price or 0`: what one segment adds to a route's revenue. */
  function Revenue(s: ScoredOffer): real
  {
    OrZero(EffectivePrice(s.price, s.estimatedPrice))
  }

  /** `distance or 0`: what one segment adds to a route's distance. */
  function Distance(s: ScoredOffer): real
  {
    OrZero(s.distance)
  }

  /** Sum of the segments' distances, a missing distance counted as 0. */
  function TotalDistance(segments: seq<ScoredOffer>): real
  {
    if segments == [] then 0.0
    else TotalDistance(segments[..|segments| - 1]) + Distance(segments[|segments| - 1])
  }

  /** Sum of the segments' effective prices, a missing price counted as 0. */
  function TotalRevenue(segments: seq<ScoredOffer>): real
  {
    if segments == [] then 0.0
    else TotalRevenue(segments[..|segments| - 1]) + Revenue(segments[|segments| - 1])
  }

  /**
   * `_combine_offers`: a two-segment route whose totals are the sums over its
   * segments and whose ratio is revenue over distance, or 0 when the total
   * distance is 0.
   */
  function CombineOffers(a: Offer, b: Offer): (r: Route)
    ensures r.segments == [FormatOffer(a), FormatOffer(b)]
    ensures r.totalDistance == TotalDistance(r.segments)
    ensures r.totalRevenue == TotalRevenue(r.segments)
    ensures r.pricePerKm == Ratio(r.totalRevenue, r.totalDistance)
  {
    var totalDistance := OrZero(a.distance) + OrZero(b.distance);
    var totalRevenue := OrZero(Or(a.price, a.estimatedPrice)) + OrZero(Or(b.price, b.estimatedPrice));
    var fa, fb := FormatOffer(a), FormatOffer(b);
    assert totalDistance == Distance(fa) + Distance(fb) && totalRevenue == Revenue(fa) + Revenue(fb);
    TotalsPair(fa, fb);
    Route([fa, fb], totalDistance, totalRevenue, Ratio(totalRevenue, totalDistance))
  }

  /**
   * `total_revenue / total_distance if total_distance else 0`: the rate that
   * earns the revenue back over the distance, or 0 for no distance.
   */
  function Ratio(revenue: real, distance: real): (r: real)
    ensures distance != 0.0 ==> r * distance == revenue
    ensures distance == 0.0 ==> r == 0.0
  {
    if distance != 0.0 then
      RatioTimesDistance(revenue, distance);
      revenue / distance
    else 0.0
  }

  /** Dividing revenue by a non-zero distance gives the rate that earns it back over that distance. */
  lemma RatioTimesDistance(revenue: real, distance: real)
    requires distance != 0.0
    ensures (revenue / distance) * distance == revenue
  {
  }

  /** Totals of a route extended by one segment. */
  /** The totals of a two-segment route are the sums over its two segments. */
  lemma TotalsPair(a: ScoredOffer, b: ScoredOffer)
    ensures TotalDistance([a, b]) == Distance(a) + Distance(b)
    ensures TotalRevenue([a, b]) == Revenue(a) + Revenue(b)
  {
    TotalsAppend([], a);
    TotalsAppend([a], b);
    assert [] + [a] == [a] && [a] + [b] == [a, b];
  }

  lemma TotalsAppend(segments: seq<ScoredOffer>, s: ScoredOffer)
    ensures TotalDistance(segments + [s]) == TotalDistance(segments) + Distance(s)
    ensures TotalRevenue(segments + [s]) == TotalRevenue(segments) + Revenue(s)
  {
    assert (segments + [s])[..|segments + [s]| - 1] == segments;
  }

  /**
   * The ratio of an offer is never produced by dividing by zero and is never
   * silently zero: a zero or missing distance, or a missing price and
   * estimate, leave it undefined.
   */
  lemma RatioUndefinedCases(o: Offer)
    ensures o.distance == None || o.distance == Some(0.0) ==> FormatOffer(o).pricePerKm == None
    ensures !Truthy(o.price) && !Truthy(o.estimatedPrice) ==> FormatOffer(o).pricePerKm == None
    ensures FormatOffer(o).pricePerKm != Some(0.0)
  {
    FormatRatio(o);
  }
}
