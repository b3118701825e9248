/**
 * Distance-based price estimates: `estimate_price`, and the rule the offer
 * normalizer applies when it stores an offer's `estimated_price` column.
 */
module PriceEstimator {
  import opened Wrappers
  import opened Offers
  import opened Scoring

  /**
   * `estimate_price(distance)`: the distance times the configured default
   * rate, defined exactly when the distance is present and positive.
   */
  function EstimatePrice(distance: Option<real>, defaultRate: real): (r: Option<real>)
    ensures r.Some? <==> distance.Some? && distance.value > 0.0
    ensures r.Some? ==> r.value == distance.value * defaultRate
  {
    if Truthy(distance) && distance.value > 0.0 then Some(distance.value * defaultRate) else None
  }

  /** With a positive rate every estimate is a positive amount. */
  lemma EstimatePositive(distance: Option<real>, defaultRate: real)
    requires defaultRate > 0.0
    ensures EstimatePrice(distance, defaultRate).Some? ==> EstimatePrice(distance, defaultRate).value > 0.0
  {
    if distance.Some? && distance.value > 0.0 {
      PositiveProduct(distance.value, defaultRate);
    }
  }

  lemma PositiveProduct(a: real, b: real)
    requires a > 0.0 && b > 0.0
    ensures a * b > 0.0
  {
  }

  /**
   * The normalizer's `estimated_price`: distance times the default rate when
   * the distance is truthy and no (non-zero) price was stated, else nothing.
   */
  function IngestEstimate(distance: Option<real>, price: Option<real>, defaultRate: real): (r: Option<real>)
    ensures r.Some? <==> Truthy(distance) && !Truthy(price)
    ensures r.Some? ==> r.value == distance.value * defaultRate
  {
    if Truthy(distance) && !Truthy(price) then Some(distance.value * defaultRate) else None
  }

  /**
   * For a positive distance and no stated price the normalizer stores what
   * `estimate_price` would return; only a negative distance sets them apart.
   */
  lemma IngestEstimateAgrees(distance: Option<real>, price: Option<real>, defaultRate: real)
    requires !Truthy(price)
    ensures distance.Some? && distance.value > 0.0 ==> IngestEstimate(distance, price, defaultRate) == EstimatePrice(distance, defaultRate)
    ensures distance.Some? && distance.value < 0.0 ==> IngestEstimate(distance, price, defaultRate).Some? && EstimatePrice(distance, defaultRate).None?
  {
  }

  /**
   * A normalized offer with neither price nor distance gets no estimate, so
   * its effective price is absent and it has no price per km.
   */
  lemma NoPriceNoDistanceNoEstimate(o: Offer, defaultRate: real)
    requires o.price.None? && o.distance.None?
    requires o.estimatedPrice == IngestEstimate(o.distance, o.price, defaultRate)
    ensures o.estimatedPrice.None?
    ensures EffectivePrice(o.price, o.estimatedPrice).None?
    ensures FormatOffer(o).pricePerKm.None?
  {
  }
}
