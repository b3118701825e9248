/**
 * The offer record as the offer store holds it (one row of the `offers`
 * table), and the Python truthiness rules the route planner applies to its
 * optional numeric columns.
 */
module Offers {
  import opened Wrappers

  type CityId = int

  /** One cargo offer. Timestamps are seconds on one integer clock. */
  datatype Offer = Offer(
    id: int,
    source: string,
    timestamp: int,
    sender: string,
    loadingCity: CityId,
    unloadingCity: CityId,
    price: Option<real>,
    lfNumber: Option<string>,
    urgency: Option<string>,
    distance: Option<real>,
    estimatedPrice: Option<real>,
    additionalInfo: Option<string>,
    rawMessage: string)

  /** Python truthiness of an optional number: `None` and `0` are false. */
  predicate Truthy(x: Option<real>)
  {
    x.Some? && x.value != 0.0
  }

  /** Python's `x or y` on optional numbers. */
  function Or(x: Option<real>, y: Option<real>): Option<real>
  {
    if Truthy(x) then x else y
  }

  /** Python's `x or 0` on an optional number. */
  function OrZero(x: Option<real>): real
  {
    if Truthy(x) then x.value else 0.0
  }
}
