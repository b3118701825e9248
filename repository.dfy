/**
 * The read-only query contract the planner and the risk assessor need from the
 * offer store: offers departing a city inside a look-back window, and their
 * number. The store is an in-memory sequence of rows in table order, or an
 * unavailable store (every query fails).
 */
module Repository {
  import opened Wrappers
  import opened Offers

  datatype Store = Available(offers: seq<Offer>) | Unavailable

  const SecondsPerDay: int := 86400

  /** The look-back window every query uses unless told otherwise. */
  const DefaultWindowDays: int := 7

  /** `now - timedelta(days=days)` on the integer clock. */
  function Cutoff(now: int, days: int): int
  {
    now - days * SecondsPerDay
  }

  /** A row of `offers` that departs `city` no earlier than `cutoff`. */
  predicate DepartsWithin(o: Offer, city: CityId, cutoff: int)
  {
    o.loadingCity == city && o.timestamp >= cutoff
  }

  /**
   * `WHERE loading_city_id = ? AND timestamp >= ?` over the rows in table
   * order: exactly the matching rows, in the order the table holds them.
   */
  function Departing(rows: seq<Offer>, city: CityId, cutoff: int): (r: seq<Offer>)
    ensures |r| <= |rows|
    ensures forall o :: o in r <==> o in rows && DepartsWithin(o, city, cutoff)
    ensures forall i :: 0 <= i < |r| ==> r[i].loadingCity == city
  {
    if rows == [] then []
    else if DepartsWithin(rows[0], city, cutoff) then [rows[0]] + Departing(rows[1..], city, cutoff)
    else Departing(rows[1..], city, cutoff)
  }

  /** No row departs the city inside the window: the query returns nothing. */
  lemma {:induction false} DepartingNone(rows: seq<Offer>, city: CityId, cutoff: int)
    requires forall o :: o in rows ==> !DepartsWithin(o, city, cutoff)
    ensures Departing(rows, city, cutoff) == []
  {
    if rows != [] {
      assert rows[0] in rows;
      DepartingNone(rows[1..], city, cutoff);
    }
  }

  /**
   * `get_offers_by_loading_city`: the departing rows, or the empty list when
   * the store fails (the source logs the error and returns `[]`).
   */
  function OffersByLoadingCity(store: Store, city: CityId, now: int, days: int): (r: seq<Offer>)
    ensures store.Unavailable? ==> r == []
    ensures store.Available? ==> forall o :: o in r <==> o in store.offers && DepartsWithin(o, city, Cutoff(now, days))
    ensures forall i :: 0 <= i < |r| ==> r[i].loadingCity == city
    ensures forall o :: o in r ==> o.timestamp >= Cutoff(now, days)
  {
    match store
    case Available(rows) => Departing(rows, city, Cutoff(now, days))
    case Unavailable => []
  }

  /**
   * `count_offers_from_city` with the failure kept apart: `None` when the
   * store fails, otherwise the number of rows the departing query returns.
   */
  function CountOffersFromCity(store: Store, city: CityId, now: int, days: int): (r: Option<nat>)
    ensures r.None? <==> store.Unavailable?
    ensures r.Some? ==> r.value == |OffersByLoadingCity(store, city, now, days)|
  {
    match store
    case Available(rows) => Some(|Departing(rows, city, Cutoff(now, days))|)
    case Unavailable => None
  }

  /**
   * `count_offers_from_city` as written: the failure is logged and reported
   * as a count of 0.
   */
  function CountOffersFromCityAsWritten(store: Store, city: CityId, now: int, days: int): (r: nat)
    ensures store.Unavailable? ==> r == 0
    ensures store.Available? ==> r == |OffersByLoadingCity(store, city, now, days)|
  {
    match store
    case Available(rows) => |Departing(rows, city, Cutoff(now, days))|
    case Unavailable => 0
  }
}
