/**
 * The return-load risk assessor, `RiskAssessor.assess_return_load_risk`:
 * fixed thresholds on the number of offers that left a city in the window.
 */
module RiskAssessor {
  import opened Wrappers
  import opened Offers
  import opened Repository

  datatype RiskLevel = High | Medium | Low | Unknown

  /** Fewer departing offers than this is a high risk. */
  const HighBelow: int := 3

  /** Up to this many departing offers is a medium risk; more is low. */
  const MediumUpTo: int := 10

  /** The if/elif chain on the count; it never yields `Unknown`. */
  function ClassifyCount(count: int): (level: RiskLevel)
    ensures level != Unknown
    ensures level == High <==> count < HighBelow
    ensures level == Medium <==> HighBelow <= count <= MediumUpTo
    ensures level == Low <==> count > MediumUpTo
  {
    if count < HighBelow then High
    else if count <= MediumUpTo then Medium
    else Low
  }

  /** How bad a real risk level is: High above Medium above Low. */
  function Severity(level: RiskLevel): nat
    requires level != Unknown
  {
    match level
    case High => 2
    case Medium => 1
    case Low => 0
  }

  /** More departing offers never raise the risk. */
  lemma RiskNonIncreasing(fewer: int, more: int)
    requires fewer <= more
    ensures Severity(ClassifyCount(more)) <= Severity(ClassifyCount(fewer))
  {
  }

  /** The policy's boundary values. */
  lemma RiskBoundaries()
    ensures ClassifyCount(0) == High && ClassifyCount(2) == High
    ensures ClassifyCount(3) == Medium && ClassifyCount(10) == Medium
    ensures ClassifyCount(11) == Low
  {
  }

  /**
   * The assessor over a count that can fail: a failed lookup is `Unknown`,
   * any count is one of the three real levels.
   */
  function AssessReturnLoadRisk(store: Store, city: CityId, now: int, days: int): (level: RiskLevel)
    ensures level == Unknown <==> store.Unavailable?
    ensures store.Available? ==> level == ClassifyCount(|OffersByLoadingCity(store, city, now, days)|)
  {
    match CountOffersFromCity(store, city, now, days)
    case Some(count) => ClassifyCount(count)
    case None => Unknown
  }

  /**
   * The assessor over `count_offers_from_city` as written, which reports a
   * failed lookup as 0: every outcome is a real level, `Unknown` never occurs.
   */
  function AssessReturnLoadRiskAsWritten(store: Store, city: CityId, now: int, days: int): (level: RiskLevel)
    ensures level != Unknown
    ensures store.Available? ==> level == AssessReturnLoadRisk(store, city, now, days)
  {
    ClassifyCount(CountOffersFromCityAsWritten(store, city, now, days))
  }

  /** As written, a storage outage is reported as a high risk instead of `Unknown`. */
  lemma OutageReadsAsHighAsWritten(city: CityId, now: int, days: int)
    ensures AssessReturnLoadRiskAsWritten(Unavailable, city, now, days) == High
    ensures AssessReturnLoadRisk(Unavailable, city, now, days) == Unknown
  {
  }

  /** A city with no offer in the window is a high risk. */
  lemma NoRecentOffersIsHigh(rows: seq<Offer>, city: CityId, now: int, days: int)
    requires forall o :: o in rows ==> !DepartsWithin(o, city, Cutoff(now, days))
    ensures AssessReturnLoadRisk(Available(rows), city, now, days) == High
  {
    DepartingNone(rows, city, Cutoff(now, days));
  }
}
