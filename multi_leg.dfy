/**
 * The greedy multi-leg route builder, `RoutePlanner.find_multi_leg_route`:
 * from the current city take the first offer of highest price per km, append
 * it, move to its destination, and repeat at most `max_legs` times.
 */
module MultiLeg {
  import opened Wrappers
  import opened Offers
  import opened Repository
  import opened Scoring

  /** The default of `max_legs`. */
  const DefaultMaxLegs: int := 3

  /** `s[k]` is the first element of `s` whose ranking key is maximal. */
  predicate FirstMaximalAt(s: seq<ScoredOffer>, k: int)
  {
    && 0 <= k < |s|
    && (forall j :: 0 <= j < |s| ==> RankKey(s[j]) <= RankKey(s[k]))
    && (forall j :: 0 <= j < k ==> RankKey(s[j]) < RankKey(s[k]))
  }

  /**
   * Python's `max(s, key=...)`: scans left to right and replaces the
   * candidate only on a strictly greater key, so ties go to the first.
   */
  function MaxIndex(s: seq<ScoredOffer>): (k: nat)
    requires s != []
    ensures FirstMaximalAt(s, k)
  {
    if |s| == 1 then 0
    else
      var k := MaxIndex(s[..|s| - 1]);
      if RankKey(s[|s| - 1]) > RankKey(s[k]) then |s| - 1 else k
  }

  /** The formatted offer the builder picks among `offers`. */
  function BestOffer(offers: seq<Offer>): ScoredOffer
    requires offers != []
  {
    var formatted := FormatAll(offers);
    formatted[MaxIndex(formatted)]
  }

  /** The greedy pick at `city`: none when no offer departs it, else the best formatted offer. */
  function Pick(store: Store, city: CityId, now: int): (p: Option<ScoredOffer>)
    ensures p.None? <==> OffersByLoadingCity(store, city, now, DefaultWindowDays) == []
  {
    var offers := OffersByLoadingCity(store, city, now, DefaultWindowDays);
    if offers == [] then None else Some(BestOffer(offers))
  }

  /**
   * The segments the greedy builder appends starting from `city` with `legs`
   * picks left: none when no pick is left or no offer departs the city.
   */
  function Legs(store: Store, city: CityId, now: int, legs: int): (segments: seq<ScoredOffer>)
    ensures |segments| <= if legs < 0 then 0 else legs
    decreases legs
  {
    if legs <= 0 then []
    else
      match Pick(store, city, now)
      case None => []
      case Some(best) => [best] + Legs(store, best.unloadingCity, now, legs - 1)
  }

  /**
   * The loop's state after `i` turns: the segments built so far, followed by
   * the greedy segments still to come from `current`, are the greedy segments
   * from `start`.
   */
  predicate Built(store: Store, start: CityId, now: int, maxLegs: int, segments: seq<ScoredOffer>, current: CityId, i: int)
  {
    segments + Legs(store, current, now, maxLegs - i) == Legs(store, start, now, maxLegs)
  }

  /** One turn of the builder's loop: the picked offer extends the segments built so far. */
  lemma LegsAdvance(store: Store, start: CityId, now: int, maxLegs: int,
                    segments: seq<ScoredOffer>, current: CityId, i: int, best: ScoredOffer)
    requires i < maxLegs && Built(store, start, now, maxLegs, segments, current, i)
    requires Pick(store, current, now) == Some(best)
    ensures Built(store, start, now, maxLegs, segments + [best], best.unloadingCity, i + 1)
  {
    var rest := Legs(store, best.unloadingCity, now, maxLegs - (i + 1));
    assert Legs(store, current, now, maxLegs - i) == [best] + rest;
    assert segments + ([best] + rest) == (segments + [best]) + rest;
  }

  /**
   * The route built from greedy segments: none when there is no segment or
   * the total distance is not positive; otherwise the segments with the sums
   * of their distances and effective prices, and revenue over distance as
   * the ratio.
   */
  function Summarize(segments: seq<ScoredOffer>): (r: Option<Route>)
    ensures r.None? <==> segments == [] || TotalDistance(segments) <= 0.0
    ensures r.Some? ==>
              && r.value.segments == segments
              && r.value.totalDistance == TotalDistance(segments)
              && r.value.totalRevenue == TotalRevenue(segments)
              && r.value.pricePerKm == Ratio(r.value.totalRevenue, r.value.totalDistance)
  {
    var totalDistance := TotalDistance(segments);
    var totalRevenue := TotalRevenue(segments);
    if totalDistance > 0.0 && segments != [] then
      Some(Route(segments, totalDistance, totalRevenue, Ratio(totalRevenue, totalDistance)))
    else None
  }

  /** `find_multi_leg_route`: the greedy segments from `start`, summarized. */
  method FindMultiLegRoute(store: Store, start: CityId, now: int, maxLegs: int) returns (route: Option<Route>)
    ensures route == Summarize(Legs(store, start, now, maxLegs))
  {
    var segments: seq<ScoredOffer> := [];
    var totalDistance := 0.0;
    var totalRevenue := 0.0;
    var current := start;
    var i := 0;
    while i < maxLegs
      invariant 0 <= i
      invariant maxLegs > 0 ==> i <= maxLegs
      invariant Built(store, start, now, maxLegs, segments, current, i)
      invariant totalDistance == TotalDistance(segments)
      invariant totalRevenue == TotalRevenue(segments)
      decreases maxLegs - i
    {
      var offers := OffersByLoadingCity(store, current, now, DefaultWindowDays);
      if offers == [] {
        assert Legs(store, current, now, maxLegs - i) == [];
        break;
      }
      var formatted := FormatAll(offers);
      var best := formatted[MaxIndex(formatted)];
      assert Pick(store, current, now) == Some(best);
      LegsAdvance(store, start, now, maxLegs, segments, current, i, best);
      assert TotalDistance(segments + [best]) == totalDistance + Distance(best)
          && TotalRevenue(segments + [best]) == totalRevenue + Revenue(best) by {
        TotalsAppend(segments, best);
      }
      segments := segments + [best];
      totalDistance := totalDistance + Distance(best);
      totalRevenue := totalRevenue + Revenue(best);
      current := best.unloadingCity;
      i := i + 1;
    }
    assert Legs(store, current, now, maxLegs - i) == [];
    assert segments == Legs(store, start, now, maxLegs);
    if totalDistance > 0.0 && segments != [] {
      route := Some(Route(segments, totalDistance, totalRevenue, Ratio(totalRevenue, totalDistance)));
    } else {
      route := None;
    }
  }

  // ---------------------------------------------------------------------------
  // Properties of the greedy segments

  /** The city the `i`-th segment departs: the start, then each previous segment's destination. */
  function CityBefore(start: CityId, segments: seq<ScoredOffer>, i: nat): CityId
    requires i <= |segments|
  {
    if i == 0 then start else segments[i - 1].unloadingCity
  }

  /** The first segment departs `start` and every later one departs where the previous one unloads. */
  predicate Continuous(start: CityId, segments: seq<ScoredOffer>)
  {
    forall i :: 0 <= i < |segments| ==> segments[i].loadingCity == CityBefore(start, segments, i)
  }

  /** `s` is the first offer of highest ratio among the formatted offers leaving `city`. */
  ghost predicate PickedFrom(store: Store, city: CityId, now: int, s: ScoredOffer)
  {
    var choices := FormatAll(OffersByLoadingCity(store, city, now, DefaultWindowDays));
    exists k :: FirstMaximalAt(choices, k) && s == choices[k]
  }

  /** Every segment is the first offer of highest ratio leaving the city it departs. */
  ghost predicate GreedyChoices(store: Store, start: CityId, now: int, segments: seq<ScoredOffer>)
  {
    forall i :: 0 <= i < |segments| ==> PickedAt(store, start, now, segments, i)
  }

  /** The `i`-th segment is the greedy pick at the city it departs. */
  ghost predicate PickedAt(store: Store, start: CityId, now: int, segments: seq<ScoredOffer>, i: int)
    requires 0 <= i < |segments|
  {
    PickedFrom(store, CityBefore(start, segments, i), now, segments[i])
  }

  /** The greedy route is continuous. */
  lemma {:induction false} LegsConnect(store: Store, start: CityId, now: int, legs: int)
    ensures Continuous(start, Legs(store, start, now, legs))
    decreases legs
  {
    var segments := Legs(store, start, now, legs);
    if segments != [] {
      var best := segments[0];
      var rest := Legs(store, best.unloadingCity, now, legs - 1);
      assert Pick(store, start, now) == Some(best) && segments == [best] + rest;
      var formatted := FormatAll(OffersByLoadingCity(store, start, now, DefaultWindowDays));
      assert best == formatted[MaxIndex(formatted)];
      LegsConnect(store, best.unloadingCity, now, legs - 1);
      forall i | 1 <= i < |segments|
        ensures segments[i].loadingCity == CityBefore(start, segments, i)
      {
        assert segments[i] == rest[i - 1];
        assert rest[i - 1].loadingCity == CityBefore(best.unloadingCity, rest, i - 1);
        assert CityBefore(start, segments, i) == CityBefore(best.unloadingCity, rest, i - 1);
      }
    }
  }

  /**
   * Every segment of the greedy route is the first offer of highest ratio
   * among the formatted offers departing the city it starts from.
   */
  lemma {:induction false} LegsGreedy(store: Store, start: CityId, now: int, legs: int)
    ensures GreedyChoices(store, start, now, Legs(store, start, now, legs))
    decreases legs
  {
    var segments := Legs(store, start, now, legs);
    if segments != [] {
      var best := segments[0];
      var rest := Legs(store, best.unloadingCity, now, legs - 1);
      assert Pick(store, start, now) == Some(best) && segments == [best] + rest;
      assert PickedFrom(store, start, now, best) by {
        var formatted := FormatAll(OffersByLoadingCity(store, start, now, DefaultWindowDays));
        var k := MaxIndex(formatted);
        assert FirstMaximalAt(formatted, k) && best == formatted[k];
      }
      LegsGreedy(store, best.unloadingCity, now, legs - 1);
      GreedyChoicesCons(store, start, now, best, rest);
    }
  }

  /** A greedy pick at `start` followed by greedy choices from its destination is greedy. */
  lemma GreedyChoicesCons(store: Store, start: CityId, now: int, best: ScoredOffer, rest: seq<ScoredOffer>)
    requires PickedFrom(store, start, now, best)
    requires GreedyChoices(store, best.unloadingCity, now, rest)
    ensures GreedyChoices(store, start, now, [best] + rest)
  {
    var segments := [best] + rest;
    forall i | 0 <= i < |segments|
      ensures PickedAt(store, start, now, segments, i)
    {
      if i == 0 {
        assert segments[0] == best && CityBefore(start, segments, 0) == start;
      } else {
        assert PickedAt(store, best.unloadingCity, now, rest, i - 1);
        assert segments[i] == rest[i - 1] && CityBefore(start, segments, i) == CityBefore(best.unloadingCity, rest, i - 1);
      }
    }
  }

  /** The builder stops short of `legs` segments only where no offer departs the city it reached. */
  lemma {:induction false} LegsStopOnlyWhenStranded(store: Store, start: CityId, now: int, legs: int)
    ensures var segments := Legs(store, start, now, legs);
            |segments| < legs ==> OffersByLoadingCity(store, CityBefore(start, segments, |segments|), now, DefaultWindowDays) == []
    decreases legs
  {
    var segments := Legs(store, start, now, legs);
    if segments != [] {
      var best := segments[0];
      var rest := Legs(store, best.unloadingCity, now, legs - 1);
      assert Pick(store, start, now) == Some(best) && segments == [best] + rest;
      LegsStopOnlyWhenStranded(store, best.unloadingCity, now, legs - 1);
      assert CityBefore(start, segments, |segments|) == CityBefore(best.unloadingCity, rest, |rest|);
    }
  }

  /** No offer leaves the start: the builder returns no route. */
  lemma StrandedStartNoRoute(store: Store, start: CityId, now: int, legs: int)
    requires OffersByLoadingCity(store, start, now, DefaultWindowDays) == []
    ensures Summarize(Legs(store, start, now, legs)) == None
  {
  }
}

/** Concrete builder scenario: a shuttle between two cities runs the default three legs. */
module MultiLegScenario {
  import opened Wrappers
  import opened Offers
  import opened Repository
  import opened Scoring
  import opened MultiLeg
  import SingleLoadScenario

  /** The shuttle store: A -> B at 300 over 150 km and B -> A at 200 over 100 km, both posted at `now`. */
  function Shuttle(now: int): Store
  {
    Available([SingleLoadScenario.Load(1, 1, 2, 300.0, 150.0, now), SingleLoadScenario.Load(2, 2, 1, 200.0, 100.0, now)])
  }

  /** From either city the only departing offer is the pick. */
  lemma ShuttlePicks(now: int)
    ensures Pick(Shuttle(now), 1, now) == Some(FormatOffer(SingleLoadScenario.Load(1, 1, 2, 300.0, 150.0, now)))
    ensures Pick(Shuttle(now), 2, now) == Some(FormatOffer(SingleLoadScenario.Load(2, 2, 1, 200.0, 100.0, now)))
  {
    var ab, ba := SingleLoadScenario.Load(1, 1, 2, 300.0, 150.0, now), SingleLoadScenario.Load(2, 2, 1, 200.0, 100.0, now);
    var cutoff := Cutoff(now, DefaultWindowDays);
    assert [ab, ba][1..] == [ba] && [ba][1..] == [];
    assert Departing([ab, ba], 1, cutoff) == [ab];
    assert Departing([ab, ba], 2, cutoff) == [ba];
    assert FormatAll([ab]) == [FormatOffer(ab)];
    assert FormatAll([ba]) == [FormatOffer(ba)];
  }

  /**
   * With the default bound the builder goes A -> B -> A -> B and stops at
   * three legs: 400 km for 800, so 2 per km.
   */
  lemma ShuttleRunsDefaultLegs(now: int)
    ensures var route := Summarize(Legs(Shuttle(now), 1, now, DefaultMaxLegs));
            && route.Some?
            && |route.value.segments| == DefaultMaxLegs
            && route.value.totalDistance == 400.0
            && route.value.totalRevenue == 800.0
            && route.value.pricePerKm == 2.0
  {
    var store := Shuttle(now);
    var fab := FormatOffer(SingleLoadScenario.Load(1, 1, 2, 300.0, 150.0, now));
    var fba := FormatOffer(SingleLoadScenario.Load(2, 2, 1, 200.0, 100.0, now));
    assert Legs(store, 1, now, DefaultMaxLegs) == [fab, fba, fab] by {
      ShuttlePicks(now);
      assert Legs(store, 2, now, 0) == [];
      assert Legs(store, 1, now, 1) == [fab];
      assert Legs(store, 2, now, 2) == [fba, fab];
    }
    assert TotalDistance([fab, fba, fab]) == 400.0 && TotalRevenue([fab, fba, fab]) == 800.0 by {
      TotalsPair(fab, fba);
      TotalsAppend([fab, fba], fab);
      assert [fab, fba] + [fab] == [fab, fba, fab];
    }
    assert Ratio(800.0, 400.0) == 2.0;
  }
}
