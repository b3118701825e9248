/**
 * The point-to-point router, `RoutePlanner.find_single_load_a_to_b`: the
 * direct offers from start to end when there are any; otherwise the first
 * two-leg connection start -> C -> end, in the order the offers are visited,
 * whose aggregate ratio reaches the `bad_rate` floor.
 */
module PointToPoint {
  import opened Offers
  import opened Repository
  import opened Scoring

  /** What the router returns: formatted direct offers, or combined two-leg routes. */
  datatype Plan = DirectOffers(offers: seq<ScoredOffer>) | Connections(routes: seq<Route>)

  /** `[o for o in offers if o[5] == end_city_id]`. */
  function ToCity(offers: seq<Offer>, end: CityId): (r: seq<Offer>)
    ensures |r| <= |offers|
    ensures forall o :: o in r <==> o in offers && o.unloadingCity == end
  {
    if offers == [] then []
    else if offers[0].unloadingCity == end then [offers[0]] + ToCity(offers[1..], end)
    else ToCity(offers[1..], end)
  }

  /** The offers that could form a second leg after `a`: those departing `a`'s destination. */
  function Onward(store: Store, a: Offer, now: int): seq<Offer>
  {
    OffersByLoadingCity(store, a.unloadingCity, now, DefaultWindowDays)
  }

  /** The pair `a`, `b` arrives at `end` and its combined ratio reaches the floor. */
  predicate Qualifies(a: Offer, b: Offer, end: CityId, badRate: real)
  {
    b.unloadingCity == end && CombineOffers(a, b).pricePerKm >= badRate
  }

  /** The inner loop: the qualifying combinations of `a` with the offers `bs`, in order. */
  function PairsWith(a: Offer, bs: seq<Offer>, end: CityId, badRate: real): seq<Route>
  {
    if bs == [] then []
    else
      var b := bs[|bs| - 1];
      PairsWith(a, bs[..|bs| - 1], end, badRate) + (if Qualifies(a, b, end, badRate) then [CombineOffers(a, b)] else [])
  }

  /** The outer loop: `intermediate_offers` after visiting the first legs `firstLegs`. */
  function Candidates(store: Store, firstLegs: seq<Offer>, end: CityId, now: int, badRate: real): seq<Route>
  {
    if firstLegs == [] then []
    else
      var a := firstLegs[|firstLegs| - 1];
      Candidates(store, firstLegs[..|firstLegs| - 1], end, now, badRate) + PairsWith(a, Onward(store, a, now), end, badRate)
  }

  /** `intermediate_offers[:1]`. */
  function First(routes: seq<Route>): (r: seq<Route>)
    ensures |r| <= 1
    ensures routes != [] ==> r == [routes[0]]
    ensures routes == [] ==> r == []
  {
    if routes == [] then [] else routes[..1]
  }

  /**
   * `find_single_load_a_to_b`. With a direct offer it returns exactly the
   * formatted direct offers after one repository query and searches no
   * further; otherwise it returns the first of the qualifying two-leg
   * combinations, having queried once more for the first legs and once per
   * first leg for the second legs.
   */
  method FindSingleLoadAToB(store: Store, start: CityId, end: CityId, now: int, badRate: real)
    returns (plan: Plan, ghost queries: nat)
    ensures var direct := ToCity(OffersByLoadingCity(store, start, now, DefaultWindowDays), end);
            direct != [] ==> plan == DirectOffers(FormatAll(direct))
    ensures var firstLegs := OffersByLoadingCity(store, start, now, DefaultWindowDays);
            ToCity(firstLegs, end) == [] ==> plan == Connections(First(Candidates(store, firstLegs, end, now, badRate)))
    ensures ToCity(OffersByLoadingCity(store, start, now, DefaultWindowDays), end) != [] ==> queries == 1
    ensures var firstLegs := OffersByLoadingCity(store, start, now, DefaultWindowDays);
            ToCity(firstLegs, end) == [] ==> queries == 2 + |firstLegs|
  {
    var direct := ToCity(OffersByLoadingCity(store, start, now, DefaultWindowDays), end);
    queries := 1;
    if direct != [] {
      plan := DirectOffers(FormatAll(direct));
      return;
    }
    var intermediate: seq<Route> := [];
    var firstLegs := OffersByLoadingCity(store, start, now, DefaultWindowDays);
    queries := queries + 1;
    var i := 0;
    while i < |firstLegs|
      invariant 0 <= i <= |firstLegs|
      invariant intermediate == Candidates(store, firstLegs[..i], end, now, badRate)
      invariant queries == 2 + i
    {
      var a := firstLegs[i];
      var secondLegs := OffersByLoadingCity(store, a.unloadingCity, now, DefaultWindowDays);
      queries := queries + 1;
      var j := 0;
      while j < |secondLegs|
        invariant 0 <= j <= |secondLegs|
        invariant intermediate == Candidates(store, firstLegs[..i], end, now, badRate) + PairsWith(a, secondLegs[..j], end, badRate)
      {
        var b := secondLegs[j];
        PairsWithStep(a, secondLegs, j, end, badRate);
        if b.unloadingCity == end {
          var route := CombineOffers(a, b);
          if route.pricePerKm >= badRate {
            intermediate := intermediate + [route];
          }
        }
        j := j + 1;
      }
      assert secondLegs[..j] == secondLegs;
      CandidatesStep(store, firstLegs, i, end, now, badRate);
      i := i + 1;
    }
    assert firstLegs[..i] == firstLegs;
    plan := Connections(First(intermediate));
  }

  /** One turn of the inner loop: the pair with `bs[j]` is kept exactly when it qualifies. */
  lemma PairsWithStep(a: Offer, bs: seq<Offer>, j: int, end: CityId, badRate: real)
    requires 0 <= j < |bs|
    ensures PairsWith(a, bs[..j + 1], end, badRate)
            == PairsWith(a, bs[..j], end, badRate) + (if Qualifies(a, bs[j], end, badRate) then [CombineOffers(a, bs[j])] else [])
  {
    assert bs[..j + 1][..j] == bs[..j];
  }

  /** One turn of the outer loop: the pairs of `firstLegs[i]` follow those found so far. */
  lemma CandidatesStep(store: Store, firstLegs: seq<Offer>, i: int, end: CityId, now: int, badRate: real)
    requires 0 <= i < |firstLegs|
    ensures Candidates(store, firstLegs[..i + 1], end, now, badRate)
            == Candidates(store, firstLegs[..i], end, now, badRate) + PairsWith(firstLegs[i], Onward(store, firstLegs[i], now), end, badRate)
  {
    assert firstLegs[..i + 1][..i] == firstLegs[..i];
  }

  // ---------------------------------------------------------------------------
  // Properties of the router

  /** Every direct offer departs the start and arrives at the end. */
  lemma DirectOffersConnect(store: Store, start: CityId, end: CityId, now: int)
    ensures var direct := FormatAll(ToCity(OffersByLoadingCity(store, start, now, DefaultWindowDays), end));
            forall i :: 0 <= i < |direct| ==> direct[i].loadingCity == start && direct[i].unloadingCity == end
  {
    var offers := ToCity(OffersByLoadingCity(store, start, now, DefaultWindowDays), end);
    forall i | 0 <= i < |offers|
      ensures offers[i].loadingCity == start && offers[i].unloadingCity == end
    {
      assert offers[i] in offers;
    }
  }

  /** A two-leg connection from `start` through one city to `end` whose ratio reaches the floor. */
  predicate IsConnection(r: Route, start: CityId, end: CityId, badRate: real)
  {
    && |r.segments| == 2
    && r.segments[0].loadingCity == start
    && r.segments[0].unloadingCity == r.segments[1].loadingCity
    && r.segments[1].unloadingCity == end
    && r.pricePerKm >= badRate
  }

  lemma {:induction false} PairsWithConnect(a: Offer, bs: seq<Offer>, start: CityId, end: CityId, badRate: real)
    requires a.loadingCity == start
    requires forall j :: 0 <= j < |bs| ==> bs[j].loadingCity == a.unloadingCity
    ensures forall r :: r in PairsWith(a, bs, end, badRate) ==> IsConnection(r, start, end, badRate)
    decreases |bs|
  {
    if bs != [] {
      PairsWithConnect(a, bs[..|bs| - 1], start, end, badRate);
    }
  }

  lemma {:induction false} CandidatesConnect(store: Store, firstLegs: seq<Offer>, start: CityId, end: CityId, now: int, badRate: real)
    requires forall i :: 0 <= i < |firstLegs| ==> firstLegs[i].loadingCity == start
    ensures forall r :: r in Candidates(store, firstLegs, end, now, badRate) ==> IsConnection(r, start, end, badRate)
    decreases |firstLegs|
  {
    if firstLegs != [] {
      var a := firstLegs[|firstLegs| - 1];
      CandidatesConnect(store, firstLegs[..|firstLegs| - 1], start, end, now, badRate);
      PairsWithConnect(a, Onward(store, a, now), start, end, badRate);
    }
  }

  /** The pair of the `i`-th first leg and the `j`-th offer onward from it qualifies. */
  predicate QualifiesAt(store: Store, firstLegs: seq<Offer>, end: CityId, now: int, badRate: real, i: int, j: int)
  {
    && 0 <= i < |firstLegs|
    && 0 <= j < |Onward(store, firstLegs[i], now)|
    && Qualifies(firstLegs[i], Onward(store, firstLegs[i], now)[j], end, badRate)
  }

  /** The inner loop finds nothing exactly when no second leg qualifies. */
  lemma {:induction false} PairsWithEmpty(a: Offer, bs: seq<Offer>, end: CityId, badRate: real)
    ensures PairsWith(a, bs, end, badRate) == [] <==> forall j :: 0 <= j < |bs| ==> !Qualifies(a, bs[j], end, badRate)
    decreases |bs|
  {
    if bs != [] {
      PairsWithEmpty(a, bs[..|bs| - 1], end, badRate);
    }
  }

  /** `bs[j]` is the first second leg that qualifies with `a`. */
  predicate FirstQualifyingAt(a: Offer, bs: seq<Offer>, end: CityId, badRate: real, j: int)
  {
    && 0 <= j < |bs|
    && Qualifies(a, bs[j], end, badRate)
    && forall j' :: 0 <= j' < j ==> !Qualifies(a, bs[j'], end, badRate)
  }

  /** The first combination the inner loop keeps is the one with the first qualifying second leg. */
  lemma {:induction false} PairsWithFirst(a: Offer, bs: seq<Offer>, end: CityId, badRate: real)
    requires PairsWith(a, bs, end, badRate) != []
    ensures exists j :: FirstQualifyingAt(a, bs, end, badRate, j) && PairsWith(a, bs, end, badRate)[0] == CombineOffers(a, bs[j])
    decreases |bs|
  {
    var bs' := bs[..|bs| - 1];
    var b := bs[|bs| - 1];
    var tail := if Qualifies(a, b, end, badRate) then [CombineOffers(a, b)] else [];
    assert PairsWith(a, bs, end, badRate) == PairsWith(a, bs', end, badRate) + tail;
    if PairsWith(a, bs', end, badRate) != [] {
      PairsWithFirst(a, bs', end, badRate);
      var j :| FirstQualifyingAt(a, bs', end, badRate, j) && PairsWith(a, bs', end, badRate)[0] == CombineOffers(a, bs'[j]);
      assert PairsWith(a, bs, end, badRate)[0] == PairsWith(a, bs', end, badRate)[0];
      assert forall j' :: 0 <= j' <= j ==> bs[j'] == bs'[j'];
      assert FirstQualifyingAt(a, bs, end, badRate, j);
    } else {
      PairsWithEmpty(a, bs', end, badRate);
      var j := |bs| - 1;
      assert forall j' :: 0 <= j' < j ==> bs[j'] == bs'[j'];
      assert FirstQualifyingAt(a, bs, end, badRate, j);
    }
  }

  /** Extending the first legs at the end leaves the earlier pairs as they were. */
  lemma QualifiesAtPrefix(store: Store, firstLegs: seq<Offer>, end: CityId, now: int, badRate: real, i: int, j: int)
    requires 0 <= i < |firstLegs| - 1
    ensures QualifiesAt(store, firstLegs, end, now, badRate, i, j) <==>
            QualifiesAt(store, firstLegs[..|firstLegs| - 1], end, now, badRate, i, j)
  {
    assert firstLegs[..|firstLegs| - 1][i] == firstLegs[i];
  }

  /** The search finds nothing exactly when no pair of legs qualifies. */
  lemma {:induction false} CandidatesEmpty(store: Store, firstLegs: seq<Offer>, end: CityId, now: int, badRate: real)
    ensures Candidates(store, firstLegs, end, now, badRate) == [] <==>
            forall i, j :: !QualifiesAt(store, firstLegs, end, now, badRate, i, j)
    decreases |firstLegs|
  {
    if firstLegs != [] {
      var n := |firstLegs| - 1;
      var legs' := firstLegs[..n];
      var a := firstLegs[n];
      var bs := Onward(store, a, now);
      CandidatesEmpty(store, legs', end, now, badRate);
      PairsWithEmpty(a, bs, end, badRate);
      if Candidates(store, firstLegs, end, now, badRate) == [] {
        forall i, j
          ensures !QualifiesAt(store, firstLegs, end, now, badRate, i, j)
        {
          if 0 <= i < n {
            QualifiesAtPrefix(store, firstLegs, end, now, badRate, i, j);
            assert !QualifiesAt(store, legs', end, now, badRate, i, j);
          } else if i == n && 0 <= j < |bs| {
            assert !Qualifies(a, bs[j], end, badRate);
          }
        }
      } else {
        if Candidates(store, legs', end, now, badRate) != [] {
          var i, j :| QualifiesAt(store, legs', end, now, badRate, i, j);
          QualifiesAtPrefix(store, firstLegs, end, now, badRate, i, j);
        } else {
          var j :| 0 <= j < |bs| && Qualifies(a, bs[j], end, badRate);
          assert QualifiesAt(store, firstLegs, end, now, badRate, n, j);
        }
      }
    }
  }

  /** (i', j') comes before (i, j) in the order the nested loops visit pairs. */
  predicate VisitedBefore(i': int, j': int, i: int, j: int)
  {
    i' < i || (i' == i && j' < j)
  }

  /**
   * The first combination the search keeps is the one of the first
   * qualifying pair in A-then-B iteration order.
   */
  lemma {:induction false} CandidatesFirst(store: Store, firstLegs: seq<Offer>, end: CityId, now: int, badRate: real)
    requires Candidates(store, firstLegs, end, now, badRate) != []
    ensures exists i, j :: QualifiesAt(store, firstLegs, end, now, badRate, i, j)
              && Candidates(store, firstLegs, end, now, badRate)[0] == CombineOffers(firstLegs[i], Onward(store, firstLegs[i], now)[j])
              && forall i', j' :: VisitedBefore(i', j', i, j) ==> !QualifiesAt(store, firstLegs, end, now, badRate, i', j')
    decreases |firstLegs|
  {
    var n := |firstLegs| - 1;
    var legs' := firstLegs[..n];
    var a := firstLegs[n];
    var bs := Onward(store, a, now);
    var first := Candidates(store, firstLegs, end, now, badRate)[0];
    if Candidates(store, legs', end, now, badRate) != [] {
      CandidatesFirst(store, legs', end, now, badRate);
      var i, j :| QualifiesAt(store, legs', end, now, badRate, i, j)
                 && Candidates(store, legs', end, now, badRate)[0] == CombineOffers(legs'[i], Onward(store, legs'[i], now)[j])
                 && forall i', j' :: VisitedBefore(i', j', i, j) ==> !QualifiesAt(store, legs', end, now, badRate, i', j');
      assert legs'[i] == firstLegs[i];
      QualifiesAtPrefix(store, firstLegs, end, now, badRate, i, j);
      forall i', j' | VisitedBefore(i', j', i, j)
        ensures !QualifiesAt(store, firstLegs, end, now, badRate, i', j')
      {
        if 0 <= i' {
          QualifiesAtPrefix(store, firstLegs, end, now, badRate, i', j');
        }
      }
      assert first == CombineOffers(firstLegs[i], Onward(store, firstLegs[i], now)[j]);
      assert QualifiesAt(store, firstLegs, end, now, badRate, i, j);
    } else {
      CandidatesEmpty(store, legs', end, now, badRate);
      PairsWithFirst(a, bs, end, badRate);
      var j :| FirstQualifyingAt(a, bs, end, badRate, j) && PairsWith(a, bs, end, badRate)[0] == CombineOffers(a, bs[j]);
      forall i', j' | VisitedBefore(i', j', n, j)
        ensures !QualifiesAt(store, firstLegs, end, now, badRate, i', j')
      {
        if 0 <= i' < n {
          QualifiesAtPrefix(store, firstLegs, end, now, badRate, i', j');
          assert !QualifiesAt(store, legs', end, now, badRate, i', j');
        }
      }
      assert first == CombineOffers(firstLegs[n], Onward(store, firstLegs[n], now)[j]);
      assert QualifiesAt(store, firstLegs, end, now, badRate, n, j);
    }
  }

  /**
   * What the router promises when there is no direct offer: at most one
   * route; none exactly when no pair of legs qualifies; otherwise a two-leg
   * connection from start to end reaching the floor, built from the first
   * qualifying pair in A-then-B iteration order.
   */
  lemma IndirectPlan(store: Store, start: CityId, end: CityId, now: int, badRate: real)
    ensures var firstLegs := OffersByLoadingCity(store, start, now, DefaultWindowDays);
            var routes := First(Candidates(store, firstLegs, end, now, badRate));
            && |routes| <= 1
            && (routes == [] <==> forall i, j :: !QualifiesAt(store, firstLegs, end, now, badRate, i, j))
            && (routes != [] ==>
                  && IsConnection(routes[0], start, end, badRate)
                  && exists i, j :: QualifiesAt(store, firstLegs, end, now, badRate, i, j)
                       && routes[0] == CombineOffers(firstLegs[i], Onward(store, firstLegs[i], now)[j])
                       && forall i', j' :: VisitedBefore(i', j', i, j) ==> !QualifiesAt(store, firstLegs, end, now, badRate, i', j'))
  {
    var firstLegs := OffersByLoadingCity(store, start, now, DefaultWindowDays);
    var candidates := Candidates(store, firstLegs, end, now, badRate);
    CandidatesEmpty(store, firstLegs, end, now, badRate);
    if candidates != [] {
      CandidatesConnect(store, firstLegs, start, end, now, badRate);
      assert candidates[0] in candidates;
      CandidatesFirst(store, firstLegs, end, now, badRate);
    }
  }
}
