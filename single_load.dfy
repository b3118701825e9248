/**
 * The single-load selector, `RoutePlanner.find_single_load_anywhere`: the
 * offers departing a city, formatted, sorted by price per km in descending
 * order (an undefined ratio ranked as 0) with Python's stable `sorted`, and
 * cut to the first five.
 */
module SingleLoad {
  import opened Offers
  import opened Repository
  import opened Scoring

  /** The slice `[:5]`. */
  const TopLoads: nat := 5

  function Min(a: nat, b: nat): nat
  {
    if a <= b then a else b
  }

  /** Non-increasing in the ranking key. */
  predicate SortedByRatio(s: seq<ScoredOffer>)
  {
    forall i, j :: 0 <= i < j < |s| ==> RankKey(s[i]) >= RankKey(s[j])
  }

  /** The subsequence of `s` whose ranking key is `k`, in the order of `s`. */
  function WithKey(s: seq<ScoredOffer>, k: real): seq<ScoredOffer>
  {
    if s == [] then []
    else (if RankKey(s[0]) == k then [s[0]] else []) + WithKey(s[1..], k)
  }

  /**
   * Places `x` after every element whose key is at least its own: inserting
   * a later element into a sorted prefix keeps equal keys in arrival order.
   */
  function Insert(t: seq<ScoredOffer>, x: ScoredOffer): (r: seq<ScoredOffer>)
    ensures |r| == |t| + 1
    ensures multiset(r) == multiset(t) + multiset{x}
  {
    if t == [] then [x]
    else if RankKey(t[0]) < RankKey(x) then [x] + t
    else
      assert t == [t[0]] + t[1..];
      [t[0]] + Insert(t[1..], x)
  }

  /** Python's `sorted(s, key=RankKey, reverse=True)`, as an insertion sort. */
  function Sort(s: seq<ScoredOffer>): (r: seq<ScoredOffer>)
    ensures |r| == |s|
    ensures multiset(r) == multiset(s)
  {
    if s == [] then []
    else
      assert s == s[..|s| - 1] + [s[|s| - 1]];
      Insert(Sort(s[..|s| - 1]), s[|s| - 1])
  }

  /**
   * `find_single_load_anywhere`: at most five offers, every one departing the
   * queried city.
   */
  function FindSingleLoadAnywhere(store: Store, city: CityId, now: int): (r: seq<ScoredOffer>)
    ensures |r| == Min(TopLoads, |OffersByLoadingCity(store, city, now, DefaultWindowDays)|)
    ensures forall i :: 0 <= i < |r| ==> r[i].loadingCity == city
  {
    var formatted := FormatAll(OffersByLoadingCity(store, city, now, DefaultWindowDays));
    var ranked := Sort(formatted);
    forall i | 0 <= i < |ranked|
      ensures ranked[i].loadingCity == city
    {
      assert ranked[i] in multiset(formatted);
    }
    ranked[..Min(TopLoads, |ranked|)]
  }

  // ---------------------------------------------------------------------------
  // Properties of the stable sort

  lemma {:induction false} WithKeyConcat(a: seq<ScoredOffer>, b: seq<ScoredOffer>, k: real)
    ensures WithKey(a + b, k) == WithKey(a, k) + WithKey(b, k)
    decreases |a|
  {
    if a == [] {
      assert a + b == b;
    } else {
      assert (a + b)[0] == a[0] && (a + b)[1..] == a[1..] + b;
      WithKeyConcat(a[1..], b, k);
    }
  }

  lemma {:induction false} WithKeyNone(s: seq<ScoredOffer>, k: real)
    requires forall i :: 0 <= i < |s| ==> RankKey(s[i]) != k
    ensures WithKey(s, k) == []
    decreases |s|
  {
    if s != [] {
      WithKeyNone(s[1..], k);
    }
  }

  lemma {:induction false} WithKeySingle(x: ScoredOffer, k: real)
    ensures WithKey([x], k) == if RankKey(x) == k then [x] else []
  {
    assert [x][1..] == [];
  }

  /** Inserting into a sorted sequence keeps it sorted. */
  lemma {:induction false} InsertSorted(t: seq<ScoredOffer>, x: ScoredOffer)
    requires SortedByRatio(t)
    ensures SortedByRatio(Insert(t, x))
    decreases |t|
  {
    if t != [] && RankKey(x) <= RankKey(t[0]) {
      var r := Insert(t, x);
      var u := Insert(t[1..], x);
      assert r == [t[0]] + u;
      InsertSorted(t[1..], x);
      forall j | 0 < j < |r|
        ensures RankKey(r[0]) >= RankKey(r[j])
      {
        assert r[j] == u[j - 1];
        assert u[j - 1] in multiset(t[1..]) + multiset{x};
        if u[j - 1] in multiset(t[1..]) {
          var m :| 0 <= m < |t[1..]| && t[1..][m] == u[j - 1];
          assert t[m + 1] == u[j - 1];
        }
      }
    }
  }

  /** Inserting into a sorted sequence puts `x` last among the elements of its key. */
  lemma {:induction false} InsertWithKey(t: seq<ScoredOffer>, x: ScoredOffer, k: real)
    requires SortedByRatio(t)
    ensures WithKey(Insert(t, x), k) == WithKey(t, k) + WithKey([x], k)
    decreases |t|
  {
    if t == [] {
      assert Insert(t, x) == [x];
      assert WithKey(t, k) == [];
    } else if RankKey(t[0]) < RankKey(x) {
      InsertWithKeyFront(t, x, k);
    } else {
      InsertWithKey(t[1..], x, k);
      assert Insert(t, x) == [t[0]] + Insert(t[1..], x);
      WithKeyLater(t, Insert(t[1..], x), WithKey([x], k), k);
    }
  }

  /** `x` outranks the head of a sorted `t`, so no element of `t` shares its key. */
  lemma InsertWithKeyFront(t: seq<ScoredOffer>, x: ScoredOffer, k: real)
    requires SortedByRatio(t) && t != [] && RankKey(t[0]) < RankKey(x)
    ensures WithKey(Insert(t, x), k) == WithKey(t, k) + WithKey([x], k)
  {
    assert Insert(t, x) == [x] + t;
    WithKeyCons(x, t, k);
    WithKeySingle(x, k);
    if RankKey(x) == k {
      assert forall i :: 0 <= i < |t| ==> RankKey(t[i]) <= RankKey(t[0]);
      WithKeyNone(t, k);
    }
  }

  /** Putting the head of `t` back in front of `u` adds the same class members to both sides. */
  lemma WithKeyLater(t: seq<ScoredOffer>, u: seq<ScoredOffer>, w: seq<ScoredOffer>, k: real)
    requires t != [] && WithKey(u, k) == WithKey(t[1..], k) + w
    ensures WithKey([t[0]] + u, k) == WithKey(t, k) + w
  {
    WithKeyCons(t[0], u, k);
  }

  /** The sort returns a sequence ordered by ratio that keeps each ratio's offers in input order. */
  lemma {:induction false} SortSorted(s: seq<ScoredOffer>)
    ensures SortedByRatio(Sort(s))
    ensures forall k :: WithKey(Sort(s), k) == WithKey(s, k)
    decreases |s|
  {
    if s != [] {
      var s' := s[..|s| - 1];
      var x := s[|s| - 1];
      SortSorted(s');
      InsertSorted(Sort(s'), x);
      assert s == s' + [x];
      forall k
        ensures WithKey(Sort(s), k) == WithKey(s, k)
      {
        InsertWithKey(Sort(s'), x, k);
        WithKeyConcat(s', [x], k);
      }
    }
  }

  /**
   * The sort is the only stable descending sort: any sequence that is ordered
   * by ratio and keeps, for every ratio, the offers of that ratio in their
   * original order, equals `Sort(s)`.
   */
  lemma SortUnique(s: seq<ScoredOffer>, r: seq<ScoredOffer>)
    requires SortedByRatio(r)
    requires SameClasses(r, s)
    ensures r == Sort(s)
  {
    SortSorted(s);
    assert SameClasses(r, Sort(s));
    SortedSameClassesEqual(r, Sort(s));
  }

  lemma {:induction false} WithKeyMember(s: seq<ScoredOffer>, k: real, y: ScoredOffer)
    requires y in WithKey(s, k)
    ensures y in s && RankKey(y) == k
    decreases |s|
  {
    if y in WithKey(s[1..], k) {
      WithKeyMember(s[1..], k, y);
    }
  }

  /** Same offers per ratio, in the same order. */
  ghost predicate SameClasses(a: seq<ScoredOffer>, b: seq<ScoredOffer>)
  {
    forall k :: WithKey(a, k) == WithKey(b, k)
  }

  lemma WithKeyCons(x: ScoredOffer, s: seq<ScoredOffer>, k: real)
    ensures WithKey([x] + s, k) == (if RankKey(x) == k then [x] else []) + WithKey(s, k)
  {
    assert ([x] + s)[0] == x && ([x] + s)[1..] == s;
  }

  /** No offer of a ratio-sorted sequence ranks above its first one. */
  lemma SortedHeadMax(a: seq<ScoredOffer>, y: ScoredOffer)
    requires SortedByRatio(a) && y in a
    ensures RankKey(y) <= RankKey(a[0])
  {
    var i :| 0 <= i < |a| && a[i] == y;
  }

  /** In a sequence whose first offer has the key `k`, the class of `k` starts with that offer. */
  lemma ClassOfHead(a: seq<ScoredOffer>, k: real)
    requires a != [] && RankKey(a[0]) == k
    ensures WithKey(a, k) != [] && WithKey(a, k)[0] == a[0]
  {
    assert a == [a[0]] + a[1..];
    WithKeyCons(a[0], a[1..], k);
  }

  /** Ratio-sorted sequences with the same classes start with the same offer. */
  lemma SameClassesHead(a: seq<ScoredOffer>, b: seq<ScoredOffer>)
    requires SortedByRatio(a) && SortedByRatio(b) && SameClasses(a, b)
    requires a != [] && b != []
    ensures a[0] == b[0]
  {
    var ka, kb := RankKey(a[0]), RankKey(b[0]);
    ClassOfHead(a, ka);
    ClassOfHead(b, kb);
    assert WithKey(a, kb) == WithKey(b, kb);
    assert WithKey(b, ka) == WithKey(a, ka);
    WithKeyMember(a, kb, b[0]);
    WithKeyMember(b, ka, a[0]);
    SortedHeadMax(a, b[0]);
    SortedHeadMax(b, a[0]);
  }

  /** Removing the same first offer from both keeps the classes equal. */
  lemma SameClassesTail(a: seq<ScoredOffer>, b: seq<ScoredOffer>)
    requires a != [] && b != [] && a[0] == b[0] && SameClasses(a, b)
    ensures SameClasses(a[1..], b[1..])
  {
    assert a == [a[0]] + a[1..] && b == [b[0]] + b[1..];
    forall k
      ensures WithKey(a[1..], k) == WithKey(b[1..], k)
    {
      WithKeyCons(a[0], a[1..], k);
      WithKeyCons(b[0], b[1..], k);
      assert WithKey(a, k) == WithKey(b, k);
      var h := if RankKey(a[0]) == k then [a[0]] else [];
      assert WithKey(a[1..], k) == (h + WithKey(a[1..], k))[|h|..];
      assert WithKey(b[1..], k) == (h + WithKey(b[1..], k))[|h|..];
    }
  }

  /** A nonempty sequence has a nonempty class, so it cannot share classes with the empty sequence. */
  lemma SameClassesEmpty(a: seq<ScoredOffer>, b: seq<ScoredOffer>)
    requires SameClasses(a, b) && a == []
    ensures b == []
  {
    if b != [] {
      var k := RankKey(b[0]);
      ClassOfHead(b, k);
      WithKeyNone(a, k);
    }
  }

  /** Two ratio-sorted sequences with the same offers per ratio, in the same order, are equal. */
  lemma {:induction false} SortedSameClassesEqual(a: seq<ScoredOffer>, b: seq<ScoredOffer>)
    requires SortedByRatio(a) && SortedByRatio(b) && SameClasses(a, b)
    ensures a == b
    decreases |a|
  {
    if a == [] {
      SameClassesEmpty(a, b);
    } else if b == [] {
      SameClassesEmpty(b, a);
    } else {
      SameClassesHead(a, b);
      SameClassesTail(a, b);
      SortedSameClassesEqual(a[1..], b[1..]);
      assert a == [a[0]] + a[1..] && b == [b[0]] + b[1..];
    }
  }

  // ---------------------------------------------------------------------------
  // Properties of the selector

  /** Every offer after the first `m` of a ratio-sorted sequence ranks no higher than those `m`. */
  lemma PrefixRanksAbove(ranked: seq<ScoredOffer>, m: nat)
    requires m <= |ranked| && SortedByRatio(ranked)
    ensures multiset(ranked[..m]) <= multiset(ranked)
    ensures forall i, y :: 0 <= i < m && y in multiset(ranked) - multiset(ranked[..m]) ==> RankKey(y) <= RankKey(ranked[i])
  {
    var top, rest := ranked[..m], ranked[m..];
    assert ranked == top + rest;
    assert multiset(ranked) == multiset(top) + multiset(rest);
    forall i, y | 0 <= i < m && y in multiset(ranked) - multiset(top)
      ensures RankKey(y) <= RankKey(ranked[i])
    {
      assert y in rest;
      var j :| 0 <= j < |rest| && rest[j] == y;
      assert ranked[m + j] == y;
    }
  }

  /** The first `m` offers keep, per ratio, a prefix of that ratio's offers. */
  lemma PrefixClasses(ranked: seq<ScoredOffer>, m: nat)
    requires m <= |ranked|
    ensures forall k :: WithKey(ranked[..m], k) <= WithKey(ranked, k)
  {
    assert ranked == ranked[..m] + ranked[m..];
    forall k
      ensures WithKey(ranked[..m], k) <= WithKey(ranked, k)
    {
      WithKeyConcat(ranked[..m], ranked[m..], k);
    }
  }

  /**
   * The selection is the top of the departing offers: it is ordered by ratio,
   * drawn from the formatted departing offers, holds min(5, n) of them, every
   * offer left out ranks no higher than any offer kept, and within one ratio
   * the kept offers are the first ones in repository order.
   */
  lemma SingleLoadIsTop(store: Store, city: CityId, now: int)
    ensures var formatted := FormatAll(OffersByLoadingCity(store, city, now, DefaultWindowDays));
            var r := FindSingleLoadAnywhere(store, city, now);
            && SortedByRatio(r)
            && |r| == Min(TopLoads, |formatted|)
            && multiset(r) <= multiset(formatted)
            && (forall i, y :: 0 <= i < |r| && y in multiset(formatted) - multiset(r) ==> RankKey(y) <= RankKey(r[i]))
            && (forall k :: WithKey(r, k) <= WithKey(formatted, k))
  {
    var formatted := FormatAll(OffersByLoadingCity(store, city, now, DefaultWindowDays));
    var ranked := Sort(formatted);
    var m := Min(TopLoads, |ranked|);
    assert FindSingleLoadAnywhere(store, city, now) == ranked[..m];
    SortSorted(formatted);
    PrefixRanksAbove(ranked, m);
    PrefixClasses(ranked, m);
  }
}

/** Concrete selector scenario: of two loads leaving one city, the better rate ranks first. */
module SingleLoadScenario {
  import opened Wrappers
  import opened Offers
  import opened Repository
  import opened Scoring
  import opened SingleLoad

  function Load(id: int, from: CityId, to: CityId, price: real, distance: real, at: int): Offer
  {
    Offer(id, "email", at, "dispatch", from, to, Some(price), None, None, Some(distance), None, None, "")
  }

  lemma RatiosOfLoads(now: int)
    ensures FormatOffer(Load(1, 1, 2, 300.0, 150.0, now)).pricePerKm == Some(2.0)
    ensures FormatOffer(Load(2, 1, 3, 250.0, 100.0, now)).pricePerKm == Some(2.5)
  {
  }

  lemma SortTwo(x: ScoredOffer, y: ScoredOffer)
    requires RankKey(x) < RankKey(y)
    ensures Sort([x, y]) == [y, x]
  {
    assert [x, y][..1] == [x];
    assert [x][..0] == [];
  }

  /** The two formatted loads sort with the better rate first. */
  lemma SortLoads(now: int)
    ensures var ab, ac := Load(1, 1, 2, 300.0, 150.0, now), Load(2, 1, 3, 250.0, 100.0, now);
            Sort(FormatAll([ab, ac])) == [FormatOffer(ac), FormatOffer(ab)]
  {
    var ab, ac := Load(1, 1, 2, 300.0, 150.0, now), Load(2, 1, 3, 250.0, 100.0, now);
    var f := FormatAll([ab, ac]);
    assert f == [FormatOffer(ab), FormatOffer(ac)];
    RatiosOfLoads(now);
    SortTwo(f[0], f[1]);
  }

  /** A -> B at 300 over 150 km (2.0 per km) and A -> C at 250 over 100 km (2.5 per km). */
  lemma BetterRateRanksFirst(now: int)
    ensures var r := FindSingleLoadAnywhere(Available([Load(1, 1, 2, 300.0, 150.0, now), Load(2, 1, 3, 250.0, 100.0, now)]), 1, now);
            |r| == 2 && r[0].unloadingCity == 3 && r[1].unloadingCity == 2
            && r[0].pricePerKm == Some(2.5) && r[1].pricePerKm == Some(2.0)
  {
    var ab, ac := Load(1, 1, 2, 300.0, 150.0, now), Load(2, 1, 3, 250.0, 100.0, now);
    assert FindSingleLoadAnywhere(Available([ab, ac]), 1, now) == [FormatOffer(ac), FormatOffer(ab)] by {
      assert Departing([ab, ac], 1, Cutoff(now, DefaultWindowDays)) == [ab, ac] by {
        assert [ab, ac][1..] == [ac];
        assert [ac][1..] == [];
      }
      SortLoads(now);
      var sorted := [FormatOffer(ac), FormatOffer(ab)];
      assert sorted[..2] == sorted;
    }
    RatiosOfLoads(now);
  }
}
