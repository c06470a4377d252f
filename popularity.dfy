/** `popularity-based.service.ts`: the cold-start recommender that ranks
    products by the summed behaviour weights of the recent behaviour rows. */
module Popularity {
  import opened Behavior
  import opened Ranking

  /** One day in milliseconds. `startDate.setDate(startDate.getDate() - days)`
      moves back `days` calendar days, taken here as `days` × 24 hours: a
      daylight-saving change inside the window is not modelled. */
  const DayMs: int := 86_400_000

  /** The defaults of `getPopularProducts(days = 30, topN = 50)` and `getNewProducts(topN = 20)`. */
  const DefaultDays: int := 30
  const DefaultTopN: int := 50
  const DefaultNewTopN: int := 20

  /** The start of the window: `days` × 24 hours before `now`. */
  function WindowStart(now: int, days: int): (start: int)
    ensures days >= 0 ==> start <= now
    ensures start + days * DayMs == now
  {
    now - days * DayMs
  }

  /** The rows `behavior.created_at >= :startDate` selects, in table order. */
  function InWindow(behaviors: seq<BehaviorEvent>, start: int): (r: seq<BehaviorEvent>)
    ensures |r| <= |behaviors|
    ensures forall e :: e in r <==> e in behaviors && e.createdAt >= start
  {
    if behaviors == [] then []
    else
      var rest := InWindow(behaviors[..|behaviors| - 1], start);
      var e := behaviors[|behaviors| - 1];
      assert behaviors == behaviors[..|behaviors| - 1] + [e];
      if e.createdAt >= start then rest + [e] else rest
  }

  /** The scoring loop: each row adds the weight of its behaviour type to its product. */
  function Popularity(events: seq<BehaviorEvent>): map<int, real>
  {
    if events == [] then map[]
    else
      var e := events[|events| - 1];
      Bump(Popularity(events[..|events| - 1]), e.productId, PopularityWeight(e.behaviorType) as real)
  }

  /** The summed weight of the rows for product `p`. */
  function ProductWeight(events: seq<BehaviorEvent>, p: int): nat
  {
    if events == [] then 0
    else
      var e := events[|events| - 1];
      ProductWeight(events[..|events| - 1], p) + (if e.productId == p then PopularityWeight(e.behaviorType) else 0)
  }

  /** The number of rows for product `p`. */
  function ProductCount(events: seq<BehaviorEvent>, p: int): nat
  {
    if events == [] then 0
    else
      var e := events[|events| - 1];
      ProductCount(events[..|events| - 1], p) + (if e.productId == p then 1 else 0)
  }

  predicate HasProduct(events: seq<BehaviorEvent>, p: int)
  {
    exists i :: 0 <= i < |events| && events[i].productId == p
  }

  /** A product is scored iff some row is for it; its score is the summed
      weight of its rows, which is at least the number of its rows. */
  lemma {:induction false} PopularitySpec(events: seq<BehaviorEvent>, p: int)
    ensures p in Popularity(events) <==> HasProduct(events, p)
    ensures HasProduct(events, p) <==> ProductCount(events, p) >= 1
    ensures Lookup(Popularity(events), p) == ProductWeight(events, p) as real
    ensures ProductWeight(events, p) >= ProductCount(events, p)
  {
    if events != [] {
      var init, e := events[..|events| - 1], events[|events| - 1];
      PopularitySpec(init, p);
      if HasProduct(init, p) {
        var i :| 0 <= i < |init| && init[i].productId == p;
        assert events[i].productId == p;
      }
      if HasProduct(events, p) && e.productId != p {
        var i :| 0 <= i < |events| && events[i].productId == p;
        assert init[i].productId == p;
      }
    }
  }

  /** `getPopularProducts(days, topN)` over the behaviour table and the clock. */
  function PopularProducts(behaviors: seq<BehaviorEvent>, now: int, days: int, topN: int): seq<Scored>
  {
    SliceTo(Rank(Popularity(InWindow(behaviors, WindowStart(now, days)))), topN)
  }

  /** The result is ranked, at most `topN` long, lists only products with a
      row in the window, each scored with the summed weight of its rows
      there; and it is empty when the window holds no row. */
  lemma PopularProductsSpec(behaviors: seq<BehaviorEvent>, now: int, days: int, topN: int)
    ensures Ranked(PopularProducts(behaviors, now, days, topN))
    ensures topN >= 0 ==> |PopularProducts(behaviors, now, days, topN)| <= topN
    ensures InWindow(behaviors, WindowStart(now, days)) == [] ==> PopularProducts(behaviors, now, days, topN) == []
    ensures forall i :: 0 <= i < |PopularProducts(behaviors, now, days, topN)| ==>
      HasProduct(InWindow(behaviors, WindowStart(now, days)), PopularProducts(behaviors, now, days, topN)[i].id)
      && PopularProducts(behaviors, now, days, topN)[i].score
         == ProductWeight(InWindow(behaviors, WindowStart(now, days)), PopularProducts(behaviors, now, days, topN)[i].id) as real
      && PopularProducts(behaviors, now, days, topN)[i].score
         >= ProductCount(InWindow(behaviors, WindowStart(now, days)), PopularProducts(behaviors, now, days, topN)[i].id) as real
  {
    var window := InWindow(behaviors, WindowStart(now, days));
    var scores := Popularity(window);
    var ranked := Rank(scores);
    var r := SliceTo(ranked, topN);
    RankSpec(scores);
    RankedPrefix(ranked, r);
    forall i | 0 <= i < |r|
      ensures HasProduct(window, r[i].id)
        && r[i].score == ProductWeight(window, r[i].id) as real
        && r[i].score >= ProductCount(window, r[i].id) as real
    {
      assert r[i] == ranked[i];
      PopularitySpec(window, r[i].id);
    }
  }

  /** A product with a row in the window that the result leaves out scores no
      higher than any product it lists. */
  lemma PopularProductsBest(behaviors: seq<BehaviorEvent>, now: int, days: int, topN: int, p: int)
    requires HasProduct(InWindow(behaviors, WindowStart(now, days)), p)
    requires p !in Ids(PopularProducts(behaviors, now, days, topN))
    ensures forall i :: 0 <= i < |PopularProducts(behaviors, now, days, topN)| ==>
      PopularProducts(behaviors, now, days, topN)[i].score
      >= ProductWeight(InWindow(behaviors, WindowStart(now, days)), p) as real
  {
    var window := InWindow(behaviors, WindowStart(now, days));
    PopularitySpec(window, p);
    RankTopBest(Popularity(window), topN, p);
  }

  /** A row stamped exactly at the window start is counted: the bound is inclusive. */
  lemma WindowInclusive(behaviors: seq<BehaviorEvent>, now: int, days: int, i: int)
    requires 0 <= i < |behaviors| && behaviors[i].createdAt == WindowStart(now, days)
    ensures behaviors[i] in InWindow(behaviors, WindowStart(now, days))
  {
  }

  /** The scoring loop of `getPopularProducts` over the selected rows. */
  method ScoreBehaviors(behaviors: seq<BehaviorEvent>) returns (productScores: map<int, real>)
    ensures productScores == Popularity(behaviors)
  {
    productScores := map[];
    for i := 0 to |behaviors|
      invariant productScores == Popularity(behaviors[..i])
    {
      var behavior := behaviors[i];
      assert behaviors[..i + 1][..i] == behaviors[..i];
      var current := if behavior.productId in productScores then productScores[behavior.productId] else 0.0;
      var weight := PopularityWeight(behavior.behaviorType);
      productScores := productScores[behavior.productId := current + weight as real];
    }
    assert behaviors[..|behaviors|] == behaviors;
  }

  /** `getPopularProducts(days, topN)`: the behaviour table and the clock are parameters. */
  method GetPopularProducts(table: seq<BehaviorEvent>, now: int, days: int, topN: int)
    returns (recommendations: seq<Scored>)
    ensures recommendations == PopularProducts(table, now, days, topN)
  {
    var startDate := now - days * DayMs;
    assert startDate == WindowStart(now, days);
    var behaviors := InWindow(table, startDate);
    var productScores := ScoreBehaviors(behaviors);
    recommendations := SliceTo(Rank(productScores), topN);
  }

  /** `getNewProducts(topN)`: a placeholder that recommends nothing, whatever `topN` is. */
  function NewProducts(topN: int): (r: seq<Scored>)
    ensures |r| == 0
  {
    []
  }
}
