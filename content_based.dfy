/** `content-based.service.ts`: recommendations from the likeness of a
    product's feature vector (price, price band, category) to the averaged
    features of the products a user has interacted with. */
module ContentBased {
  import opened Wrappers
  import opened Similarity
  import opened Ranking
  import opened Behavior
  import Summation

  // ---------------------------------------------------------------------
  // Records and features

  /** A `fish_product` row as the recommender reads it. `price` is a
      DECIMAL(10,2) column, held here in cents; `categoryId` is nullable. */
  datatype Product = Product(id: int, categoryId: Option<int>, priceCents: int)

  /** `Number(product.price)`. */
  function Price(p: Product): real
  {
    p.priceCents as real / 100.0
  }

  /** `if (product.categoryId)`: a null or zero category is falsy. */
  predicate HasCategory(p: Product)
  {
    p.categoryId.Some? && p.categoryId.value != 0
  }

  /** The four price bands `getPriceRange` names. */
  datatype PriceBand = Low | Medium | High | Premium

  /** The band names as they appear in the feature keys. */
  function BandName(b: PriceBand): string
  {
    match b
    case Low => "low"
    case Medium => "medium"
    case High => "high"
    case Premium => "premium"
  }

  function BandOrder(b: PriceBand): nat
  {
    match b
    case Low => 0
    case Medium => 1
    case High => 2
    case Premium => 3
  }

  /** `getPriceRange(price)`: below 50 low, below 100 medium, below 200 high,
      premium otherwise; every price has exactly one band. */
  function GetPriceRange(price: real): (b: PriceBand)
    ensures b == Low <==> price < 50.0
    ensures b == Medium <==> 50.0 <= price < 100.0
    ensures b == High <==> 100.0 <= price < 200.0
    ensures b == Premium <==> 200.0 <= price
  {
    if price < 50.0 then Low
    else if price < 100.0 then Medium
    else if price < 200.0 then High
    else Premium
  }

  /** A dearer product never falls in a cheaper band. */
  lemma PriceRangeMonotone(p1: real, p2: real)
    requires p1 <= p2
    ensures BandOrder(GetPriceRange(p1)) <= BandOrder(GetPriceRange(p2))
  {
  }

  /** The keys of the feature objects: `avg_price`, `category_<id>` and
      `price_range_<band>`. Distinct constructors stand for distinct strings. */
  datatype Feature = AvgPrice | Category(categoryId: int) | PriceRange(band: PriceBand)

  type FeatureVector = map<Feature, real>

  /** `buildProductFeatures(product)`: the price, a 1 for the product's price
      band and a 1 for its category when it has one. */
  function ProductFeatures(p: Product): (f: FeatureVector)
    ensures AvgPrice in f && f[AvgPrice] == Price(p)
    ensures forall b :: PriceRange(b) in f <==> b == GetPriceRange(Price(p))
    ensures forall c :: Category(c) in f <==> HasCategory(p) && c == p.categoryId.value
    ensures forall k :: k in f && k != AvgPrice ==> f[k] == 1.0
  {
    var features := map[AvgPrice := Price(p)];
    var features := if HasCategory(p) then features[Category(p.categoryId.value) := 1.0] else features;
    features[PriceRange(GetPriceRange(Price(p))) := 1.0]
  }

  // ---------------------------------------------------------------------
  // buildUserPreference

  /** The price total of the first loop of `buildUserPreference`. */
  function TotalPrice(ps: seq<Product>): real
  {
    if ps == [] then 0.0 else TotalPrice(ps[..|ps| - 1]) + Price(ps[|ps| - 1])
  }

  /** The `categories` dictionary: products per truthy category. */
  function CategoryCounts(ps: seq<Product>): map<int, nat>
  {
    if ps == [] then map[]
    else
      var rest := CategoryCounts(ps[..|ps| - 1]);
      var p := ps[|ps| - 1];
      if HasCategory(p) then
        var c := p.categoryId.value;
        rest[c := (if c in rest then rest[c] else 0) + 1]
      else rest
  }

  /** The `priceRanges` dictionary: products per price band. */
  function RangeCounts(ps: seq<Product>): map<PriceBand, nat>
  {
    if ps == [] then map[]
    else
      var rest := RangeCounts(ps[..|ps| - 1]);
      var b := GetPriceRange(Price(ps[|ps| - 1]));
      rest[b := (if b in rest then rest[b] else 0) + 1]
  }

  /** The number of products in category `c`. */
  function CategoryCount(ps: seq<Product>, c: int): nat
  {
    if ps == [] then 0
    else
      var p := ps[|ps| - 1];
      CategoryCount(ps[..|ps| - 1], c) + (if HasCategory(p) && p.categoryId.value == c then 1 else 0)
  }

  /** The number of products in price band `b`. */
  function RangeCount(ps: seq<Product>, b: PriceBand): nat
  {
    if ps == [] then 0
    else RangeCount(ps[..|ps| - 1], b) + (if GetPriceRange(Price(ps[|ps| - 1])) == b then 1 else 0)
  }

  /** The `categories` dictionary holds the categories that occur, each with its product count. */
  lemma {:induction false} CategoryCountsSpec(ps: seq<Product>, c: int)
    ensures c in CategoryCounts(ps) <==> CategoryCount(ps, c) >= 1
    ensures c in CategoryCounts(ps) ==> CategoryCounts(ps)[c] == CategoryCount(ps, c)
  {
    if ps != [] {
      CategoryCountsSpec(ps[..|ps| - 1], c);
    }
  }

  /** The `priceRanges` dictionary holds the bands that occur, each with its product count. */
  lemma {:induction false} RangeCountsSpec(ps: seq<Product>, b: PriceBand)
    ensures b in RangeCounts(ps) <==> RangeCount(ps, b) >= 1
    ensures b in RangeCounts(ps) ==> RangeCounts(ps)[b] == RangeCount(ps, b)
  {
    if ps != [] {
      RangeCountsSpec(ps[..|ps| - 1], b);
    }
  }

  /** Every product falls in exactly one band. */
  lemma {:induction false} RangeCountsTotal(ps: seq<Product>)
    ensures RangeCount(ps, Low) + RangeCount(ps, Medium) + RangeCount(ps, High) + RangeCount(ps, Premium) == |ps|
  {
    if ps != [] {
      RangeCountsTotal(ps[..|ps| - 1]);
    }
  }

  /** The larger of 1 and the counts of `keys`. */
  function MaxAt(counts: map<int, nat>, keys: seq<int>): (m: nat)
    requires forall i :: 0 <= i < |keys| ==> keys[i] in counts
    ensures m >= 1
    ensures forall i :: 0 <= i < |keys| ==> counts[keys[i]] <= m
    ensures m == 1 || exists i :: 0 <= i < |keys| && counts[keys[i]] == m
  {
    if keys == [] then 1
    else
      var rest := MaxAt(counts, keys[..|keys| - 1]);
      var x := counts[keys[|keys| - 1]];
      if x > rest then x else rest
  }

  /** `Math.max(...Object.values(categories), 1)`. */
  function MaxCount(counts: map<int, nat>): nat
  {
    MaxAt(counts, SortedKeys(counts.Keys))
  }

  /** The maximum bounds every count and, when every count is positive,
      is the count of some category. */
  lemma MaxCountSpec(counts: map<int, nat>)
    ensures MaxCount(counts) >= 1
    ensures forall c :: c in counts ==> counts[c] <= MaxCount(counts)
    ensures counts != map[] && (forall c :: c in counts ==> counts[c] >= 1) ==>
      exists c :: c in counts && counts[c] == MaxCount(counts)
  {
    var keys := SortedKeys(counts.Keys);
    forall c | c in counts ensures counts[c] <= MaxCount(counts) {
      var i :| 0 <= i < |keys| && keys[i] == c;
    }
    if counts != map[] && (forall c :: c in counts ==> counts[c] >= 1) {
      if MaxCount(counts) == 1 {
        var c :| c in counts;
        assert counts[c] == 1;
      } else {
        var i :| 0 <= i < |keys| && counts[keys[i]] == MaxCount(counts);
        assert keys[i] in counts;
      }
    }
  }

  /** The `category_<id>` entries: each category's count over the largest count. */
  function CategoryShares(categories: map<int, nat>, maxCount: nat, done: set<int>): FeatureVector
    requires maxCount >= 1
  {
    map c | c in done && c in categories :: Category(c) := categories[c] as real / maxCount as real
  }

  /** The `price_range_<band>` entries: each band's count over the number of products. */
  function RangeShares(priceRanges: map<PriceBand, nat>, n: nat, done: set<PriceBand>): FeatureVector
    requires n >= 1
  {
    map b | b in done && b in priceRanges :: PriceRange(b) := priceRanges[b] as real / n as real
  }

  /** The preference object built from the accumulated statistics. */
  function PreferenceOf(avgPrice: real, categories: map<int, nat>, maxCount: nat,
                        priceRanges: map<PriceBand, nat>, n: nat): FeatureVector
    requires maxCount >= 1 && n >= 1
  {
    map[AvgPrice := avgPrice]
    + CategoryShares(categories, maxCount, categories.Keys)
    + RangeShares(priceRanges, n, priceRanges.Keys)
  }

  /** Which keys the preference object has, and their values. */
  lemma PreferenceOfAt(avgPrice: real, categories: map<int, nat>, maxCount: nat,
                       priceRanges: map<PriceBand, nat>, n: nat, f: Feature)
    requires maxCount >= 1 && n >= 1
    ensures f in PreferenceOf(avgPrice, categories, maxCount, priceRanges, n) <==>
      match f
      case AvgPrice => true
      case Category(c) => c in categories
      case PriceRange(b) => b in priceRanges
    ensures f in PreferenceOf(avgPrice, categories, maxCount, priceRanges, n) ==>
      PreferenceOf(avgPrice, categories, maxCount, priceRanges, n)[f] ==
      match f
      case AvgPrice => avgPrice
      case Category(c) => categories[c] as real / maxCount as real
      case PriceRange(b) => priceRanges[b] as real / n as real
  {
  }

  /** `buildUserPreference(products)`: empty for no products, otherwise the
      mean price, the category shares and the band shares. */
  function Preference(ps: seq<Product>): FeatureVector
  {
    if ps == [] then map[]
    else
      var categories := CategoryCounts(ps);
      MaxCountSpec(categories);
      PreferenceOf(TotalPrice(ps) / |ps| as real, categories, MaxCount(categories), RangeCounts(ps), |ps|)
  }

  lemma ShareBounds(a: real, b: real)
    requires 0.0 < a <= b
    ensures 0.0 < a / b <= 1.0
  {
  }

  lemma SharesSumToOne(a: real, b: real, c: real, d: real, n: real)
    requires n > 0.0 && a + b + c + d == n
    ensures a / n + b / n + c / n + d / n == 1.0
  {
  }

  /** A category has a preference entry iff some product is in it; the entry
      is its count over the largest count, in (0, 1]. */
  lemma PreferenceCategory(ps: seq<Product>, c: int)
    requires ps != []
    ensures Category(c) in Preference(ps) <==> CategoryCount(ps, c) >= 1
    ensures Category(c) in Preference(ps) ==>
      Preference(ps)[Category(c)] == CategoryCount(ps, c) as real / MaxCount(CategoryCounts(ps)) as real
      && 0.0 < Preference(ps)[Category(c)] <= 1.0
  {
    var categories := CategoryCounts(ps);
    MaxCountSpec(categories);
    PreferenceOfAt(TotalPrice(ps) / |ps| as real, categories, MaxCount(categories), RangeCounts(ps), |ps|, Category(c));
    CategoryCountsSpec(ps, c);
    if c in categories {
      ShareBounds(categories[c] as real, MaxCount(categories) as real);
    }
  }

  /** A band has a preference entry iff some product is in it; the entry is
      its count over the number of products. */
  lemma PreferenceBand(ps: seq<Product>, b: PriceBand)
    requires ps != []
    ensures PriceRange(b) in Preference(ps) <==> RangeCount(ps, b) >= 1
    ensures PriceRange(b) in Preference(ps) ==> Preference(ps)[PriceRange(b)] == RangeCount(ps, b) as real / |ps| as real
  {
    var categories := CategoryCounts(ps);
    MaxCountSpec(categories);
    PreferenceOfAt(TotalPrice(ps) / |ps| as real, categories, MaxCount(categories), RangeCounts(ps), |ps|, PriceRange(b));
    RangeCountsSpec(ps, b);
  }

  /** `avg_price` is the mean price of the products. */
  lemma PreferenceAvgPrice(ps: seq<Product>)
    requires ps != []
    ensures AvgPrice in Preference(ps) && Preference(ps)[AvgPrice] == TotalPrice(ps) / |ps| as real
  {
    var categories := CategoryCounts(ps);
    MaxCountSpec(categories);
    PreferenceOfAt(TotalPrice(ps) / |ps| as real, categories, MaxCount(categories), RangeCounts(ps), |ps|, AvgPrice);
  }

  /** The most frequent category has preference exactly 1. */
  lemma PreferenceTopCategory(ps: seq<Product>, p: Product)
    requires p in ps && HasCategory(p)
    ensures exists c :: Category(c) in Preference(ps) && Preference(ps)[Category(c)] == 1.0
  {
    var categories := CategoryCounts(ps);
    var i :| 0 <= i < |ps| && ps[i] == p;
    CategoryCountPositive(ps, i);
    CategoryCountsSpec(ps, p.categoryId.value);
    MaxCountSpec(categories);
    forall c | c in categories ensures categories[c] >= 1 {
      CategoryCountsSpec(ps, c);
    }
    var c :| c in categories && categories[c] == MaxCount(categories);
    PreferenceCategory(ps, c);
    CategoryCountsSpec(ps, c);
    FullShare(CategoryCount(ps, c) as real, MaxCount(categories) as real);
  }

  lemma {:induction false} CategoryCountPositive(ps: seq<Product>, i: int)
    requires 0 <= i < |ps| && HasCategory(ps[i])
    ensures CategoryCount(ps, ps[i].categoryId.value) >= 1
  {
    if i < |ps| - 1 {
      CategoryCountPositive(ps[..|ps| - 1], i);
    }
  }

  /** The four band shares sum to 1. */
  lemma PreferenceBandsSumToOne(ps: seq<Product>)
    requires ps != []
    ensures var pref := Preference(ps);
      BandShare(pref, Low) + BandShare(pref, Medium) + BandShare(pref, High) + BandShare(pref, Premium) == 1.0
  {
    RangeCountsTotal(ps);
    BandShareIs(ps, Low);
    BandShareIs(ps, Medium);
    BandShareIs(ps, High);
    BandShareIs(ps, Premium);
    SharesSumToOne(RangeCount(ps, Low) as real, RangeCount(ps, Medium) as real, RangeCount(ps, High) as real,
                   RangeCount(ps, Premium) as real, |ps| as real);
  }

  lemma BandShareIs(ps: seq<Product>, b: PriceBand)
    requires ps != []
    ensures BandShare(Preference(ps), b) == RangeCount(ps, b) as real / |ps| as real
  {
    var pref := Preference(ps);
    var n := RangeCount(ps, b);
    PreferenceBand(ps, b);
    if PriceRange(b) !in pref {
      assert n == 0;
      ZeroShare(n as real, |ps| as real);
    }
  }

  lemma FullShare(a: real, n: real)
    requires a == n && n > 0.0
    ensures a / n == 1.0
  {
  }

  lemma ZeroShare(a: real, n: real)
    requires a == 0.0 && n > 0.0
    ensures a / n == 0.0
  {
  }

  /** The preference for a band, 0 when it has no entry. */
  function BandShare(pref: FeatureVector, b: PriceBand): real
  {
    if PriceRange(b) in pref then pref[PriceRange(b)] else 0.0
  }

  /** A product's features always share the `avg_price` key with a non-empty
      preference, so the similarity never takes its no-shared-key exit. */
  lemma SharesAvgPrice(ps: seq<Product>, p: Product)
    requires ps != []
    ensures AvgPrice in Preference(ps).Keys * ProductFeatures(p).Keys
  {
    PreferenceAvgPrice(ps);
  }

  // ---------------------------------------------------------------------
  // recommend

  /** The user's rows: `behaviorRepository.find({ where: { userId } })`, in table order. */
  function UserEvents(behaviors: seq<BehaviorEvent>, userId: int): (r: seq<BehaviorEvent>)
    ensures forall e :: e in r <==> e in behaviors && e.userId == userId
  {
    if behaviors == [] then []
    else
      var rest := UserEvents(behaviors[..|behaviors| - 1], userId);
      var e := behaviors[|behaviors| - 1];
      assert behaviors == behaviors[..|behaviors| - 1] + [e];
      if e.userId == userId then rest + [e] else rest
  }

  /** `new Set(userBehaviors.map((b) => b.productId))`: each product once, whatever the behaviour type. */
  function LikedIds(events: seq<BehaviorEvent>): (r: set<int>)
    ensures forall p :: p in r <==> exists i :: 0 <= i < |events| && events[i].productId == p
  {
    set i | 0 <= i < |events| :: events[i].productId
  }

  /** The catalogue rows whose id is in `liked`: `product.id IN (:...ids)`, in table order. */
  function LikedProducts(catalog: seq<Product>, liked: set<int>): (r: seq<Product>)
    ensures forall p :: p in r <==> p in catalog && p.id in liked
  {
    if catalog == [] then []
    else
      var rest := LikedProducts(catalog[..|catalog| - 1], liked);
      var p := catalog[|catalog| - 1];
      assert catalog == catalog[..|catalog| - 1] + [p];
      if p.id in liked then rest + [p] else rest
  }

  /** The candidate loop of `recommend`: every catalogue product the user has
      not interacted with whose similarity is positive, in catalogue order. */
  function Candidates(catalog: seq<Product>, liked: set<int>, similarity: Product -> real): seq<Scored>
  {
    if catalog == [] then []
    else
      var rest := Candidates(catalog[..|catalog| - 1], liked, similarity);
      var p := catalog[|catalog| - 1];
      if p.id in liked then rest
      else if similarity(p) > 0.0 then rest + [Scored(p.id, similarity(p))]
      else rest
  }

  /** `s` stands for a catalogue product the user has not interacted with, scored with its positive similarity. */
  predicate FromCatalog(catalog: seq<Product>, liked: set<int>, similarity: Product -> real, s: Scored)
  {
    exists j :: 0 <= j < |catalog| && catalog[j].id == s.id && s.id !in liked
      && s.score == similarity(catalog[j]) && s.score > 0.0
  }

  /** Every candidate stands for a product not interacted with and has positive similarity. */
  lemma {:induction false} CandidatesSound(catalog: seq<Product>, liked: set<int>, similarity: Product -> real)
    ensures forall s :: s in Candidates(catalog, liked, similarity) ==> FromCatalog(catalog, liked, similarity, s)
  {
    if catalog != [] {
      var init := catalog[..|catalog| - 1];
      CandidatesSound(init, liked, similarity);
      forall s | s in Candidates(init, liked, similarity) ensures FromCatalog(catalog, liked, similarity, s) {
        var j :| 0 <= j < |init| && init[j].id == s.id && s.id !in liked && s.score == similarity(init[j]) && s.score > 0.0;
        assert catalog[j] == init[j];
      }
    }
  }

  /** Every product not interacted with whose similarity is positive is a candidate. */
  lemma {:induction false} CandidatesComplete(catalog: seq<Product>, liked: set<int>, similarity: Product -> real, j: int)
    requires 0 <= j < |catalog| && catalog[j].id !in liked && similarity(catalog[j]) > 0.0
    ensures Scored(catalog[j].id, similarity(catalog[j])) in Candidates(catalog, liked, similarity)
  {
    if j < |catalog| - 1 {
      CandidatesComplete(catalog[..|catalog| - 1], liked, similarity, j);
    }
  }

  /** The similarity of a product to the preference. */
  ghost function ContentSimilarity(preference: FeatureVector, sqrt: real -> real): Product -> real
  {
    p => Cosine(preference, ProductFeatures(p), sqrt)
  }

  /** `recommend(userId, topN)` over the behaviour and product tables. */
  ghost function Recommend(behaviors: seq<BehaviorEvent>, catalog: seq<Product>, userId: int, topN: int,
                           sqrt: real -> real): seq<Scored>
  {
    var events := UserEvents(behaviors, userId);
    if events == [] then []
    else
      var liked := LikedIds(events);
      var preference := Preference(LikedProducts(catalog, liked));
      SliceTo(SortDesc(Candidates(catalog, liked, ContentSimilarity(preference, sqrt))), topN)
  }

  /** `recommend` returns nothing for a user without behaviour; otherwise at
      most `topN` products, best first, none of which the user has
      interacted with, each scored with its positive similarity to the
      user's preference. */
  lemma RecommendSound(behaviors: seq<BehaviorEvent>, catalog: seq<Product>, userId: int, topN: int, sqrt: real -> real)
    ensures UserEvents(behaviors, userId) == [] ==> Recommend(behaviors, catalog, userId, topN, sqrt) == []
    ensures SortedByScore(Recommend(behaviors, catalog, userId, topN, sqrt))
    ensures topN >= 0 ==> |Recommend(behaviors, catalog, userId, topN, sqrt)| <= topN
    ensures forall s :: s in Recommend(behaviors, catalog, userId, topN, sqrt) ==>
      FromCatalog(catalog, LikedIds(UserEvents(behaviors, userId)),
                  ContentSimilarity(Preference(LikedProducts(catalog, LikedIds(UserEvents(behaviors, userId)))), sqrt), s)
  {
    var events := UserEvents(behaviors, userId);
    if events != [] {
      var liked := LikedIds(events);
      var similarity := ContentSimilarity(Preference(LikedProducts(catalog, liked)), sqrt);
      var candidates := Candidates(catalog, liked, similarity);
      var sorted := SortDesc(candidates);
      var r := SliceTo(sorted, topN);
      SortDescSorted(candidates);
      SortDescPermutes(candidates);
      CandidatesSound(catalog, liked, similarity);
      forall i, j | 0 <= i < j < |r| ensures r[i].score >= r[j].score {
        assert r[i] == sorted[i] && r[j] == sorted[j];
      }
      forall s | s in r ensures FromCatalog(catalog, liked, similarity, s) {
        assert s in sorted;
        assert s in multiset(candidates);
      }
    }
  }

  /** A product the user has not interacted with, with positive similarity,
      that `recommend` leaves out scores no higher than any product it returns. */
  lemma RecommendBest(behaviors: seq<BehaviorEvent>, catalog: seq<Product>, userId: int, topN: int, sqrt: real -> real, j: int)
    requires UserEvents(behaviors, userId) != []
    requires 0 <= j < |catalog| && catalog[j].id !in LikedIds(UserEvents(behaviors, userId))
    requires Cosine(Preference(LikedProducts(catalog, LikedIds(UserEvents(behaviors, userId)))), ProductFeatures(catalog[j]), sqrt) > 0.0
    requires catalog[j].id !in Ids(Recommend(behaviors, catalog, userId, topN, sqrt))
    ensures forall i :: 0 <= i < |Recommend(behaviors, catalog, userId, topN, sqrt)| ==>
      Recommend(behaviors, catalog, userId, topN, sqrt)[i].score
      >= Cosine(Preference(LikedProducts(catalog, LikedIds(UserEvents(behaviors, userId)))), ProductFeatures(catalog[j]), sqrt)
  {
    var liked := LikedIds(UserEvents(behaviors, userId));
    var similarity := ContentSimilarity(Preference(LikedProducts(catalog, liked)), sqrt);
    var candidates := Candidates(catalog, liked, similarity);
    CandidatesComplete(catalog, liked, similarity, j);
    SortDescTopBest(candidates, topN, Scored(catalog[j].id, similarity(catalog[j])));
  }

  /** When no catalogue row matches the user's products the preference is
      empty, every similarity is 0, and nothing is recommended. */
  lemma RecommendNoLikedRows(behaviors: seq<BehaviorEvent>, catalog: seq<Product>, userId: int, topN: int, sqrt: real -> real)
    requires LikedProducts(catalog, LikedIds(UserEvents(behaviors, userId))) == []
    ensures Recommend(behaviors, catalog, userId, topN, sqrt) == []
  {
    var events := UserEvents(behaviors, userId);
    if events != [] {
      var liked := LikedIds(events);
      var similarity := ContentSimilarity(Preference(LikedProducts(catalog, liked)), sqrt);
      NoCandidates(catalog, liked, similarity);
    }
  }

  lemma {:induction false} NoCandidates(catalog: seq<Product>, liked: set<int>, similarity: Product -> real)
    requires forall p :: similarity(p) <= 0.0
    ensures Candidates(catalog, liked, similarity) == []
  {
    if catalog != [] {
      NoCandidates(catalog[..|catalog| - 1], liked, similarity);
    }
  }

  /** `similarity` is the similarity of each product to `preference`. The
      trigger keeps the definition of the cosine out of the loop below. */
  ghost predicate IsContentSimilarity(similarity: Product -> real, preference: FeatureVector, sqrt: real -> real)
  {
    forall p {:trigger Cosine(preference, ProductFeatures(p), sqrt)} ::
      similarity(p) == Cosine(preference, ProductFeatures(p), sqrt)
  }

  lemma ContentSimilarityIs(preference: FeatureVector, sqrt: real -> real)
    ensures IsContentSimilarity(ContentSimilarity(preference, sqrt), preference, sqrt)
  {
  }

  /** `buildUserPreference(products)`. */
  method BuildUserPreference(products: seq<Product>) returns (preference: FeatureVector)
    ensures preference == Preference(products)
  {
    preference := map[];
    if |products| == 0 {
      return;
    }
    var totalPrice := 0.0;
    var categories: map<int, nat> := map[];
    var priceRanges: map<PriceBand, nat> := map[];
    for i := 0 to |products|
      invariant totalPrice == TotalPrice(products[..i])
      invariant categories == CategoryCounts(products[..i])
      invariant priceRanges == RangeCounts(products[..i])
    {
      var product := products[i];
      assert products[..i + 1][..i] == products[..i];
      totalPrice := totalPrice + Price(product);
      var priceRange := GetPriceRange(Price(product));
      priceRanges := priceRanges[priceRange := (if priceRange in priceRanges then priceRanges[priceRange] else 0) + 1];
      if HasCategory(product) {
        var categoryId := product.categoryId.value;
        categories := categories[categoryId := (if categoryId in categories then categories[categoryId] else 0) + 1];
      }
    }
    assert products[..|products|] == products;
    var avgPrice := totalPrice / |products| as real;
    var maxCount := MaxCount(categories);
    MaxCountSpec(categories);
    preference := map[AvgPrice := avgPrice];
    preference := AddCategoryShares(preference, categories, maxCount);
    preference := AddRangeShares(preference, priceRanges, |products|);
  }

  /** `for (const [categoryId, count] of Object.entries(categories))`. */
  method AddCategoryShares(base: FeatureVector, categories: map<int, nat>, maxCount: nat) returns (preference: FeatureVector)
    requires maxCount >= 1
    ensures preference == base + CategoryShares(categories, maxCount, categories.Keys)
  {
    preference := base;
    var remaining := categories.Keys;
    while remaining != {}
      invariant remaining <= categories.Keys
      invariant preference == base + CategoryShares(categories, maxCount, categories.Keys - remaining)
      decreases |remaining|
    {
      var categoryId := Summation.Choose(remaining);
      ghost var done := categories.Keys - remaining;
      preference := preference[Category(categoryId) := categories[categoryId] as real / maxCount as real];
      remaining := remaining - {categoryId};
      assert categories.Keys - remaining == done + {categoryId};
      CategorySharesStep(base, categories, maxCount, done, categoryId);
    }
    assert categories.Keys - remaining == categories.Keys;
  }

  lemma CategorySharesStep(base: FeatureVector, categories: map<int, nat>, maxCount: nat, done: set<int>, c: int)
    requires maxCount >= 1 && c in categories
    ensures (base + CategoryShares(categories, maxCount, done))[Category(c) := categories[c] as real / maxCount as real]
      == base + CategoryShares(categories, maxCount, done + {c})
  {
  }

  lemma RangeSharesStep(base: FeatureVector, priceRanges: map<PriceBand, nat>, n: nat, done: set<PriceBand>, b: PriceBand)
    requires n >= 1 && b in priceRanges
    ensures (base + RangeShares(priceRanges, n, done))[PriceRange(b) := priceRanges[b] as real / n as real]
      == base + RangeShares(priceRanges, n, done + {b})
  {
  }

  /** `for (const [range, count] of Object.entries(priceRanges))`. */
  method AddRangeShares(base: FeatureVector, priceRanges: map<PriceBand, nat>, n: nat) returns (preference: FeatureVector)
    requires n >= 1
    ensures preference == base + RangeShares(priceRanges, n, priceRanges.Keys)
  {
    preference := base;
    var remaining := priceRanges.Keys;
    while remaining != {}
      invariant remaining <= priceRanges.Keys
      invariant preference == base + RangeShares(priceRanges, n, priceRanges.Keys - remaining)
      decreases |remaining|
    {
      var range := Summation.Choose(remaining);
      ghost var done := priceRanges.Keys - remaining;
      preference := preference[PriceRange(range) := priceRanges[range] as real / n as real];
      remaining := remaining - {range};
      assert priceRanges.Keys - remaining == done + {range};
      RangeSharesStep(base, priceRanges, n, done, range);
    }
    assert priceRanges.Keys - remaining == priceRanges.Keys;
  }

  /** The candidate loop of `recommend`. */
  method CollectCandidates(allProducts: seq<Product>, userLikedSet: set<int>, userPreference: FeatureVector,
                           sqrt: real -> real, ghost similarityOf: Product -> real)
    returns (recommendations: seq<Scored>)
    requires IsContentSimilarity(similarityOf, userPreference, sqrt)
    ensures recommendations == Candidates(allProducts, userLikedSet, similarityOf)
  {
    recommendations := [];
    for i := 0 to |allProducts|
      invariant recommendations == Candidates(allProducts[..i], userLikedSet, similarityOf)
    {
      var product := allProducts[i];
      assert allProducts[..i + 1][..i] == allProducts[..i];
      if product.id in userLikedSet {
        continue;
      }
      var productFeatures := ProductFeatures(product);
      var similarity := CosineSimilarity(userPreference, productFeatures, sqrt);
      assert similarity == Cosine(userPreference, ProductFeatures(product), sqrt);
      if similarity > 0.0 {
        recommendations := recommendations + [Scored(product.id, similarity)];
      }
    }
    assert allProducts[..|allProducts|] == allProducts;
  }

  /** `recommend(userId, topN)`: the behaviour and product tables are parameters. */
  method RecommendProducts(behaviors: seq<BehaviorEvent>, catalog: seq<Product>, userId: int, topN: int, sqrt: real -> real)
    returns (recommendations: seq<Scored>)
    ensures recommendations == Recommend(behaviors, catalog, userId, topN, sqrt)
  {
    var userBehaviors := UserEvents(behaviors, userId);
    if |userBehaviors| == 0 {
      return [];
    }
    var likedProductIds := LikedIds(userBehaviors);
    var likedProducts := LikedProducts(catalog, likedProductIds);
    var userPreference := BuildUserPreference(likedProducts);
    ContentSimilarityIs(userPreference, sqrt);
    var candidates := CollectCandidates(catalog, likedProductIds, userPreference, sqrt,
                                        ContentSimilarity(userPreference, sqrt));
    recommendations := SliceTo(SortDesc(candidates), topN);
  }
}
