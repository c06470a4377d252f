# A verified model of the fish shop's recommendation engine and services

This project models in Dafny the core of a NestJS fish-and-seafood shop
(`kaiyiya/fish`). It covers:

- the three recommenders over the `user_behavior` table (user-based and
  item-based collaborative filtering with their hybrid, content-based
  similarity, and popularity ranking);
- the rule-based fallback of the shopping assistant chat;
- the services that change the shop's tables: cart, address, coupon,
  notification, review, favourite and order;
- the small decision functions around them: upload checks, the role guard,
  the fish-name table and the request validators.

Each module follows one source file:

| module | source file |
|---|---|
| `Behavior` | the behaviour weight tables of `collaborative-filtering.service.ts` and `popularity-based.service.ts` |
| `Summation`, `Similarity`, `Ranking` | the cosine and Pearson loops of `collaborative-filtering.service.ts`, and the `Object.keys(...).map(...).sort(...)` chains that end every recommender |
| `CollaborativeFiltering` | `backend/src/modules/ai/algorithms/collaborative-filtering.service.ts` |
| `ContentBased` | `backend/src/modules/ai/algorithms/content-based.service.ts` |
| `Popularity` | `backend/src/modules/ai/algorithms/popularity-based.service.ts` |
| `Strings`, `Chat` | `backend/src/modules/ai/chat.service.ts` |
| `Tables`, `Wrappers` | the TypeORM repository calls (`find`, `findOne`, `count`, `update`, `delete`, `skip`/`take`) as operations on an in-memory table, and the `NotFoundException`/`BadRequestException` results |
| `Cart`, `Address`, `Coupon`, `Notification`, `Review`, `Favorite`, `Order` | the services of the same names under `backend/src/modules/` |
| `Upload`, `FishNames`, `Roles` | `upload.service.ts`, `fish-name-mapper.ts`, `roles.guard.ts` |
| `AddressDto`, `CouponDto`, `ReviewDto` | the `create-*.dto.ts` validators, and the address form's client check |

How the model is built:

- **Algorithms are methods proved against functions.** Every loop of the
  source becomes a Dafny `method` with a `while` or `for` loop:
  - `buildUserItemMatrix`, the dot-product and norm loops, the neighbour
    scan, the score accumulation, the transpose, `buildUserPreference`,
    the four keyword loops and the `forEach` loops of `generateAnswer`.
  - Each method is proved equal to a function, and the lemmas are stated
    about that function. Examples: a score is the sum of
    similarity × weight over the neighbours; a ranking is sorted by descending
    score and is a permutation of the scores; a product left out scores no
    higher than any product listed.
- **Tied scores.** JavaScript's `sort` is stable, and `Object.keys` lists
  integer keys in ascending order. So tied scores keep ascending id order,
  and `Ranking.SortDesc` is a stable insertion sort over the keys in
  ascending order.
- **Services are classes.** Each service is a `class`:
  - Its tables are `seq` fields, with an auto-increment counter for each.
  - A `Valid()` invariant holds two kinds of facts. The database guarantees
    ascending ids, the unique (user, product) indexes of the cart and
    favourite tables, and foreign keys. The services themselves keep at most
    one default address per user, at most one unused copy of a coupon per
    user, and one review per user and product.
  - Every method's new state is an `…Outcome` function of the old state.
    Lemmas state what each outcome means: its error cases and their
    messages, what changes, and what stays the same.
  - Thrown exceptions are `Err` results that leave the tables untouched,
    except where the source writes before it throws. Two such writes:
    `setDefault` has cleared the defaults already, and `useCoupon` has
    marked the copy expired.
- **Time, randomness and remote calls are parameters.**
  - The clock (`now`), the random bytes and order numbers, and the remote
    chat reply are passed in.
  - The product lookup of the chat is passed in as a function.
  - `useCoupon` and review `create` store an `orderId` that a foreign key
    ties to the `order` table. They take the set of existing order ids,
    and a save that names no order fails as `Internal` and writes nothing.
  - `Math.sqrt` is a function parameter `sqrt`. The lemmas that need its
    properties require it to be a square root (`Similarity.IsSqrt`).
- **Numbers.**
  - JavaScript numbers are exact reals, or integers where the source
    counts.
  - The product price the content-based recommender reads
    (`fish_product.price`, a `DECIMAL(10,2)` column) is integer cents.
    The other money fields (coupon `value` and `minAmount`, order
    `totalAmount`, item `price` and `subtotal`) are exact reals.

Two facts of the code shape the model:

- **No orchestrator.** `backend/src/modules/ai/recommendation.service.ts:13-36`
  returns a fixed list of three products and logs it. No strategy dispatch
  or fallback exists there, so none is modelled.
- **Limits of the collaborative-filtering results.**
  - `hybridCF` calls both sides with `topN * 2`
    (`backend/src/modules/ai/algorithms/collaborative-filtering.service.ts:317-318`).
  - `userBasedCF` uses its `topN` only to bound the number of neighbours
    (`collaborative-filtering.service.ts:188`), and `itemBasedCF` does not
    use its `topN` at all.
  - So `userBasedCF` and `itemBasedCF` return every candidate, and only
    the hybrid result is cut to `topN` (`collaborative-filtering.service.ts:349`).
  - `CollaborativeFiltering.UserCFSpec` and `CollaborativeFiltering.ItemCFSpec`
    state this.

## Model

| member | source | states |
|---|---|---|
| Behavior.CfWeight | backend/src/modules/ai/algorithms/collaborative-filtering.service.ts:41-47 | the collaborative-filtering weight of a behaviour type is at least 1, and exactly 1 for a type outside the table |
| Behavior.PopularityWeight | backend/src/modules/ai/algorithms/popularity-based.service.ts:79-89 | `getBehaviorWeight` is at least 1, and defaults to 1 for an unknown type |
| Behavior.WeightTablesAgree | backend/src/modules/ai/algorithms/popularity-based.service.ts:80-88 | the popularity table gives every behaviour type the same weight as the collaborative-filtering table |
| Popularity.WindowStart | backend/src/modules/ai/algorithms/popularity-based.service.ts:32-33 | the window starts `days` × 86 400 000 ms before `now`, never after it for a non-negative `days` |
| Popularity.InWindow | backend/src/modules/ai/algorithms/popularity-based.service.ts:35-38 | the selected rows are exactly the table's rows stamped at or after the window start |
| Popularity.PopularitySpec | backend/src/modules/ai/algorithms/popularity-based.service.ts:43-51 | a product is scored iff some row is for it; its score is the summed weight of its rows and is at least the number of its rows |
| Popularity.WindowInclusive | backend/src/modules/ai/algorithms/popularity-based.service.ts:37 | a row stamped exactly at the window start is counted |
| Popularity.ScoreBehaviors | backend/src/modules/ai/algorithms/popularity-based.service.ts:41-51 | the scoring loop yields the per-product weight sums of the specification |
| Popularity.GetPopularProducts | backend/src/modules/ai/algorithms/popularity-based.service.ts:27-65 | the method returns the ranked, truncated scores of the rows in the window |
| Popularity.PopularProductsSpec | backend/src/modules/ai/algorithms/popularity-based.service.ts:54-62 | the result is sorted by descending score (ties by ascending id), has at most `topN` entries, is empty when the window holds no row, and lists only products with rows in the window, each with the summed weight of those rows, which is at least their number |
| Popularity.PopularProductsBest | backend/src/modules/ai/algorithms/popularity-based.service.ts:61-62 | a product with rows in the window that the cut-off leaves out scores no higher than any listed product |
| Popularity.NewProducts | backend/src/modules/ai/algorithms/popularity-based.service.ts:70-74 | `getNewProducts` returns the empty list whatever `topN` is |
| Similarity.SharedSums | backend/src/modules/ai/algorithms/collaborative-filtering.service.ts:89-93 | the first loop sums the dot product and both squared norms over exactly the shared keys |
| Similarity.AddSquares | backend/src/modules/ai/algorithms/collaborative-filtering.service.ts:96-106 | the second and third loops add the squares of every entry at the given keys |
| Similarity.CosineSimilarity | backend/src/modules/ai/algorithms/collaborative-filtering.service.ts:74-110 | the method returns the cosine of the specification: 0 without a shared key or with a zero denominator, otherwise the shared dot product over the product of the square roots of the full squared norms |
| Similarity.RatioZero | backend/src/modules/ai/algorithms/collaborative-filtering.service.ts:108-109 | the final division answers 0 when either squared norm is 0 |
| Similarity.RatioSelf | backend/src/modules/ai/algorithms/collaborative-filtering.service.ts:108-109 | a number divided by the square root of itself squared is 1 |
| Similarity.RatioNonNegative | backend/src/modules/ai/algorithms/collaborative-filtering.service.ts:108-109 | the final division of non-negative sums is non-negative |
| Similarity.CosineSymmetric | backend/src/modules/ai/algorithms/collaborative-filtering.service.ts:74-110 | cosine similarity is symmetric in its two vectors |
| Similarity.RatioSwap | backend/src/modules/ai/algorithms/collaborative-filtering.service.ts:108 | swapping the two norms leaves the final ratio unchanged |
| Similarity.CosineSelf | backend/src/modules/ai/algorithms/collaborative-filtering.service.ts:84-109 | a vector has similarity 1 with itself when its squared norm is positive, and 0 otherwise |
| Similarity.CosineSelfPositive | backend/src/modules/ai/algorithms/collaborative-filtering.service.ts:84-109 | a non-empty vector with positive entries has similarity exactly 1 with itself |
| Similarity.CosineZeroVector | backend/src/modules/ai/algorithms/collaborative-filtering.service.ts:108-109 | similarity with a vector of zero entries (the empty vector included) is 0 |
| Similarity.CosineNonNegative | backend/src/modules/ai/algorithms/collaborative-filtering.service.ts:84-109 | vectors with non-negative entries have non-negative similarity |
| Similarity.CosineCountsUnsharedKeys | backend/src/modules/ai/algorithms/collaborative-filtering.service.ts:95-106 | the norms run over all keys: {1:1} against {1:1, 2:1} is not at similarity 1 |
| Similarity.MeanOver | backend/src/modules/ai/algorithms/collaborative-filtering.service.ts:126-127 | each `reduce` divided by the number of shared keys is the mean over the shared keys |
| Similarity.CenteredSums | backend/src/modules/ai/algorithms/collaborative-filtering.service.ts:134-140 | the loop sums the covariance and both variances around the given means over the shared keys |
| Similarity.PearsonCorrelation | backend/src/modules/ai/algorithms/collaborative-filtering.service.ts:115-144 | the method returns the Pearson correlation of the specification: 0 without a shared key or with a zero variance, otherwise covariance over the product of the square roots of the variances |
| Similarity.Restrict | backend/src/modules/ai/algorithms/collaborative-filtering.service.ts:121 | restricting a vector to a key set keeps exactly the entries at those keys |
| Similarity.MeanAgree | backend/src/modules/ai/algorithms/collaborative-filtering.service.ts:126-127 | the mean depends only on the entries at the shared keys |
| Similarity.VarianceAgree | backend/src/modules/ai/algorithms/collaborative-filtering.service.ts:138-139 | a variance depends only on the entries at the shared keys |
| Similarity.CovarianceAgree | backend/src/modules/ai/algorithms/collaborative-filtering.service.ts:137 | the covariance depends only on the entries at the shared keys |
| Similarity.PearsonUsesSharedKeysOnly | backend/src/modules/ai/algorithms/collaborative-filtering.service.ts:119-144 | the correlation is unchanged when both vectors are cut down to their shared keys |
| Similarity.PearsonSingleSharedKey | backend/src/modules/ai/algorithms/collaborative-filtering.service.ts:123-143 | vectors sharing exactly one key have correlation 0, since both variances vanish |
| Ranking.Min | backend/src/modules/ai/algorithms/collaborative-filtering.service.ts:165 | the key `Object.keys` lists first for a non-empty set of integer keys is the least of them |
| Ranking.SortedKeys | backend/src/modules/ai/algorithms/collaborative-filtering.service.ts:165 | `Object.keys(o).map(Number)` on integer keys lists each key exactly once, in ascending order |
| Ranking.Entries | backend/src/modules/ai/algorithms/collaborative-filtering.service.ts:213-219 | the entries of a score dictionary carry each key with its own score, in ascending key order |
| Ranking.EntriesComplete | backend/src/modules/ai/algorithms/collaborative-filtering.service.ts:213-219 | every key of the dictionary has its entry |
| Ranking.InsertPermutes | backend/src/modules/ai/algorithms/collaborative-filtering.service.ts:220 | inserting into the sorted list adds exactly that element |
| Ranking.InsertSorted | backend/src/modules/ai/algorithms/collaborative-filtering.service.ts:220 | inserting keeps the list sorted by non-increasing score |
| Ranking.InsertRanked | backend/src/modules/ai/algorithms/collaborative-filtering.service.ts:220 | inserting an entry with an id below all others keeps ties in ascending id order |
| Ranking.SortDescPermutes | backend/src/modules/ai/algorithms/collaborative-filtering.service.ts:220 | `.sort((a, b) => b.score - a.score)` permutes its input |
| Ranking.SortDescSorted | backend/src/modules/ai/algorithms/collaborative-filtering.service.ts:220 | the sort yields non-increasing scores |
| Ranking.SortDescRanked | backend/src/modules/ai/algorithms/collaborative-filtering.service.ts:220 | the sort is stable: a list in ascending id order ends with equal scores in ascending id order |
| Ranking.RankSpec | backend/src/modules/ai/algorithms/collaborative-filtering.service.ts:213-220 | a ranked dictionary lists every entry exactly once with its score, best first, equal scores by ascending id |
| Ranking.Ids | backend/src/modules/ai/algorithms/collaborative-filtering.service.ts:213-216 | the ids of a list, position by position |
| Ranking.SliceTo | backend/src/modules/ai/algorithms/collaborative-filtering.service.ts:188 | `.slice(0, n)` is a prefix of length min(n, length), and for a negative `n` drops `-n` entries from the end |
| Ranking.RankedPrefix | backend/src/modules/ai/algorithms/collaborative-filtering.service.ts:349 | a prefix of a ranked list is ranked |
| Ranking.RankedIsSorted | backend/src/modules/ai/algorithms/collaborative-filtering.service.ts:220 | a ranked list has non-increasing scores |
| Ranking.RankKeys | backend/src/modules/ai/algorithms/collaborative-filtering.service.ts:213-220 | the ids of a ranked dictionary are exactly its keys |
| Ranking.ScoreInUnlisted | backend/src/modules/ai/algorithms/collaborative-filtering.service.ts:325-330 | reading the score of an id a list does not hold gives 0 |
| Ranking.ScoreInListed | backend/src/modules/ai/algorithms/collaborative-filtering.service.ts:325-330 | in a list without repeated ids, reading an entry's id back gives its score |
| Ranking.RankDistinct | backend/src/modules/ai/algorithms/collaborative-filtering.service.ts:213-220 | a ranked dictionary lists each key once |
| Ranking.RankScoreIn | backend/src/modules/ai/algorithms/collaborative-filtering.service.ts:213-220 | reading a key's score back from the ranked dictionary gives its value, or 0 when absent |
| Ranking.RankTopBest | backend/src/modules/ai/algorithms/collaborative-filtering.service.ts:348-349 | an entry that `.slice(0, n)` cuts from a ranked dictionary scores no higher than any it keeps |
| Ranking.SortDescTopBest | backend/src/modules/ai/algorithms/collaborative-filtering.service.ts:185-188 | an entry that the first `n` of the sorted list leave out scores no higher than any kept entry |
| CollaborativeFiltering.BuildUserItemMatrix | backend/src/modules/ai/algorithms/collaborative-filtering.service.ts:52-69 | the loop builds the matrix of the specification: each event adds its type's weight to its (user, product) entry |
| CollaborativeFiltering.MatrixEntry | backend/src/modules/ai/algorithms/collaborative-filtering.service.ts:56-66 | an entry (u, p) exists iff some event is for that pair; it is the sum of those events' weights, at least their number; the stored `behaviorValue` plays no part |
| CollaborativeFiltering.MatrixRows | backend/src/modules/ai/algorithms/collaborative-filtering.service.ts:56-59 | the matrix's users are exactly those with an event, and no user's row is empty |
| CollaborativeFiltering.MatrixEntriesAtLeastOne | backend/src/modules/ai/algorithms/collaborative-filtering.service.ts:61-65 | every entry of the matrix is at least 1 |
| CollaborativeFiltering.ViewViewPurchase | backend/src/modules/ai/algorithms/collaborative-filtering.service.ts:41-47 | two views and a purchase of one product give the entry 12 |
| CollaborativeFiltering.RecordedValueIsMatrixWeight | backend/src/modules/ai/algorithms/collaborative-filtering.service.ts:357-367 | the `behaviorValue` that `recordBehavior` stores equals what the new event adds to its matrix entry |
| CollaborativeFiltering.AccrueSpec | backend/src/modules/ai/algorithms/collaborative-filtering.service.ts:199-209 | over distinct keys, the accumulation loop scores exactly the prior keys and the unskipped listed keys, each once more by its credit |
| CollaborativeFiltering.AccrueStep | backend/src/modules/ai/algorithms/collaborative-filtering.service.ts:199-209 | one more iteration of the accumulation loop |
| CollaborativeFiltering.NeighboursSound | backend/src/modules/ai/algorithms/collaborative-filtering.service.ts:167-182 | every collected neighbour is another user of the list with a non-empty row and similarity at least `minSimilarity`, carrying that similarity |
| CollaborativeFiltering.NeighboursComplete | backend/src/modules/ai/algorithms/collaborative-filtering.service.ts:167-182 | every qualifying user of the list is collected |
| CollaborativeFiltering.NeighboursAscending | backend/src/modules/ai/algorithms/collaborative-filtering.service.ts:165-182 | neighbours keep the ascending order of the user ids |
| CollaborativeFiltering.TopNeighboursSound | backend/src/modules/ai/algorithms/collaborative-filtering.service.ts:184-188 | the chosen neighbours number at most `topN`, are sorted by similarity, and are qualifying users of the matrix |
| CollaborativeFiltering.TopNeighboursBest | backend/src/modules/ai/algorithms/collaborative-filtering.service.ts:184-188 | no qualifying user left out is more similar than a chosen neighbour |
| CollaborativeFiltering.CreditSpec | backend/src/modules/ai/algorithms/collaborative-filtering.service.ts:191-210 | a product is scored iff the target user lacks it and some chosen neighbour has it; its score is the sum of similarity × weight over those neighbours |
| CollaborativeFiltering.UserCFSpec | backend/src/modules/ai/algorithms/collaborative-filtering.service.ts:151-223 | `userBasedCF` returns [] for a user without behaviour; otherwise it ranks, not truncated, exactly the products the user lacks and a chosen neighbour has, scored as in `CreditSpec` |
| CollaborativeFiltering.NeighboursStep | backend/src/modules/ai/algorithms/collaborative-filtering.service.ts:167-182 | one more iteration of the user loop |
| CollaborativeFiltering.SimilarUsers | backend/src/modules/ai/algorithms/collaborative-filtering.service.ts:164-182 | the user loop collects the neighbours of the specification |
| CollaborativeFiltering.ContributeRow | backend/src/modules/ai/algorithms/collaborative-filtering.service.ts:199-209 | the inner loop adds similarity × weight for every product of the neighbour's row the target user lacks |
| CollaborativeFiltering.ScoreNeighbours | backend/src/modules/ai/algorithms/collaborative-filtering.service.ts:194-210 | the outer loop yields the closed-form user-based score dictionary |
| CollaborativeFiltering.UserBasedCF | backend/src/modules/ai/algorithms/collaborative-filtering.service.ts:151-223 | the method returns the user-based ranking of the specification over the matrix built from the table |
| CollaborativeFiltering.PlaceRowSpec | backend/src/modules/ai/algorithms/collaborative-filtering.service.ts:248-253 | placing one user's row sets `itemUser[p][u]` to `matrix[u][p]` for each listed product and keeps every other entry |
| CollaborativeFiltering.TransposeRowsSpec | backend/src/modules/ai/algorithms/collaborative-filtering.service.ts:246-254 | after the listed users, `itemUser[p][v]` exists iff v is listed and has p, and then equals `matrix[v][p]` |
| CollaborativeFiltering.TransposeSpec | backend/src/modules/ai/algorithms/collaborative-filtering.service.ts:243-254 | the transposed matrix has `itemUser[p][u] == matrix[u][p]` for exactly the matrix's entries, and no empty row |
| CollaborativeFiltering.ItemScoresSpec | backend/src/modules/ai/algorithms/collaborative-filtering.service.ts:265-291 | a candidate is scored iff the user lacks it and a liked product is similar enough; its score is the sum of userRating × similarity over those liked products |
| CollaborativeFiltering.ItemCFSpec | backend/src/modules/ai/algorithms/collaborative-filtering.service.ts:230-304 | `itemBasedCF` returns [] for a user without behaviour; otherwise it ranks, not truncated, exactly the products the user lacks that are similar enough to one the user has; `topN` plays no part |
| CollaborativeFiltering.ItemCFScores | backend/src/modules/ai/algorithms/collaborative-filtering.service.ts:284-298 | each product `itemBasedCF` ranks carries the sum of userRating × similarity over the user's products similar enough to it |
| CollaborativeFiltering.PlaceUser | backend/src/modules/ai/algorithms/collaborative-filtering.service.ts:248-253 | the inner transposition loop places one user's row |
| CollaborativeFiltering.TransposeStep | backend/src/modules/ai/algorithms/collaborative-filtering.service.ts:246-254 | one more iteration of the transposition loop |
| CollaborativeFiltering.TransposeMatrix | backend/src/modules/ai/algorithms/collaborative-filtering.service.ts:243-254 | the transposition loops build the transposed matrix of the specification |
| CollaborativeFiltering.ItemStep | backend/src/modules/ai/algorithms/collaborative-filtering.service.ts:272-290 | one iteration of the candidate loop, given the similarity of the two products |
| CollaborativeFiltering.ItemSimilarityIs | backend/src/modules/ai/algorithms/collaborative-filtering.service.ts:280 | the item similarity used by the specification is the cosine of the two product columns |
| CollaborativeFiltering.ProductSimilarity | backend/src/modules/ai/algorithms/collaborative-filtering.service.ts:280 | the method returns the cosine similarity of the two product columns |
| CollaborativeFiltering.CreditSimilarItems | backend/src/modules/ai/algorithms/collaborative-filtering.service.ts:272-290 | the candidate loop for one liked product credits userRating × similarity to each unseen candidate similar enough |
| CollaborativeFiltering.ScoreLikedProducts | backend/src/modules/ai/algorithms/collaborative-filtering.service.ts:265-291 | the liked-product loop yields the closed-form item-based score dictionary |
| CollaborativeFiltering.ItemBasedCF | backend/src/modules/ai/algorithms/collaborative-filtering.service.ts:230-304 | the method returns the item-based ranking of the specification over the matrix built from the table |
| CollaborativeFiltering.AddWeightedSpec | backend/src/modules/ai/algorithms/collaborative-filtering.service.ts:324-338 | a merging loop scores exactly the prior and the listed products, adding each listed score times the weight |
| CollaborativeFiltering.WeightedScoreDistinct | backend/src/modules/ai/algorithms/collaborative-filtering.service.ts:325-330 | with distinct ids a product's weighted sum is its one score times the weight |
| CollaborativeFiltering.CombineSpec | backend/src/modules/ai/algorithms/collaborative-filtering.service.ts:321-338 | a product is combined iff either list has it, scored userCFWeight × its user score + itemCFWeight × its item score, a missing side counting 0 |
| CollaborativeFiltering.BlendSound | backend/src/modules/ai/algorithms/collaborative-filtering.service.ts:340-349 | the blend has at most `topN` entries, ranked, each from one of the lists with its combined score |
| CollaborativeFiltering.BlendBest | backend/src/modules/ai/algorithms/collaborative-filtering.service.ts:348-349 | a product of either list that the blend cuts scores, combined, no higher than any product it keeps |
| CollaborativeFiltering.HybridInputsDistinct | backend/src/modules/ai/algorithms/collaborative-filtering.service.ts:316-319 | the two lists `hybridCF` blends each list a product at most once |
| CollaborativeFiltering.HybridUserDistinct | backend/src/modules/ai/algorithms/collaborative-filtering.service.ts:317 | the user-based list blended by `hybridCF` lists each product once |
| CollaborativeFiltering.HybridItemDistinct | backend/src/modules/ai/algorithms/collaborative-filtering.service.ts:318 | the item-based list blended by `hybridCF` lists each product once |
| CollaborativeFiltering.HybridSpec | backend/src/modules/ai/algorithms/collaborative-filtering.service.ts:309-352 | `hybridCF` returns at most `topN` products, ranked, each recommended by one algorithm and scored userCFWeight × user score + itemCFWeight × item score |
| CollaborativeFiltering.HybridBest | backend/src/modules/ai/algorithms/collaborative-filtering.service.ts:340-349 | a product either algorithm recommends that `hybridCF` leaves out scores no higher than any product it returns |
| CollaborativeFiltering.MergeResults | backend/src/modules/ai/algorithms/collaborative-filtering.service.ts:325-338 | one merging loop adds each result's weighted score |
| CollaborativeFiltering.HybridBasedCF | backend/src/modules/ai/algorithms/collaborative-filtering.service.ts:309-352 | the method returns the blend of the specification over the matrix built from the table, with `topN * 2` and 0.1 passed to both algorithms |
| ContentBased.GetPriceRange | backend/src/modules/ai/algorithms/content-based.service.ts:151-156 | a price is low iff below 50, medium iff in [50, 100), high iff in [100, 200), premium iff at least 200 |
| ContentBased.PriceRangeMonotone | backend/src/modules/ai/algorithms/content-based.service.ts:151-156 | a dearer product never falls in a cheaper band |
| ContentBased.ProductFeatures | backend/src/modules/ai/algorithms/content-based.service.ts:133-146 | the features are the price at `avg_price`, 1 at exactly the product's band, and 1 at its category exactly when it has one |
| ContentBased.CategoryCountsSpec | backend/src/modules/ai/algorithms/content-based.service.ts:107-110 | `categories` holds exactly the categories that occur among products with a truthy categoryId, each with its product count |
| ContentBased.RangeCountsSpec | backend/src/modules/ai/algorithms/content-based.service.ts:104-105 | `priceRanges` holds exactly the bands that occur, each with its product count |
| ContentBased.RangeCountsTotal | backend/src/modules/ai/algorithms/content-based.service.ts:104-105 | every product falls in exactly one band |
| ContentBased.MaxAt | backend/src/modules/ai/algorithms/content-based.service.ts:115 | `Math.max(...counts, 1)` is at least 1, bounds every count, and is 1 or some count |
| ContentBased.MaxCountSpec | backend/src/modules/ai/algorithms/content-based.service.ts:115 | the maximum bounds every category count and, with positive counts, is one of them |
| ContentBased.PreferenceOfAt | backend/src/modules/ai/algorithms/content-based.service.ts:117-125 | the preference holds `avg_price`, one entry per counted category and one per occurring band, with their normalised values |
| ContentBased.ShareBounds | backend/src/modules/ai/algorithms/content-based.service.ts:120 | a positive count over a larger or equal maximum lies in (0, 1] |
| ContentBased.SharesSumToOne | backend/src/modules/ai/algorithms/content-based.service.ts:124 | four counts adding up to n give shares adding up to 1 |
| ContentBased.PreferenceCategory | backend/src/modules/ai/algorithms/content-based.service.ts:107-121 | a category has an entry iff some product is in it; the entry is count over maximum count, in (0, 1] |
| ContentBased.PreferenceBand | backend/src/modules/ai/algorithms/content-based.service.ts:123-125 | a band has an entry iff some product is in it; the entry is its count over the number of products |
| ContentBased.PreferenceAvgPrice | backend/src/modules/ai/algorithms/content-based.service.ts:114-117 | `avg_price` is the mean price of the products |
| ContentBased.PreferenceTopCategory | backend/src/modules/ai/algorithms/content-based.service.ts:115-121 | if some product has a category, the most frequent category gets exactly 1 |
| ContentBased.CategoryCountPositive | backend/src/modules/ai/algorithms/content-based.service.ts:108-110 | a product with a category makes that category's count at least 1 |
| ContentBased.PreferenceBandsSumToOne | backend/src/modules/ai/algorithms/content-based.service.ts:123-125 | the four price-band shares sum to 1 |
| ContentBased.BandShareIs | backend/src/modules/ai/algorithms/content-based.service.ts:123-125 | each band's share, 0 when absent, is its count over the number of products |
| ContentBased.SharesAvgPrice | backend/src/modules/ai/algorithms/content-based.service.ts:133-143 | a product's features always share `avg_price` with a non-empty preference |
| ContentBased.UserEvents | backend/src/modules/ai/algorithms/content-based.service.ts:35-37 | the user's rows are exactly the table's rows with that userId |
| ContentBased.LikedIds | backend/src/modules/ai/algorithms/content-based.service.ts:44 | the liked ids are exactly the products of the user's rows, whatever the behaviour type |
| ContentBased.LikedProducts | backend/src/modules/ai/algorithms/content-based.service.ts:48-51 | the liked products are exactly the catalogue rows whose id is liked |
| ContentBased.CandidatesSound | backend/src/modules/ai/algorithms/content-based.service.ts:63-80 | every candidate is a catalogue product not interacted with, at its positive similarity |
| ContentBased.CandidatesComplete | backend/src/modules/ai/algorithms/content-based.service.ts:63-80 | every product not interacted with whose similarity is positive is a candidate |
| ContentBased.RecommendSound | backend/src/modules/ai/algorithms/content-based.service.ts:30-86 | `recommend` returns [] without behaviour; otherwise at most `topN` products, sorted by descending score, none interacted with, each at its positive similarity to the preference |
| ContentBased.RecommendBest | backend/src/modules/ai/algorithms/content-based.service.ts:83-85 | a product not interacted with, with positive similarity, that the cut-off leaves out scores no higher than any returned product |
| ContentBased.RecommendNoLikedRows | backend/src/modules/ai/algorithms/content-based.service.ts:91-94 | when no catalogue row matches the liked ids the preference is empty and nothing is recommended |
| ContentBased.NoCandidates | backend/src/modules/ai/algorithms/content-based.service.ts:73 | without a positive similarity there is no candidate |
| ContentBased.ContentSimilarityIs | backend/src/modules/ai/algorithms/content-based.service.ts:161-195 | the similarity used by the specification is the cosine of the preference and the product's features |
| ContentBased.BuildUserPreference | backend/src/modules/ai/algorithms/content-based.service.ts:91-128 | the method builds the preference of the specification |
| ContentBased.AddCategoryShares | backend/src/modules/ai/algorithms/content-based.service.ts:119-121 | the loop adds count / maxCount for every category |
| ContentBased.CategorySharesStep | backend/src/modules/ai/algorithms/content-based.service.ts:119-121 | one more iteration of the category loop |
| ContentBased.RangeSharesStep | backend/src/modules/ai/algorithms/content-based.service.ts:123-125 | one more iteration of the band loop |
| ContentBased.AddRangeShares | backend/src/modules/ai/algorithms/content-based.service.ts:123-125 | the loop adds count / number of products for every band |
| ContentBased.CollectCandidates | backend/src/modules/ai/algorithms/content-based.service.ts:61-80 | the candidate loop collects the candidates of the specification |
| ContentBased.RecommendProducts | backend/src/modules/ai/algorithms/content-based.service.ts:30-86 | the method returns the recommendation of the specification over the two tables |
| Chat.MatchKeywords | backend/src/modules/ai/chat.service.ts:346-348 | a text matches a cue list exactly when some cue of the list occurs in it as a substring |
| Chat.ExtractIntentSpec | backend/src/modules/ai/chat.service.ts:260-291 | the intent is that of the first cue list, in order health, cooking, price, taste, recommend, with a cue in the question, and search exactly when no list has one |
| Chat.NoCueMatches | backend/src/modules/ai/chat.service.ts:346-348 | a cue list none of whose cues starts with a character of the question does not match it |
| Chat.TasteBeforeRecommend | backend/src/modules/ai/chat.service.ts:280-287 | `什么好吃` contains the recommend cue `什么好` yet is a taste question, because the taste test comes first |
| Chat.Present | backend/src/modules/ai/chat.service.ts:310-314 | the words pushed by one list's loop are exactly the list's words that occur in the question, in list order, never more than the list holds |
| Chat.PushPresent | backend/src/modules/ai/chat.service.ts:310-338 | one loop of `extractKeywords` appends to the keywords exactly the words of its list that occur in the question |
| Chat.ExtractKeywords | backend/src/modules/ai/chat.service.ts:296-341 | the four loops yield the keyword list of the question (fish names, then cooking methods, then health words, then taste words) |
| Chat.ListsDistinct | backend/src/modules/ai/chat.service.ts:300-333 | none of the four keyword lists repeats a word |
| Chat.VocabularyDistinct | backend/src/modules/ai/chat.service.ts:300-333 | no word occurs in two of the four keyword lists |
| Chat.KeywordsSpec | backend/src/modules/ai/chat.service.ts:296-341 | the keywords are exactly the vocabulary words occurring in the question, each once, fish names before cooking methods before health words before taste words |
| Chat.UpperCaseNeverExtracted | backend/src/modules/ai/chat.service.ts:238-242 | since the question is lower-cased first, the upper-case health words `DHA` and `EPA` are never extracted |
| Chat.ColdOpeningUnreachable | backend/src/modules/ai/chat.service.ts:461-463 | no extracted keyword, nor the space joining them, contains a character of `感冒` or `生病`, so the cold-specific test on the joined keywords never succeeds |
| Chat.Excerpt | backend/src/modules/ai/chat.service.ts:468-469 | an excerpt is the text itself when it is within the limit, and otherwise its first `n` characters followed by three dots |
| Chat.ExcerptBound | backend/src/modules/ai/chat.service.ts:468-506 | an excerpt is at most three characters longer than its limit and starts with the text's first `n` characters |
| Chat.Listed | backend/src/modules/ai/chat.service.ts:490-495 | a price answer lists the first five products (all of them when fewer); every other intent lists every product |
| Chat.AppendHealthLine | backend/src/modules/ai/chat.service.ts:465-472 | a health line is the numbered name and price, the nutrition excerpt (60 characters) when there is one, and a blank line |
| Chat.AppendCookingLine | backend/src/modules/ai/chat.service.ts:479-486 | a cooking line is the numbered name and price, the cooking-tips excerpt (100 characters) when there is one, and a blank line |
| Chat.AppendPriceLine | backend/src/modules/ai/chat.service.ts:493-495 | a price line is the numbered name, price and stock |
| Chat.AppendTasteLine | backend/src/modules/ai/chat.service.ts:502-509 | a taste line is the numbered name and price, the description excerpt (80 characters) when there is one, and a blank line |
| Chat.AppendRecommendLine | backend/src/modules/ai/chat.service.ts:516-523 | a recommend line is the numbered name and price, the description excerpt (70 characters) when there is one, and a blank line |
| Chat.AppendSearchLine | backend/src/modules/ai/chat.service.ts:535-541 | a search line is the numbered name and price, followed by the stock only when it is positive |
| Chat.AppendLine | backend/src/modules/ai/chat.service.ts:465-541 | the loop body of each intent appends that intent's line for the product |
| Chat.AppendLines | backend/src/modules/ai/chat.service.ts:465-541 | the `forEach` loop appends the lines of all listed products, numbered from 1 in order |
| Chat.GenerateAnswer | backend/src/modules/ai/chat.service.ts:440-547 | the answer is the apology when there are no products, and otherwise the intent's opening, its product lines and its closing text |
| Chat.LinesContain | backend/src/modules/ai/chat.service.ts:465-541 | the product at position `k` has its line in the answer, numbered `k + 1` |
| Chat.NoProductsAnswer | backend/src/modules/ai/chat.service.ts:446-452 | with no products the answer is the same for every intent; it names the keywords joined by `、` when there are any, and is the generic apology otherwise |
| Chat.PriceListsFive | backend/src/modules/ai/chat.service.ts:490-495 | a price answer is unchanged by products after the fifth |
| Chat.ListedProducts | backend/src/modules/ai/chat.service.ts:490-495 | for any number of products, each listed product (all of them for every intent but price, the first five for price) has its line numbered from 1 in the answer |
| Chat.SearchOpeningCount | backend/src/modules/ai/chat.service.ts:529-533 | both branches of the search opening read `为您找到 <count> 个相关商品`, so a search answer starts with the number of products found |
| Chat.HealthAnswerOpening | backend/src/modules/ai/chat.service.ts:457-463 | a health answer with products opens with the general health text whenever the joined keywords name no cold symptom |
| Chat.LocalHealthOpening | backend/src/modules/ai/chat.service.ts:238-248 | in the local rules a health answer always opens with the general health text |
| Chat.ChatWithLocalRules | backend/src/modules/ai/chat.service.ts:233-255 | the local reply normalises the question, extracts its intent and keywords, searches with them and answers from the products found |
| Chat.ChatFallback | backend/src/modules/ai/chat.service.ts:31-52 | without an API key the local rules answer whatever the remote path would say; they also answer when the remote path yields nothing; otherwise the remote reply is returned unchanged |
| Chat.Chat | backend/src/modules/ai/chat.service.ts:31-52 | `chat` returns the reply given by the fallback rule of `ChatFallback` |
| Strings.IndexOf | backend/src/modules/upload/upload.service.ts:47 | the first position of a character that occurs: it holds the character and no earlier position does |
| Strings.Split | backend/src/modules/upload/upload.service.ts:44-47 | `split` with a one-character separator yields at least one piece and no piece contains the separator |
| Strings.SplitAt | backend/src/modules/upload/upload.service.ts:44-47 | the first piece of a split ends at the first separator and the rest is the split of what follows it |
| Strings.SplitJoin | backend/src/modules/upload/upload.service.ts:44-47 | joining the pieces of a split with the separator gives the text back |
| Strings.NatToString | backend/src/modules/upload/upload.service.ts:27 | a number prints as a non-empty run of decimal digits |
| Strings.NatToStringValue | backend/src/modules/upload/upload.service.ts:27 | the printed digits denote exactly the number, with no leading zero except for 0 itself |
| Strings.NatToStringInjective | backend/src/modules/upload/upload.service.ts:27 | two numbers that print the same are equal, so the `<now>` part of a stored name determines `now` |
| Strings.LowerChar | backend/src/modules/ai/chat.service.ts:238 | lower-casing a character never yields an upper-case ASCII letter |
| Strings.ToLower | backend/src/modules/ai/chat.service.ts:238 | lower-casing keeps the length and lower-cases each character in place |
| Strings.LowerHasNoUpper | backend/src/modules/ai/chat.service.ts:238 | a lower-cased text contains no upper-case ASCII letter |
| Strings.TrimStart | backend/src/modules/ai/chat.service.ts:238 | trimming the start leaves a suffix of the text that does not start with white space |
| Strings.TrimEnd | backend/src/modules/ai/chat.service.ts:238 | trimming the end leaves a prefix of the text that does not end with white space |
| Strings.ContainsAt | backend/src/modules/ai/chat.service.ts:347 | `includes` holds for every block that starts at a position of the text |
| Strings.ContainsChars | backend/src/modules/ai/chat.service.ts:347 | every character of a contained block occurs in the text |
| Strings.JoinAvoids | backend/src/modules/ai/chat.service.ts:461 | a character found in no word and not in the separator is not in the joined text |
| Upload.Setting | backend/src/modules/upload/upload.service.ts:13-14 | `configService.get(key, default)` is the configured value when there is one and the default otherwise |
| Upload.Subtype | backend/src/modules/upload/upload.service.ts:47 | the subtype is missing exactly when the MIME type has no '/', and otherwise contains no '/' |
| Upload.SubtypeSpec | backend/src/modules/upload/upload.service.ts:47 | the subtype is the text between the first '/' and the next one (or the end) |
| Upload.SubtypeOf | backend/src/modules/upload/upload.service.ts:47 | a MIME type with exactly one '/' has everything after it as its subtype |
| Upload.DefaultTypes | backend/src/modules/upload/upload.service.ts:44-46 | the default list of allowed types splits into exactly jpg, jpeg and png |
| Upload.ValidateFileTypeSpec | backend/src/modules/upload/upload.service.ts:43-49 | a MIME type without '/' is never allowed; under the default list a type is allowed iff its subtype is jpg, jpeg or png |
| Upload.ImageTypes | backend/src/modules/upload/upload.service.ts:43-49 | under the default list `image/<sub>` is allowed iff `sub` is jpg, jpeg or png |
| Upload.ValidateFileSizeSpec | backend/src/modules/upload/upload.service.ts:54-57 | the default limit is 5 MiB, inclusive; a configured limit is itself accepted; every size below an accepted one is accepted |
| Upload.LastIndexOf | backend/src/modules/upload/upload.service.ts:26 | the last position of a character: it holds the character and none after it does, and it is missing exactly when the character does not occur |
| Upload.Basename | backend/src/modules/upload/upload.service.ts:26 | the last path component is a suffix of the path without '/' |
| Upload.Extname | backend/src/modules/upload/upload.service.ts:26 | the extension is a suffix of the path that is empty or one '.' followed by text without '.' or '/' |
| Upload.SaveFile | backend/src/modules/upload/upload.service.ts:24-38 | the stored name is `<now>-<hex><ext>` and the URL is the base URL, `/uploads/` and that name |
| Upload.PrefixPlain | backend/src/modules/upload/upload.service.ts:27 | the generated prefix `<now>-<hex>` contains neither '.' nor '/' |
| Upload.SaveFileKeepsExtension | backend/src/modules/upload/upload.service.ts:26-27 | the stored name is a single path component whose extension is the uploaded file's extension |
| Upload.KeepsExtension | backend/src/modules/upload/upload.service.ts:26-27 | appending an extension to a plain prefix makes a single component with exactly that extension |
| Upload.DefaultUrl | backend/src/modules/upload/upload.service.ts:14 | with no `BASE_URL` configured the URL is `http://localhost:3000/uploads/` followed by the stored name |
| Upload.ExtnameSpec | backend/src/modules/upload/upload.service.ts:26 | a name with a stem has the text from its last '.' as its extension, and a dot file such as `.profile` has none |
| FishNames.GetFishNameCN | backend/src/modules/ai/fish-name-mapper.ts:29-31 | a label with a non-empty entry yields that entry, and a label without one comes back unchanged |
| FishNames.MapEntries | backend/src/modules/ai/fish-name-mapper.ts:4-24 | every Chinese name of the table is non-empty and none of them is itself a label |
| FishNames.SeaBass | backend/src/modules/ai/fish-name-mapper.ts:10 | `sea_bass` translates to 鲈鱼 |
| FishNames.GetFishNameSpec | backend/src/modules/ai/fish-name-mapper.ts:29-31 | a label is translated exactly when the table has it, and a non-empty label never yields an empty name |
| FishNames.GetFishNameIdempotent | backend/src/modules/ai/fish-name-mapper.ts:4-31 | translating twice gives the same as translating once |
| Roles.RequiredRoles | backend/src/common/guards/roles.guard.ts:10-13 | the handler's roles, when present, override the controller's |
| Roles.AnyRole | backend/src/common/guards/roles.guard.ts:24 | a user passes the role list exactly when their role is in it |
| Roles.CanActivateSpec | backend/src/common/guards/roles.guard.ts:9-25 | without role metadata everyone passes; with it, exactly a present user whose role is listed passes, so an empty list admits nobody |
| Roles.HandlerOverridesClass | backend/src/common/guards/roles.guard.ts:10-13 | an `admin`-only handler refuses a `user` even though its controller admits `user`, and the controller's roles apply when the handler has none |
| AddressDto.ValidPhoneSpec | backend/src/modules/address/dto/create-address.dto.ts:10 | the phone pattern accepts exactly eleven ASCII digits that start with 1 followed by a digit from 3 to 9 |
| AddressDto.ValidCreateAddressSpec | backend/src/modules/address/dto/create-address.dto.ts:3-36 | a request is valid exactly when name, province, city, district and detail are non-empty and the phone matches the pattern; postal code and default flag never matter |
| AddressDto.ClientCheck | frontend/src/pages/address/edit/index.tsx:74-85 | the form's check either lets the request through or reports one of its two messages |
| AddressDto.ClientMatchesServer | frontend/src/pages/address/edit/index.tsx:74-85 | the form lets a request through exactly when the server's validation accepts it, and reports a missing field before a malformed phone |
| CouponDto.ValidCouponRow | backend/src/modules/coupon/dto/create-coupon.dto.ts:3-46 | a coupon created from a valid request has a per-user limit of at least 1, a non-negative value and one of the three types, and the total count is not constrained |
| CouponDto.ValidDiscountNonNegative | backend/src/modules/coupon/coupon.service.ts:145-164 | for a valid `reduce` or `free` coupon, or a `discount` coupon of value at most 1, the discount on a non-negative total is never negative |
| CouponDto.DiscountValueUnbounded | backend/src/modules/coupon/dto/create-coupon.dto.ts:16-19 | the request sets no upper bound on `value`: a `discount` coupon of value 2 is valid and gives a negative discount on every positive total |
| ReviewDto.OptionalFields | backend/src/modules/review/dto/create-review.dto.ts:14-24 | content, images and order id never decide whether a review request is valid |
| ReviewDto.ServiceRepeatsRatingCheck | backend/src/modules/review/review.service.ts:34-37 | for an existing product the service refuses the rating exactly when the request's validation would have refused it |
| Address.ClearDefaultsSpec | backend/src/modules/address/address.service.ts:20-23 | clearing the defaults makes every address of the user non-default, changes nothing else and keeps the table invariant |
| Address.SetKeepsValid | backend/src/modules/address/address.service.ts:80-81 | saving one address of a user over itself keeps the invariant when it becomes the default only if no other address of the user is, and leaves other users alone |
| Address.CreateSpec | backend/src/modules/address/address.service.ts:17-32 | `create` appends one address with the next id; a default one becomes the user's only default, a non-default one changes nothing else; other users are untouched and the invariant holds |
| Address.OwnAddressSpec | backend/src/modules/address/address.service.ts:50-60 | `findOne` returns the user's own address with that id and fails with `地址不存在` exactly when there is none |
| Address.UpdateSpec | backend/src/modules/address/address.service.ts:65-82 | for a body with the DTO's fields, `update` fails, changing nothing, exactly when the user owns no such address; otherwise that address takes the patch's fields, a patch that sets the default first clears the user's defaults, and nothing else changes |
| Address.UpdateKeepsValid | backend/src/modules/address/address.service.ts:65-82 | for a body with the DTO's fields, after `update` the invariant still holds and other users' addresses are untouched |
| Address.UpdateSoleDefault | backend/src/modules/address/address.service.ts:73-81 | a successful update that sets the default leaves that address the user's only default |
| Address.SetDefaultSpec | backend/src/modules/address/address.service.ts:97-108 | on success the address is the user's one and only default and nothing else changes; for an address the user does not own it fails after the clearing, leaving the user with no default |
| Address.RemoveSpec | backend/src/modules/address/address.service.ts:87-92 | `remove` fails exactly when the user owns no address with that id, otherwise deletes exactly that address, and keeps the invariant |
| Address.DefaultAddressSpec | backend/src/modules/address/address.service.ts:113-117 | a default address is found exactly when the user has one, and under the invariant it is the only one |
| Address.SetDefaultThenDefault | backend/src/modules/address/address.service.ts:97-117 | after a successful `setDefault`, `getDefaultAddress` returns that address |
| Address.UserAddressesSpec | backend/src/modules/address/address.service.ts:37-45 | the list holds exactly the user's addresses, each once, default ones first and newest first among equals; under the invariant only the first can be the default |
| Address.DefaultsFirst | backend/src/modules/address/address.service.ts:40-43 | defaults in descending id order followed by non-defaults in descending id order satisfy the list's ordering |
| Address.AddressService.constructor | backend/src/modules/address/address.service.ts:9-12 | the service starts with an empty address table |
| Address.AddressService.Create | backend/src/modules/address/address.service.ts:17-32 | `create` saves the new address and leaves the table as `CreateSpec` describes, with the next id taken |
| Address.AddressService.FindOne | backend/src/modules/address/address.service.ts:50-60 | `findOne` returns the user's own address or the not-found error, changing nothing |
| Address.AddressService.Update | backend/src/modules/address/address.service.ts:65-82 | `update` returns and stores the outcome that `UpdateSpec` describes and keeps the invariant |
| Address.AddressService.Remove | backend/src/modules/address/address.service.ts:87-92 | `remove` returns and stores the outcome that `RemoveSpec` describes and keeps the invariant |
| Address.AddressService.SetDefault | backend/src/modules/address/address.service.ts:97-108 | `setDefault` returns and stores the outcome that `SetDefaultSpec` describes and keeps the invariant |
| Address.AddressService.GetDefaultAddress | backend/src/modules/address/address.service.ts:113-117 | `getDefaultAddress` returns the user's default address, if any, changing nothing |
| Cart.CartCount | backend/src/modules/cart/cart.service.ts:112-120 | the cart count of a user with no rows is 0, the `'0'` fallback of a missing sum |
| Cart.QuantityOfRow | backend/src/modules/cart/cart.service.ts:32-34 | with one row per user and product, the amount of a product in the cart is the quantity of the row `findOne` finds, and 0 when there is none |
| Cart.AddToCartRejects | backend/src/modules/cart/cart.service.ts:19-53 | `addToCart` fails, leaving the table as it was, exactly when the product is unknown (not found) or its stock is below the requested quantity or below the cart's amount plus it (bad request) |
| Cart.AddToCartAccepts | backend/src/modules/cart/cart.service.ts:36-52 | a successful `addToCart` raises the product's amount in the user's cart by `quantity`, never above the stock, by updating the existing row or else appending exactly one row; every other amount and every other user's count stay as they were |
| Cart.UpdateKeepsValid | backend/src/modules/cart/cart.service.ts:42-43 | rewriting a row's quantity keeps one row per user and product and the ascending ids |
| Cart.AppendKeepsValid | backend/src/modules/cart/cart.service.ts:46-51 | appending a row with the next id for a user and product not yet in the table keeps the invariant |
| Cart.UpdateCartItemSpec | backend/src/modules/cart/cart.service.ts:69-90 | `updateCartItem` finds only the caller's own row (not found otherwise), demands a quantity above 0 and within the stock, and on success sets exactly that row's quantity |
| Cart.RemoveCartItemSpec | backend/src/modules/cart/cart.service.ts:95-100 | `removeCartItem` fails, changing nothing, exactly when the caller has no row with that id, deletes only that row, and leaves every other user's cart alone |
| Cart.DropKeepsValid | backend/src/modules/cart/cart.service.ts:95-107 | deleting rows keeps the table invariant |
| Cart.ClearCartSpec | backend/src/modules/cart/cart.service.ts:105-107 | after `clearCart` the user has no row and a count of 0, and every other user's rows are exactly as before |
| Cart.CartService.constructor | backend/src/modules/cart/cart.service.ts:8-14 | the service starts with an empty cart table |
| Cart.CartService.AddToCart | backend/src/modules/cart/cart.service.ts:19-53 | `addToCart` returns and stores the outcome that `AddToCartRejects` and `AddToCartAccepts` describe, takes a new id exactly when it appends a row (success for a product not yet in the cart), and keeps the invariant |
| Cart.AddToCartDefault | backend/src/modules/cart/cart.service.ts:19 | without a quantity, `addToCart` adds one unit: it succeeds exactly when the product exists and its stock is at least one and at least one more than the cart holds, and then raises the product's amount and the user's count by one |
| Cart.CartService.UpdateCartItem | backend/src/modules/cart/cart.service.ts:69-90 | `updateCartItem` returns and stores the outcome that `UpdateCartItemSpec` describes and keeps the invariant |
| Cart.CartService.RemoveCartItem | backend/src/modules/cart/cart.service.ts:95-100 | `removeCartItem` returns and stores the outcome that `RemoveCartItemSpec` describes and keeps the invariant |
| Cart.CartService.ClearCart | backend/src/modules/cart/cart.service.ts:105-107 | `clearCart` stores the table that `ClearCartSpec` describes and keeps the invariant |
| Cart.CartService.GetCartCount | backend/src/modules/cart/cart.service.ts:112-120 | `getCartCount` returns the sum of the user's quantities, changing nothing |
| Favorite.FavoriteCountSpec | backend/src/modules/favorite/favorite.service.ts:79-83 | `getFavoriteCount` is 0 exactly when no user has favourited the product, and never exceeds the number of rows |
| Favorite.IsFavorite | backend/src/modules/favorite/favorite.service.ts:69-74 | a product is a favourite of a user exactly when some row pairs them |
| Favorite.AddFavoriteSpec | backend/src/modules/favorite/favorite.service.ts:19-43 | `addFavorite` fails, changing nothing, exactly for an unknown product; on success the product is a favourite of the user, the returned row is their row for it, the invariant holds, and the product's count rises by one exactly when it was not yet a favourite; other products' counts stay; a repeat leaves the table as it was, and a new pair appends exactly one row with the next id |
| Favorite.InsertFavorite | backend/src/modules/favorite/favorite.service.ts:37-42 | saving a new row with the next id for a pair not yet a favourite makes it one, keeps the invariant and raises only that product's count, by one |
| Favorite.AddFavoriteIdempotent | backend/src/modules/favorite/favorite.service.ts:29-35 | adding a favourite a second time returns the existing row and leaves the table as the first call left it |
| Favorite.RemoveFavoriteSpec | backend/src/modules/favorite/favorite.service.ts:48-53 | `removeFavorite` fails with `收藏不存在`, changing nothing, exactly when the product is not a favourite of the user; the new table holds exactly the old rows other than that pair's; afterwards it is not a favourite, and on success its count has dropped by one |
| Favorite.RemoveFavoriteKeepsValid | backend/src/modules/favorite/favorite.service.ts:48-53 | `removeFavorite` keeps one row per user and product and the ascending ids |
| Favorite.FavoriteService.constructor | backend/src/modules/favorite/favorite.service.ts:8-14 | the service starts with an empty favourite table |
| Favorite.FavoriteService.AddFavorite | backend/src/modules/favorite/favorite.service.ts:19-43 | `addFavorite` returns and stores the outcome that `AddFavoriteSpec` describes, taking a new id only when it inserts, and keeps the invariant |
| Favorite.FavoriteService.RemoveFavorite | backend/src/modules/favorite/favorite.service.ts:48-53 | `removeFavorite` returns and stores the outcome that `RemoveFavoriteSpec` describes and keeps the invariant |
| Coupon.NewCoupon | backend/src/modules/coupon/coupon.service.ts:20-23 | a created coupon has the given id and no copies handed out; a missing total count means unlimited (-1), a missing per-user limit means 1, a missing active flag means active |
| Coupon.ReceiveRejects | backend/src/modules/coupon/coupon.service.ts:43-97 | a refused receipt changes nothing; it is not found exactly when no active coupon has that id, and for an active coupon it is a bad request exactly when the time is outside its period, no copies are left, the user holds an unused copy, or the user's copies of any status reach the per-user limit |
| Coupon.ReceiveAccepts | backend/src/modules/coupon/coupon.service.ts:85-96 | a successful receipt appends exactly one unused copy for the user with the next id, raises only that coupon's `usedCount`, by one and within `totalCount` when that caps it, leaves the user within the limit with exactly one unused copy, and keeps the invariant |
| Coupon.ReceiveKeepsValid | backend/src/modules/coupon/coupon.service.ts:85-96 | raising the found coupon's `usedCount` and appending a fresh unused copy for a user holding none keeps the invariant |
| Coupon.ReceiveKeepsLinks | backend/src/modules/coupon/coupon.service.ts:85-96 | after a receipt every copy still names an existing coupon |
| Coupon.ReceiveCopy | backend/src/modules/coupon/coupon.service.ts:86-90 | the new copy raises the user's copies of that coupon by one and leaves exactly one unused copy, with ascending ids and at most one unused copy per user and coupon |
| Coupon.ReceiveUsage | backend/src/modules/coupon/coupon.service.ts:93-94 | raising `usedCount` of the found coupon changes no other coupon and no id |
| Coupon.UseSpec | backend/src/modules/coupon/coupon.service.ts:118-140 | `useCoupon` fails as not found, changing nothing, exactly when the caller holds no unused copy with that id; past the coupon's end it marks the copy expired and fails; otherwise it marks it used with the order and the time, which the foreign key on `orderId` (user-coupon.entity.ts:41-42) refuses, changing nothing, when no such order exists: an internal failure happens only then, and a missing order never succeeds; only that copy changes and the invariant holds |
| Coupon.UseKeepsValid | backend/src/modules/coupon/coupon.service.ts:131-139 | taking one copy out of `unused` keeps the invariant |
| Coupon.DiscountSpec | backend/src/modules/coupon/coupon.service.ts:145-164 | below a set minimum the discount is 0; a `discount` coupon takes `total * (1 - value)`, which for a rate in [0, 1] lies between 0 and the total; a `reduce` coupon takes its value; `free` and any other type take 0 |
| Coupon.DiscountAboveOne | backend/src/modules/coupon/coupon.service.ts:152-154 | a `discount` coupon with a value above 1 gives a negative discount on every positive total it applies to |
| Coupon.ReduceNotCapped | backend/src/modules/coupon/coupon.service.ts:155-157 | a `reduce` coupon is not capped by the total: it takes 50 off an order of 10 |
| Coupon.UpdateSpec | backend/src/modules/coupon/coupon.service.ts:178-186 | for a body with the DTO's fields, `update` fails, changing nothing, exactly for an unknown id; otherwise only that coupon changes, the patch's fields take their new values and its id stays, and the invariant holds |
| Coupon.RemoveSpec | backend/src/modules/coupon/coupon.service.ts:191-196 | `remove` fails as not found exactly for an unknown id; the foreign key refuses it exactly when some user holds a copy; it succeeds exactly when the coupon exists and no copy names it, and then deletes only that coupon; any failure changes nothing, and the invariant holds |
| Coupon.RemoveKeepsValid | backend/src/modules/coupon/coupon.service.ts:191-196 | after `remove` every user copy still names an existing coupon and the ids stay ascending |
| Coupon.CheckReceipt | backend/src/modules/coupon/coupon.service.ts:53-83 | the checks on the found coupon give the refusal of the first failing check, in source order, or none |
| Coupon.CouponService.constructor | backend/src/modules/coupon/coupon.service.ts:10-15 | the service starts with no coupons and no copies |
| Coupon.CouponService.Create | backend/src/modules/coupon/coupon.service.ts:20-23 | `create` appends the new coupon with the next id and keeps the invariant |
| Coupon.CouponService.ReceiveCoupon | backend/src/modules/coupon/coupon.service.ts:43-97 | `receiveCoupon` returns and stores the outcome that `ReceiveRejects` and `ReceiveAccepts` describe, taking a new copy id only on success, and keeps the invariant |
| Coupon.CouponService.UseCoupon | backend/src/modules/coupon/coupon.service.ts:118-140 | `useCoupon` returns and stores the outcome that `UseSpec` describes and keeps the invariant |
| Coupon.CouponService.Update | backend/src/modules/coupon/coupon.service.ts:178-186 | `update` returns and stores the outcome that `UpdateSpec` describes and keeps the invariant |
| Coupon.CouponService.Remove | backend/src/modules/coupon/coupon.service.ts:191-196 | `remove` returns and stores the outcome that `RemoveSpec` describes and keeps the invariant |
| Notification.Batch | backend/src/modules/notification/notification.service.ts:25-33 | `createBatch` builds exactly one notification per user id, in the order of the ids, each for its user with the shared fields, unread, and with consecutive fresh ids |
| Notification.UserNotificationsSpec | backend/src/modules/notification/notification.service.ts:38-61 | every listed notification is the user's own and passes the read and type filters, a page holds at most `limit` of them, newest first; its `k`-th row is the `((page - 1) * limit + k)`-th newest match and it is short of `limit` only when the matches run out; `total` counts every match whatever the page |
| Notification.UnreadCountSpec | backend/src/modules/notification/notification.service.ts:66-70 | `getUnreadCount` is 0 exactly when the user has no unread notification, never exceeds the user's notifications, and equals the `total` of `getUserNotifications` filtered to unread rows on any page |
| Notification.MarkAsReadSpec | backend/src/modules/notification/notification.service.ts:75-86 | `markAsRead` fails with `通知不存在`, changing nothing, exactly when the user owns no notification with that id; otherwise that notification is read and every other row unchanged, the unread count drops by one when it was unread, and a second call changes nothing more |
| Notification.MarkAllAsReadSpec | backend/src/modules/notification/notification.service.ts:91-96 | after `markAllAsRead` each of the user's unread rows is the same row marked read, every other row is unchanged in place, so the user has no unread notification and as many notifications as before, and every other user's rows are exactly as before |
| Notification.UpdateKeepsOwner | backend/src/modules/notification/notification.service.ts:92-95 | marking the unread rows read keeps the number of the user's notifications |
| Notification.RemoveSpec | backend/src/modules/notification/notification.service.ts:101-110 | `remove` fails exactly when the user owns no notification with that id, deletes only the user's own row with it, and leaves other users' rows alone |
| Notification.ClearAllSpec | backend/src/modules/notification/notification.service.ts:115-117 | after `clearAll` the user has no notification and no unread count, and every other user's rows are exactly as before |
| Notification.NotificationService.constructor | backend/src/modules/notification/notification.service.ts:9-12 | the service starts with an empty notification table |
| Notification.NotificationService.CreateBatch | backend/src/modules/notification/notification.service.ts:25-33 | `createBatch` appends exactly the batch's rows, taking one id per user id, and keeps the ascending ids |
| Notification.NotificationService.MarkAsRead | backend/src/modules/notification/notification.service.ts:75-86 | `markAsRead` returns and stores the outcome that `MarkAsReadSpec` describes and keeps the ascending ids |
| Notification.NotificationService.MarkAllAsRead | backend/src/modules/notification/notification.service.ts:91-96 | `markAllAsRead` stores the table that `MarkAllAsReadSpec` describes and keeps the ascending ids |
| Notification.NotificationService.Remove | backend/src/modules/notification/notification.service.ts:101-110 | `remove` returns and stores the outcome that `RemoveSpec` describes and keeps the ascending ids |
| Notification.NotificationService.ClearAll | backend/src/modules/notification/notification.service.ts:115-117 | `clearAll` stores the table that `ClearAllSpec` describes and keeps the ascending ids |
| Review.CreateSpec | backend/src/modules/review/review.service.ts:25-53 | `create` fails, changing nothing, for an unknown product, then for a rating outside 1..5, then for a second review of the product by the user, then (an internal failure, from the foreign key on `orderId`) for an order id that names no order, each exactly in its case and in that order; otherwise it appends exactly the new review with the next id; the invariant holds either way |
| Review.CreateTwice | backend/src/modules/review/review.service.ts:39-46 | after a successful review, a second review of the same product by the same user is refused with `您已经评价过该商品` |
| Review.ProductReviewsSpec | backend/src/modules/review/review.service.ts:81-91 | a page holds only reviews of the product, at most `limit`, newest first; its `k`-th review is the `((page - 1) * limit + k)`-th newest review of the product and it is short of `limit` only when they run out; `total` counts all of them whatever the page |
| Review.RatingSumBounds | backend/src/modules/review/review.service.ts:107-113 | the ratings of a product's reviews, each from 1 to 5, sum to at least their number |
| Review.MeanBounds | backend/src/modules/review/review.service.ts:110 | the mean of ratings from 1 to 5 lies between 1 and 5, and times the count gives back the sum |
| Review.ProductRatingSpec | backend/src/modules/review/review.service.ts:107-119 | `count` is the number of the product's reviews and `average` their mean rating: 0 with no reviews, between 1 and 5 otherwise |
| Review.RemoveSpec | backend/src/modules/review/review.service.ts:124-134 | `remove` fails with `评价不存在或无权限删除`, changing nothing, unless the user wrote that review; otherwise exactly that review disappears, and the invariant holds |
| Review.MarkHelpfulSpec | backend/src/modules/review/review.service.ts:139-150 | `markHelpful` fails, changing nothing, for an unknown id; otherwise it raises that review's `helpfulCount` by exactly one and changes nothing else |
| Review.ReviewService.constructor | backend/src/modules/review/review.service.ts:12-20 | the service starts with an empty review table and the notification service it is given |
| Review.ReviewService.Create | backend/src/modules/review/review.service.ts:25-76 | `create` returns and stores the outcome that `CreateSpec` describes; the review counter advances by one exactly on success; on success it notifies every administrator with `收到新评价` naming the product, the rating and the review id, taking one notification id per administrator; a failing notification or a failed review stores no notification and takes no id, and a failing notification changes neither the review nor the result |
| Review.ReviewService.Remove | backend/src/modules/review/review.service.ts:124-134 | `remove` returns and stores the outcome that `RemoveSpec` describes and keeps the invariant |
| Review.ReviewService.MarkHelpful | backend/src/modules/review/review.service.ts:139-150 | `markHelpful` returns and stores the outcome that `MarkHelpfulSpec` describes and keeps the invariant |
| Order.NewItems | backend/src/modules/order/order.service.ts:31-39 | one item per requested item, in order, each for the new order with the next item ids and the requested product, quantity and price, and a subtotal of `quantity * price` |
| Order.NoItemsYet | backend/src/modules/order/order.service.ts:29-33 | no existing item belongs to the id the next order gets |
| Order.CreatedItems | backend/src/modules/order/order.service.ts:31-43 | the items read back with the new order are exactly the ones just saved |
| Order.CreateSpec | backend/src/modules/order/order.service.ts:17-44 | `create` fails, writing nothing, exactly when the order number is taken; otherwise it adds one `pending` order with the requested total and address, then its items in the requested order, and returns that order with exactly those items, keeping the invariant |
| Order.CreateKeepsValid | backend/src/modules/order/order.service.ts:29-41 | appending an order with the next id and a fresh order number, and items for it with the next item ids, keeps the invariant |
| Order.TotalNotChecked | backend/src/modules/order/order.service.ts:24 | `totalAmount` is stored as sent: two items at 5 with a stated total of 1 give an order of total 1 |
| Order.OrdersOfUserSpec | backend/src/modules/order/order.service.ts:46-52 | the history lists every order of the user and no other, each once, newest first, each with exactly its own items |
| Order.FindOrderSpec | backend/src/modules/order/order.service.ts:54-59 | an order is found exactly when a row has that id, and it comes with exactly its items, whoever owns it |
| Order.FindCreated | backend/src/modules/order/order.service.ts:43 | the order just appended is the one `findOne` reads back |
| Order.CreatedValid | backend/src/modules/order/order.service.ts:21-41 | the state `create` leaves keeps the invariant |
| Order.OrderService.constructor | backend/src/modules/order/order.service.ts:10-15 | the service starts with no orders and no items |
| Order.OrderService.Create | backend/src/modules/order/order.service.ts:17-44 | `create` returns and stores the outcome that `CreateSpec` describes and keeps the invariant; on success the order counter advances by one and the item counter by the number of items, and on failure neither moves |
| Order.OrderService.FindByUser | backend/src/modules/order/order.service.ts:46-52 | `findByUser` returns the user's history that `OrdersOfUserSpec` describes, changing nothing |
| Order.OrderService.FindOne | backend/src/modules/order/order.service.ts:54-59 | `findOne` returns the order that `FindOrderSpec` describes, changing nothing |
| Tables.Where | backend/src/modules/notification/notification.service.ts:53-55 | `find({ where })` selects exactly the rows that match, never more rows than the table holds |
| Tables.Drop | backend/src/modules/favorite/favorite.service.ts:49 | `delete({ where })` keeps exactly the rows that do not match |
| Tables.FirstIndex | backend/src/modules/cart/cart.service.ts:32-34 | `findOne({ where })` finds the first matching row, and finds nothing exactly when no row matches |
| Tables.FindFirst | backend/src/modules/cart/cart.service.ts:32-34 | the lookup loop returns the position of the first matching row |
| Tables.DeleteWhere | backend/src/modules/favorite/favorite.service.ts:49-52 | a delete keeps the non-matching rows and reports as `affected` the number of matching rows; with none affected the table is unchanged |
| Tables.CountRows | backend/src/modules/favorite/favorite.service.ts:80-82 | `count({ where })` is the number of matching rows |
| Tables.CountImplies | backend/src/modules/notification/notification.service.ts:66-70 | a `where` implied by another counts at least as many rows |
| Tables.WhereSame | backend/src/modules/notification/notification.service.ts:40-50 | two `where` objects that agree on every row select the same rows |
| Tables.WhereAt | backend/src/modules/address/address.service.ts:89-91 | the count of matching rows is 0 exactly when no row matches |
| Tables.UpdateRows | backend/src/modules/notification/notification.service.ts:92-95 | a bulk `update` rewrites every matching row and keeps every other row in place |
| Tables.Page | backend/src/modules/notification/notification.service.ts:56-57 | `skip` and `take` give at most `take` rows of the table when `take` is positive |
| Tables.Skipped | backend/src/modules/notification/notification.service.ts:56 | `skip` passes over that many rows, none when it is not positive, and all of them when it is past the end |
| Tables.NewestPageAt | backend/src/modules/notification/notification.service.ts:53-58 | a newest-first page holds `take` rows, fewer only at the end, and its `k`-th row is the `(skip + k)`-th newest of the selected rows |
| Tables.NewestPageOf | backend/src/modules/notification/notification.service.ts:53-58 | a newest-first page of the selected rows is exactly the slice `skip`-th newest onwards: `take` rows, fewer only at the end |
| Tables.NewestAt | backend/src/modules/notification/notification.service.ts:55 | newest-first order is the reverse of insertion order: its `k`-th row is the `k`-th from the end |
| Tables.NewestPageDescending | backend/src/modules/notification/notification.service.ts:53-58 | a newest-first paged query over a table with ascending ids lists rows in strictly descending id order |
| Tables.CountAtMostOne | backend/src/modules/favorite/favorite.service.ts:29-35 | where no two rows may share a key, at most one row matches it |

## Left out

- Database mechanics are not modelled: SQL, query builders, `LIKE`
  searches, `findAndCount`, transactions and concurrent requests. Each
  repository is an in-memory table.
- Races between requests are not modelled, such as the read-then-write of
  `usedCount` in `receiveCoupon`.
- A failed insert takes no id in the model. InnoDB can use up an
  auto-increment value on an insert that the foreign key then refuses,
  leaving a gap in the ids. The gap is not modelled. The ids still only
  grow, which is all the invariants use.
- Newest first: `created_at DESC` is modelled as reverse insertion order.
  This agrees with the database when the clock does not run backwards.
- The chat's remote path is left out: the DeepSeek HTTP call, its prompt
  and its reply parsing. Its result is a parameter (a reply or nothing).
  So are `searchProducts` and `searchProductsForDeepSeek`, which are
  product queries.
- `reverseGeocode` in the address service is left out: it is a network call.
- File writing and the upload directory of `saveFile` and the upload
  constructor are left out. Only the stored name and the URL are modelled.
- `Date.now()`, `new Date()`, `randomBytes` and the `Math.random` part of
  the order number are parameters.
- Floating point is not modelled: rounding, NaN, and the comparator of
  `sort` on non-finite scores. Arithmetic is on exact reals, and `Math.sqrt`
  is an abstract square root.
- The `Promise.all` of `hybridCF` is modelled as two calls in sequence: the
  two calls share no state.
- The stub services are not modelled: `recommendation.service.ts` (a fixed
  list), `recognition.service.ts` (mock data) and `statistics.service.ts`
  (constants).
- Object keys of the matrices are ids of type `int`, and the model lists
  them in ascending order (`Ranking.SortedKeys`). `Object.keys` gives that
  order for the non-negative integer keys the auto-increment ids are. A
  negative key would come in insertion order, and that case is not modelled.
- `Object.entries` over the category counts is modelled as a set. The
  resulting shares do not depend on the order.
- `FISH_NAME_MAP` is modelled as a plain map: inherited keys such as
  `constructor`, which a JavaScript object also answers, are not modelled.
- `Behavior.CfWeight`: the weight table is modelled as a plain map.
  `BEHAVIOR_WEIGHTS[type] || 1.0` also answers keys inherited from
  `Object.prototype`, such as `constructor`, with a function instead of
  1. Such behaviour types are not modelled.
- `Behavior.PopularityWeight`: the same holds for `weights[behaviorType] || 1`.
  A behaviour type named after an inherited key, such as `constructor`,
  is not modelled.
- `Popularity.WindowStart`: `setDate(getDate() - days)` is calendar
  arithmetic in the server's local time zone. The model takes the window
  as exactly `days` × 86 400 000 ms. A window that crosses a daylight-saving
  change is an hour longer or shorter in the source, and that case is
  not modelled.
- `Review.ProductRatingSpec`: the average is the exact mean. The database
  returns `AVG` of the integer `rating` column as a decimal with four
  places, which `parseFloat` reads, so ratings 5, 4, 4 give 4.3333 in the
  source and 13/3 in the model. The rounding is not modelled.
- `Address.UpdateSpec`: the update body is modelled as the typed
  `Partial<CreateAddressDto>`. At run time the body is a plain object
  that the validation pipe neither validates nor whitelists, and
  `Object.assign` copies any key into the row. A body with `userId` or
  `id` would move the address to another user or overwrite another row.
  Such bodies are not modelled.
- `Address.UpdateKeepsValid`: holds for bodies with the DTO's fields only.
  A body with `userId` can leave another user with two defaults.
- `Address.UpdateSoleDefault`: holds for bodies with the DTO's fields only.
- `Address.AddressService.Update`: stores the outcome for bodies with the
  DTO's fields only, as `Address.UpdateSpec` says.
- `Coupon.UpdateSpec`: the update body is modelled as the typed
  `Partial<CreateCouponDto>`. The unvalidated body could also set
  `usedCount` or `id` through `Object.assign`, and such bodies are not
  modelled.
- `Coupon.CouponService.Update`: stores the outcome for bodies with the
  DTO's fields only, as `Coupon.UpdateSpec` says.
- `Strings.ToLower`: `toLowerCase` is modelled on ASCII letters only,
  because full Unicode case mapping is out of reach. Strings are sequences
  of Unicode scalar values, not UTF-16 code units.
- `AddressDto.ValidPhoneSpec`: `\d` is read as the ASCII digits. This is
  its meaning without the `u` flag.
- `Upload.Extname`: it models `path.extname` for `/`-separated paths only.
  A name made only of dots (`..`) is not treated specially, and a trailing
  `/` (Node reads `a.png/` as `.png`, the model as no extension) is not
  stripped; uploaded names carry no directory part, so neither reaches it.
- `Upload.Setting`: configuration values are given already parsed. The
  string-to-number conversion of `MAX_FILE_SIZE` from the environment is
  not modelled.
- Paging: `Tables.Page` reads a non-positive `skip` as 0 and a
  non-positive `take` as no limit. TypeORM's treatment of such values is
  not modelled beyond that, so a page number below 1 is not special.
- `Review`: ratings are integers. A fractional rating such as 4.5, which
  the number type would let through, is not modelled.
- Reviews have no unique index on (user, product) in the entity. The
  one-review rule comes only from the service's own check, and two
  concurrent requests could both pass it.
- `CouponDto`: `@IsDateString` is not modelled, so dates are numbers.
- `Coupon.DiscountSpec`: `calculateDiscount` is modelled on its own.
  Nothing in the source calls it, so no order applies a coupon.
- Coupon lists are not modelled: `getAvailableCoupons`, `getUserCoupons`
  and `getAllCoupons` are read-only queries outside the modelled core.
- `getUserReviews` is not modelled: it is a read-only query outside the
  modelled core.
- `getCartList` and `getUserFavorites` are not modelled: they are
  read-only queries outside the modelled core.
- Order creation stores `totalAmount` as sent, unchecked against the items;
  `Order.TotalNotChecked` states this.
- `order-item.entity.ts` is not part of this model. The item fields are
  the ones `create` sets.
- The order number's text (`ORD` + time + random) is a parameter. A taken
  number is refused, as the unique column of `order.entity.ts` refuses it.
- Authentication is not modelled: JWT, bcrypt, controllers, modules,
  exception filters and the frontend pages. The address form's two checks
  are the exception.
