/** `review.service.ts`: product reviews, their rating summary, and the
    notice sent to the administrators when a review arrives. */
module Review {
  import opened Wrappers
  import opened Tables
  import Strings
  import Notification

  /** A `review` row. */
  datatype ReviewRow = ReviewRow(
    id: int,
    userId: int,
    productId: int,
    orderId: Option<int>,
    rating: int,
    content: Option<string>,
    images: Option<seq<string>>,
    helpfulCount: int)

  /** A `CreateReviewDto`. */
  datatype ReviewInput = ReviewInput(
    productId: int,
    rating: int,
    content: Option<string>,
    images: Option<seq<string>>,
    orderId: Option<int>)

  /** `getProductReviews`' page and `getProductRating`'s summary. */
  datatype ReviewPage = ReviewPage(reviews: seq<ReviewRow>, total: nat)
  datatype Rating = Rating(average: real, count: nat)

  function RowId(r: ReviewRow): int
  {
    r.id
  }

  function RatingOf(r: ReviewRow): int
  {
    r.rating
  }

  function HasId(id: int): ReviewRow -> bool
  {
    (r: ReviewRow) => r.id == id
  }

  /** `where: { id, userId }`. */
  function OwnedRow(id: int, userId: int): ReviewRow -> bool
  {
    (r: ReviewRow) => r.id == id && r.userId == userId
  }

  /** `where: { userId, productId }`. */
  function SameItem(userId: int, productId: int): ReviewRow -> bool
  {
    (r: ReviewRow) => r.userId == userId && r.productId == productId
  }

  /** `where: { productId }`. */
  function ForProduct(productId: int): ReviewRow -> bool
  {
    (r: ReviewRow) => r.productId == productId
  }

  function Helped(r: ReviewRow): ReviewRow
  {
    r.(helpfulCount := r.helpfulCount + 1)
  }

  function DistinctItems(a: ReviewRow, b: ReviewRow): bool
  {
    !(a.userId == b.userId && a.productId == b.productId)
  }

  /** The table invariant the service keeps: auto-increment ids, a rating in
      1..5 on every row, and at most one review per user and product (the
      index on `(productId, userId)` is not unique, so only `create`'s check
      keeps the latter). */
  predicate ReviewsValid(rows: seq<ReviewRow>, nextId: int)
  {
    IdsBelow(rows, RowId, nextId)
    && (forall j :: 0 <= j < |rows| ==> 1 <= rows[j].rating <= 5)
    && Pairwise(rows, DistinctItems)
  }

  /** The row `create({ userId, ...dto })` saves; `helpfulCount` takes its default 0. */
  function NewRow(id: int, userId: int, input: ReviewInput): ReviewRow
  {
    ReviewRow(id, userId, input.productId, input.orderId, input.rating, input.content, input.images, 0)
  }

  /** `create(userId, dto)` over the table, the product names and the ids of
      the existing orders: saving a review whose `orderId` names no order
      fails on the foreign key and writes nothing. */
  function CreateOutcome(rows: seq<ReviewRow>, nextId: int, products: map<int, string>, orders: set<int>, userId: int,
                         input: ReviewInput): Change<ReviewRow, ReviewRow>
  {
    if input.productId !in products then Change(Err(NotFound("商品不存在")), rows)
    else if input.rating < 1 || input.rating > 5 then Change(Err(BadRequest("评分必须在1-5之间")), rows)
    else if FirstIndex(rows, SameItem(userId, input.productId)).Some? then
      Change(Err(BadRequest("您已经评价过该商品")), rows)
    else if input.orderId.Some? && input.orderId.value !in orders then
      Change(Err(Internal("foreign key constraint fails")), rows)
    else
      var review := NewRow(nextId, userId, input);
      Change(Ok(review), rows + [review])
  }

  /** The notice `createBatch` receives for a saved review. */
  function ReviewNotice(productName: string, rating: int, reviewId: int): Notification.NotificationFields
  {
    Notification.NotificationFields(
      "review",
      "收到新评价",
      Some("商品 " + productName + " 收到了一条新评价，评分：" + Strings.IntToString(rating) + "星"),
      Some(reviewId))
  }

  /** `create` fails for an unknown product, then for a rating outside 1..5,
      then for a second review of the same product by the same user, then
      for an order id that names no order, in that order and changing
      nothing; otherwise it appends exactly the new review. The invariant
      holds either way. */
  lemma CreateSpec(rows: seq<ReviewRow>, nextId: int, products: map<int, string>, orders: set<int>, userId: int,
                   input: ReviewInput)
    requires ReviewsValid(rows, nextId)
    ensures var o := CreateOutcome(rows, nextId, products, orders, userId, input);
      (o.result.Err? ==> o.rows == rows)
      && (o.result == Err(NotFound("商品不存在")) <==> input.productId !in products)
      && (o.result == Err(BadRequest("评分必须在1-5之间")) <==>
            input.productId in products && !(1 <= input.rating <= 5))
      && (o.result == Err(BadRequest("您已经评价过该商品")) <==>
            input.productId in products && 1 <= input.rating <= 5
            && exists j :: 0 <= j < |rows| && rows[j].userId == userId && rows[j].productId == input.productId)
      && (o.result == Err(Internal("foreign key constraint fails")) <==>
            input.productId in products && 1 <= input.rating <= 5
            && (forall j :: 0 <= j < |rows| ==> !(rows[j].userId == userId && rows[j].productId == input.productId))
            && input.orderId.Some? && input.orderId.value !in orders)
      && (o.result.Err? ==>
            o.result.failure.NotFound? || o.result.failure.BadRequest?
            || o.result == Err(Internal("foreign key constraint fails")))
      && (o.result.Ok? ==> o.result.value == NewRow(nextId, userId, input) && o.rows == rows + [o.result.value])
    ensures CreateOutcome(rows, nextId, products, orders, userId, input).result.Ok? ==>
      ReviewsValid(CreateOutcome(rows, nextId, products, orders, userId, input).rows, nextId + 1)
    ensures CreateOutcome(rows, nextId, products, orders, userId, input).result.Err? ==>
      ReviewsValid(CreateOutcome(rows, nextId, products, orders, userId, input).rows, nextId)
  {
    var o := CreateOutcome(rows, nextId, products, orders, userId, input);
    if o.result.Ok? {
      CreateKeepsValid(rows, nextId, userId, input);
    }
  }

  /** Appending a first review of the product by the user, with a rating in
      1..5 and the next id, keeps the invariant. */
  lemma CreateKeepsValid(rows: seq<ReviewRow>, nextId: int, userId: int, input: ReviewInput)
    requires ReviewsValid(rows, nextId)
    requires FirstIndex(rows, SameItem(userId, input.productId)).None? && 1 <= input.rating <= 5
    ensures ReviewsValid(rows + [NewRow(nextId, userId, input)], nextId + 1)
  {
    var a := NewRow(nextId, userId, input);
    AppendKeepsIds(rows, RowId, nextId, [a]);
    var t := rows + [a];
    forall i, j | 0 <= i < j < |t| ensures DistinctItems(t[i], t[j]) {
      if j < |rows| {
        assert DistinctItems(rows[i], rows[j]);
      } else {
        assert !SameItem(userId, input.productId)(rows[i]);
      }
    }
  }

  /** A user never holds two reviews of one product: a second `create` is refused. */
  lemma CreateTwice(rows: seq<ReviewRow>, nextId: int, products: map<int, string>, orders: set<int>, userId: int,
                    input: ReviewInput, again: ReviewInput)
    requires ReviewsValid(rows, nextId)
    requires CreateOutcome(rows, nextId, products, orders, userId, input).result.Ok?
    requires again.productId == input.productId && 1 <= again.rating <= 5
    ensures var t := CreateOutcome(rows, nextId, products, orders, userId, input).rows;
      CreateOutcome(t, nextId + 1, products, orders, userId, again).result
      == Err(BadRequest("您已经评价过该商品"))
  {
    CreateSpec(rows, nextId, products, orders, userId, input);
    var t := CreateOutcome(rows, nextId, products, orders, userId, input).rows;
    assert SameItem(userId, again.productId)(t[|rows|]);
    CreateSpec(t, nextId + 1, products, orders, userId, again);
  }

  /** `getProductReviews(productId, page, limit)`. */
  function ProductReviews(rows: seq<ReviewRow>, productId: int, page: int, limit: int): ReviewPage
  {
    var matching := Where(rows, ForProduct(productId));
    ReviewPage(NewestPage(rows, ForProduct(productId), (page - 1) * limit, limit), |matching|)
  }

  /** The page holds only reviews of the product, at most `limit`, newest
      first; its `k`-th review is the `((page - 1) * limit + k)`-th newest
      review of the product, and it holds `limit` reviews unless they run
      out first; `total` counts all of them whatever the page. */
  lemma ProductReviewsSpec(rows: seq<ReviewRow>, nextId: int, productId: int, page: int, limit: int)
    requires IdsBelow(rows, RowId, nextId)
    ensures forall r :: r in ProductReviews(rows, productId, page, limit).reviews ==> r in rows && r.productId == productId
    ensures limit > 0 ==> |ProductReviews(rows, productId, page, limit).reviews| <= limit
    ensures Descending(ProductReviews(rows, productId, page, limit).reviews, RowId)
    ensures ProductReviews(rows, productId, page, limit).total == Count(rows, ForProduct(productId))
    ensures var w := Where(rows, ForProduct(productId));
      var listed := ProductReviews(rows, productId, page, limit).reviews;
      var from := Skipped(|w|, (page - 1) * limit);
      |listed| == (if limit > 0 && limit < |w| - from then limit else |w| - from)
      && forall k :: 0 <= k < |listed| ==> listed[k] == w[|w| - 1 - (from + k)]
  {
    NewestPageOf(rows, ForProduct(productId), (page - 1) * limit, limit);
    PageFromWhere(rows, ForProduct(productId), (page - 1) * limit, limit);
    NewestPageDescending(rows, ForProduct(productId), RowId, nextId, (page - 1) * limit, limit);
  }

  /** `getProductRating(productId)`: `AVG(rating)` and `COUNT(id)`; the
      average of no rows is SQL NULL, which becomes 0. */
  function ProductRating(rows: seq<ReviewRow>, productId: int): Rating
  {
    var count := Count(rows, ForProduct(productId));
    if count == 0 then Rating(0.0, 0)
    else Rating(SumOf(rows, ForProduct(productId), RatingOf) as real / count as real, count)
  }

  lemma {:induction false} RatingSumBounds(rows: seq<ReviewRow>, productId: int)
    requires forall j :: 0 <= j < |rows| ==> 1 <= rows[j].rating <= 5
    ensures Count(rows, ForProduct(productId)) <= SumOf(rows, ForProduct(productId), RatingOf)
            <= 5 * Count(rows, ForProduct(productId))
  {
    if rows != [] {
      RatingSumBounds(rows[..|rows| - 1], productId);
    }
  }

  lemma MeanBounds(sum: int, count: int)
    requires 0 < count && count <= sum <= 5 * count
    ensures 1.0 <= sum as real / count as real <= 5.0
    ensures (sum as real / count as real) * count as real == sum as real
  {
    var m := sum as real / count as real;
    assert m * count as real == sum as real;
  }

  /** `count` is the number of the product's reviews and `average` their
      mean rating: 0 with no reviews, and between 1 and 5 otherwise. */
  lemma ProductRatingSpec(rows: seq<ReviewRow>, nextId: int, productId: int)
    requires ReviewsValid(rows, nextId)
    ensures ProductRating(rows, productId).count == Count(rows, ForProduct(productId))
    ensures ProductRating(rows, productId).count == 0 ==> ProductRating(rows, productId).average == 0.0
    ensures ProductRating(rows, productId).count > 0 ==>
      ProductRating(rows, productId).average
        == SumOf(rows, ForProduct(productId), RatingOf) as real / ProductRating(rows, productId).count as real
      && 1.0 <= ProductRating(rows, productId).average <= 5.0
  {
    var count := Count(rows, ForProduct(productId));
    if count > 0 {
      var sum := SumOf(rows, ForProduct(productId), RatingOf);
      RatingSumBounds(rows, productId);
      MeanBounds(sum, count);
      assert ProductRating(rows, productId) == Rating(sum as real / count as real, count);
    }
  }

  /** `remove(userId, reviewId)`: finds the user's own review, then removes that row. */
  function RemoveOutcome(rows: seq<ReviewRow>, userId: int, reviewId: int): Change<Unit, ReviewRow>
  {
    match FirstIndex(rows, OwnedRow(reviewId, userId))
    case None => Change(Err(NotFound("评价不存在或无权限删除")), rows)
    case Some(i) => Change(Ok(Unit), Drop(rows, HasId(rows[i].id)))
  }

  /** `remove` fails, changing nothing, unless the user wrote that review;
      otherwise exactly that review disappears. */
  lemma RemoveSpec(rows: seq<ReviewRow>, nextId: int, userId: int, reviewId: int)
    requires ReviewsValid(rows, nextId)
    ensures RemoveOutcome(rows, userId, reviewId).result.Err? <==>
      !exists j :: 0 <= j < |rows| && rows[j].id == reviewId && rows[j].userId == userId
    ensures RemoveOutcome(rows, userId, reviewId).result.Err? ==> RemoveOutcome(rows, userId, reviewId).rows == rows
    ensures RemoveOutcome(rows, userId, reviewId).result.Ok? ==>
      forall r :: r in RemoveOutcome(rows, userId, reviewId).rows <==> r in rows && r.id != reviewId
    ensures ReviewsValid(RemoveOutcome(rows, userId, reviewId).rows, nextId)
  {
    match FirstIndex(rows, OwnedRow(reviewId, userId))
    case None =>
    case Some(i) =>
      DropKeepsIds(rows, HasId(reviewId), RowId, nextId);
      DropPairwise(rows, HasId(reviewId), DistinctItems);
      var d := Drop(rows, HasId(reviewId));
      forall j | 0 <= j < |d| ensures 1 <= d[j].rating <= 5 {
        assert d[j] in rows;
      }
  }

  /** `markHelpful(reviewId)`. */
  function MarkHelpfulOutcome(rows: seq<ReviewRow>, reviewId: int): Change<ReviewRow, ReviewRow>
  {
    match FirstIndex(rows, HasId(reviewId))
    case None => Change(Err(NotFound("评价不存在")), rows)
    case Some(i) =>
      var review := Helped(rows[i]);
      Change(Ok(review), rows[i := review])
  }

  /** `markHelpful` fails, changing nothing, for an unknown id; otherwise it
      raises that review's `helpfulCount` by exactly one and changes nothing
      else. */
  lemma MarkHelpfulSpec(rows: seq<ReviewRow>, nextId: int, reviewId: int)
    requires ReviewsValid(rows, nextId)
    ensures MarkHelpfulOutcome(rows, reviewId).result.Err? <==> !exists j :: 0 <= j < |rows| && rows[j].id == reviewId
    ensures MarkHelpfulOutcome(rows, reviewId).result.Err? ==> MarkHelpfulOutcome(rows, reviewId).rows == rows
    ensures MarkHelpfulOutcome(rows, reviewId).result.Ok? ==>
      var o := MarkHelpfulOutcome(rows, reviewId);
      |o.rows| == |rows|
      && (forall j :: 0 <= j < |rows| ==>
            o.rows[j] == (if rows[j].id == reviewId then rows[j].(helpfulCount := rows[j].helpfulCount + 1) else rows[j]))
      && o.result.value.id == reviewId
    ensures ReviewsValid(MarkHelpfulOutcome(rows, reviewId).rows, nextId)
  {
    match FirstIndex(rows, HasId(reviewId))
    case None =>
    case Some(i) =>
      forall j | 0 <= j < |rows| && j != i ensures rows[j].id != reviewId {
        IdsUnique(rows, RowId, nextId, i, j);
      }
      var t := rows[i := Helped(rows[i])];
      SetKeepsIds(rows, RowId, nextId, i, Helped(rows[i]));
      forall a, b | 0 <= a < b < |t| ensures DistinctItems(t[a], t[b]) {
        assert DistinctItems(rows[a], rows[b]);
      }
  }

  /** The review table, its auto-increment counter and the notification service it writes to. */
  class ReviewService {
    var reviews: seq<ReviewRow>
    var nextId: int
    const notifier: Notification.NotificationService

    ghost predicate Valid()
      reads this, notifier
    {
      ReviewsValid(reviews, nextId) && notifier.Valid()
    }

    constructor (notifier: Notification.NotificationService)
      requires notifier.Valid()
      ensures Valid() && reviews == [] && this.notifier == notifier
    {
      reviews, nextId := [], 1;
      this.notifier := notifier;
    }

    /** `create(userId, dto)`. `orders` holds the ids of the existing orders;
        `adminIds` are the users with role admin;
        `sendFails` says whether `createBatch` throws, which only decides
        whether the notices are stored: the review and the result are the
        same either way. */
    method Create(products: map<int, string>, orders: set<int>, adminIds: seq<int>, sendFails: bool, userId: int,
                  input: ReviewInput)
      returns (r: Result<ReviewRow>)
      requires Valid()
      modifies this, notifier
      ensures Valid()
      ensures r == CreateOutcome(old(reviews), old(nextId), products, orders, userId, input).result
      ensures reviews == CreateOutcome(old(reviews), old(nextId), products, orders, userId, input).rows
      ensures nextId == if r.Ok? then old(nextId) + 1 else old(nextId)
      ensures notifier.notifications ==
        if r.Ok? && |adminIds| > 0 && !sendFails
        then old(notifier.notifications)
             + Notification.Batch(adminIds, ReviewNotice(products[input.productId], input.rating, r.value.id), old(notifier.nextId))
        else old(notifier.notifications)
      ensures notifier.nextId ==
        if r.Ok? && |adminIds| > 0 && !sendFails then old(notifier.nextId) + |adminIds| else old(notifier.nextId)
    {
      if input.productId !in products {
        return Err(NotFound("商品不存在"));
      }
      var productName := products[input.productId];
      if input.rating < 1 || input.rating > 5 {
        return Err(BadRequest("评分必须在1-5之间"));
      }
      var existing := FindFirst(reviews, SameItem(userId, input.productId));
      if existing.Some? {
        return Err(BadRequest("您已经评价过该商品"));
      }
      if input.orderId.Some? && input.orderId.value !in orders {
        return Err(Internal("foreign key constraint fails"));
      }
      var savedReview := ReviewRow(nextId, userId, input.productId, input.orderId, input.rating, input.content, input.images, 0);
      CreateKeepsValid(reviews, nextId, userId, input);
      assert CreateOutcome(reviews, nextId, products, orders, userId, input) == Change(Ok(savedReview), reviews + [savedReview]);
      reviews := reviews + [savedReview];
      nextId := nextId + 1;
      if |adminIds| > 0 && !sendFails {
        var _ := notifier.CreateBatch(adminIds, ReviewNotice(productName, input.rating, savedReview.id));
      }
      r := Ok(savedReview);
    }

    method Remove(userId: int, reviewId: int) returns (r: Result<Unit>)
      requires Valid()
      modifies this`reviews
      ensures Valid()
      ensures r == RemoveOutcome(old(reviews), userId, reviewId).result
      ensures reviews == RemoveOutcome(old(reviews), userId, reviewId).rows
    {
      RemoveSpec(reviews, nextId, userId, reviewId);
      var found := FindFirst(reviews, OwnedRow(reviewId, userId));
      if found.None? {
        return Err(NotFound("评价不存在或无权限删除"));
      }
      var affected;
      reviews, affected := DeleteWhere(reviews, HasId(reviews[found.value].id));
      r := Ok(Unit);
    }

    method MarkHelpful(reviewId: int) returns (r: Result<ReviewRow>)
      requires Valid()
      modifies this`reviews
      ensures Valid()
      ensures r == MarkHelpfulOutcome(old(reviews), reviewId).result
      ensures reviews == MarkHelpfulOutcome(old(reviews), reviewId).rows
    {
      MarkHelpfulSpec(reviews, nextId, reviewId);
      var found := FindFirst(reviews, HasId(reviewId));
      if found.None? {
        return Err(NotFound("评价不存在"));
      }
      var review := reviews[found.value];
      review := review.(helpfulCount := review.helpfulCount + 1);
      reviews := reviews[found.value := review];
      r := Ok(review);
    }
  }
}
