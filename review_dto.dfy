/** `create-review.dto.ts`: the constraints on a new review, which
    `ReviewService.createReview` repeats for the rating. */
module ReviewDto {
  import opened Wrappers
  import opened Tables
  import opened Review

  /** Everything `CreateReviewDto` demands beyond the field types: a rating
      from 1 to 5. The product id is a number by its type; content, images
      and the order id may be left out. */
  predicate ValidCreateReview(input: ReviewInput)
  {
    1 <= input.rating <= 5
  }

  /** The optional fields never decide validity. */
  lemma OptionalFields(input: ReviewInput, content: Option<string>, images: Option<seq<string>>, orderId: Option<int>)
    ensures ValidCreateReview(input) <==>
      ValidCreateReview(input.(content := content, images := images, orderId := orderId))
  {
  }

  /** The service's own rating check refuses exactly the requests the DTO
      refuses (for a product that exists), so a request that passed
      validation is never refused for its rating. */
  lemma ServiceRepeatsRatingCheck(rows: seq<ReviewRow>, nextId: int, products: map<int, string>,
                                  orders: set<int>, userId: int, input: ReviewInput)
    requires ReviewsValid(rows, nextId)
    ensures CreateOutcome(rows, nextId, products, orders, userId, input).result == Err(BadRequest("评分必须在1-5之间"))
      <==> input.productId in products && !ValidCreateReview(input)
    ensures ValidCreateReview(input) ==>
      CreateOutcome(rows, nextId, products, orders, userId, input).result != Err(BadRequest("评分必须在1-5之间"))
  {
    CreateSpec(rows, nextId, products, orders, userId, input);
  }
}
