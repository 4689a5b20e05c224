/** `ReviewService.add_review` of `src/reviews/services.py`.

    The whole body runs inside a `try` whose `except Exception` turns any
    failure, the service's own 404 for a missing book included, into a 500. */
module Reviews {
  import opened Common
  import opened Books

  datatype Review = Review(uid: string, bookId: string, userId: string, rating: int, comment: Option<string>, createdAt: int, updatedAt: int)

  /** The review body. */
  datatype ReviewCreateModel = ReviewCreateModel(rating: int, comment: Option<string>)

  const BOOK_NOT_FOUND: string := "Book not found."
  const REVIEW_FAILED: string := "Something went wrong while adding the review."

  /** The broad `except` around the body: a success passes, every failure
      becomes the same 500. */
  function CatchAll(attempt: Result<Review>): (r: Result<Review>)
    ensures attempt.Ok? ==> r == attempt
    ensures attempt.Err? ==> r == Err(HttpError(HTTP_500_INTERNAL_SERVER_ERROR, REVIEW_FAILED))
  {
    if attempt.Ok? then attempt else Err(HttpError(HTTP_500_INTERNAL_SERVER_ERROR, REVIEW_FAILED))
  }

  predicate HasReviewUid(reviews: seq<Review>, uid: string) {
    exists i :: 0 <= i < |reviews| && reviews[i].uid == uid
  }

  /** The review table behind `ReviewService`. */
  class ReviewService {
    var reviews: seq<Review>

    constructor ()
      ensures reviews == []
    {
      reviews := [];
    }

    /** `add_review`: with the book present (and a fresh uid), inserts one
        review carrying the given book, user, rating and comment and returns
        it; otherwise inserts nothing and answers 500, never 404. */
    method AddReview(bookService: BookService, userId: string, bookId: string, reviewData: ReviewCreateModel, uid: string, now: int)
      returns (r: Result<Review>)
      modifies this
      ensures FindBook(bookService.books, bookId).None? ==>
                r == Err(HttpError(HTTP_500_INTERNAL_SERVER_ERROR, REVIEW_FAILED)) && reviews == old(reviews)
      ensures r.Err? ==> r.failure == HttpError(HTTP_500_INTERNAL_SERVER_ERROR, REVIEW_FAILED) && reviews == old(reviews)
      ensures FindBook(bookService.books, bookId).Some? && !HasReviewUid(old(reviews), uid) ==> r.Ok?
      ensures FindBook(bookService.books, bookId).Some? && HasReviewUid(old(reviews), uid) ==>
                r == Err(HttpError(HTTP_500_INTERNAL_SERVER_ERROR, REVIEW_FAILED)) && reviews == old(reviews)
      ensures r.Ok? ==>
                && r.value == Review(uid, bookId, userId, reviewData.rating, reviewData.comment, now, now)
                && reviews == old(reviews) + [r.value]
    {
      var attempt: Result<Review>;
      var book := bookService.GetBook(bookId);
      if book.None? {
        attempt := Err(HttpError(HTTP_404_NOT_FOUND, BOOK_NOT_FOUND));
      } else {
        var newReview := Review(uid, bookId, userId, reviewData.rating, reviewData.comment, now, now);
        if exists i :: 0 <= i < |reviews| && reviews[i].uid == uid {
          attempt := Err(Unhandled("IntegrityError"));
        } else {
          reviews := reviews + [newReview];
          attempt := Ok(newReview);
        }
      }
      r := CatchAll(attempt);
    }
  }
}
