/** The review handlers: `createReview`'s guard chain and insert, and the
    in-place edits of `updateReview` and `replyToReview`. The store keeps at
    most one review per booking and user and one per salon and user, and
    every stored rating within 1 to 5. */
module Reviews {
  import opened Common
  import opened Lifecycle
  import opened Failures
  import opened Entities

  datatype Reply = Reply(text: string, repliedAt: int, repliedBy: Id)

  datatype Review = Review(
    userId: Id, salonId: Id, bookingId: Id, rating: int,
    comment: Option<string>, reply: Option<Reply>)

  predicate RatingInRange(rating: int) {
    1 <= rating <= 5
  }

  /** `review.reply?.text` is truthy. */
  predicate HasReply(r: Review) {
    r.reply.Some? && r.reply.value.text != []
  }

  /** The user already reviewed the booking. */
  predicate ReviewedBooking(reviews: seq<Review>, bookingId: Id, userId: Id) {
    exists i :: 0 <= i < |reviews| && reviews[i].bookingId == bookingId && reviews[i].userId == userId
  }

  /** The user already reviewed the salon. */
  predicate ReviewedSalon(reviews: seq<Review>, salonId: Id, userId: Id) {
    exists i :: 0 <= i < |reviews| && reviews[i].salonId == salonId && reviews[i].userId == userId
  }

  /** The store's invariant: ratings in range, no two reviews by one user of
      one booking or of one salon. */
  predicate ReviewsValid(reviews: seq<Review>) {
    && (forall i :: 0 <= i < |reviews| ==> RatingInRange(reviews[i].rating))
    && (forall i, j :: 0 <= i < |reviews| && 0 <= j < |reviews| && i != j && reviews[i].userId == reviews[j].userId
          ==> reviews[i].bookingId != reviews[j].bookingId && reviews[i].salonId != reviews[j].salonId)
  }

  /** The body of `createReview`; a rating of 0 or none is missing. */
  datatype ReviewRequest = ReviewRequest(salonId: Option<Id>, bookingId: Option<Id>, rating: Option<int>,
                                         comment: Option<string>)

  /** The guards of `createReview` before the two duplicate checks: every
      field sent, a rating in range, a known salon, and a completed booking
      of this user at that salon. */
  predicate ReviewGuardsPass(salons: map<Id, Salon>, bookings: seq<Booking>, userId: Id, req: ReviewRequest) {
    && req.salonId.Some? && req.bookingId.Some? && req.rating.Some? && RatingInRange(req.rating.value)
    && req.salonId.value in salons && req.bookingId.value < |bookings|
    && bookings[req.bookingId.value].userId == userId
    && bookings[req.bookingId.value].salonId == req.salonId.value
    && bookings[req.bookingId.value].status == Completed
  }

  /** `createReview` by user `userId`: the guards in the handler's order;
      on success the review to insert. */
  function NewReview(reviews: seq<Review>, salons: map<Id, Salon>, bookings: seq<Booking>, userId: Id,
                     req: ReviewRequest): (r: Result<Review>)
    ensures r.Ok? <==>
      && req.salonId.Some? && req.bookingId.Some? && req.rating.Some? && RatingInRange(req.rating.value)
      && req.salonId.value in salons && req.bookingId.value < |bookings|
      && bookings[req.bookingId.value].userId == userId
      && bookings[req.bookingId.value].salonId == req.salonId.value
      && bookings[req.bookingId.value].status == Completed
      && !ReviewedBooking(reviews, req.bookingId.value, userId)
      && !ReviewedSalon(reviews, req.salonId.value, userId)
    ensures r.Ok? ==>
      r.value == Review(userId, req.salonId.value, req.bookingId.value, req.rating.value, TrimmedOrAbsent(req.comment), None)
    ensures req.rating == Some(0) ==> r == Err(MissingFields)
    ensures r.Err? && HttpStatus(r.failure) == 409 ==> r.failure.BookingAlreadyReviewed? || r.failure.SalonAlreadyReviewed?
    ensures r == Err(BookingAlreadyReviewed) <==>
      ReviewGuardsPass(salons, bookings, userId, req) && ReviewedBooking(reviews, req.bookingId.value, userId)
    ensures r == Err(SalonAlreadyReviewed) <==>
      && ReviewGuardsPass(salons, bookings, userId, req) && !ReviewedBooking(reviews, req.bookingId.value, userId)
      && ReviewedSalon(reviews, req.salonId.value, userId)
  {
    if req.salonId.None? || req.bookingId.None? || req.rating.None? || req.rating.value == 0 then Err(MissingFields)
    else if req.rating.value < 1 || req.rating.value > 5 then Err(RatingOutOfRange)
    else if req.salonId.value !in salons then Err(SalonNotFound)
    else if req.bookingId.value >= |bookings| then Err(BookingNotFound)
    else
      var booking := bookings[req.bookingId.value];
      if booking.userId != userId then Err(NotYourBooking)
      else if booking.salonId != req.salonId.value then Err(BookingOtherSalon)
      else if booking.status != Completed then Err(BookingNotCompleted)
      else if ReviewedBooking(reviews, req.bookingId.value, userId) then Err(BookingAlreadyReviewed)
      else if ReviewedSalon(reviews, req.salonId.value, userId) then Err(SalonAlreadyReviewed)
      else Ok(Review(userId, req.salonId.value, req.bookingId.value, req.rating.value, TrimmedOrAbsent(req.comment), None))
  }

  /** `updateReview` of review `id`: at least one field, a rating (if sent)
      in range; fields not sent are kept. */
  function EditReview(reviews: seq<Review>, id: nat, rating: Option<int>, comment: Patch<Option<string>>)
    : (r: Result<Review>)
    ensures r.Ok? <==> id < |reviews| && !(rating.None? && comment.Keep?) && (rating.Some? ==> RatingInRange(rating.value))
    ensures id >= |reviews| ==> r == Err(ReviewNotFound)
    ensures id < |reviews| && rating.None? && comment.Keep? ==> r == Err(NothingToUpdate)
    ensures id < |reviews| && rating.Some? && !RatingInRange(rating.value) ==> r == Err(RatingOutOfRange)
    ensures r.Ok? ==>
      && var prev := reviews[id];
      && r.value.rating == (if rating.Some? then rating.value else prev.rating)
      && r.value.comment == (if comment.Set? then TrimmedOrAbsent(comment.value) else prev.comment)
      && r.value == prev.(rating := r.value.rating, comment := r.value.comment)
  {
    if id >= |reviews| then Err(ReviewNotFound)
    else if rating.None? && comment.Keep? then Err(NothingToUpdate)
    else if rating.Some? && (rating.value < 1 || rating.value > 5) then Err(RatingOutOfRange)
    else
      var r1 := if rating.Some? then reviews[id].(rating := rating.value) else reviews[id];
      Ok(if comment.Set? then r1.(comment := TrimmedOrAbsent(comment.value)) else r1)
  }

  /** `replyToReview` of review `id` by `replier` at instant `now`: a non-blank
      text, and no earlier reply. */
  function AddReply(reviews: seq<Review>, id: nat, text: Option<string>, now: int, replier: Id): (r: Result<Review>)
    ensures r.Ok? <==> id < |reviews| && TrimmedOrAbsent(text).Some? && !HasReply(reviews[id])
    ensures r.Ok? ==> r.value == reviews[id].(reply := Some(Reply(Trim(text.value), now, replier)))
    ensures r.Ok? ==> HasReply(r.value)
    ensures id < |reviews| && TrimmedOrAbsent(text).None? ==> r == Err(ReplyTextRequired)
  {
    if id >= |reviews| then Err(ReviewNotFound)
    else if TrimmedOrAbsent(text).None? then Err(ReplyTextRequired)
    else if HasReply(reviews[id]) then Err(AlreadyReplied)
    else Ok(reviews[id].(reply := Some(Reply(Trim(text.value), now, replier))))
  }

  /** A second reply to the same review is always refused. */
  lemma ReplyOnce(reviews: seq<Review>, id: nat, text1: Option<string>, text2: Option<string>, now: int, replier: Id)
    requires AddReply(reviews, id, text1, now, replier).Ok?
    ensures AddReply(reviews[id := AddReply(reviews, id, text1, now, replier).value], id, text2, now, replier).Err?
  {
  }

  /** An insert that passed the guards keeps the store's invariant. */
  lemma NewReviewKeepsValid(reviews: seq<Review>, salons: map<Id, Salon>, bookings: seq<Booking>, userId: Id,
                            req: ReviewRequest)
    requires ReviewsValid(reviews)
    requires NewReview(reviews, salons, bookings, userId, req).Ok?
    ensures ReviewsValid(reviews + [NewReview(reviews, salons, bookings, userId, req).value])
  {
    var nr := NewReview(reviews, salons, bookings, userId, req).value;
    assert nr.userId == userId;
    assert forall k :: 0 <= k < |reviews| && reviews[k].userId == userId ==>
                         reviews[k].bookingId != nr.bookingId && reviews[k].salonId != nr.salonId;
  }

  /** A second review of the same booking, or of the same salon, by the
      same user is refused, and with 409 once it passes the guards before
      the duplicate checks. */
  lemma SecondReviewRefused(reviews: seq<Review>, salons: map<Id, Salon>, bookings: seq<Booking>, userId: Id,
                            req: ReviewRequest, req2: ReviewRequest)
    requires NewReview(reviews, salons, bookings, userId, req).Ok?
    requires req2.salonId == req.salonId || req2.bookingId == req.bookingId
    ensures NewReview(reviews + [NewReview(reviews, salons, bookings, userId, req).value], salons, bookings, userId, req2).Err?
    ensures ReviewGuardsPass(salons, bookings, userId, req2) ==>
      HttpStatus(NewReview(reviews + [NewReview(reviews, salons, bookings, userId, req).value], salons, bookings, userId,
                           req2).failure) == 409
  {
    var nr := NewReview(reviews, salons, bookings, userId, req).value;
    var rs := reviews + [nr];
    assert rs[|reviews|] == nr;
    if req2.bookingId == req.bookingId {
      assert ReviewedBooking(rs, nr.bookingId, userId);
    } else {
      assert ReviewedSalon(rs, nr.salonId, userId);
    }
  }

  /** An edit keeps the invariant: it changes neither user, booking nor
      salon, and its rating is in range. */
  lemma EditReviewKeepsValid(reviews: seq<Review>, id: nat, rating: Option<int>, comment: Patch<Option<string>>)
    requires ReviewsValid(reviews)
    requires EditReview(reviews, id, rating, comment).Ok?
    ensures ReviewsValid(reviews[id := EditReview(reviews, id, rating, comment).value])
  {
  }

  class ReviewStore {
    var reviews: seq<Review>

    constructor ()
      ensures reviews == [] && ReviewsValid(reviews)
    {
      reviews := [];
    }

    /** `createReview`: inserts the review and answers with its id. */
    method CreateReview(salons: map<Id, Salon>, bookings: seq<Booking>, userId: Id, req: ReviewRequest)
      returns (r: Result<Id>)
      requires ReviewsValid(reviews)
      modifies this
      ensures ReviewsValid(reviews)
      ensures var d := NewReview(old(reviews), salons, bookings, userId, req);
        if d.Ok? then r == Ok(|old(reviews)|) && reviews == old(reviews) + [d.value]
        else r == Err(d.failure) && reviews == old(reviews)
    {
      var d := NewReview(reviews, salons, bookings, userId, req);
      if d.Err? {
        return Err(d.failure);
      }
      NewReviewKeepsValid(reviews, salons, bookings, userId, req);
      r := Ok(|reviews|);
      reviews := reviews + [d.value];
    }

    /** `updateReview`. */
    method UpdateReview(id: nat, rating: Option<int>, comment: Patch<Option<string>>) returns (r: Result<Review>)
      requires ReviewsValid(reviews)
      modifies this
      ensures ReviewsValid(reviews)
      ensures r == EditReview(old(reviews), id, rating, comment)
      ensures reviews == if r.Ok? then old(reviews)[id := r.value] else old(reviews)
    {
      r := EditReview(reviews, id, rating, comment);
      if r.Ok? {
        EditReviewKeepsValid(reviews, id, rating, comment);
        reviews := reviews[id := r.value];
      }
    }

    /** `replyToReview` by `replier` at instant `now`. */
    method ReplyToReview(id: nat, text: Option<string>, now: int, replier: Id) returns (r: Result<Review>)
      requires ReviewsValid(reviews)
      modifies this
      ensures ReviewsValid(reviews)
      ensures r == AddReply(old(reviews), id, text, now, replier)
      ensures reviews == if r.Ok? then old(reviews)[id := r.value] else old(reviews)
    {
      r := AddReply(reviews, id, text, now, replier);
      if r.Ok? {
        reviews := reviews[id := r.value];
      }
    }
  }
}
