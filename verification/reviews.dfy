/**
 * Customer reviews (backend/controllers/review-handler.js): one review per
 * customer and service, removable by its author, listed newest first.
 */
module Reviews {
  import opened Lookup
  import opened Models
  import opened Store
  import Listing

  /** `Review.findOne({ customerId, serviceId })`. */
  function ReviewBy(s: Store, customerId: Id, serviceId: Id): (r: Option<Id>)
    ensures r.Some? ==> r.value in s.reviews && s.reviews[r.value].customerId == customerId && s.reviews[r.value].serviceId == serviceId
    ensures r.None? <==> forall v :: v in s.reviews ==> !(s.reviews[v].customerId == customerId && s.reviews[v].serviceId == serviceId)
  {
    FindFirst(s.reviews, (v: Review) => v.customerId == customerId && v.serviceId == serviceId)
  }

  /** No customer has two reviews of the same service. */
  predicate ReviewsUnique(reviews: map<Id, Review>) {
    forall a, b :: a in reviews && b in reviews && a != b ==>
      !(reviews[a].customerId == reviews[b].customerId && reviews[a].serviceId == reviews[b].serviceId)
  }

  /**
   * addReview. The service is not looked up: a review of a missing service
   * is stored. A missing rating, or one outside 1..5, fails the schema (500).
   */
  function AddReview(s: Store, customerId: Id, serviceId: Id, rating: Option<int>, comment: string, now: int): (r: Step<Id>)
    ensures r.outcome.Fail? ==> r.store == s
    ensures ReviewBy(s, customerId, serviceId).Some? ==> r.outcome == Fail(BadRequest)
    ensures (ReviewBy(s, customerId, serviceId).None? && !(rating.Some? && ReviewRatingOk(rating.value)))
            ==> r.outcome == Fail(ServerError)
    ensures r.outcome.Ok? <==> ReviewBy(s, customerId, serviceId).None? && rating.Some? && ReviewRatingOk(rating.value)
    ensures r.outcome.Ok? ==>
              && r.outcome.value !in s.reviews
              && r.store == s.(reviews := s.reviews[r.outcome.value := Review(serviceId, customerId, rating.value, comment, now)])
  {
    if ReviewBy(s, customerId, serviceId).Some? then Step(s, Fail(BadRequest))
    else if !(rating.Some? && ReviewRatingOk(rating.value)) then Step(s, Fail(ServerError))
    else
      var id := FreshId(s.reviews);
      Step(s.(reviews := s.reviews[id := Review(serviceId, customerId, rating.value, comment, now)]), Ok(id))
  }

  /** deleteReview: the caller's review of the service, if there is one, is removed. */
  function DeleteReview(s: Store, customerId: Id, serviceId: Id): (r: Step<()>)
    ensures ReviewBy(s, customerId, serviceId).None? <==> r == Step(s, Fail(NotFound))
    ensures r.outcome.Ok? <==> ReviewBy(s, customerId, serviceId).Some?
    ensures r.outcome.Ok? ==>
              var v := ReviewBy(s, customerId, serviceId).value;
              r.store == s.(reviews := s.reviews - {v})
  {
    match ReviewBy(s, customerId, serviceId)
    case None => Step(s, Fail(NotFound))
    case Some(v) => Step(s.(reviews := s.reviews - {v}), Ok(()))
  }

  /** Every stored review, whichever path created it, has a rating in 1..5. */
  predicate RatingsInRange(reviews: map<Id, Review>) {
    forall v :: v in reviews ==> ReviewRatingOk(reviews[v].rating)
  }

  lemma AddReviewKeepsInvariants(s: Store, customerId: Id, serviceId: Id, rating: Option<int>, comment: string, now: int)
    requires ReviewsUnique(s.reviews) && RatingsInRange(s.reviews)
    ensures var s' := AddReview(s, customerId, serviceId, rating, comment, now).store;
            ReviewsUnique(s'.reviews) && RatingsInRange(s'.reviews)
  {
  }

  /** A second review of the same service by the same customer is refused. */
  lemma {:induction false} SecondReviewRefused(s: Store, customerId: Id, serviceId: Id, r1: Option<int>, c1: string, t1: int,
                                               r2: Option<int>, c2: string, t2: int)
    requires AddReview(s, customerId, serviceId, r1, c1, t1).outcome.Ok?
    ensures var s' := AddReview(s, customerId, serviceId, r1, c1, t1).store;
            AddReview(s', customerId, serviceId, r2, c2, t2) == Step(s', Fail(BadRequest))
  {
    var first := AddReview(s, customerId, serviceId, r1, c1, t1);
    var id := first.outcome.value;
    assert id in first.store.reviews && first.store.reviews[id].customerId == customerId
           && first.store.reviews[id].serviceId == serviceId;
  }

  /** Under uniqueness, deleting one's review clears the way for a new one. */
  lemma {:induction false} DeleteThenReviewAgain(s: Store, customerId: Id, serviceId: Id, rating: int, comment: string, now: int)
    requires ReviewsUnique(s.reviews)
    requires DeleteReview(s, customerId, serviceId).outcome.Ok?
    requires ReviewRatingOk(rating)
    ensures AddReview(DeleteReview(s, customerId, serviceId).store, customerId, serviceId, Some(rating), comment, now).outcome.Ok?
  {
    var v := ReviewBy(s, customerId, serviceId).value;
    var s' := DeleteReview(s, customerId, serviceId).store;
    forall w | w in s'.reviews
      ensures !(s'.reviews[w].customerId == customerId && s'.reviews[w].serviceId == serviceId)
    {
      assert w != v && w in s.reviews;
    }
  }

  function CreatedAtOfReview(v: Review): int {
    v.createdAt
  }

  /** getReviewsByService: the reviews of one service, newest first. */
  method GetReviewsByService(s: Store, serviceId: Id) returns (r: seq<Id>)
    ensures forall v :: v in r <==> v in s.reviews && s.reviews[v].serviceId == serviceId
    ensures Listing.Distinct(r) && Listing.SortedDesc(s.reviews, CreatedAtOfReview, r)
  {
    r := Listing.NewestFirst(s.reviews, (v: Review) => v.serviceId == serviceId, CreatedAtOfReview);
  }
}
