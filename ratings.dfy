/** `RatingService`: a customer rates a completed, paid booking once, and the
    cook's rating statistics are recomputed from all of the cook's ratings.
    The average is kept in exact tenths of a star, rounded half up, as
    `Math.round(sum / n * 10) / 10` intends. */
module RatingService {
  import opened Wrappers
  import opened Text
  import opened Users
  import opened Entities
  import opened Store

  // ---------------------------------------------------------------------------
  // Who is rating

  /** `getUserFromDetails` of the rating service: an identifier without an
      `@` is refused before any lookup; otherwise the user with that email. */
  function ResolveRater(users: seq<User>, identifier: string): (r: Result<UserId, Error>)
    ensures r.Success? <==> Contains(identifier, "@") && ExistsByEmail(users, identifier)
    ensures r.Success? ==> r.value < |users| && users[r.value].email == identifier
    ensures !Contains(identifier, "@") ==> r == Failure(UsernameNotFound(NotAnEmail))
    ensures Contains(identifier, "@") && !ExistsByEmail(users, identifier) ==> r == Failure(UsernameNotFound(UserNotFound))
  {
    if !Contains(identifier, "@") then Failure(UsernameNotFound(NotAnEmail))
    else ResolveCaller(users, identifier)
  }

  // ---------------------------------------------------------------------------
  // Submitting a rating

  /** The `submitRating` request body; the value is already validated to 1..5. */
  datatype RatingRequest = RatingRequest(bookingId: BookingId, value: Score, comment: Option<string>)

  /** The rating response: the rating with both users' names. */
  datatype RatingView = RatingView(
    id: nat,
    bookingId: BookingId,
    ratedByUserId: UserId,
    ratedByUsername: string,
    ratedCookId: UserId,
    ratedCookUsername: string,
    value: Score,
    comment: Option<string>)

  /** `convertToResponseDTO`. */
  function RatingResponse(users: seq<User>, rt: Rating): (v: RatingView)
    requires rt.ratedBy < |users| && rt.ratedCook < |users|
    ensures v.id == rt.id && v.bookingId == rt.bookingId && v.value == rt.value && v.comment == rt.comment
    ensures v.ratedByUserId == rt.ratedBy && v.ratedByUsername == users[rt.ratedBy].username
    ensures v.ratedCookId == rt.ratedCook && v.ratedCookUsername == users[rt.ratedCook].username
  {
    RatingView(rt.id, rt.bookingId, rt.ratedBy, users[rt.ratedBy].username,
               rt.ratedCook, users[rt.ratedCook].username, rt.value, rt.comment)
  }

  /** The rating `submitRating` stores, or why it refuses. The checks run in
      this order: the rater resolves, the booking exists, the rater is its
      customer, the payment is recorded, the status is `COMPLETED`, and the
      rater has not rated this booking yet. The new rating is for the
      booking's cook, with the requested value and comment. */
  function NewRating(users: seq<User>, bookings: map<BookingId, Booking>, ratings: seq<Rating>,
                     principal: string, req: RatingRequest): (r: Result<Rating, Error>)
    ensures r.Success? ==>
      && req.bookingId in bookings
      && ResolveRater(users, principal) == Success(bookings[req.bookingId].customer)
    ensures r.Success? ==>
      var b := bookings[req.bookingId];
      && b.paymentCompletedAt.Some? && b.status == Completed
      && !HasRated(ratings, b.id, b.customer)
      && r.value == Rating(|ratings|, b.id, b.customer, b.cook, req.value, req.comment)
    ensures (&& req.bookingId in bookings
             && ResolveRater(users, principal) == Success(bookings[req.bookingId].customer)
             && bookings[req.bookingId].paymentCompletedAt.Some?
             && bookings[req.bookingId].status == Completed
             && !HasRated(ratings, bookings[req.bookingId].id, bookings[req.bookingId].customer))
            ==> r.Success?
  {
    match ResolveRater(users, principal)
    case Failure(e) => Failure(e)
    case Success(customer) =>
      if req.bookingId !in bookings then Failure(IllegalArgument(BookingNotFound))
      else
        var b := bookings[req.bookingId];
        if b.customer != customer then Failure(IllegalState(NotBookingCustomer))
        else if b.paymentCompletedAt.None? then Failure(IllegalState(PaymentNotCompleted))
        else if b.status != Completed then Failure(IllegalState(NotCompleted))
        else if HasRated(ratings, b.id, customer) then Failure(IllegalState(AlreadyRated))
        else Success(Rating(|ratings|, b.id, customer, b.cook, req.value, req.comment))
  }

  /** The checks of `submitRating` in order: the first one that fails is the
      one reported. A booking that is paid but not `COMPLETED` (one the cook
      rejected after payment, say) is refused for its status. */
  lemma RatingCheckOrder(users: seq<User>, bookings: map<BookingId, Booking>, ratings: seq<Rating>,
                         principal: string, req: RatingRequest, caller: UserId)
    requires ResolveRater(users, principal) == Success(caller)
    ensures req.bookingId !in bookings ==>
      NewRating(users, bookings, ratings, principal, req) == Failure(IllegalArgument(BookingNotFound))
    ensures req.bookingId in bookings && bookings[req.bookingId].customer != caller ==>
      NewRating(users, bookings, ratings, principal, req) == Failure(IllegalState(NotBookingCustomer))
    ensures (&& req.bookingId in bookings && bookings[req.bookingId].customer == caller
             && bookings[req.bookingId].paymentCompletedAt.None?) ==>
      NewRating(users, bookings, ratings, principal, req) == Failure(IllegalState(PaymentNotCompleted))
    ensures (&& req.bookingId in bookings && bookings[req.bookingId].customer == caller
             && bookings[req.bookingId].paymentCompletedAt.Some? && bookings[req.bookingId].status != Completed) ==>
      NewRating(users, bookings, ratings, principal, req) == Failure(IllegalState(NotCompleted))
  {
  }

  /** Once a rating went in, the same rater asking again about the same
      booking is refused as a duplicate, whatever value they give. */
  lemma {:induction false} SecondRatingRejected(users: seq<User>, bookings: map<BookingId, Booking>,
                                                ratings: seq<Rating>, principal: string,
                                                req: RatingRequest, again: RatingRequest, rt: Rating)
    requires NewRating(users, bookings, ratings, principal, req) == Success(rt)
    requires again.bookingId == req.bookingId
    ensures NewRating(users, bookings, ratings + [rt], principal, again) == Failure(IllegalState(AlreadyRated))
  {
    var b := bookings[req.bookingId];
    var after := ratings + [rt];
    assert after[|ratings|] == rt;
    assert HasRated(after, b.id, b.customer);
  }

  /** A new rating keeps the rating store well formed: its id is its
      position, it refers to stored users, and the (booking, rater) pair is
      still unique. */
  lemma {:induction false} NewRatingKeepsRatingsWellFormed(users: seq<User>, bookings: map<BookingId, Booking>,
                                                           nextId: nat, ratings: seq<Rating>, principal: string,
                                                           req: RatingRequest, rt: Rating)
    requires BookingsWellFormed(bookings, nextId, |users|) && RatingsWellFormed(ratings, |users|)
    requires NewRating(users, bookings, ratings, principal, req) == Success(rt)
    ensures RatingsWellFormed(ratings + [rt], |users|)
  {
    var after := ratings + [rt];
    forall i, j | 0 <= i < j < |after|
      ensures after[i].bookingId != after[j].bookingId || after[i].ratedBy != after[j].ratedBy
    {
      if j == |ratings| {
        assert after[i] == ratings[i] && after[j] == rt;
      } else {
        assert after[i] == ratings[i] && after[j] == ratings[j];
      }
    }
  }

  /** `submitRating` keeps every stored booking's ratings its customer's. */
  lemma NewRatingKeepsRatedByCustomers(users: seq<User>, bookings: map<BookingId, Booking>, ratings: seq<Rating>,
                                       principal: string, req: RatingRequest, rt: Rating)
    requires KeyedById(bookings) && RatedByCustomers(ratings, bookings)
    requires NewRating(users, bookings, ratings, principal, req) == Success(rt)
    ensures RatedByCustomers(ratings + [rt], bookings)
  {
    var after := ratings + [rt];
    forall i | 0 <= i < |after| && after[i].bookingId in bookings
      ensures after[i].ratedBy == bookings[after[i].bookingId].customer
    {
      if i < |ratings| {
        assert after[i] == ratings[i];
      }
    }
  }

  /** The one-to-one `booking` column of a rating: with ratings given only by
      their booking's customer and no (booking, rater) pair twice, no stored
      booking has two ratings. */
  lemma OneRatingPerBooking(ratings: seq<Rating>, bookings: map<BookingId, Booking>, userCount: nat, i: nat, j: nat)
    requires RatingsWellFormed(ratings, userCount) && RatedByCustomers(ratings, bookings)
    requires i < j < |ratings| && ratings[i].bookingId in bookings
    ensures ratings[i].bookingId != ratings[j].bookingId
  {
  }

  /** In every valid store, no stored booking has two ratings: the unique
      `booking_id` column of a rating. */
  lemma StoredBookingRatedOnce(db: Repositories, i: nat, j: nat)
    requires db.Valid()
    requires i < j < |db.ratings| && db.ratings[i].bookingId in db.bookings
    ensures db.ratings[i].bookingId != db.ratings[j].bookingId
  {
    OneRatingPerBooking(db.ratings, db.bookings, |db.users|, i, j);
  }

  // ---------------------------------------------------------------------------
  // The cook's statistics

  /** The sum of the values of `rs`; each value is between 1 and 5. */
  function Sum(rs: seq<Rating>): (r: int)
    ensures |rs| <= r <= 5 * |rs|
  {
    if rs == [] then 0 else Sum(rs[..|rs| - 1]) + rs[|rs| - 1].value
  }

  /** `Math.round(sum / n * 10.0) / 10.0` in tenths, computed exactly: the
      mean times ten, rounded half up. */
  function RoundedTenths(sum: int, n: nat): (t: int)
    requires n > 0
    ensures 2 * n * t - n <= 20 * sum < 2 * n * t + n
  {
    var q := (20 * sum + n) / (2 * n);
    var m := (20 * sum + n) % (2 * n);
    assert 20 * sum + n == 2 * n * q + m && 0 <= m < 2 * n;
    q
  }

  /** A mean of values between 1 and 5 rounds to between 1.0 and 5.0. */
  lemma {:induction false} RoundedTenthsBounds(sum: int, n: nat)
    requires n > 0 && n <= sum <= 5 * n
    ensures 10 <= RoundedTenths(sum, n) <= 50
  {
    var t := RoundedTenths(sum, n);
    assert n * (2 * t - 19) == (2 * n * t + n) - 20 * n;
    assert n * (101 - 2 * t) == 100 * n - (2 * n * t - n);
    FactorSign(n, 2 * t - 19);
    FactorSign(n, 101 - 2 * t);
  }

  /** A product with a positive factor has the other factor's sign. */
  lemma FactorSign(n: int, x: int)
    requires n > 0
    ensures n * x > 0 ==> x > 0
    ensures n * x >= 0 ==> x >= 0
  {
    if x < 0 {
      assert n * x <= n * -1 by {
        assert n * x - n * -1 == n * (x + 1);
      }
    }
  }

  /** A cook's rating count and rounded average. */
  datatype Stats = Stats(average: Tenths, count: nat)

  /** The statistics `updateCookAverageRating` computes from the cook's
      ratings: 0 and 0 without any; otherwise the number of ratings and
      their mean rounded half up to a tenth, which lies in 1.0 .. 5.0. */
  function CookStats(ratings: seq<Rating>, cook: UserId): (st: Stats)
    ensures st.count == |RatingsOf(ratings, cook)|
    ensures st.count == 0 ==> st.average == 0
    ensures st.count > 0 ==> 10 <= st.average <= 50
    ensures st.count > 0 ==>
      2 * st.count * st.average - st.count <= 20 * Sum(RatingsOf(ratings, cook)) < 2 * st.count * st.average + st.count
  {
    var rs := RatingsOf(ratings, cook);
    if |rs| == 0 then Stats(0, 0)
    else
      RoundedTenthsBounds(Sum(rs), |rs|);
      Stats(RoundedTenths(Sum(rs), |rs|), |rs|)
  }

  /** The cook's row with new statistics. */
  function WithStats(u: User, st: Stats): (r: User)
    ensures r.averageRating == Some(st.average) && r.numberOfRatings == Some(st.count)
    ensures r.(averageRating := u.averageRating, numberOfRatings := u.numberOfRatings) == u
  {
    u.(averageRating := Some(st.average), numberOfRatings := Some(st.count))
  }

  /** A new rating adds one to its cook's count and leaves every other
      cook's statistics as they were. */
  lemma NewRatingCounts(ratings: seq<Rating>, rt: Rating, cook: UserId)
    ensures cook == rt.ratedCook ==> CookStats(ratings + [rt], cook).count == CookStats(ratings, cook).count + 1
    ensures cook != rt.ratedCook ==> CookStats(ratings + [rt], cook) == CookStats(ratings, cook)
  {
    var after := ratings + [rt];
    assert after[..|after| - 1] == ratings;
  }

  /** Every user that carries statistics carries those of its ratings: the
      count of its ratings and their rounded mean. */
  predicate StatsCurrent(users: seq<User>, ratings: seq<Rating>) {
    forall u :: 0 <= u < |users| && users[u].numberOfRatings.Some? ==>
      && users[u].numberOfRatings == Some(CookStats(ratings, u).count)
      && users[u].averageRating == Some(CookStats(ratings, u).average)
  }

  /** A cook that no rating names has no ratings. */
  lemma UnratedCook(ratings: seq<Rating>, cook: UserId)
    requires forall i :: 0 <= i < |ratings| ==> ratings[i].ratedCook != cook
    ensures RatingsOf(ratings, cook) == []
  {
  }

  /** A new user at the next id, with no statistics or with zero ratings
      averaging zero, keeps every user's statistics current: no existing
      rating names it. */
  lemma FreshUserKeepsStatsCurrent(users: seq<User>, ratings: seq<Rating>, u: User)
    requires StatsCurrent(users, ratings) && RatingsWellFormed(ratings, |users|)
    requires u.numberOfRatings.Some? ==> u.numberOfRatings == Some(0) && u.averageRating == Some(0)
    ensures StatsCurrent(users + [u], ratings)
  {
    var after := users + [u];
    UnratedCook(ratings, |users|);
    forall v | 0 <= v < |after| && after[v].numberOfRatings.Some?
      ensures after[v].numberOfRatings == Some(CookStats(ratings, v).count)
      ensures after[v].averageRating == Some(CookStats(ratings, v).average)
    {
      if v < |users| {
        assert after[v] == users[v];
      }
    }
  }

  /** Replacing a user by one with the same statistics keeps every user's
      statistics current. */
  lemma SameStatsKeepStatsCurrent(users: seq<User>, ratings: seq<Rating>, i: nat, u: User)
    requires StatsCurrent(users, ratings) && i < |users|
    requires u.numberOfRatings == users[i].numberOfRatings && u.averageRating == users[i].averageRating
    ensures StatsCurrent(users[i := u], ratings)
  {
    var after := users[i := u];
    forall v | 0 <= v < |after| && after[v].numberOfRatings.Some?
      ensures after[v].numberOfRatings == Some(CookStats(ratings, v).count)
      ensures after[v].averageRating == Some(CookStats(ratings, v).average)
    {
    }
  }

  /** Recomputing the rated cook's statistics after a new rating keeps every
      user's statistics current. */
  lemma NewRatingKeepsStatsCurrent(users: seq<User>, ratings: seq<Rating>, rt: Rating)
    requires StatsCurrent(users, ratings) && rt.ratedCook < |users|
    ensures StatsCurrent(users[rt.ratedCook := WithStats(users[rt.ratedCook], CookStats(ratings + [rt], rt.ratedCook))],
                         ratings + [rt])
  {
    var after := users[rt.ratedCook := WithStats(users[rt.ratedCook], CookStats(ratings + [rt], rt.ratedCook))];
    forall u | 0 <= u < |after| && after[u].numberOfRatings.Some?
      ensures after[u].numberOfRatings == Some(CookStats(ratings + [rt], u).count)
      ensures after[u].averageRating == Some(CookStats(ratings + [rt], u).average)
    {
      if u != rt.ratedCook {
        NewRatingCounts(ratings, rt, u);
      }
    }
  }

  // ---------------------------------------------------------------------------
  // The service's operations on the store

  /** `updateCookAverageRating`: the cook's statistics become those of the
      stored ratings, and nothing else changes. */
  method UpdateCookAverageRating(db: Repositories, cook: UserId)
    requires db.Valid() && cook < |db.users|
    modifies db`users
    ensures db.Valid()
    ensures db.users == old(db.users)[cook := WithStats(old(db.users)[cook], CookStats(db.ratings, cook))]
  {
    var forCook := RatingsOf(db.ratings, cook);
    var u := db.users[cook];
    if |forCook| == 0 {
      u := u.(averageRating := Some(0), numberOfRatings := Some(0));
    } else {
      var sum := Sum(forCook);
      var rounded := RoundedTenths(sum, |forCook|);
      u := u.(averageRating := Some(rounded), numberOfRatings := Some(|forCook|));
    }
    db.users := db.users[cook := u];
  }

  /** The rating's `save` followed by `updateCookAverageRating` on its cook:
      the rating is appended and the cook's statistics recomputed. */
  method SaveRating(db: Repositories, rating: Rating)
    requires db.Valid() && rating.ratedCook < |db.users|
    requires RatingsWellFormed(db.ratings + [rating], |db.users|)
    requires rating.bookingId < db.nextBookingId && RatedByCustomers(db.ratings + [rating], db.bookings)
    modifies db`ratings, db`users
    ensures db.Valid()
    ensures db.ratings == old(db.ratings) + [rating]
    ensures db.users == old(db.users)[rating.ratedCook := WithStats(old(db.users)[rating.ratedCook], CookStats(db.ratings, rating.ratedCook))]
    ensures StatsCurrent(old(db.users), old(db.ratings)) ==> StatsCurrent(db.users, db.ratings)
  {
    if StatsCurrent(db.users, db.ratings) {
      NewRatingKeepsStatsCurrent(db.users, db.ratings, rating);
    }
    db.ratings := db.ratings + [rating];
    UpdateCookAverageRating(db, rating.ratedCook);
  }

  /** `submitRating`: on success the rating is appended, the cook's
      statistics are recomputed and the cook is told; on failure nothing
      changes. */
  method SubmitRating(db: Repositories, principal: string, req: RatingRequest) returns (r: Result<RatingView, Error>)
    requires db.Valid()
    modifies db`ratings, db`users, db`outbox
    ensures db.Valid()
    ensures StatsCurrent(old(db.users), old(db.ratings)) ==> StatsCurrent(db.users, db.ratings)
    ensures match NewRating(old(db.users), db.bookings, old(db.ratings), principal, req)
      case Failure(e) =>
        && r == Failure(e)
        && db.ratings == old(db.ratings) && db.users == old(db.users) && db.outbox == old(db.outbox)
      case Success(rt) =>
        && rt.ratedCook < |old(db.users)| && rt.ratedBy < |old(db.users)|
        && db.ratings == old(db.ratings) + [rt]
        && db.users == old(db.users)[rt.ratedCook := WithStats(old(db.users)[rt.ratedCook], CookStats(db.ratings, rt.ratedCook))]
        && db.outbox == old(db.outbox) + [Notification(CookTopic, rt.ratedCook, "NEW_RATING_RECEIVED", rt.bookingId, rt.ratedBy)]
        && r == Success(RatingResponse(old(db.users), rt))
  {
    var rater := ResolveRater(db.users, principal);
    if rater.Failure? {
      return Failure(rater.error);
    }
    var customer := rater.value;
    if req.bookingId !in db.bookings {
      return Failure(IllegalArgument(BookingNotFound));
    }
    var booking := db.bookings[req.bookingId];
    if booking.customer != customer {
      return Failure(IllegalState(NotBookingCustomer));
    }
    if booking.paymentCompletedAt.None? {
      return Failure(IllegalState(PaymentNotCompleted));
    }
    if booking.status != Completed {
      return Failure(IllegalState(NotCompleted));
    }
    if HasRated(db.ratings, booking.id, customer) {
      return Failure(IllegalState(AlreadyRated));
    }
    var cook := booking.cook;
    var rating := Rating(|db.ratings|, booking.id, customer, cook, req.value, req.comment);
    NewRatingKeepsRatingsWellFormed(db.users, db.bookings, db.nextBookingId, db.ratings, principal, req, rating);
    NewRatingKeepsRatedByCustomers(db.users, db.bookings, db.ratings, principal, req, rating);
    var view := RatingResponse(db.users, rating);
    SaveRating(db, rating);
    db.outbox := db.outbox + [Notification(CookTopic, cook, "NEW_RATING_RECEIVED", booking.id, customer)];
    return Success(view);
  }

  /** `getRatingsForCook`: an unknown cook id is refused; otherwise the
      responses for exactly the ratings of that cook, in stored order. */
  function RatingsForCook(users: seq<User>, ratings: seq<Rating>, cookId: UserId): (r: Result<seq<RatingView>, Error>)
    requires RatingsWellFormed(ratings, |users|)
    ensures r.Failure? <==> cookId >= |users|
    ensures r.Failure? ==> r.error == UsernameNotFound(CookNotFound)
    ensures r.Success? ==> |r.value| == |RatingsOf(ratings, cookId)|
    ensures r.Success? ==> forall v :: v in r.value ==> v.ratedCookId == cookId
    ensures r.Success? ==> forall rt :: rt in ratings && rt.ratedCook == cookId ==> RatingResponse(users, rt) in r.value
  {
    if cookId >= |users| then Failure(UsernameNotFound(CookNotFound))
    else
      var rs := RatingsOf(ratings, cookId);
      RatingsOfRefersToUsers(ratings, |users|, cookId);
      var views := seq(|rs|, i requires 0 <= i < |rs| => RatingResponse(users, rs[i]));
      ResponsesCover(users, rs, views);
      Success(views)
  }

  /** A cook's ratings in a well-formed store refer to stored users. */
  lemma RatingsOfRefersToUsers(ratings: seq<Rating>, userCount: nat, cook: UserId)
    requires RatingsWellFormed(ratings, userCount)
    ensures forall i :: 0 <= i < |RatingsOf(ratings, cook)| ==>
      RatingsOf(ratings, cook)[i].ratedBy < userCount && RatingsOf(ratings, cook)[i].ratedCook < userCount
  {
    var rs := RatingsOf(ratings, cook);
    forall i | 0 <= i < |rs| ensures rs[i].ratedBy < userCount && rs[i].ratedCook < userCount {
      assert rs[i] in rs;
      var k :| 0 <= k < |ratings| && ratings[k] == rs[i];
    }
  }

  /** The responses for `rs`, one per rating, hold the response of every
      rating of `rs`. */
  lemma ResponsesCover(users: seq<User>, rs: seq<Rating>, views: seq<RatingView>)
    requires forall i :: 0 <= i < |rs| ==> rs[i].ratedBy < |users| && rs[i].ratedCook < |users|
    requires |views| == |rs| && forall i :: 0 <= i < |rs| ==> views[i] == RatingResponse(users, rs[i])
    ensures forall rt :: rt in rs ==> RatingResponse(users, rt) in views
  {
    forall rt | rt in rs ensures RatingResponse(users, rt) in views {
      var k :| 0 <= k < |rs| && rs[k] == rt;
      assert views[k] == RatingResponse(users, rt);
    }
  }
}
