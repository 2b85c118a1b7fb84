/** The three JPA repositories the services share, as one mutable store, with
    the derived queries they call. Users are never deleted, so a user's id is
    its index; bookings are keyed by id; ratings are appended. Every
    notification the services dispatch is appended to `outbox`. */
module Store {
  import opened Wrappers
  import opened Text
  import opened Users
  import opened Entities

  // ---------------------------------------------------------------------------
  // Queries on the stored rows

  /** The first position at or after `from` whose element satisfies `p`. */
  function FindFirst<T>(s: seq<T>, p: T -> bool, from: nat): (r: Option<nat>)
    ensures r.Some? ==> from <= r.value < |s| && p(s[r.value])
    ensures r.Some? ==> forall i :: from <= i < r.value ==> !p(s[i])
    ensures r.None? ==> forall i :: from <= i < |s| ==> !p(s[i])
    decreases |s| - from
  {
    if from >= |s| then None
    else if p(s[from]) then Some(from)
    else FindFirst(s, p, from + 1)
  }

  /** `existsByEmail`. */
  predicate ExistsByEmail(users: seq<User>, email: string) {
    exists i :: 0 <= i < |users| && users[i].email == email
  }

  /** `existsByUsername`. */
  predicate ExistsByUsername(users: seq<User>, username: string) {
    exists i :: 0 <= i < |users| && users[i].username == username
  }

  /** `findByEmail`: the id of a user with that email, if there is one. */
  function FindByEmail(users: seq<User>, email: string): (r: Option<UserId>)
    ensures r.Some? ==> r.value < |users| && users[r.value].email == email
    ensures r.None? <==> !ExistsByEmail(users, email)
  {
    FindFirst(users, (u: User) => u.email == email, 0)
  }

  /** `findBySetupToken`. */
  function FindBySetupToken(users: seq<User>, token: string): (r: Option<UserId>)
    ensures r.Some? ==> r.value < |users| && users[r.value].setupToken == Some(token)
    ensures r.None? ==> forall i :: 0 <= i < |users| ==> users[i].setupToken != Some(token)
  {
    FindFirst(users, (u: User) => u.setupToken == Some(token), 0)
  }

  /** `existsByBookingIdAndRatedByUserId`. */
  predicate HasRated(ratings: seq<Rating>, bookingId: BookingId, userId: UserId) {
    exists i :: 0 <= i < |ratings| && ratings[i].bookingId == bookingId && ratings[i].ratedBy == userId
  }

  /** `findByRatedCook`: the cook's ratings in the order they were stored. */
  function RatingsOf(ratings: seq<Rating>, cook: UserId): (r: seq<Rating>)
    ensures forall x :: x in r <==> x in ratings && x.ratedCook == cook
    ensures |r| <= |ratings|
  {
    if ratings == [] then []
    else
      var init := ratings[..|ratings| - 1];
      var last := ratings[|ratings| - 1];
      assert ratings == init + [last];
      if last.ratedCook == cook then RatingsOf(init, cook) + [last] else RatingsOf(init, cook)
  }

  /** Which side of a booking a listing asks about. */
  datatype Party = AsCustomer | AsCook

  predicate Involves(b: Booking, party: Party, user: UserId) {
    match party
    case AsCustomer => b.customer == user
    case AsCook => b.cook == user
  }

  /** Bookings keyed by their own id. */
  predicate KeyedById(bookings: map<BookingId, Booking>) {
    forall id :: id in bookings ==> bookings[id].id == id
  }

  /** `findByCustomer` / `findByCook` over the ids below `n`: every stored
      booking the user is on that side of, each once, by ascending id. */
  function BookingsOf(bookings: map<BookingId, Booking>, party: Party, user: UserId, n: nat): (r: seq<Booking>)
    ensures forall b :: b in r ==> b in bookings.Values && Involves(b, party, user)
    ensures forall id :: id < n && id in bookings && Involves(bookings[id], party, user) ==> bookings[id] in r
    ensures KeyedById(bookings) ==> forall i :: 0 <= i < |r| ==> r[i].id < n
    ensures KeyedById(bookings) ==> forall i, j :: 0 <= i < j < |r| ==> r[i].id < r[j].id
  {
    if n == 0 then []
    else
      var before := BookingsOf(bookings, party, user, n - 1);
      if n - 1 in bookings && Involves(bookings[n - 1], party, user) then
        assert bookings[n - 1] in bookings.Values;
        before + [bookings[n - 1]]
      else before
  }

  // ---------------------------------------------------------------------------
  // Integrity of the store

  /** Ids match positions; usernames and emails are unique (both columns are
      `unique`), and so are setup tokens. */
  predicate UsersWellFormed(users: seq<User>) {
    && (forall i :: 0 <= i < |users| ==> users[i].id == i)
    && (forall i, j :: 0 <= i < |users| && 0 <= j < |users| && i != j ==>
          users[i].username != users[j].username && users[i].email != users[j].email)
    && (forall i, j :: 0 <= i < |users| && 0 <= j < |users| && i != j && users[i].setupToken.Some? ==>
          users[i].setupToken != users[j].setupToken)
  }

  /** Every booking is keyed by its id, lies below the next id to hand out,
      refers to stored users, and was filled in in lifecycle order. */
  predicate BookingsWellFormed(bookings: map<BookingId, Booking>, nextId: nat, userCount: nat) {
    forall id :: id in bookings ==>
      && bookings[id].id == id
      && id < nextId
      && bookings[id].customer < userCount
      && bookings[id].cook < userCount
      && Consistent(bookings[id])
  }

  /** Rating ids match positions, ratings refer to stored users, and no user
      rated the same booking twice. */
  predicate RatingsWellFormed(ratings: seq<Rating>, userCount: nat) {
    && (forall i :: 0 <= i < |ratings| ==>
          ratings[i].id == i && ratings[i].ratedBy < userCount && ratings[i].ratedCook < userCount)
    && (forall i, j :: 0 <= i < j < |ratings| ==>
          ratings[i].bookingId != ratings[j].bookingId || ratings[i].ratedBy != ratings[j].ratedBy)
  }

  /** Every rating names a booking id already handed out. */
  predicate RatingsNameIssuedBookings(ratings: seq<Rating>, nextId: nat) {
    forall i :: 0 <= i < |ratings| ==> ratings[i].bookingId < nextId
  }

  /** Every rating of a booking still stored was given by that booking's
      customer. */
  predicate RatedByCustomers(ratings: seq<Rating>, bookings: map<BookingId, Booking>) {
    forall i :: 0 <= i < |ratings| && ratings[i].bookingId in bookings ==>
      ratings[i].ratedBy == bookings[ratings[i].bookingId].customer
  }

  class Repositories {
    var users: seq<User>
    var bookings: map<BookingId, Booking>
    var nextBookingId: nat
    var ratings: seq<Rating>
    var outbox: seq<Notification>

    ghost predicate Valid()
      reads this
    {
      && UsersWellFormed(users)
      && BookingsWellFormed(bookings, nextBookingId, |users|)
      && RatingsWellFormed(ratings, |users|)
      && RatingsNameIssuedBookings(ratings, nextBookingId)
      && RatedByCustomers(ratings, bookings)
    }

    /** An empty database. */
    constructor ()
      ensures Valid()
      ensures users == [] && bookings == map[] && nextBookingId == 0
      ensures ratings == [] && outbox == []
    {
      users := [];
      bookings := map[];
      nextBookingId := 0;
      ratings := [];
      outbox := [];
    }
  }

  /** A store whose users are well formed answers `findByEmail` with the one
      user holding that email. */
  lemma FindByEmailIsUnique(users: seq<User>, email: string, i: nat)
    requires UsersWellFormed(users)
    requires i < |users| && users[i].email == email
    ensures FindByEmail(users, email) == Some(i)
  {
  }

  /** `getUserFromDetails` of the booking service: the principal's email must
      belong to a stored user. */
  function ResolveCaller(users: seq<User>, email: string): (r: Result<UserId, Error>)
    ensures r.Success? ==> r.value < |users| && users[r.value].email == email
    ensures r.Failure? <==> !ExistsByEmail(users, email)
    ensures r.Failure? ==> r.error == UsernameNotFound(UserNotFound)
  {
    match FindByEmail(users, email)
    case Some(i) => Success(i)
    case None => Failure(UsernameNotFound(UserNotFound))
  }
}
