/** `BookingService`: a customer books an active cook, the cook accepts or
    rejects, marks the service done and the payment received; the customer
    may cancel before the booking is finished. Each operation is a method on
    the store that loads the booking, applies its setters and saves it, and
    is proved against a rule function saying what that operation does to
    the stored booking. */
module BookingService {
  import opened Wrappers
  import opened Text
  import opened Users
  import opened Entities
  import opened Store

  // ---------------------------------------------------------------------------
  // The booking details text

  /** The `createBooking` request body. Name and address are `@NotBlank`; the
      meal preference may be null. */
  datatype BookingRequest = BookingRequest(
    cookId: UserId,
    customerName: string,
    customerAddress: string,
    mealPreference: Option<string>,
    requestedAt: Option<Time>)

  /** The `bookingDetails` text `createBooking` stores. */
  function FormatDetails(req: BookingRequest): string {
    "Name: " + req.customerName + ", Address: " + req.customerAddress
      + ", Meal Preference: " + Rendered(req.mealPreference)
  }

  /** The three fields the response reads back out of the details text. */
  datatype Details = Details(customerName: string, customerAddress: string, mealPreference: string)

  const NoDetails := Details("", "", "")

  /** One turn of the reading loop: a piece that starts with a known label
      overwrites that field with the text after the label (`substring(6)`,
      `substring(9)`, `substring(17)`); any other piece is skipped. */
  function ReadPart(d: Details, part: string): Details {
    if StartsWith(part, "Name: ") then d.(customerName := part[6..])
    else if StartsWith(part, "Address: ") then d.(customerAddress := part[9..])
    else if StartsWith(part, "Meal Preference: ") then d.(mealPreference := part[17..])
    else d
  }

  /** The reading loop run over `parts`, left to right. */
  function ReadParts(parts: seq<string>): Details
    decreases |parts|
  {
    if parts == [] then NoDetails
    else ReadPart(ReadParts(parts[..|parts| - 1]), parts[|parts| - 1])
  }

  /** What the response shows for a booking's details: empty fields when
      there are none, otherwise the pieces of `split(", ")` read in order. */
  function ParseDetails(details: Option<string>): Details {
    if details.None? then NoDetails else ReadParts(JavaSplit(details.value, ", "))
  }

  /** A label without commas in front of a text without ", " has no ", ". */
  lemma NoSeparatorAfterLabel(tag: string, x: string)
    requires ',' !in tag && !Contains(x, ", ")
    ensures !Contains(tag + x, ", ")
  {
    var s := tag + x;
    ContainsIffMatch(x, ", ");
    ContainsIffMatch(s, ", ");
    forall j: nat ensures !MatchAt(s, ", ", j) {
      if j + 2 <= |s| {
        if j < |tag| {
          assert tag[j] in tag;
          assert s[j..j + 2][0] == tag[j];
        } else {
          assert s[j..j + 2] == x[j - |tag|..j - |tag| + 2];
          assert !MatchAt(x, ", ", j - |tag|);
        }
      }
    }
  }

  /** The three labelled pieces the details text is made of. */
  function DetailPieces(req: BookingRequest): seq<string> {
    ["Name: " + req.customerName, "Address: " + req.customerAddress,
     "Meal Preference: " + Rendered(req.mealPreference)]
  }

  /** The details text is its three pieces joined with ", ". */
  lemma FormatDetailsIsJoin(req: BookingRequest)
    ensures FormatDetails(req) == Join(DetailPieces(req), ", ")
  {
    var pieces := DetailPieces(req);
    var p1, p2, p3 := pieces[0], pieces[1], pieces[2];
    assert pieces[1..] == [p2, p3];
    assert [p2, p3][1..] == [p3];
    assert Join([p3], ", ") == p3;
    assert Join([p2, p3], ", ") == p2 + ", " + p3;
    assert ", Address: " == ", " + "Address: ";
    assert ", Meal Preference: " == ", " + "Meal Preference: ";
  }

  /** Cutting the details text at ", " gives back its three pieces when no
      field contains ", ". */
  lemma {:induction false} DetailsSplitIntoPieces(req: BookingRequest)
    requires !Contains(req.customerName, ", ")
    requires !Contains(req.customerAddress, ", ")
    requires !Contains(Rendered(req.mealPreference), ", ")
    ensures JavaSplit(FormatDetails(req), ", ") == DetailPieces(req)
  {
    var pieces := DetailPieces(req);
    var p1: string, p2: string, p3: string := pieces[0], pieces[1], pieces[2];
    NoSeparatorAfterLabel("Name: ", req.customerName);
    NoSeparatorAfterLabel("Address: ", req.customerAddress);
    NoSeparatorAfterLabel("Meal Preference: ", Rendered(req.mealPreference));
    assert forall p :: p in pieces ==> p == p1 || p == p2 || p == p3;
    FormatDetailsIsJoin(req);
    SplitOnJoinCommaSpace(pieces);
    assert p3 != [];
    JavaSplitIsSplitOn(FormatDetails(req), ", ");
  }

  /** Reading the three labelled pieces fills each field with its own text. */
  lemma ReadDetailPieces(req: BookingRequest)
    ensures ReadParts(DetailPieces(req))
         == Details(req.customerName, req.customerAddress, Rendered(req.mealPreference))
  {
    var pieces := DetailPieces(req);
    var p1: string, p2: string, p3: string := pieces[0], pieces[1], pieces[2];
    assert pieces[..2] == [p1, p2] && [p1, p2][..1] == [p1];
    assert p1[..6] == "Name: " && p1[6..] == req.customerName;
    assert p2[0] == 'A' && p2[..9] == "Address: " && p2[9..] == req.customerAddress;
    assert p3[0] == 'M' && p3[..17] == "Meal Preference: " && p3[17..] == Rendered(req.mealPreference);
    assert ReadParts([p1]) == Details(req.customerName, "", "");
    assert ReadParts([p1, p2]) == Details(req.customerName, req.customerAddress, "");
  }

  /** The details text reads back as the name, address and meal preference
      it was built from, provided none of them contains ", ". */
  lemma DetailsRoundTrip(req: BookingRequest)
    requires !Contains(req.customerName, ", ")
    requires !Contains(req.customerAddress, ", ")
    requires !Contains(Rendered(req.mealPreference), ", ")
    ensures ParseDetails(Some(FormatDetails(req)))
         == Details(req.customerName, req.customerAddress, Rendered(req.mealPreference))
  {
    DetailsSplitIntoPieces(req);
    ReadDetailPieces(req);
  }

  /** A booking as `convertToBookingResponseDTO` renders it. */
  datatype BookingView = BookingView(
    id: BookingId,
    customerId: UserId,
    cookId: UserId,
    bookingDetails: Option<string>,
    customerName: string,
    customerAddress: string,
    mealPreference: string,
    bookingStatus: string,
    requestedAt: Option<Time>,
    totalCharges: Option<Charge>,
    serviceCompletedAt: Option<Time>,
    paymentCompletedAt: Option<Time>,
    ratedByCurrentUser: bool)

  /** The response for a booking. Its "rated by current user" flag asks
      whether the booking's customer rated it, whoever is asking. */
  function View(b: Booking, ratings: seq<Rating>): BookingView {
    var d := ParseDetails(b.details);
    BookingView(b.id, b.customer, b.cook, b.details, d.customerName, d.customerAddress,
                d.mealPreference, b.status.Name(), b.requestedAt, b.totalCharges,
                b.serviceCompletedAt, b.paymentCompletedAt, HasRated(ratings, b.id, b.customer))
  }

  /** `convertToBookingResponseDTO`, with its reading loop over the pieces
      of the details text. */
  method ConvertToResponse(b: Booking, ratings: seq<Rating>) returns (v: BookingView)
    ensures v == View(b, ratings)
    ensures v.ratedByCurrentUser <==> HasRated(ratings, b.id, b.customer)
  {
    var isRated := HasRated(ratings, b.id, b.customer);
    var d := NoDetails;
    if b.details.Some? {
      var parts := JavaSplit(b.details.value, ", ");
      for i := 0 to |parts|
        invariant d == ReadParts(parts[..i])
      {
        var part := parts[i];
        if StartsWith(part, "Name: ") {
          d := d.(customerName := part[6..]);
        } else if StartsWith(part, "Address: ") {
          d := d.(customerAddress := part[9..]);
        } else if StartsWith(part, "Meal Preference: ") {
          d := d.(mealPreference := part[17..]);
        }
        assert parts[..i + 1][..i] == parts[..i];
      }
      assert parts[..|parts|] == parts;
    }
    v := BookingView(b.id, b.customer, b.cook, b.details, d.customerName, d.customerAddress,
                     d.mealPreference, b.status.Name(), b.requestedAt, b.totalCharges,
                     b.serviceCompletedAt, b.paymentCompletedAt, isRated);
  }

  /** The responses for a list of bookings, in list order. */
  function Views(bs: seq<Booking>, ratings: seq<Rating>): (r: seq<BookingView>)
    ensures |r| == |bs|
    ensures forall i :: 0 <= i < |bs| ==> r[i] == View(bs[i], ratings)
  {
    seq(|bs|, i requires 0 <= i < |bs| => View(bs[i], ratings))
  }

  // ---------------------------------------------------------------------------
  // What each operation does to the stored booking

  /** The filter `createBooking` puts on the requested cook. */
  predicate IsActiveCook(u: User) {
    Contains(u.roles, RoleCook) && u.status == StatusActive
  }

  /** `createBooking`: the principal must be a stored user and the target an
      active cook; the new booking is pending, between those two, carries
      the formatted details and the requested time, and nothing else. */
  function PlaceBooking(users: seq<User>, principal: string, req: BookingRequest, id: BookingId): (r: Result<Booking, Error>)
    ensures r.Success? <==> ExistsByEmail(users, principal) && req.cookId < |users| && IsActiveCook(users[req.cookId])
    ensures !ExistsByEmail(users, principal) ==> r == Failure(UsernameNotFound(UserNotFound))
    ensures r.Failure? && ExistsByEmail(users, principal) ==> r == Failure(IllegalArgument(CookNotFound))
    ensures r.Success? ==> ResolveCaller(users, principal) == Success(r.value.customer) && r.value.cook == req.cookId
    ensures r.Success? ==> r.value.id == id && r.value.status == Pending
    ensures r.Success? ==> r.value.details == Some(FormatDetails(req)) && r.value.requestedAt == req.requestedAt
    ensures r.Success? ==> r.value.totalCharges.None? && r.value.serviceCompletedAt.None? && r.value.paymentCompletedAt.None?
  {
    match ResolveCaller(users, principal)
    case Failure(e) => Failure(e)
    case Success(customer) =>
      if req.cookId < |users| && IsActiveCook(users[req.cookId]) then
        Success(Booking(id, customer, req.cookId, Some(FormatDetails(req)), Pending, req.requestedAt, None, None, None))
      else Failure(IllegalArgument(CookNotFound))
  }

  /** The status a cook's answer stands for, if it is one: the upper-cased
      answer must be `ACCEPTED` or `REJECTED`. */
  function Decision(answer: string): (r: Option<BookingStatus>)
    ensures r.Some? <==> ToUpper(answer) in {"ACCEPTED", "REJECTED"}
    ensures r.Some? ==> r.value.Name() == ToUpper(answer)
    ensures r == Some(Accepted) <==> EqualsIgnoreCase("ACCEPTED", answer)
  {
    EqualsIgnoreCaseIsUpperEquality("ACCEPTED", answer);
    ToUpperOfUpper("ACCEPTED");
    var upper := ToUpper(answer);
    if upper == "ACCEPTED" then Some(Accepted)
    else if upper == "REJECTED" then Some(Rejected)
    else None
  }

  /** `updateBookingStatus`. Only the booking's cook may answer, and only
      with `ACCEPTED` or `REJECTED` in any case; the stored status is the
      upper-cased answer. Accepting snapshots the cook's current rate as the
      charge (0 when the cook has none); rejecting keeps the charge. Nothing
      else about the booking changes, and its current status is not
      consulted. */
  function StatusUpdate(users: seq<User>, bookings: map<BookingId, Booking>, principal: string,
                        bookingId: BookingId, answer: string): (r: Result<Booking, Error>)
    ensures r.Success? ==> bookingId in bookings && ResolveCaller(users, principal) == Success(bookings[bookingId].cook)
    ensures r.Success? ==> Decision(answer) == Some(r.value.status) && r.value.status.Name() == ToUpper(answer)
    ensures r.Success? ==> r.value == bookings[bookingId].(status := r.value.status, totalCharges := r.value.totalCharges)
    ensures r.Success? && r.value.status == Accepted ==>
      r.value.totalCharges == Some(users[r.value.cook].chargesPerMeal.GetOr(0))
    ensures r.Success? && r.value.status == Rejected ==> r.value.totalCharges == bookings[bookingId].totalCharges
    ensures (&& bookingId in bookings
             && ResolveCaller(users, principal) == Success(bookings[bookingId].cook)
             && Decision(answer).Some?)
            ==> r.Success?
  {
    match ResolveCaller(users, principal)
    case Failure(e) => Failure(e)
    case Success(caller) =>
      if bookingId !in bookings then Failure(IllegalArgument(BookingNotFound))
      else
        var b := bookings[bookingId];
        if b.cook != caller then Failure(IllegalState(NotBookingCook))
        else
          match Decision(answer)
          case None => Failure(IllegalArgument(InvalidStatus))
          case Some(status) =>
            var charged := if EqualsIgnoreCase("ACCEPTED", answer)
                           then b.(totalCharges := Some(users[caller].chargesPerMeal.GetOr(0)))
                           else b;
            Success(charged.(status := status))
  }

  /** `updateBookingStatus` checks, in order: the booking exists, the caller
      is its cook, the answer is a decision. The first check that fails is
      the one reported. */
  lemma StatusUpdateCheckOrder(users: seq<User>, bookings: map<BookingId, Booking>, principal: string,
                               bookingId: BookingId, answer: string, caller: UserId)
    requires ResolveCaller(users, principal) == Success(caller)
    ensures bookingId !in bookings ==>
      StatusUpdate(users, bookings, principal, bookingId, answer) == Failure(IllegalArgument(BookingNotFound))
    ensures bookingId in bookings && bookings[bookingId].cook != caller ==>
      StatusUpdate(users, bookings, principal, bookingId, answer) == Failure(IllegalState(NotBookingCook))
    ensures bookingId in bookings && bookings[bookingId].cook == caller && Decision(answer).None? ==>
      StatusUpdate(users, bookings, principal, bookingId, answer) == Failure(IllegalArgument(InvalidStatus))
  {
  }

  /** `markServiceAsComplete`. Only the booking's cook, only on an accepted
      booking whose service is not yet marked. It stamps the completion
      time, keeps the status, keeps a charge already set and otherwise
      backfills the cook's rate (0 when the cook has none). */
  function ServiceCompletion(users: seq<User>, bookings: map<BookingId, Booking>, principal: string,
                             bookingId: BookingId, now: Time): (r: Result<Booking, Error>)
    ensures r.Success? ==> bookingId in bookings && ResolveCaller(users, principal) == Success(bookings[bookingId].cook)
    ensures r.Success? ==> bookings[bookingId].status == Accepted && bookings[bookingId].serviceCompletedAt.None?
    ensures r.Success? ==> r.value == bookings[bookingId].(serviceCompletedAt := Some(now), totalCharges := r.value.totalCharges)
    ensures r.Success? && bookings[bookingId].totalCharges.Some? ==> r.value.totalCharges == bookings[bookingId].totalCharges
    ensures r.Success? && bookings[bookingId].totalCharges.None? ==>
      r.value.totalCharges == Some(users[r.value.cook].chargesPerMeal.GetOr(0))
    ensures (&& bookingId in bookings
             && ResolveCaller(users, principal) == Success(bookings[bookingId].cook)
             && bookings[bookingId].status == Accepted && bookings[bookingId].serviceCompletedAt.None?)
            ==> r.Success?
  {
    match ResolveCaller(users, principal)
    case Failure(e) => Failure(e)
    case Success(caller) =>
      if bookingId !in bookings then Failure(IllegalArgument(BookingNotFound))
      else
        var b := bookings[bookingId];
        if b.cook != caller then Failure(IllegalState(NotBookingCook))
        else if b.status != Accepted then Failure(IllegalState(NotAccepted))
        else if b.serviceCompletedAt.Some? then Failure(IllegalState(ServiceAlreadyComplete))
        else
          var charged := if b.totalCharges.None?
                         then b.(totalCharges := Some(users[caller].chargesPerMeal.GetOr(0)))
                         else b;
          Success(charged.(serviceCompletedAt := Some(now)))
  }

  /** `markPaymentAsReceived`. Only the booking's cook, only once the service
      is marked and the payment is not. It stamps the payment time and
      completes the booking, whatever its status was. */
  function PaymentReceipt(users: seq<User>, bookings: map<BookingId, Booking>, principal: string,
                          bookingId: BookingId, now: Time): (r: Result<Booking, Error>)
    ensures r.Success? ==> bookingId in bookings && ResolveCaller(users, principal) == Success(bookings[bookingId].cook)
    ensures r.Success? ==> bookings[bookingId].serviceCompletedAt.Some? && bookings[bookingId].paymentCompletedAt.None?
    ensures r.Success? ==> r.value == bookings[bookingId].(paymentCompletedAt := Some(now), status := Completed)
    ensures (&& bookingId in bookings
             && ResolveCaller(users, principal) == Success(bookings[bookingId].cook)
             && bookings[bookingId].serviceCompletedAt.Some? && bookings[bookingId].paymentCompletedAt.None?)
            ==> r.Success?
  {
    match ResolveCaller(users, principal)
    case Failure(e) => Failure(e)
    case Success(caller) =>
      if bookingId !in bookings then Failure(IllegalArgument(BookingNotFound))
      else
        var b := bookings[bookingId];
        if b.cook != caller then Failure(IllegalState(NotBookingCook))
        else if b.serviceCompletedAt.None? then Failure(IllegalState(ServiceNotComplete))
        else if b.paymentCompletedAt.Some? then Failure(IllegalState(PaymentAlreadyReceived))
        else Success(b.(paymentCompletedAt := Some(now), status := Completed))
  }

  /** `markServiceAsComplete` checks, in order: the booking exists, the
      caller is its cook, the booking is accepted, its service is not yet
      marked. The first check that fails is the one reported. */
  lemma ServiceCompletionCheckOrder(users: seq<User>, bookings: map<BookingId, Booking>, principal: string,
                                    bookingId: BookingId, now: Time, caller: UserId)
    requires ResolveCaller(users, principal) == Success(caller)
    ensures bookingId !in bookings ==>
      ServiceCompletion(users, bookings, principal, bookingId, now) == Failure(IllegalArgument(BookingNotFound))
    ensures bookingId in bookings && bookings[bookingId].cook != caller ==>
      ServiceCompletion(users, bookings, principal, bookingId, now) == Failure(IllegalState(NotBookingCook))
    ensures bookingId in bookings && bookings[bookingId].cook == caller && bookings[bookingId].status != Accepted ==>
      ServiceCompletion(users, bookings, principal, bookingId, now) == Failure(IllegalState(NotAccepted))
    ensures (&& bookingId in bookings && bookings[bookingId].cook == caller
             && bookings[bookingId].status == Accepted && bookings[bookingId].serviceCompletedAt.Some?) ==>
      ServiceCompletion(users, bookings, principal, bookingId, now) == Failure(IllegalState(ServiceAlreadyComplete))
  {
  }

  /** `markPaymentAsReceived` checks, in order: the booking exists, the
      caller is its cook, its service is marked, its payment is not. The
      first check that fails is the one reported; the status is never
      checked. */
  lemma PaymentReceiptCheckOrder(users: seq<User>, bookings: map<BookingId, Booking>, principal: string,
                                 bookingId: BookingId, now: Time, caller: UserId)
    requires ResolveCaller(users, principal) == Success(caller)
    ensures bookingId !in bookings ==>
      PaymentReceipt(users, bookings, principal, bookingId, now) == Failure(IllegalArgument(BookingNotFound))
    ensures bookingId in bookings && bookings[bookingId].cook != caller ==>
      PaymentReceipt(users, bookings, principal, bookingId, now) == Failure(IllegalState(NotBookingCook))
    ensures bookingId in bookings && bookings[bookingId].cook == caller && bookings[bookingId].serviceCompletedAt.None? ==>
      PaymentReceipt(users, bookings, principal, bookingId, now) == Failure(IllegalState(ServiceNotComplete))
    ensures (&& bookingId in bookings && bookings[bookingId].cook == caller
             && bookings[bookingId].serviceCompletedAt.Some? && bookings[bookingId].paymentCompletedAt.Some?) ==>
      PaymentReceipt(users, bookings, principal, bookingId, now) == Failure(IllegalState(PaymentAlreadyReceived))
  {
  }

  /** The service is marked at most once: on the booking a completion
      produced, a second completion is refused as already done. */
  lemma ServiceCompletionAtMostOnce(users: seq<User>, bookings: map<BookingId, Booking>, principal: string,
                                    bookingId: BookingId, now: Time, later: Time)
    requires ServiceCompletion(users, bookings, principal, bookingId, now).Success?
    ensures ServiceCompletion(users, bookings[bookingId := ServiceCompletion(users, bookings, principal, bookingId, now).value],
                              principal, bookingId, later) == Failure(IllegalState(ServiceAlreadyComplete))
  {
  }

  /** The payment is recorded at most once: on the booking a receipt
      produced, a second receipt is refused as already received. */
  lemma PaymentAtMostOnce(users: seq<User>, bookings: map<BookingId, Booking>, principal: string,
                          bookingId: BookingId, now: Time, later: Time)
    requires PaymentReceipt(users, bookings, principal, bookingId, now).Success?
    ensures PaymentReceipt(users, bookings[bookingId := PaymentReceipt(users, bookings, principal, bookingId, now).value],
                           principal, bookingId, later) == Failure(IllegalState(PaymentAlreadyReceived))
  {
  }

  /** Every step of the lifecycle keeps a booking consistent: completed only
      once paid, paid only once served, served only once charged. */
  lemma LifecycleKeepsConsistent(users: seq<User>, bookings: map<BookingId, Booking>, principal: string,
                                 bookingId: BookingId, answer: string, now: Time)
    requires bookingId in bookings && Consistent(bookings[bookingId])
    ensures StatusUpdate(users, bookings, principal, bookingId, answer).Success? ==>
      Consistent(StatusUpdate(users, bookings, principal, bookingId, answer).value)
    ensures ServiceCompletion(users, bookings, principal, bookingId, now).Success? ==>
      Consistent(ServiceCompletion(users, bookings, principal, bookingId, now).value)
    ensures PaymentReceipt(users, bookings, principal, bookingId, now).Success? ==>
      Consistent(PaymentReceipt(users, bookings, principal, bookingId, now).value)
  {
  }

  /** `updateBookingStatus` does not treat `COMPLETED` as final: the cook of
      a completed booking can still reject it, and the booking keeps its
      payment time under the new status. */
  lemma CompletedBookingCanBeRejected(users: seq<User>, bookings: map<BookingId, Booking>, principal: string,
                                      bookingId: BookingId)
    requires bookingId in bookings && bookings[bookingId].status == Completed
    requires ResolveCaller(users, principal) == Success(bookings[bookingId].cook)
    ensures StatusUpdate(users, bookings, principal, bookingId, "REJECTED") == Success(bookings[bookingId].(status := Rejected))
  {
    ToUpperOfUpper("REJECTED");
    assert !EqualsIgnoreCase("ACCEPTED", "REJECTED") by {
      assert UpperChar("ACCEPTED"[0]) != UpperChar("REJECTED"[0]);
    }
  }

  /** `markPaymentAsReceived` does not look at the status either: a rejected
      booking whose service was marked becomes completed when paid. */
  lemma PaymentCompletesRejectedBooking(users: seq<User>, bookings: map<BookingId, Booking>, principal: string,
                                        bookingId: BookingId, now: Time)
    requires bookingId in bookings && bookings[bookingId].status == Rejected
    requires bookings[bookingId].serviceCompletedAt.Some? && bookings[bookingId].paymentCompletedAt.None?
    requires ResolveCaller(users, principal) == Success(bookings[bookingId].cook)
    ensures PaymentReceipt(users, bookings, principal, bookingId, now).Success?
    ensures PaymentReceipt(users, bookings, principal, bookingId, now).value.status == Completed
  {
  }

  /** `deleteBooking`'s checks: only the booking's customer, and only while
      the booking is pending or accepted. The result is the booking to
      remove. */
  function Cancellation(users: seq<User>, bookings: map<BookingId, Booking>, principal: string,
                        bookingId: BookingId): (r: Result<Booking, Error>)
    ensures r.Success? ==>
      && bookingId in bookings
      && ResolveCaller(users, principal) == Success(bookings[bookingId].customer)
      && (bookings[bookingId].status == Pending || bookings[bookingId].status == Accepted)
    ensures r.Success? ==> r.value == bookings[bookingId]
    ensures (&& bookingId in bookings
             && ResolveCaller(users, principal) == Success(bookings[bookingId].customer)
             && (bookings[bookingId].status == Pending || bookings[bookingId].status == Accepted))
            ==> r.Success?
    ensures bookingId in bookings && ResolveCaller(users, principal).Success?
         && ResolveCaller(users, principal).value != bookings[bookingId].customer
         ==> r == Failure(IllegalState(NotBookingCustomer))
    ensures bookingId !in bookings && ResolveCaller(users, principal).Success? ==>
      r == Failure(IllegalArgument(BookingNotFound))
    ensures (&& bookingId in bookings
             && ResolveCaller(users, principal) == Success(bookings[bookingId].customer)
             && (bookings[bookingId].status == Completed || bookings[bookingId].status == Rejected))
            ==> r == Failure(IllegalState(BookingFinished))
  {
    match ResolveCaller(users, principal)
    case Failure(e) => Failure(e)
    case Success(caller) =>
      if bookingId !in bookings then Failure(IllegalArgument(BookingNotFound))
      else
        var b := bookings[bookingId];
        if b.customer != caller then Failure(IllegalState(NotBookingCustomer))
        else
          match b.status
          case Completed | Rejected => Failure(IllegalState(BookingFinished))
          case Pending | Accepted => Success(b)
  }

  /** The notification a cancellation sends: to the cook, and only when the
      booking had been accepted. */
  function CancellationNotices(b: Booking): (r: seq<Notification>)
    ensures |r| <= 1
    ensures r != [] <==> b.status == Accepted
    ensures forall n :: n in r ==> n.topic == CookTopic && n.recipient == b.cook && n.kind == "BOOKING_CANCELLED_BY_USER"
  {
    if b.status == Accepted then [Notification(CookTopic, b.cook, "BOOKING_CANCELLED_BY_USER", b.id, b.customer)] else []
  }

  // ---------------------------------------------------------------------------
  // The service's operations on the store

  method CreateBooking(db: Repositories, principal: string, req: BookingRequest) returns (r: Result<BookingView, Error>)
    requires db.Valid()
    modifies db`bookings, db`nextBookingId, db`outbox
    ensures db.Valid()
    ensures match PlaceBooking(old(db.users), principal, req, old(db.nextBookingId))
      case Failure(e) =>
        && r == Failure(e)
        && db.bookings == old(db.bookings) && db.nextBookingId == old(db.nextBookingId)
        && db.outbox == old(db.outbox)
      case Success(b) =>
        && db.bookings == old(db.bookings)[b.id := b]
        && db.nextBookingId == old(db.nextBookingId) + 1
        && db.outbox == old(db.outbox) + [Notification(CookTopic, b.cook, "NEW_BOOKING_REQUEST", b.id, b.customer)]
        && r == Success(View(b, db.ratings))
  {
    var caller := ResolveCaller(db.users, principal);
    if caller.Failure? {
      return Failure(caller.error);
    }
    var customer := caller.value;
    if !(req.cookId < |db.users| && IsActiveCook(db.users[req.cookId])) {
      return Failure(IllegalArgument(CookNotFound));
    }
    var booking := Booking(db.nextBookingId, customer, req.cookId, Some(FormatDetails(req)), Pending,
                           req.requestedAt, None, None, None);
    db.bookings := db.bookings[booking.id := booking];
    db.nextBookingId := db.nextBookingId + 1;
    db.outbox := db.outbox + [Notification(CookTopic, req.cookId, "NEW_BOOKING_REQUEST", booking.id, customer)];
    var view := ConvertToResponse(booking, db.ratings);
    return Success(view);
  }

  method UpdateBookingStatus(db: Repositories, principal: string, bookingId: BookingId, answer: string)
    returns (r: Result<BookingView, Error>)
    requires db.Valid()
    modifies db`bookings, db`outbox
    ensures db.Valid()
    ensures match StatusUpdate(old(db.users), old(db.bookings), principal, bookingId, answer)
      case Failure(e) =>
        r == Failure(e) && db.bookings == old(db.bookings) && db.outbox == old(db.outbox)
      case Success(b) =>
        && db.bookings == old(db.bookings)[bookingId := b]
        && db.outbox == old(db.outbox) + [Notification(UserTopic, b.customer, "BOOKING_" + ToUpper(answer), bookingId, b.cook)]
        && r == Success(View(b, db.ratings))
  {
    var caller := ResolveCaller(db.users, principal);
    if caller.Failure? {
      return Failure(caller.error);
    }
    if bookingId !in db.bookings {
      return Failure(IllegalArgument(BookingNotFound));
    }
    var booking := db.bookings[bookingId];
    if booking.cook != caller.value {
      return Failure(IllegalState(NotBookingCook));
    }
    var upper := ToUpper(answer);
    var decision := Decision(answer);
    if decision.None? {
      return Failure(IllegalArgument(InvalidStatus));
    }
    if EqualsIgnoreCase("ACCEPTED", answer) {
      var rate := db.users[booking.cook].chargesPerMeal;
      if rate.Some? {
        booking := booking.(totalCharges := rate);
      } else {
        booking := booking.(totalCharges := Some(0));
      }
    }
    booking := booking.(status := decision.value);
    db.bookings := db.bookings[bookingId := booking];
    db.outbox := db.outbox + [Notification(UserTopic, booking.customer, "BOOKING_" + upper, bookingId, caller.value)];
    var view := ConvertToResponse(booking, db.ratings);
    return Success(view);
  }

  method MarkServiceAsComplete(db: Repositories, principal: string, bookingId: BookingId, now: Time)
    returns (r: Result<BookingView, Error>)
    requires db.Valid()
    modifies db`bookings, db`outbox
    ensures db.Valid()
    ensures match ServiceCompletion(old(db.users), old(db.bookings), principal, bookingId, now)
      case Failure(e) =>
        r == Failure(e) && db.bookings == old(db.bookings) && db.outbox == old(db.outbox)
      case Success(b) =>
        && db.bookings == old(db.bookings)[bookingId := b]
        && db.outbox == old(db.outbox) + [Notification(UserTopic, b.customer, "SERVICE_COMPLETED_PAYMENT_DUE", bookingId, b.cook)]
        && r == Success(View(b, db.ratings))
  {
    var caller := ResolveCaller(db.users, principal);
    if caller.Failure? {
      return Failure(caller.error);
    }
    if bookingId !in db.bookings {
      return Failure(IllegalArgument(BookingNotFound));
    }
    var booking := db.bookings[bookingId];
    if booking.cook != caller.value {
      return Failure(IllegalState(NotBookingCook));
    }
    if booking.status != Accepted {
      return Failure(IllegalState(NotAccepted));
    }
    if booking.serviceCompletedAt.Some? {
      return Failure(IllegalState(ServiceAlreadyComplete));
    }
    if booking.totalCharges.None? {
      var rate := db.users[caller.value].chargesPerMeal;
      if rate.Some? {
        booking := booking.(totalCharges := rate);
      } else {
        booking := booking.(totalCharges := Some(0));
      }
    }
    booking := booking.(serviceCompletedAt := Some(now));
    db.bookings := db.bookings[bookingId := booking];
    db.outbox := db.outbox + [Notification(UserTopic, booking.customer, "SERVICE_COMPLETED_PAYMENT_DUE", bookingId, caller.value)];
    var view := ConvertToResponse(booking, db.ratings);
    return Success(view);
  }

  method MarkPaymentAsReceived(db: Repositories, principal: string, bookingId: BookingId, now: Time)
    returns (r: Result<BookingView, Error>)
    requires db.Valid()
    modifies db`bookings, db`outbox
    ensures db.Valid()
    ensures match PaymentReceipt(old(db.users), old(db.bookings), principal, bookingId, now)
      case Failure(e) =>
        r == Failure(e) && db.bookings == old(db.bookings) && db.outbox == old(db.outbox)
      case Success(b) =>
        && db.bookings == old(db.bookings)[bookingId := b]
        && db.outbox == old(db.outbox) + [Notification(UserTopic, b.customer, "PAYMENT_COMPLETED_RATE_SERVICE", bookingId, b.cook)]
        && r == Success(View(b, db.ratings))
  {
    var caller := ResolveCaller(db.users, principal);
    if caller.Failure? {
      return Failure(caller.error);
    }
    if bookingId !in db.bookings {
      return Failure(IllegalArgument(BookingNotFound));
    }
    var booking := db.bookings[bookingId];
    if booking.cook != caller.value {
      return Failure(IllegalState(NotBookingCook));
    }
    if booking.serviceCompletedAt.None? {
      return Failure(IllegalState(ServiceNotComplete));
    }
    if booking.paymentCompletedAt.Some? {
      return Failure(IllegalState(PaymentAlreadyReceived));
    }
    booking := booking.(paymentCompletedAt := Some(now));
    booking := booking.(status := Completed);
    db.bookings := db.bookings[bookingId := booking];
    db.outbox := db.outbox + [Notification(UserTopic, booking.customer, "PAYMENT_COMPLETED_RATE_SERVICE", bookingId, caller.value)];
    var view := ConvertToResponse(booking, db.ratings);
    return Success(view);
  }

  method DeleteBooking(db: Repositories, principal: string, bookingId: BookingId) returns (r: Result<(), Error>)
    requires db.Valid()
    modifies db`bookings, db`outbox
    ensures db.Valid()
    ensures match Cancellation(old(db.users), old(db.bookings), principal, bookingId)
      case Failure(e) =>
        r == Failure(e) && db.bookings == old(db.bookings) && db.outbox == old(db.outbox)
      case Success(b) =>
        && db.bookings == old(db.bookings) - {bookingId}
        && db.outbox == old(db.outbox) + CancellationNotices(b)
        && r == Success(())
  {
    var caller := ResolveCaller(db.users, principal);
    if caller.Failure? {
      return Failure(caller.error);
    }
    if bookingId !in db.bookings {
      return Failure(IllegalArgument(BookingNotFound));
    }
    var booking := db.bookings[bookingId];
    if booking.customer != caller.value {
      return Failure(IllegalState(NotBookingCustomer));
    }
    if booking.status == Completed || booking.status == Rejected {
      return Failure(IllegalState(BookingFinished));
    }
    if booking.status == Accepted {
      db.outbox := db.outbox + [Notification(CookTopic, booking.cook, "BOOKING_CANCELLED_BY_USER", booking.id, caller.value)];
    }
    db.bookings := db.bookings - {bookingId};
    return Success(());
  }

  /** The listing both `getCookBookings` and `getCustomerBookings` run:
      the caller's bookings on one side, each mapped to its response. */
  method ListBookings(db: Repositories, principal: string, party: Party) returns (r: Result<seq<BookingView>, Error>)
    ensures ResolveCaller(db.users, principal).Failure? ==> r == Failure(ResolveCaller(db.users, principal).error)
    ensures ResolveCaller(db.users, principal).Success? ==>
      r == Success(Views(BookingsOf(db.bookings, party, ResolveCaller(db.users, principal).value, db.nextBookingId), db.ratings))
  {
    var caller := ResolveCaller(db.users, principal);
    if caller.Failure? {
      return Failure(caller.error);
    }
    var found := BookingsOf(db.bookings, party, caller.value, db.nextBookingId);
    var views: seq<BookingView> := [];
    for i := 0 to |found|
      invariant views == Views(found[..i], db.ratings)
    {
      var v := ConvertToResponse(found[i], db.ratings);
      views := views + [v];
    }
    assert found[..|found|] == found;
    return Success(views);
  }

  /** `getCookBookings`: in a well-formed store, every booking the caller
      cooks for, and only those. */
  method GetCookBookings(db: Repositories, principal: string) returns (r: Result<seq<BookingView>, Error>)
    requires db.Valid()
    ensures ResolveCaller(db.users, principal).Failure? ==> r == Failure(ResolveCaller(db.users, principal).error)
    ensures ResolveCaller(db.users, principal).Success? ==>
      r == Success(Views(BookingsOf(db.bookings, AsCook, ResolveCaller(db.users, principal).value, db.nextBookingId), db.ratings))
    ensures r.Success? ==> ResolveCaller(db.users, principal).Success?
    ensures r.Success? ==> forall v :: v in r.value ==> v.cookId == ResolveCaller(db.users, principal).value
    ensures r.Success? ==> forall id :: id in db.bookings && db.bookings[id].cook == ResolveCaller(db.users, principal).value
                             ==> View(db.bookings[id], db.ratings) in r.value
  {
    r := ListBookings(db, principal, AsCook);
    if r.Success? {
      var u := ResolveCaller(db.users, principal).value;
      var found := BookingsOf(db.bookings, AsCook, u, db.nextBookingId);
      forall v | v in r.value ensures v.cookId == u {
        var k :| 0 <= k < |r.value| && r.value[k] == v;
        assert found[k] in found;
      }
      forall id | id in db.bookings && db.bookings[id].cook == u
        ensures View(db.bookings[id], db.ratings) in r.value
      {
        var k :| 0 <= k < |found| && found[k] == db.bookings[id];
        assert r.value[k] == View(db.bookings[id], db.ratings);
      }
    }
  }

  /** `getCustomerBookings`: in a well-formed store, every booking the caller
      made, and only those. */
  method GetCustomerBookings(db: Repositories, principal: string) returns (r: Result<seq<BookingView>, Error>)
    requires db.Valid()
    ensures ResolveCaller(db.users, principal).Failure? ==> r == Failure(ResolveCaller(db.users, principal).error)
    ensures ResolveCaller(db.users, principal).Success? ==>
      r == Success(Views(BookingsOf(db.bookings, AsCustomer, ResolveCaller(db.users, principal).value, db.nextBookingId), db.ratings))
    ensures r.Success? ==> ResolveCaller(db.users, principal).Success?
    ensures r.Success? ==> forall v :: v in r.value ==> v.customerId == ResolveCaller(db.users, principal).value
    ensures r.Success? ==> forall id :: id in db.bookings && db.bookings[id].customer == ResolveCaller(db.users, principal).value
                             ==> View(db.bookings[id], db.ratings) in r.value
  {
    r := ListBookings(db, principal, AsCustomer);
    if r.Success? {
      var u := ResolveCaller(db.users, principal).value;
      var found := BookingsOf(db.bookings, AsCustomer, u, db.nextBookingId);
      forall v | v in r.value ensures v.customerId == u {
        var k :| 0 <= k < |r.value| && r.value[k] == v;
        assert found[k] in found;
      }
      forall id | id in db.bookings && db.bookings[id].customer == u
        ensures View(db.bookings[id], db.ratings) in r.value
      {
        var k :| 0 <= k < |found| && found[k] == db.bookings[id];
        assert r.value[k] == View(db.bookings[id], db.ratings);
      }
    }
  }
}
