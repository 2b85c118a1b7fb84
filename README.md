# cooked-backend: bookings, ratings, accounts and place names in Dafny

This project models the business core of the cooked-backend Spring service. In that service, customers book home cooks, cooks answer and complete bookings, customers rate completed bookings, and cooks get an average rating. The model covers four parts:

- **Booking lifecycle** (`BookingService`, `bookings.dfy`):
  - creating a booking for an active cook;
  - the cook accepting or rejecting it;
  - marking the service complete, then the payment received;
  - the customer deleting it;
  - listing a user's bookings;
  - reading the customer's name, address and meal preference back out of the stored details text.
- **Rating engine** (`RatingService`, `ratings.dfy`):
  - resolving the rater (the principal must look like an email);
  - the guards of `submitRating`;
  - the insert, and recomputing the cook's average and count;
  - listing a cook's ratings.
- **Accounts** (`AuthService`, `UserService` and the `User` entity; `auth.dfy`, `userservice.dfy`, `users.dfy`):
  - registration of standard users and cook applicants, with its uniqueness checks;
  - the disabled-account check at login;
  - completing a cook profile with a setup token, or through the profile update;
  - the profile picture URL;
  - the builder defaults;
  - `isEnabled`;
  - `getAuthorities`, which splits `roles` on commas and fails on a piece without text.
- **Place names** (`GeocodingService`, `geocoding.dfy`): choosing a short place name from a reverse-geocoding answer:
  - the root `name` unless it only names an enclosing area;
  - otherwise the most specific valid address field;
  - an optional `", state"` suffix;
  - the `display_name` fall-back.

## Layout

- `Store.Repositories` is a class that plays the database.
  - Its fields are the users (a sequence indexed by id), the bookings (a map keyed by id), the next booking id, the ratings (a sequence in insertion order) and an outbox of notifications.
  - The service operations that change data are methods on it, with `modifies` frames.
  - Each such method is proved against a pure function of the old state that states the rule: `PlaceBooking`, `StatusUpdate`, `ServiceCompletion`, `PaymentReceipt`, `Cancellation`, `NewRating`, `CookStats`, `ValidateRegistration`, `TokenHolder`, `ApplyCookProfile`.
  - The lemmas next to those functions state what the source promises: check order, at-most-once steps, invariants kept, round trips.
- `Text` gives Java's `String` operations their Java meaning:
  - `trim` removes every character up to `' '`;
  - `split` drops trailing empty strings;
  - `equalsIgnoreCase` and `toUpperCase` are modelled on ASCII;
  - `contains`, `startsWith`, `matches("\\d+")` and the decimal rendering of a `long`.
- Clocks, password encoding, JWT issuing and Spring's credential check are parameters:
  - `now`, `millis`;
  - `encode`, `issue`;
  - `authenticated`.
- `Repositories.Valid` holds across every operation:
  - users are indexed by id, with unique usernames, emails and setup tokens;
  - bookings are keyed by id and refer to stored users;
  - every booking is *consistent*: completed only when paid, paid only when served, served only when charged;
  - ratings refer to stored users, and nobody rates the same booking twice.
  - ratings name booking ids already handed out, and a rating of a stored booking is by that booking's customer.
- Every method that writes users keeps the stored rating statistics current (`StatsCurrent`): each user that has statistics holds the count and average of its ratings.

Where the intended lifecycle and the code disagree, the model follows the code:

- The lifecycle is meant to end at `COMPLETED` or `REJECTED`. `updateBookingStatus` never reads the current status, though: a cook can reject a completed booking or accept it again (`CompletedBookingCanBeRejected`).
- `markPaymentAsReceived` completes a booking whatever its status, for example a rejected one whose service had been marked (`PaymentCompletesRejectedBooking`).
- `dto/AuthResponse.java` declares four fields, but `AuthService` calls an eight-argument constructor. The model's `AuthResponse` has the eight values the service passes: id, message, username, token, roles, status, average rating and number of ratings.

## Model

| member | source | states |
|---|---|---|
| Users.Built | src/main/java/com/cookedapp/cooked_backend/entity/User.java:51-65 | a built user has roles `ROLE_USER`, status `PENDING_COOK_PROFILE` and no expertise; rating statistics, setup token and charge stay null, because the builder ignores the `= 0.0` / `= 0` initialisers |
| Users.BuiltUserIsEnabled | src/main/java/com/cookedapp/cooked_backend/entity/User.java:99-101 | a freshly built user (default status) is enabled |
| Users.Authorities | src/main/java/com/cookedapp/cooked_backend/entity/User.java:73-82 | null or blank roles give no authorities; otherwise the pieces of Java's `split(",")`, untrimmed, when every piece has text, and a failure (the `IllegalArgumentException` of `SimpleGrantedAuthority`) when some piece is empty or whitespace only |
| Users.AuthoritiesAreCut | src/main/java/com/cookedapp/cooked_backend/entity/User.java:78-81 | for non-blank roles not ending in a comma, the authorities are exactly the comma-separated pieces if each has text, and a failure otherwise (`"A,,B"` and `",A"` fail) |
| Users.AuthoritiesArePieces | src/main/java/com/cookedapp/cooked_backend/entity/User.java:78-81 | when such roles yield authorities, there is one more authority than there are commas, and joining them with `,` gives the roles string back |
| Users.AppendCookRole | src/main/java/com/cookedapp/cooked_backend/service/UserService.java:42-45 | the new roles contain `ROLE_COOK` and extend the old roles; roles that already contain it are left alone |
| Users.AppendCookRoleIdempotent | src/main/java/com/cookedapp/cooked_backend/service/UserService.java:42-45 | granting the cook role twice is the same as granting it once |
| Users.AppendCookRoleGrantsAuthority | src/main/java/com/cookedapp/cooked_backend/service/UserService.java:44 | after the append, the authorities are the old comma-separated pieces followed by `ROLE_COOK` when every old piece has text, and a failure otherwise |
| Users.TextlessRolesLoseAuthorities | src/main/java/com/cookedapp/cooked_backend/service/UserService.java:44 | for empty or whitespace-only roles, the append gives `roles + ",ROLE_COOK"`, whose authorities can no longer be listed: the first piece has no text |
| Users.ApplyCookProfile | src/main/java/com/cookedapp/cooked_backend/service/UserService.java:31-45 | name, phone, availability and coordinates are overwritten (nulls included); expertise only when given; status becomes `ACTIVE`, so the account is enabled; the roles gain `ROLE_COOK`; every other field is kept |
| Users.SetCookProfile | src/main/java/com/cookedapp/cooked_backend/service/AuthService.java:134-147 | the setter sequence shared by both profile paths yields exactly `ApplyCookProfile` |
| Users.ReapplyingProfileKeepsRoles | src/main/java/com/cookedapp/cooked_backend/service/UserService.java:42-45 | a second profile update leaves the roles as the first one set them (no duplicate `ROLE_COOK`) |
| Store.FindByEmail | src/main/java/com/cookedapp/cooked_backend/repository/UserRepository.java:13 | a found user has that email; nothing is found iff no user has it |
| Store.FindBySetupToken | src/main/java/com/cookedapp/cooked_backend/repository/UserRepository.java:16 | a found user holds that token; nothing is found iff no user holds it |
| Store.RatingsOf | src/main/java/com/cookedapp/cooked_backend/repository/RatingRepository.java:16 | exactly the ratings whose rated cook is the given user |
| Store.BookingsOf | src/main/java/com/cookedapp/cooked_backend/repository/BookingRepository.java:12-13 | every stored booking the user is party to (as customer or as cook) and nothing else, in ascending id order |
| Store.FindByEmailIsUnique | src/main/java/com/cookedapp/cooked_backend/entity/User.java:33-34 | with unique emails, looking up a user's email finds that user |
| Store.ResolveCaller | src/main/java/com/cookedapp/cooked_backend/service/BookingService.java:33-44 | the principal resolves to the user with that email; it fails with user-not-found iff there is no such user |
| AuthService.CheckIdentifierExists | src/main/java/com/cookedapp/cooked_backend/service/AuthService.java:42-44 | true iff `findByEmail` would find a user with that identifier |
| AuthService.ValidateRegistration | src/main/java/com/cookedapp/cooked_backend/service/AuthService.java:89-96 | succeeds iff neither the username nor the email is taken; a taken username is reported before a taken email |
| AuthService.LookupsPredictValidation | src/main/java/com/cookedapp/cooked_backend/service/AuthService.java:42-47 | the two availability checks predict exactly which error registration gives |
| AuthService.StandardUser | src/main/java/com/cookedapp/cooked_backend/service/AuthService.java:53-61 | a standard user: the given name and email, the encoded password, `ROLE_USER`, `ACTIVE` (enabled), average 0 and count 0, no setup token |
| AuthService.CookApplicant | src/main/java/com/cookedapp/cooked_backend/service/AuthService.java:73-79 | a cook applicant: `ROLE_USER`, `PENDING_COOK_PROFILE` (still enabled), no rating statistics at all, no setup token |
| AuthService.NewAccountAuthorities | src/main/java/com/cookedapp/cooked_backend/service/AuthService.java:123-127 | a new account's authorities are listed without failure, as `[ROLE_USER]` |
| AuthService.Respond | src/main/java/com/cookedapp/cooked_backend/service/AuthService.java:110-127 | the response carries the user's id, username, status and statistics, the message and the token, and the listed authorities; it fails with `IllegalArgumentException` exactly when the authorities cannot be listed |
| AuthService.AppendFreshUser | src/main/java/com/cookedapp/cooked_backend/service/AuthService.java:62 | saving a user with a fresh id, username and email keeps the users well formed |
| AuthService.RegisteredIsTaken | src/main/java/com/cookedapp/cooked_backend/service/AuthService.java:89-96 | once a user is saved, a registration reusing the username or the email is refused |
| AuthService.Register | src/main/java/com/cookedapp/cooked_backend/service/AuthService.java:50-62 | the outcome is `ValidateRegistration` on the old users; the user is appended on success, and nothing changes on failure; rating statistics that were current stay current |
| AuthService.RegisterStandardUser | src/main/java/com/cookedapp/cooked_backend/service/AuthService.java:49-68 | on success the standard user is appended, with the message `User registered successfully!`, roles `[ROLE_USER]`, `ACTIVE`, 0 and 0; the validation error otherwise; rating statistics that were current stay current |
| AuthService.RegisterCookInitiate | src/main/java/com/cookedapp/cooked_backend/service/AuthService.java:69-86 | on success the applicant is appended, with the message `Cook registration initiated. Please complete profile.`, `PENDING_COOK_PROFILE` and null statistics; rating statistics that were current stay current |
| AuthService.LoginUser | src/main/java/com/cookedapp/cooked_backend/service/AuthService.java:97-122 | bad credentials, then unknown email, then a disabled account (iff not enabled) are refused; otherwise the outcome is `Respond` for the user with `Login successful!` |
| AuthService.LoginRefusesOtherStatuses | src/main/java/com/cookedapp/cooked_backend/service/AuthService.java:104-108 | with `isEnabled` (User.java:99-101), login refuses as disabled exactly the accounts whose status is neither `ACTIVE` nor `PENDING_COOK_PROFILE`, so the extra pending test never changes the outcome; a pending applicant gets the same response as an active user |
| AuthService.TokenHolder | src/main/java/com/cookedapp/cooked_backend/service/AuthService.java:130-132 | the found user holds the token with an expiry after now; nothing is found iff every holder's expiry is missing or not after now |
| AuthService.CompletedProfile | src/main/java/com/cookedapp/cooked_backend/service/AuthService.java:134-149 | the profile is applied as in `ApplyCookProfile`, and the token and its expiry are cleared |
| AuthService.SetupTokenSpent | src/main/java/com/cookedapp/cooked_backend/service/AuthService.java:148-149 | after completing a profile, the same token finds nobody at any later time |
| AuthService.CompleteCookProfile | src/main/java/com/cookedapp/cooked_backend/service/AuthService.java:128-152 | an invalid or expired token is refused and nothing changes; otherwise only the holder changes, to `CompletedProfile`; rating statistics that were current stay current |
| UserService.UpdateUserProfile | src/main/java/com/cookedapp/cooked_backend/service/UserService.java:24-49 | an unknown email is refused and nothing changes; otherwise only that user changes, to `ApplyCookProfile`; rating statistics that were current stay current |
| UserService.PictureUrl | src/main/java/com/cookedapp/cooked_backend/service/UserService.java:55-63 | the URL starts with `/images/profiles/user_` |
| UserService.PictureUrlInjective | src/main/java/com/cookedapp/cooked_backend/service/UserService.java:55-63 | two URLs are equal only for the same user id, the same millisecond and the same file name, so the URL can be read back |
| UserService.UpdateUserProfilePicture | src/main/java/com/cookedapp/cooked_backend/service/UserService.java:51-68 | an unknown email is refused; otherwise only that user's picture changes, to `PictureUrl` of its id, the time and the file name; rating statistics that were current stay current |
| BookingService.FormatDetailsIsJoin | src/main/java/com/cookedapp/cooked_backend/service/BookingService.java:90-91 | the details text is the three labelled parts joined with `, ` |
| BookingService.DetailsSplitIntoPieces | src/main/java/com/cookedapp/cooked_backend/service/BookingService.java:253 | when no value contains `, `, splitting the details on `, ` gives back exactly the three labelled parts |
| BookingService.ReadDetailPieces | src/main/java/com/cookedapp/cooked_backend/service/BookingService.java:254-258 | the reading loop over the three labelled parts recovers name, address and meal preference (`null` when none was given) |
| BookingService.DetailsRoundTrip | src/main/java/com/cookedapp/cooked_backend/service/BookingService.java:251-259 | parsing the details `createBooking` wrote gives back the request's name, address and meal preference, when none of them contains `, ` |
| BookingService.ConvertToResponse | src/main/java/com/cookedapp/cooked_backend/service/BookingService.java:248-280 | the loop computes the response, whose rated flag is set iff the booking's customer has rated it |
| BookingService.Views | src/main/java/com/cookedapp/cooked_backend/service/BookingService.java:158-160 | one response per booking, in the same order |
| BookingService.PlaceBooking | src/main/java/com/cookedapp/cooked_backend/service/BookingService.java:84-99 | succeeds iff the principal is a stored user and the target has `ROLE_COOK` in its roles and is `ACTIVE`; the booking is `PENDING` between those two, carries the formatted details and the requested time, and has no charge and no timestamps; the errors are user-not-found, then cook-not-found |
| BookingService.Decision | src/main/java/com/cookedapp/cooked_backend/service/BookingService.java:126-137 | an answer is a decision iff its upper-case form is `ACCEPTED` or `REJECTED`; the stored status is that upper-case form; accepting is the same as `equalsIgnoreCase("ACCEPTED")` |
| BookingService.StatusUpdate | src/main/java/com/cookedapp/cooked_backend/service/BookingService.java:117-137 | only the booking's cook can answer, and the cook answering `ACCEPTED` or `REJECTED` in any case succeeds; accepting sets the charge to the cook's rate (or 0); rejecting keeps the charge; nothing else changes |
| BookingService.StatusUpdateCheckOrder | src/main/java/com/cookedapp/cooked_backend/service/BookingService.java:120-128 | the checks run in order (booking exists, caller is its cook, answer is a decision), and the first that fails is the one reported |
| BookingService.ServiceCompletion | src/main/java/com/cookedapp/cooked_backend/service/BookingService.java:170-194 | succeeds iff the caller is the booking's cook and the booking is `ACCEPTED` and not yet served; stamps the time, keeps the status, keeps a charge already set and otherwise backfills the cook's rate or 0 |
| BookingService.ServiceCompletionCheckOrder | src/main/java/com/cookedapp/cooked_backend/service/BookingService.java:172-183 | not found (`IllegalArgumentException`), then not the cook, then not `ACCEPTED`, then already served (each `IllegalStateException`): the first check that fails is reported |
| BookingService.PaymentReceipt | src/main/java/com/cookedapp/cooked_backend/service/BookingService.java:215-231 | succeeds iff the caller is the booking's cook and the booking is served and not yet paid, whatever its status; stamps the payment time and sets `COMPLETED` |
| BookingService.PaymentReceiptCheckOrder | src/main/java/com/cookedapp/cooked_backend/service/BookingService.java:217-228 | not found (`IllegalArgumentException`), then not the cook, then not served, then already paid (each `IllegalStateException`): the first check that fails is reported |
| BookingService.ServiceCompletionAtMostOnce | src/main/java/com/cookedapp/cooked_backend/service/BookingService.java:181-183 | marking the service a second time is refused as already complete |
| BookingService.PaymentAtMostOnce | src/main/java/com/cookedapp/cooked_backend/service/BookingService.java:226-228 | recording the payment a second time is refused as already received |
| BookingService.LifecycleKeepsConsistent | src/main/java/com/cookedapp/cooked_backend/service/BookingService.java:129-231 | answering, completing and paying all keep a booking consistent: `COMPLETED` implies paid, paid implies served, served implies charged |
| BookingService.CompletedBookingCanBeRejected | src/main/java/com/cookedapp/cooked_backend/service/BookingService.java:126-137 | the cook of a `COMPLETED` booking can still set it to `REJECTED`, and the payment time stays |
| BookingService.PaymentCompletesRejectedBooking | src/main/java/com/cookedapp/cooked_backend/service/BookingService.java:223-231 | a `REJECTED` booking that was served but not paid becomes `COMPLETED` when paid |
| BookingService.Cancellation | src/main/java/com/cookedapp/cooked_backend/service/BookingService.java:47-59 | deletion is allowed iff the caller is the booking's customer and it is `PENDING` or `ACCEPTED`; a missing booking is `IllegalArgumentException`, another caller gets the not-your-booking error, and a `COMPLETED` or `REJECTED` booking of the caller's is `IllegalStateException` |
| BookingService.CancellationNotices | src/main/java/com/cookedapp/cooked_backend/service/BookingService.java:60-74 | the cook gets one `BOOKING_CANCELLED_BY_USER` notice iff the booking was `ACCEPTED` |
| BookingService.CreateBooking | src/main/java/com/cookedapp/cooked_backend/service/BookingService.java:83-115 | stores the `PlaceBooking` result under a fresh id and notifies the cook with `NEW_BOOKING_REQUEST`; on failure nothing changes |
| BookingService.UpdateBookingStatus | src/main/java/com/cookedapp/cooked_backend/service/BookingService.java:117-154 | stores the `StatusUpdate` result and notifies the customer with `BOOKING_` plus the upper-cased answer; on failure nothing changes |
| BookingService.MarkServiceAsComplete | src/main/java/com/cookedapp/cooked_backend/service/BookingService.java:169-212 | stores the `ServiceCompletion` result and notifies the customer with `SERVICE_COMPLETED_PAYMENT_DUE`; on failure nothing changes |
| BookingService.MarkPaymentAsReceived | src/main/java/com/cookedapp/cooked_backend/service/BookingService.java:214-247 | stores the `PaymentReceipt` result and notifies the customer with `PAYMENT_COMPLETED_RATE_SERVICE`; on failure nothing changes |
| BookingService.DeleteBooking | src/main/java/com/cookedapp/cooked_backend/service/BookingService.java:46-77 | removes exactly that booking and sends the cancellation notices; on failure nothing changes |
| BookingService.ListBookings | src/main/java/com/cookedapp/cooked_backend/service/BookingService.java:156-168 | responses for exactly the caller's bookings on the given side, in id order, or the caller's lookup error |
| BookingService.GetCookBookings | src/main/java/com/cookedapp/cooked_backend/service/BookingService.java:156-161 | an unknown caller gets the lookup error; a known caller always gets a list: one response per booking the caller cooks for, in ascending id order, so every response is for such a booking and every such booking has its response |
| BookingService.GetCustomerBookings | src/main/java/com/cookedapp/cooked_backend/service/BookingService.java:163-168 | an unknown caller gets the lookup error; a known caller always gets a list: one response per booking the caller made, in ascending id order, so every response is for such a booking and every such booking has its response |
| RatingService.ResolveRater | src/main/java/com/cookedapp/cooked_backend/service/RatingService.java:32-50 | succeeds iff the identifier contains `@` and belongs to a stored user; an identifier without `@` is refused before any lookup |
| RatingService.RatingResponse | src/main/java/com/cookedapp/cooked_backend/service/RatingService.java:121-133 | the response carries the rating's ids, value and comment, with the rater's and the cook's usernames |
| RatingService.NewRating | src/main/java/com/cookedapp/cooked_backend/service/RatingService.java:52-81 | succeeds iff the booking exists, the rater is its customer, it is paid and `COMPLETED`, and the customer has not rated it yet; the rating is by that customer, for that booking's cook, with the requested value and comment |
| RatingService.RatingCheckOrder | src/main/java/com/cookedapp/cooked_backend/service/RatingService.java:55-70 | the guards run in the source's order (booking, customer, payment, status), and the first that fails is the one reported |
| RatingService.SecondRatingRejected | src/main/java/com/cookedapp/cooked_backend/service/RatingService.java:68-70 | after one rating is stored, a second rating of the same booking is refused as already rated |
| RatingService.NewRatingKeepsRatingsWellFormed | src/main/java/com/cookedapp/cooked_backend/service/RatingService.java:74-81 | appending the new rating keeps ids positional, refers to stored users and keeps (booking, rater) pairs unique |
| RatingService.NewRatingKeepsRatedByCustomers | src/main/java/com/cookedapp/cooked_backend/service/RatingService.java:59-61 | every stored rating is by the customer of its booking, before and after the insert |
| RatingService.OneRatingPerBooking | src/main/java/com/cookedapp/cooked_backend/entity/Rating.java:24-26 | since only a booking's customer can rate it, (booking, rater) uniqueness gives the one-rating-per-booking column constraint |
| RatingService.StoredBookingRatedOnce | src/main/java/com/cookedapp/cooked_backend/entity/Rating.java:24-26 | in every valid store (which every operation keeps), no stored booking has two ratings |
| RatingService.Sum | src/main/java/com/cookedapp/cooked_backend/service/RatingService.java:110 | the sum of n ratings lies between n and 5n |
| RatingService.RoundedTenths | src/main/java/com/cookedapp/cooked_backend/service/RatingService.java:111-112 | the result is the mean in tenths, rounded half up: within half a tenth of sum/n |
| RatingService.RoundedTenthsBounds | src/main/java/com/cookedapp/cooked_backend/service/RatingService.java:110-112 | a rounded mean of 1..5 star ratings lies between 1.0 and 5.0 |
| RatingService.CookStats | src/main/java/com/cookedapp/cooked_backend/service/RatingService.java:105-115 | the count is the number of the cook's ratings; with none, 0 and 0; otherwise an average between 1.0 and 5.0, rounded half up from the exact mean |
| RatingService.WithStats | src/main/java/com/cookedapp/cooked_backend/service/RatingService.java:107-114 | only the average and the count of the user change |
| RatingService.NewRatingCounts | src/main/java/com/cookedapp/cooked_backend/service/RatingService.java:105-114 | a new rating raises its cook's count by one and leaves every other cook's statistics unchanged |
| RatingService.NewRatingKeepsStatsCurrent | src/main/java/com/cookedapp/cooked_backend/service/RatingService.java:85 | if every user's stored statistics matched the ratings, they still match after the insert plus the recomputation for the rated cook |
| RatingService.FreshUserKeepsStatsCurrent | src/main/java/com/cookedapp/cooked_backend/service/AuthService.java:52-62 | a new user at the next id whose statistics are null or 0 and 0 keeps every user's statistics current |
| RatingService.SameStatsKeepStatsCurrent | src/main/java/com/cookedapp/cooked_backend/service/UserService.java:24-49 | replacing a user by one with the same average and count keeps every user's statistics current |
| RatingService.UpdateCookAverageRating | src/main/java/com/cookedapp/cooked_backend/service/RatingService.java:103-119 | only the cook changes, and it gets `CookStats` of the stored ratings |
| RatingService.SaveRating | src/main/java/com/cookedapp/cooked_backend/service/RatingService.java:81-85 | appends the rating, recomputes the rated cook's statistics and keeps them current |
| RatingService.SubmitRating | src/main/java/com/cookedapp/cooked_backend/service/RatingService.java:52-101 | on a `NewRating` error nothing changes; otherwise the rating is appended, the cook's statistics are recomputed, the cook is notified with `NEW_RATING_RECEIVED`, and the response is returned; statistics that were current stay current |
| RatingService.RatingsForCook | src/main/java/com/cookedapp/cooked_backend/service/RatingService.java:135-141 | an unknown cook id is refused; otherwise there is one response per rating of that cook, all for that cook, and every rating of the cook has its response |
| Geocoding.ValidPlaceNameChars | src/main/java/com/cookedapp/cooked_backend/service/GeocodingService.java:120-122 | a name is valid iff it is present, has a character `trim` keeps, and has a character that is not a digit |
| Geocoding.IsBroaderThan | src/main/java/com/cookedapp/cooked_backend/service/GeocodingService.java:124-132 | true iff the root name is present and equals some present name, ignoring case |
| Geocoding.Primary | src/main/java/com/cookedapp/cooked_backend/service/GeocodingService.java:58-78 | the primary place is valid and is the root name or one of the eight fields; there is none iff the root name is passed over and every field is invalid; when the root name is passed over, it is `FirstValid` of the eight fields |
| Geocoding.FirstValid | src/main/java/com/cookedapp/cooked_backend/service/GeocodingService.java:62-78 | nothing iff no name is valid; otherwise a valid name from the list |
| Geocoding.FirstValidIsFirst | src/main/java/com/cookedapp/cooked_backend/service/GeocodingService.java:62-78 | the name chosen is the first valid one: a valid name with only invalid names before it is the one returned, so the fields are tried in the order neighbourhood, quarter, suburb, village, town, city district, city, county |
| Geocoding.RootNameWins | src/main/java/com/cookedapp/cooked_backend/service/GeocodingService.java:60-61 | a valid root name that equals none of city, town, village, suburb, quarter, neighbourhood and city district (ignoring case) is chosen, whatever the county is |
| Geocoding.Labelled | src/main/java/com/cookedapp/cooked_backend/service/GeocodingService.java:81-97 | the shown name starts with the primary place |
| Geocoding.LabelledShowsNewState | src/main/java/com/cookedapp/cooked_backend/service/GeocodingService.java:83-94 | the result differs from the primary place iff the state is present, differs from the primary, and equals none of the eight fields (ignoring case); it is then `primary, state` |
| Geocoding.StateNamedByFieldIsDropped | src/main/java/com/cookedapp/cooked_backend/service/GeocodingService.java:84-91 | a state that some address field already names is never appended |
| Geocoding.SplitAllEmpty | src/main/java/com/cookedapp/cooked_backend/service/GeocodingService.java:102 | cutting on commas yields only empty pieces iff the text consists of commas only |
| Geocoding.FirstComponentCharacterised | src/main/java/com/cookedapp/cooked_backend/service/GeocodingService.java:100-105 | the fall-back fails (the index throws, so the answer is null) iff `display_name` is a non-empty run of commas; otherwise it is the trimmed text before the first comma |
| Geocoding.SelectPlaceSources | src/main/java/com/cookedapp/cooked_backend/service/GeocodingService.java:45-105 | an answer from the address starts with a valid name (the root name or one of the eight fields); without one, the answer is the `display_name` fall-back or null |
| Geocoding.GetPlaceName | src/main/java/com/cookedapp/cooked_backend/service/GeocodingService.java:39-116 | a name comes out only for a body that is non-blank, starts with `{` or `[` once trimmed, and parses; for such a body the answer is `SelectPlace` of the parsed root |
| Geocoding.LooksLikeJsonFirstChar | src/main/java/com/cookedapp/cooked_backend/service/GeocodingService.java:39-40 | the body check is exactly: the trimmed body is non-empty and its first character is `{` or `[` |

## Left out

- Controllers, `SecurityConfig`, `ApplicationConfig`, `JwtService` and `JwtAuthenticationFilter`. They map exceptions to HTTP statuses and wire Spring. Token issuing is the parameter `issue`, and password hashing is the parameter `encode`.
- Spring's `authenticationManager.authenticate` in `loginUser`: it is the boolean `authenticated`. Its own refusal of disabled accounts is not modelled.
- `NotificationService`: a notification is an entry in the outbox. The STOMP transport, the message texts and the double send in `sendNotificationToUser` are not modelled.
- The Nominatim HTTP call and the Jackson parsing in `getPlaceName`. The body is an optional string and the parser is a function parameter; a parser that throws is `None`. The request URL, the logging and the unused `road` field are not modelled.
- Floating point. Charges are opaque integers, because they are only copied. Latitude and longitude are opaque reals. The average rating is exact integer tenths, rounded half up, which is what `Math.round(mean * 10.0) / 10.0` intends; the model does not reproduce binary rounding of `double` at exact ties.
- Case conversion is modelled on ASCII letters only. Java's Unicode case mapping is not modelled.
- Concurrency, transactions and persistence. Each operation runs alone on the in-memory store. Booking lists come back in ascending id order, and a cook's ratings in insertion order; JPA promises no order.
- The database foreign key from a rating to its booking. Because a completed booking can be set back to `ACCEPTED` and then deleted, the real database would refuse to delete a rated booking; the model deletes it and keeps the rating.
- `createdAt` and `updatedAt` timestamps, the usernames in the booking response, and the rating's creation time.
- `findByCookAndBookingStatus`, `findByCustomerAndBookingStatus`, `findAverageRatingByCookId` and `countByRatedCook`. No modelled operation uses them.
- `Booking.java` is not part of this model. The `Booking` record is built from how the services read and write its fields.
- Null principals, null identifiers and a null `roles` field in a stored user. The model takes every principal as a string. A missing original file name is modelled, as its `null` rendering in the URL.
- The placeholder file storage in `updateUserProfilePicture`. Only the URL is built. `System.currentTimeMillis()` is the natural number `millis`.
- UserService.PictureUrl: its contract only states the fixed prefix. That the rest of the URL determines the id, the time and the file name is stated by `PictureUrlInjective`.
- AuthService.LoginUser: a roles string with a piece without text already makes Spring's authentication provider throw while it builds the authenticated token, before the lookup by email. The model raises the same `IllegalArgumentException` where `getRolesAsList` does, after the account checks.
- `isAccountNonExpired`, `isAccountNonLocked` and `isCredentialsNonExpired` always return true, and no modelled operation reads them.
- AuthService.CheckUsernameExists has no contract of its own. Its meaning is stated by `LookupsPredictValidation`.
- No code in the repository sets `setupToken`, `setupTokenExpiry` or `chargesPerMeal`. The store can hold any values for them that keep it well formed.
