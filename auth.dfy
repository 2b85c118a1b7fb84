/** `AuthService`: registration of customers and of cook applicants, the
    login check that follows authentication, and the one-time completion of
    a cook profile through a setup token. Password hashing and token
    issuing are functions handed in by the caller. */
module AuthService {
  import opened Wrappers
  import opened Text
  import opened Users
  import opened Entities
  import opened Store
  import opened RatingService

  /** The registration request body: a username, an email (the
      "identifier") and a plain-text password. */
  datatype RegisterRequest = RegisterRequest(username: string, identifier: string, password: string)

  /** The authentication response: the user's id, a message, name, token,
      authorities, status and rating statistics. */
  datatype AuthResponse = AuthResponse(
    id: UserId,
    message: string,
    username: string,
    token: string,
    roles: seq<string>,
    status: string,
    averageRating: Option<Tenths>,
    numberOfRatings: Option<nat>)

  // ---------------------------------------------------------------------------
  // Lookups

  /** `checkIdentifierExists`: whether `findByEmail` would find a user. */
  function CheckIdentifierExists(users: seq<User>, identifier: string): (r: bool)
    ensures r <==> FindByEmail(users, identifier).Some?
    ensures r ==> exists i :: 0 <= i < |users| && users[i].email == identifier
  {
    ExistsByEmail(users, identifier)
  }

  /** `checkUsernameExists`: whether some user has that username. */
  function CheckUsernameExists(users: seq<User>, username: string): bool {
    ExistsByUsername(users, username)
  }

  // ---------------------------------------------------------------------------
  // Registration

  /** `validateRegistration`: a taken username is reported first, then a
      taken email. */
  function ValidateRegistration(users: seq<User>, req: RegisterRequest): (r: Result<(), Error>)
    ensures r.Success? <==> !ExistsByUsername(users, req.username) && !ExistsByEmail(users, req.identifier)
    ensures ExistsByUsername(users, req.username) ==> r == Failure(IllegalArgument(UsernameTaken))
    ensures !ExistsByUsername(users, req.username) && ExistsByEmail(users, req.identifier) ==>
      r == Failure(IllegalArgument(EmailTaken))
  {
    if ExistsByUsername(users, req.username) then Failure(IllegalArgument(UsernameTaken))
    else if ExistsByEmail(users, req.identifier) then Failure(IllegalArgument(EmailTaken))
    else Success(())
  }

  /** The two lookup endpoints predict registration: the username check
      answers yes exactly when registration fails for the username, and the
      identifier check with a free username exactly when it fails for the
      email. */
  lemma LookupsPredictValidation(users: seq<User>, req: RegisterRequest)
    ensures CheckUsernameExists(users, req.username) <==>
      ValidateRegistration(users, req) == Failure(IllegalArgument(UsernameTaken))
    ensures !CheckUsernameExists(users, req.username) && CheckIdentifierExists(users, req.identifier) <==>
      ValidateRegistration(users, req) == Failure(IllegalArgument(EmailTaken))
  {
  }

  /** The user `registerStandardUser` builds: roles `ROLE_USER`, status
      `ACTIVE`, statistics 0 and 0, the password hashed. */
  function StandardUser(id: UserId, req: RegisterRequest, encode: string -> string): (u: User)
    ensures u.id == id && u.username == req.username && u.email == req.identifier
    ensures u.password == encode(req.password)
    ensures u.roles == RoleUser && u.status == StatusActive && IsEnabled(u)
    ensures u.averageRating == Some(0) && u.numberOfRatings == Some(0)
    ensures u.setupToken.None? && u.setupTokenExpiry.None?
  {
    Built(id, req.username, req.identifier, encode(req.password))
      .(status := StatusActive, averageRating := Some(0), numberOfRatings := Some(0))
  }

  /** The user `registerCookInitiate` builds: roles `ROLE_USER`, status
      `PENDING_COOK_PROFILE` and no statistics at all, since the builder
      skips the field initialisers. */
  function CookApplicant(id: UserId, req: RegisterRequest, encode: string -> string): (u: User)
    ensures u.id == id && u.username == req.username && u.email == req.identifier
    ensures u.password == encode(req.password)
    ensures u.roles == RoleUser && u.status == StatusPendingCookProfile && IsEnabled(u)
    ensures u.averageRating.None? && u.numberOfRatings.None?
    ensures u.setupToken.None? && u.setupTokenExpiry.None?
  {
    Built(id, req.username, req.identifier, encode(req.password))
  }

  /** A new account holds a single authority, `ROLE_USER`. */
  lemma NewAccountAuthorities()
    ensures Authorities(Some(RoleUser)) == Some([RoleUser])
  {
    assert !IsTrimmable(RoleUser[0]) && !IsTrimmable(RoleUser[|RoleUser| - 1]);
    assert ',' !in RoleUser;
    NoCharNoMatch(RoleUser, ',');
    assert !IsJavaWhitespace(RoleUser[0]);
  }

  /** The response for a user: its authorities as strings, or the
      `IllegalArgumentException` that listing them throws when a role piece
      has no text. */
  function Respond(u: User, message: string, token: string): (r: Result<AuthResponse, Error>)
    ensures r.Failure? <==> Authorities(Some(u.roles)).None?
    ensures r.Failure? ==> r.error == IllegalArgument(BlankAuthority)
    ensures r.Success? ==>
      && r.value.roles == Authorities(Some(u.roles)).value && AllHaveText(r.value.roles)
      && r.value.id == u.id && r.value.username == u.username && r.value.message == message
      && r.value.token == token && r.value.status == u.status
      && r.value.averageRating == u.averageRating && r.value.numberOfRatings == u.numberOfRatings
  {
    match Authorities(Some(u.roles))
    case None => Failure(IllegalArgument(BlankAuthority))
    case Some(roles) =>
      Success(AuthResponse(u.id, message, u.username, token, roles, u.status,
                           u.averageRating, u.numberOfRatings))
  }

  /** Appending a user whose id is the next position, whose username and
      email are free and who holds no setup token keeps the users well
      formed. */
  lemma AppendFreshUser(users: seq<User>, u: User)
    requires UsersWellFormed(users)
    requires u.id == |users| && !ExistsByUsername(users, u.username) && !ExistsByEmail(users, u.email)
    requires u.setupToken.None?
    ensures UsersWellFormed(users + [u])
  {
    var after := users + [u];
    forall i, j | 0 <= i < |after| && 0 <= j < |after| && i != j
      ensures after[i].username != after[j].username && after[i].email != after[j].email
    {
      if i < |users| && j < |users| {
        assert after[i] == users[i] && after[j] == users[j];
      } else if i < |users| {
        assert after[i] == users[i];
      } else {
        assert after[j] == users[j];
      }
    }
    forall i, j | 0 <= i < |after| && 0 <= j < |after| && i != j && after[i].setupToken.Some?
      ensures after[i].setupToken != after[j].setupToken
    {
      if i < |users| && j < |users| {
        assert after[i] == users[i] && after[j] == users[j];
      }
    }
  }

  /** Once a username and email are registered, registering either again
      fails. */
  lemma RegisteredIsTaken(users: seq<User>, u: User, req: RegisterRequest)
    requires req.username == u.username || req.identifier == u.email
    ensures ValidateRegistration(users + [u], req).Failure?
  {
    var after := users + [u];
    assert after[|users|] == u;
  }

  /** Registration shared by both entry points: validate, then save `u`. */
  method Register(db: Repositories, req: RegisterRequest, u: User) returns (r: Result<(), Error>)
    requires db.Valid()
    requires u.id == |db.users| && u.username == req.username && u.email == req.identifier && u.setupToken.None?
    requires u.numberOfRatings.Some? ==> u.numberOfRatings == Some(0) && u.averageRating == Some(0)
    modifies db`users
    ensures db.Valid()
    ensures StatsCurrent(old(db.users), db.ratings) ==> StatsCurrent(db.users, db.ratings)
    ensures r == ValidateRegistration(old(db.users), req)
    ensures r.Failure? ==> db.users == old(db.users)
    ensures r.Success? ==> db.users == old(db.users) + [u]
  {
    if CheckUsernameExists(db.users, req.username) {
      return Failure(IllegalArgument(UsernameTaken));
    }
    if CheckIdentifierExists(db.users, req.identifier) {
      return Failure(IllegalArgument(EmailTaken));
    }
    AppendFreshUser(db.users, u);
    if StatsCurrent(db.users, db.ratings) {
      FreshUserKeepsStatsCurrent(db.users, db.ratings, u);
    }
    db.users := db.users + [u];
    return Success(());
  }

  /** `registerStandardUser`. */
  method RegisterStandardUser(db: Repositories, req: RegisterRequest, encode: string -> string, issue: User -> string)
    returns (r: Result<AuthResponse, Error>)
    requires db.Valid()
    modifies db`users
    ensures db.Valid()
    ensures StatsCurrent(old(db.users), db.ratings) ==> StatsCurrent(db.users, db.ratings)
    ensures match ValidateRegistration(old(db.users), req)
      case Failure(e) => r == Failure(e) && db.users == old(db.users)
      case Success(_) =>
        var u := StandardUser(|old(db.users)|, req, encode);
        && db.users == old(db.users) + [u]
        && r == Success(AuthResponse(u.id, "User registered successfully!", req.username, issue(u),
                                     [RoleUser], StatusActive, Some(0), Some(0)))
  {
    var user := StandardUser(|db.users|, req, encode);
    var checked := Register(db, req, user);
    if checked.Failure? {
      return Failure(checked.error);
    }
    NewAccountAuthorities();
    r := Respond(user, "User registered successfully!", issue(user));
  }

  /** `registerCookInitiate`. */
  method RegisterCookInitiate(db: Repositories, req: RegisterRequest, encode: string -> string, issue: User -> string)
    returns (r: Result<AuthResponse, Error>)
    requires db.Valid()
    modifies db`users
    ensures db.Valid()
    ensures StatsCurrent(old(db.users), db.ratings) ==> StatsCurrent(db.users, db.ratings)
    ensures match ValidateRegistration(old(db.users), req)
      case Failure(e) => r == Failure(e) && db.users == old(db.users)
      case Success(_) =>
        var u := CookApplicant(|old(db.users)|, req, encode);
        && db.users == old(db.users) + [u]
        && r == Success(AuthResponse(u.id, "Cook registration initiated. Please complete profile.", req.username,
                                     issue(u), [RoleUser], StatusPendingCookProfile, None, None))
  {
    var user := CookApplicant(|db.users|, req, encode);
    var checked := Register(db, req, user);
    if checked.Failure? {
      return Failure(checked.error);
    }
    NewAccountAuthorities();
    r := Respond(user, "Cook registration initiated. Please complete profile.", issue(user));
  }

  // ---------------------------------------------------------------------------
  // Login

  /** `loginUser` once the authentication manager has answered
      `authenticated`: the user is looked up by email, and refused as
      disabled when it is neither enabled nor pending its cook profile.
      Since a pending account is enabled, that is exactly the accounts that
      are not enabled. */
  function LoginUser(users: seq<User>, identifier: string, authenticated: bool, issue: User -> string)
    : (r: Result<AuthResponse, Error>)
    ensures !authenticated ==> r == Failure(BadCredentials)
    ensures authenticated && !ExistsByEmail(users, identifier) ==> r == Failure(UsernameNotFound(UserNotFound))
    ensures authenticated && ExistsByEmail(users, identifier) ==>
      var u := users[FindByEmail(users, identifier).value];
      && (r == Failure(IllegalState(AccountDisabled)) <==> !IsEnabled(u))
      && (IsEnabled(u) ==> r == Respond(u, "Login successful!", issue(u)))
  {
    if !authenticated then Failure(BadCredentials)
    else
      match FindByEmail(users, identifier)
      case None => Failure(UsernameNotFound(UserNotFound))
      case Some(i) =>
        var u := users[i];
        if !IsEnabled(u) && u.status != StatusPendingCookProfile then Failure(IllegalState(AccountDisabled))
        else Respond(u, "Login successful!", issue(u))
  }

  /** Login refuses as disabled exactly the accounts whose status is neither
      `ACTIVE` nor `PENDING_COOK_PROFILE`: the extra test for a pending
      profile never changes the outcome, and a pending applicant logs in like
      an active user. */
  lemma LoginRefusesOtherStatuses(users: seq<User>, identifier: string, issue: User -> string)
    requires ExistsByEmail(users, identifier)
    ensures var u := users[FindByEmail(users, identifier).value];
      && (LoginUser(users, identifier, true, issue) == Failure(IllegalState(AccountDisabled)) <==>
          u.status != StatusActive && u.status != StatusPendingCookProfile)
      && (u.status == StatusPendingCookProfile ==>
          LoginUser(users, identifier, true, issue) == Respond(u, "Login successful!", issue(u)))
  {
  }

  // ---------------------------------------------------------------------------
  // Completing a cook profile

  /** `findBySetupToken` filtered on an expiry strictly after `now`. */
  function TokenHolder(users: seq<User>, token: string, now: Time): (r: Option<UserId>)
    ensures r.Some? ==> && r.value < |users| && users[r.value].setupToken == Some(token)
                        && users[r.value].setupTokenExpiry.Some? && users[r.value].setupTokenExpiry.value > now
    ensures UsersWellFormed(users) && r.None? ==>
      forall i :: 0 <= i < |users| && users[i].setupToken == Some(token) ==>
        users[i].setupTokenExpiry.None? || users[i].setupTokenExpiry.value <= now
  {
    match FindBySetupToken(users, token)
    case None => None
    case Some(i) =>
      if users[i].setupTokenExpiry.Some? && users[i].setupTokenExpiry.value > now then Some(i) else None
  }

  /** The user after `completeCookProfile`: the profile applied, the token
      and its expiry cleared. */
  function CompletedProfile(u: User, p: CookProfile): (r: User)
    ensures r.setupToken.None? && r.setupTokenExpiry.None?
    ensures r.status == StatusActive && Contains(r.roles, RoleCook)
    ensures r.(setupToken := u.setupToken, setupTokenExpiry := u.setupTokenExpiry) == ApplyCookProfile(u, p)
  {
    ApplyCookProfile(u, p).(setupToken := None, setupTokenExpiry := None)
  }

  /** A setup token works once: after the profile it opened is completed, no
      user holds it any more, at any time. */
  lemma SetupTokenSpent(users: seq<User>, token: string, now: Time, p: CookProfile, later: Time)
    requires UsersWellFormed(users) && TokenHolder(users, token, now).Some?
    ensures var i := TokenHolder(users, token, now).value;
            TokenHolder(users[i := CompletedProfile(users[i], p)], token, later).None?
  {
    var i := TokenHolder(users, token, now).value;
    var after := users[i := CompletedProfile(users[i], p)];
    forall j | 0 <= j < |after| ensures after[j].setupToken != Some(token) {
      if j != i {
        assert users[j].setupToken != users[i].setupToken;
      }
    }
  }

  /** `completeCookProfile`: an unknown or expired token is refused;
      otherwise the holder's profile is set and the token cleared. */
  method CompleteCookProfile(db: Repositories, token: string, p: CookProfile, now: Time) returns (r: Result<User, Error>)
    requires db.Valid()
    modifies db`users
    ensures db.Valid()
    ensures StatsCurrent(old(db.users), db.ratings) ==> StatsCurrent(db.users, db.ratings)
    ensures match TokenHolder(old(db.users), token, now)
      case None => r == Failure(IllegalArgument(InvalidSetupToken)) && db.users == old(db.users)
      case Some(i) =>
        && db.users == old(db.users)[i := CompletedProfile(old(db.users)[i], p)]
        && r == Success(db.users[i])
  {
    var holder := TokenHolder(db.users, token, now);
    if holder.None? {
      return Failure(IllegalArgument(InvalidSetupToken));
    }
    var i := holder.value;
    var user := SetCookProfile(db.users[i], p);
    user := user.(setupToken := None);
    user := user.(setupTokenExpiry := None);
    if StatsCurrent(db.users, db.ratings) {
      SameStatsKeepStatsCurrent(db.users, db.ratings, i, user);
    }
    db.users := db.users[i := user];
    return Success(user);
  }
}
