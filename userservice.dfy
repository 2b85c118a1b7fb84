/** `UserService`: a signed-in user fills in the cook profile, or sets a
    profile picture whose URL is built from the user id, the current time
    in milliseconds and the uploaded file's name. */
module UserService {
  import opened Wrappers
  import opened Text
  import opened Users
  import opened Entities
  import opened Store
  import opened RatingService

  /** Changing one user's profile fields keeps the users well formed when
      its id, username, email and setup token stay as they were. */
  lemma ReplaceUserKeepsWellFormed(users: seq<User>, i: nat, u: User)
    requires UsersWellFormed(users) && i < |users|
    requires u.id == users[i].id && u.username == users[i].username && u.email == users[i].email
    requires u.setupToken == users[i].setupToken
    ensures UsersWellFormed(users[i := u])
  {
  }

  /** `updateUserProfile`: an unknown email is refused; otherwise the
      user's profile is set, the status becomes `ACTIVE` and `ROLE_COOK` is
      granted once. */
  method UpdateUserProfile(db: Repositories, identifier: string, p: CookProfile) returns (r: Result<User, Error>)
    requires db.Valid()
    modifies db`users
    ensures db.Valid()
    ensures StatsCurrent(old(db.users), db.ratings) ==> StatsCurrent(db.users, db.ratings)
    ensures match FindByEmail(old(db.users), identifier)
      case None => r == Failure(UsernameNotFound(UserNotFound)) && db.users == old(db.users)
      case Some(i) =>
        && db.users == old(db.users)[i := ApplyCookProfile(old(db.users)[i], p)]
        && r == Success(db.users[i])
  {
    var found := FindByEmail(db.users, identifier);
    if found.None? {
      return Failure(UsernameNotFound(UserNotFound));
    }
    var i := found.value;
    var user := SetCookProfile(db.users[i], p);
    ReplaceUserKeepsWellFormed(db.users, i, user);
    if StatsCurrent(db.users, db.ratings) {
      SameStatsKeepStatsCurrent(db.users, db.ratings, i, user);
    }
    db.users := db.users[i := user];
    return Success(user);
  }

  /** The URL `updateUserProfilePicture` stores: the id and the time in
      decimal, each followed by `_`, then the original file name (`null`
      when the upload has none). */
  function PictureUrl(id: UserId, millis: nat, filename: Option<string>): (url: string)
    ensures StartsWith(url, "/images/profiles/user_")
  {
    "/images/profiles/user_" + (NatToString(id) + ("_" + (NatToString(millis) + ("_" + Rendered(filename)))))
  }

  /** Two uploads get the same URL only for the same user, the same
      millisecond and the same file name: the URL can be read back. */
  lemma {:induction false} PictureUrlInjective(a: UserId, m: nat, f: Option<string>, b: UserId, n: nat, g: Option<string>)
    requires PictureUrl(a, m, f) == PictureUrl(b, n, g)
    ensures a == b && m == n && Rendered(f) == Rendered(g)
  {
    var xs := NatToString(m) + ("_" + Rendered(f));
    var ys := NatToString(n) + ("_" + Rendered(g));
    PrefixCancels("/images/profiles/user_", NatToString(a) + ("_" + xs), NatToString(b) + ("_" + ys));
    DigitRunDelimited(NatToString(a), NatToString(b), '_', xs, ys);
    NatToStringInjective(a, b);
    DigitRunDelimited(NatToString(m), NatToString(n), '_', Rendered(f), Rendered(g));
    NatToStringInjective(m, n);
  }

  /** Equal strings with the same prefix are equal after it. */
  lemma PrefixCancels(p: string, x: string, y: string)
    requires p + x == p + y
    ensures x == y
  {
    assert x == (p + x)[|p|..];
  }

  /** `updateUserProfilePicture`: an unknown email is refused; otherwise
      only the picture changes, to the URL built from the user's id, the
      given time and the file name. */
  method UpdateUserProfilePicture(db: Repositories, identifier: string, millis: nat, filename: Option<string>)
    returns (r: Result<User, Error>)
    requires db.Valid()
    modifies db`users
    ensures db.Valid()
    ensures StatsCurrent(old(db.users), db.ratings) ==> StatsCurrent(db.users, db.ratings)
    ensures match FindByEmail(old(db.users), identifier)
      case None => r == Failure(UsernameNotFound(UserNotFound)) && db.users == old(db.users)
      case Some(i) =>
        && db.users == old(db.users)[i := old(db.users)[i].(profilePicture := Some(PictureUrl(i, millis, filename)))]
        && r == Success(db.users[i])
  {
    var found := FindByEmail(db.users, identifier);
    if found.None? {
      return Failure(UsernameNotFound(UserNotFound));
    }
    var i := found.value;
    var user := db.users[i];
    var url := PictureUrl(user.id, millis, filename);
    user := user.(profilePicture := Some(url));
    ReplaceUserKeepsWellFormed(db.users, i, user);
    if StatsCurrent(db.users, db.ratings) {
      SameStatsKeepStatsCurrent(db.users, db.ratings, i, user);
    }
    db.users := db.users[i := user];
    return Success(user);
  }
}
