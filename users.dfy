/** The `User` entity: a customer and, once the cook profile is filled in, a
    cook. Roles are a comma-delimited string, the lifecycle status a string;
    the rating statistics are nullable because the Lombok builder does not
    apply the field initialisers. */
module Users {
  import opened Wrappers
  import opened Text

  /** The generated primary key; users are never deleted, so it doubles as
      the index of the user in the store. */
  type UserId = nat
  /** A `LocalDateTime`, as an instant on one clock. */
  type Time = int
  /** A `Double` charge. The services only copy charges, never compute with them. */
  type Charge = int
  /** A rating average in tenths of a star (4.5 stars is 45). */
  type Tenths = int
  /** A latitude or longitude, only ever copied. */
  type Coordinate = real

  const RoleUser := "ROLE_USER"
  const RoleCook := "ROLE_COOK"
  const StatusActive := "ACTIVE"
  const StatusPendingCookProfile := "PENDING_COOK_PROFILE"

  datatype User = User(
    id: UserId,
    username: string,
    email: string,
    password: string,
    cookname: Option<string>,
    phone: Option<string>,
    availabilityStatus: Option<string>,
    profilePicture: Option<string>,
    latitude: Option<Coordinate>,
    longitude: Option<Coordinate>,
    chargesPerMeal: Option<Charge>,
    placeName: Option<string>,
    expertise: seq<string>,
    roles: string,
    status: string,
    setupToken: Option<string>,
    setupTokenExpiry: Option<Time>,
    averageRating: Option<Tenths>,
    numberOfRatings: Option<nat>)

  /** The cook-profile request body (`CookProfileDTO`). */
  datatype CookProfile = CookProfile(
    cookname: Option<string>,
    phone: Option<string>,
    expertise: Option<seq<string>>,
    availabilityStatus: Option<string>,
    latitude: Option<Coordinate>,
    longitude: Option<Coordinate>)

  /** `User.builder()...build()` with only the identity fields given: the
      builder defaults apply (roles `ROLE_USER`, status
      `PENDING_COOK_PROFILE`, empty expertise) and every other field is null,
      including the rating statistics whose `= 0.0` / `= 0` initialisers the
      builder ignores. */
  function Built(id: UserId, username: string, email: string, password: string): (u: User)
    ensures u.id == id && u.username == username && u.email == email && u.password == password
    ensures u.roles == RoleUser && u.status == StatusPendingCookProfile && u.expertise == []
    ensures u.averageRating.None? && u.numberOfRatings.None?
    ensures u.setupToken.None? && u.setupTokenExpiry.None? && u.chargesPerMeal.None?
  {
    User(id, username, email, password, None, None, None, None, None, None, None, None, [],
         RoleUser, StatusPendingCookProfile, None, None, None, None)
  }

  /** `isEnabled`. */
  predicate IsEnabled(u: User) {
    u.status == StatusActive || u.status == StatusPendingCookProfile
  }

  /** A freshly built user can log in. */
  lemma BuiltUserIsEnabled(id: UserId, username: string, email: string, password: string)
    ensures IsEnabled(Built(id, username, email, password))
  {
  }

  // ---------------------------------------------------------------------------
  // Roles

  /** Every piece has text, so `new SimpleGrantedAuthority(piece)` accepts
      each of them. */
  predicate AllHaveText(pieces: seq<string>) {
    forall i :: 0 <= i < |pieces| ==> HasText(pieces[i])
  }

  /** `getAuthorities`: nothing for a null or blank roles string, otherwise
      one authority per piece of `roles.split(",")`, pieces untrimmed. A piece
      without text makes the `SimpleGrantedAuthority` constructor throw
      `IllegalArgumentException`, which is `None` here. */
  function Authorities(roles: Option<string>): (r: Option<seq<string>>)
    ensures roles.None? || IsBlank(roles.value) ==> r == Some([])
    ensures roles.Some? && !IsBlank(roles.value) ==>
      (r.Some? <==> AllHaveText(JavaSplit(roles.value, ","))) &&
      (r.Some? ==> r.value == JavaSplit(roles.value, ","))
  {
    if roles.None? || IsBlank(roles.value) then Some([])
    else if AllHaveText(JavaSplit(roles.value, ",")) then Some(JavaSplit(roles.value, ","))
    else None
  }

  /** The last piece of a cut at one character is empty only when the
      string is empty or ends with that character. */
  lemma {:induction false} SplitOnLastPieceNonEmpty(s: string, c: char)
    requires s != [] && s[|s| - 1] != c
    ensures SplitOn(s, [c])[|SplitOn(s, [c])| - 1] != []
    decreases |s|
  {
    var f := FindFrom(s, [c], 0);
    if f.Some? {
      var k := f.value;
      var rest := s[k + 1..];
      assert s[k..k + 1] == [c];
      assert k < |s| - 1;
      assert rest[|rest| - 1] == s[|s| - 1];
      SplitOnLastPieceNonEmpty(rest, c);
      SplitOnStep(s, [c], k);
    }
  }

  /** For a roles string that is not blank and does not end with a comma,
      the authorities are its comma-separated pieces, in order, when each of
      them has text; an empty or whitespace-only piece (`"A,,B"`, `",A"`)
      makes the lookup throw. */
  lemma AuthoritiesAreCut(roles: string)
    requires !IsBlank(roles) && roles[|roles| - 1] != ','
    ensures Authorities(Some(roles)) ==
      if AllHaveText(SplitOn(roles, ",")) then Some(SplitOn(roles, ",")) else None
  {
    assert roles != [];
    SplitKeepsLastPiece(roles, ',');
    AuthoritiesOfPieces(roles, SplitOn(roles, ","));
  }

  /** The authorities of a roles string that is not blank, in terms of its
      pieces. */
  lemma AuthoritiesOfPieces(roles: string, pieces: seq<string>)
    requires !IsBlank(roles) && JavaSplit(roles, ",") == pieces
    ensures Authorities(Some(roles)) == if AllHaveText(pieces) then Some(pieces) else None
  {
  }

  /** Java's `split` at a character drops no piece of a non-empty string
      that does not end with that character. */
  lemma SplitKeepsLastPiece(s: string, c: char)
    requires s != [] && s[|s| - 1] != c
    ensures JavaSplit(s, [c]) == SplitOn(s, [c])
  {
    SplitOnLastPieceNonEmpty(s, c);
    JavaSplitIsSplitOn(s, [c]);
  }

  /** When such a roles string yields authorities, there is one more of
      them than it has commas, and joining them with commas gives the roles
      string back. */
  lemma AuthoritiesArePieces(roles: string)
    requires !IsBlank(roles) && roles[|roles| - 1] != ','
    ensures Authorities(Some(roles)).Some? ==>
      && |Authorities(Some(roles)).value| == multiset(roles)[','] + 1
      && Join(Authorities(Some(roles)).value, ",") == roles
  {
    AuthoritiesAreCut(roles);
    SplitOnCharCount(roles, ',');
    JoinSplitOn(roles, ",");
  }

  /** Cutting `s + [c] + t` at `c`, where `t` has no `c`, cuts `s` and then
      adds `t` as a last piece. */
  lemma {:induction false} SplitOnAppendPiece(s: string, c: char, t: string)
    requires c !in t
    ensures SplitOn(s + ([c] + t), [c]) == SplitOn(s, [c]) + [t]
    decreases |s|
  {
    var f := FindFrom(s, [c], 0);
    if f.Some? {
      SplitOnAppendPiece(s[f.value + 1..], c, t);
      AppendPieceAfterMatch(s, c, t, f.value);
    } else {
      AppendPieceNoMatch(s, c, t);
    }
  }

  /** The inductive step of `SplitOnAppendPiece`: the first `c` of `s` is
      also the first of `s + [c] + t`. */
  lemma AppendPieceAfterMatch(s: string, c: char, t: string, k: nat)
    requires FindFrom(s, [c], 0) == Some(k)
    requires SplitOn(s[k + 1..] + ([c] + t), [c]) == SplitOn(s[k + 1..], [c]) + [t]
    ensures SplitOn(s + ([c] + t), [c]) == SplitOn(s, [c]) + [t]
  {
    SplitOnStep(s, [c], k);
    SplitOnExtend(s, [c] + t, [c], k);
  }

  /** The base case of `SplitOnAppendPiece`: without a `c` in `s`, the cut
      gives `s` and `t`. */
  lemma AppendPieceNoMatch(s: string, c: char, t: string)
    requires FindFrom(s, [c], 0).None? && c !in t
    ensures SplitOn(s + ([c] + t), [c]) == SplitOn(s, [c]) + [t]
  {
    var whole := s + ([c] + t);
    assert whole == s + [c] + t;
    FindCharAfter(s, c, t);
    SplitOnStep(whole, [c], |s|);
    assert whole[|s| + 1..] == t;
    assert whole[..|s|] == s;
    SplitOnNoMatch(s, [c]);
    NoCharNoMatch(t, c);
    SplitOnNoMatch(t, [c]);
  }

  /** The idempotent `ROLE_COOK` append of `completeCookProfile` and
      `updateUserProfile`: a substring test on the roles string, then
      `roles + ",ROLE_COOK"` if it failed. The result holds `ROLE_COOK`, only
      ever extends the roles string, and leaves it alone when it already
      holds `ROLE_COOK` (anywhere, even inside a longer role name). */
  function AppendCookRole(roles: string): (r: string)
    ensures Contains(r, RoleCook)
    ensures StartsWith(r, roles)
    ensures Contains(roles, RoleCook) ==> r == roles
  {
    if Contains(roles, RoleCook) then roles
    else
      ContainsSuffix(roles + ",", RoleCook);
      roles + "," + RoleCook
  }

  /** Appending twice is appending once. */
  lemma AppendCookRoleIdempotent(roles: string)
    ensures AppendCookRole(AppendCookRole(roles)) == AppendCookRole(roles)
  {
  }

  /** When the roles string did not mention `ROLE_COOK`, the append grants
      exactly one new authority, `ROLE_COOK`, after the existing pieces; if
      one of those pieces has no text, the lookup still throws. */
  lemma AppendCookRoleGrantsAuthority(roles: string)
    requires !Contains(roles, RoleCook)
    ensures Authorities(Some(AppendCookRole(roles))) ==
      if AllHaveText(SplitOn(roles, ",")) then Some(SplitOn(roles, ",") + [RoleCook]) else None
  {
    var r := AppendCookRole(roles);
    assert r == roles + ([','] + RoleCook);
    assert ',' !in RoleCook;
    SplitOnAppendPiece(roles, ',', RoleCook);
    assert r[|r| - 1] == 'K';
    assert !IsTrimmable(r[|r| - 1]);
    AuthoritiesAreCut(r);
    CookRoleHasText();
    AllHaveTextAppend(SplitOn(roles, ","), RoleCook);
  }

  /** One more piece with text keeps every piece with text, and loses it
      when an earlier piece has none. */
  lemma AllHaveTextAppend(pieces: seq<string>, t: string)
    requires HasText(t)
    ensures AllHaveText(pieces + [t]) <==> AllHaveText(pieces)
  {
    if AllHaveText(pieces + [t]) {
      forall i | 0 <= i < |pieces| ensures HasText(pieces[i]) {
        assert (pieces + [t])[i] == pieces[i];
      }
    }
  }

  /** `ROLE_COOK` has text. */
  lemma CookRoleHasText()
    ensures HasText(RoleCook)
  {
    assert !IsJavaWhitespace(RoleCook[0]);
  }

  /** A roles string without text (empty or all whitespace) becomes
      `",ROLE_COOK"` or the like after the append, whose first piece has no
      text: the user's authorities can no longer be listed. */
  lemma {:induction false} TextlessRolesLoseAuthorities(roles: string)
    requires !HasText(roles)
    ensures !Contains(roles, RoleCook)
    ensures AppendCookRole(roles) == roles + "," + RoleCook
    ensures Authorities(Some(AppendCookRole(roles))).None?
  {
    assert ',' !in roles by {
      forall i | 0 <= i < |roles| ensures roles[i] != ',' {
        assert IsJavaWhitespace(roles[i]);
      }
    }
    NoCharNoMatch(roles, ',');
    SplitOnNoMatch(roles, ",");
    CookRoleHasText();
    AppendCookRoleGrantsAuthority(roles);
    assert SplitOn(roles, ",")[0] == roles;
  }

  // ---------------------------------------------------------------------------
  // Profile completion

  /** The setter sequence `updateUserProfile` and `completeCookProfile` share:
      cook name, phone, availability and coordinates are overwritten (with
      null when the request has none), expertise only when the request
      carries a list; the status becomes `ACTIVE` and `ROLE_COOK` is appended
      once. Identity, password, picture, charge, place name, setup token and
      rating statistics are untouched. */
  function ApplyCookProfile(u: User, p: CookProfile): (r: User)
    ensures r.cookname == p.cookname && r.phone == p.phone
    ensures r.availabilityStatus == p.availabilityStatus
    ensures r.latitude == p.latitude && r.longitude == p.longitude
    ensures r.expertise == (if p.expertise.Some? then p.expertise.value else u.expertise)
    ensures r.status == StatusActive && IsEnabled(r)
    ensures Contains(r.roles, RoleCook) && StartsWith(r.roles, u.roles)
    ensures r.id == u.id && r.username == u.username && r.email == u.email && r.password == u.password
    ensures r.profilePicture == u.profilePicture && r.chargesPerMeal == u.chargesPerMeal
    ensures r.placeName == u.placeName
    ensures r.setupToken == u.setupToken && r.setupTokenExpiry == u.setupTokenExpiry
    ensures r.averageRating == u.averageRating && r.numberOfRatings == u.numberOfRatings
  {
    u.(cookname := p.cookname, phone := p.phone, availabilityStatus := p.availabilityStatus,
       latitude := p.latitude, longitude := p.longitude,
       expertise := if p.expertise.Some? then p.expertise.value else u.expertise,
       status := StatusActive, roles := AppendCookRole(u.roles))
  }

  /** The setter sequence itself, one field at a time, as both services
      run it on the loaded user. */
  method SetCookProfile(u: User, p: CookProfile) returns (user: User)
    ensures user == ApplyCookProfile(u, p)
  {
    user := u.(cookname := p.cookname);
    user := user.(phone := p.phone);
    user := user.(availabilityStatus := p.availabilityStatus);
    user := user.(latitude := p.latitude);
    user := user.(longitude := p.longitude);
    if p.expertise.Some? {
      user := user.(expertise := p.expertise.value);
    }
    user := user.(status := StatusActive);
    if !Contains(user.roles, RoleCook) {
      user := user.(roles := user.roles + "," + RoleCook);
    }
  }

  /** Completing a profile a second time changes no role: the append is
      idempotent across repeated updates. */
  lemma ReapplyingProfileKeepsRoles(u: User, p: CookProfile, q: CookProfile)
    ensures ApplyCookProfile(ApplyCookProfile(u, p), q).roles == ApplyCookProfile(u, p).roles
  {
  }
}
