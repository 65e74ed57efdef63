/**
 * The account serializers of accounts/api/serializers.py: login and signup
 * validation, signup's user creation, and the partial profile update.
 * Usernames and emails are compared and stored lower-cased.
 */
module AccountSerializers {
  import opened Wrappers
  import opened Strings
  import opened Models
  import opened Fields
  import opened Memcached
  import opened UserService

  /** `User.objects.filter(username=username).exists()`. */
  predicate UsernameExists(users: map<int, User>, username: string) {
    exists id :: id in users && users[id].username == username
  }

  /** `User.objects.filter(email=email).exists()`. */
  predicate EmailExists(users: map<int, User>, email: string) {
    exists id :: id in users && users[id].email == email
  }

  datatype LoginData = LoginData(username: string, password: string)

  /** The two `CharField`s of the login serializer: neither may be blank. */
  function LoginFieldErrors(data: LoginData): seq<ValidationError> {
    CharFieldErrors("username", data.username, 0, None) + CharFieldErrors("password", data.password, 0, None)
  }

  /** `LoginSerializer.validate`: the lower-cased username must belong to a user. */
  function ValidateLogin(users: map<int, User>, data: LoginData): (r: Result<LoginData, ValidationError>)
    ensures r.Ok? <==> UsernameExists(users, Lower(data.username))
    ensures r.Ok? ==> r.value == data
    ensures r.Err? ==> r.error == ValidationError("username", "The username does not exist.")
  {
    if !UsernameExists(users, Lower(data.username)) then Err(ValidationError("username", "The username does not exist."))
    else Ok(data)
  }

  /** `is_valid()` of the login serializer: the field errors when there are any, else `validate`. */
  function LoginIsValid(users: map<int, User>, data: LoginData): (r: Result<LoginData, seq<ValidationError>>)
    ensures r.Ok? <==> 0 < |data.username| && 0 < |data.password| && UsernameExists(users, Lower(data.username))
    ensures r.Ok? ==> r.value == data
  {
    var fieldErrors := LoginFieldErrors(data);
    if fieldErrors != [] then Err(fieldErrors)
    else match ValidateLogin(users, data)
      case Ok(d) => Ok(d)
      case Err(e) => Err([e])
  }

  datatype SignupData = SignupData(username: string, email: string, password: string)

  /** The fields of the signup serializer: username and password of 6 to 20 characters, a non-blank
      email. */
  function SignupFieldErrors(data: SignupData): (errs: seq<ValidationError>)
    ensures errs == [] <==>
      6 <= |data.username| <= 20 && 0 < |data.email| && 6 <= |data.password| <= 20
  {
    CharFieldErrors("username", data.username, 6, Some(20))
    + CharFieldErrors("email", data.email, 0, None)
    + CharFieldErrors("password", data.password, 6, Some(20))
  }

  /** `SignupSerializer.validate`: a taken lower-cased username is refused before a taken lower-cased
      email is looked at. */
  function ValidateSignup(users: map<int, User>, data: SignupData): (r: Result<SignupData, ValidationError>)
    ensures r.Ok? <==> !UsernameExists(users, Lower(data.username)) && !EmailExists(users, Lower(data.email))
    ensures r.Ok? ==> r.value == data
    ensures UsernameExists(users, Lower(data.username)) ==>
      r == Err(ValidationError("username", "This username has been used."))
    ensures !UsernameExists(users, Lower(data.username)) && EmailExists(users, Lower(data.email)) ==>
      r == Err(ValidationError("email", "This email has been used."))
  {
    if UsernameExists(users, Lower(data.username)) then Err(ValidationError("username", "This username has been used."))
    else if EmailExists(users, Lower(data.email)) then Err(ValidationError("email", "This email has been used."))
    else Ok(data)
  }

  /** `is_valid()` of the signup serializer: the field errors when there are any, else `validate`. */
  function SignupIsValid(users: map<int, User>, data: SignupData): (r: Result<SignupData, seq<ValidationError>>)
    ensures r.Ok? <==> SignupFieldErrors(data) == [] && ValidateSignup(users, data).Ok?
    ensures r.Ok? ==> r.value == data
  {
    var fieldErrors := SignupFieldErrors(data);
    if fieldErrors != [] then Err(fieldErrors)
    else match ValidateSignup(users, data)
      case Ok(d) => Ok(d)
      case Err(e) => Err([e])
  }

  /** An accepted signup has a username and a password of 6 to 20 characters, and neither its
      lower-cased username nor its lower-cased email is taken. */
  lemma AcceptedSignupBounds(users: map<int, User>, data: SignupData)
    requires SignupIsValid(users, data).Ok?
    ensures 6 <= |data.username| <= 20 && 6 <= |data.password| <= 20
    ensures forall id :: id in users ==> users[id].username != Lower(data.username) && users[id].email != Lower(data.email)
  {
  }

  /** The row `create_user` stores: lower-cased username and email, the password as given. */
  function NewUser(data: SignupData): User {
    User(Lower(data.username), Lower(data.email), data.password)
  }

  /** `SignupSerializer.create`: inserts the user under a fresh id (the user's save hook invalidates
      its cache key), then reads `user.profile`, which get-or-creates the profile through the
      profile cache; only a stale cached profile for the new id could skip creating the row. */
  method CreateUser(db: Database, userCache: Cache<int, User>, profileCache: Cache<int, UserProfile>, data: SignupData)
    returns (userId: int)
    requires db.Valid()
    modifies db`users, db`nextId, db`profiles, userCache, profileCache
    ensures db.Valid()
    ensures userId !in old(db.users)
    ensures db.users == old(db.users)[userId := NewUser(data)]
    ensures userCache.entries == old(userCache.entries) - {userId}
    ensures userId !in old(profileCache.entries) ==> userId in db.profiles
    ensures ProfileCacheCoherent(old(profileCache.entries), old(db.profiles)) ==>
      ProfileCacheCoherent(profileCache.entries, db.profiles) && userId in db.profiles
  {
    userId := db.NewId();
    var user := User(Lower(data.username), Lower(data.email), data.password);
    db.users := db.users[userId := user];
    InvalidateUserCache(userCache, userId);
    var profile := GetProfileThroughMemcached(profileCache, db, userId);
  }

  /** After a signup, logging in with the username in any letter case passes validation. */
  lemma SignupThenLogin(users: map<int, User>, data: SignupData, userId: int, login: LoginData)
    requires Lower(login.username) == Lower(data.username)
    ensures ValidateLogin(users[userId := NewUser(data)], login).Ok?
  {
    var users' := users[userId := NewUser(data)];
    LowerIdempotent(data.username);
    assert users'[userId].username == Lower(login.username);
  }

  /** After a signup, a second signup whose username differs only in letter case is refused on the
      username. */
  lemma SignupTwiceRefused(users: map<int, User>, data: SignupData, userId: int, again: SignupData)
    requires Lower(again.username) == Lower(data.username)
    ensures ValidateSignup(users[userId := NewUser(data)], again) == Err(ValidationError("username", "This username has been used."))
  {
    var users' := users[userId := NewUser(data)];
    LowerIdempotent(data.username);
    assert users'[userId].username == Lower(again.username);
  }

  /** The profile after `UserProfileSerializerForUpdate.update`: a field is overwritten only when its
      new value is not None. */
  function UpdatedProfile(profile: UserProfile, nickname: Option<string>, avatar: Option<string>): (p: UserProfile)
    ensures p.nickname == (if nickname.Some? then nickname else profile.nickname)
    ensures p.avatar == (if avatar.Some? then avatar else profile.avatar)
  {
    var p := if avatar.Some? then profile.(avatar := avatar) else profile;
    if nickname.Some? then p.(nickname := nickname) else p
  }

  /** Sending the same update twice leaves what one update leaves, and an update with nothing in it
      changes nothing. */
  lemma UpdateIdempotent(profile: UserProfile, nickname: Option<string>, avatar: Option<string>)
    ensures UpdatedProfile(UpdatedProfile(profile, nickname, avatar), nickname, avatar) == UpdatedProfile(profile, nickname, avatar)
    ensures UpdatedProfile(profile, None, None) == profile
  {
  }

  /** `update` followed by the profile's save hook: the fields are assigned one by one, the row saved,
      and the user's profile key invalidated, which keeps the profile cache in step with the table. */
  method UpdateProfile(db: Database, profileCache: Cache<int, UserProfile>, userId: int, nickname: Option<string>, avatar: Option<string>)
    returns (instance: UserProfile)
    requires userId in db.profiles
    modifies db`profiles, profileCache
    ensures instance == UpdatedProfile(old(db.profiles[userId]), nickname, avatar)
    ensures db.profiles == old(db.profiles)[userId := instance]
    ensures profileCache.entries == old(profileCache.entries) - {userId}
    ensures ProfileCacheCoherent(old(profileCache.entries), old(db.profiles)) ==>
      ProfileCacheCoherent(profileCache.entries, db.profiles)
  {
    instance := db.profiles[userId];
    if avatar.Some? {
      instance := instance.(avatar := avatar);
    }
    if nickname.Some? {
      instance := instance.(nickname := nickname);
    }
    db.profiles := db.profiles[userId := instance];
    InvalidateProfileCache(profileCache, userId);
  }
}
