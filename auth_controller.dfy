/** The account handlers (backend/controllers/authController.js): register,
 *  login, forgot-password, reset-password and profile update. Each runs its
 *  field checks in a fixed order, returning at the first failure; register,
 *  reset-password and profile update then build a record and write it to
 *  the user collection. */
module AuthController {
  import opened Common
  import opened UserSchema
  import opened UserStore

  /** A boolean form field as it may arrive: absent, as multipart text, or
   *  as a JSON boolean. */
  datatype Flag = Absent | Text(s: string) | Boolean(b: bool)

  /** `isPublic === 'true' || isPublic === true` */
  predicate FlagIsTrue(f: Flag)
  {
    f == Text("true") || f == Boolean(true)
  }

  /** The calls the handlers make into libraries outside the model:
   *  `bcrypt.hash(password, 12)`, `JSON.parse` of the availability field
   *  (`None` when it throws), and the schema's own validators. */
  datatype Environment = Environment(
    hash: string -> string,
    parseAvailability: string -> Option<Availability>,
    validators: Validators)

  /** `${req.protocol}://${req.get('host')}/uploads/${filename}` for an
   *  uploaded file, given the request's base URL. */
  function UploadedPhotoUrl(upload: Option<string>, baseUrl: string): Option<string>
  {
    if upload.Some? then Some(PhotoUrl(baseUrl, upload.value)) else None
  }

  // ---------------------------------------------------------------------
  // register

  datatype RegisterForm = RegisterForm(
    name: Option<string>,
    email: Option<string>,
    password: Option<string>,
    confirmPassword: Option<string>,
    petName: Option<string>,
    skillsOffered: Option<seq<string>>,
    skillsWanted: Option<seq<string>>,
    location: Option<string>,
    isPublic: Flag,
    availability: Option<string>)

  const AllFieldsRequired := "All fields are required"
  const PasswordsDiffer := "Passwords do not match"
  const PasswordTooShort := "Password must be at least 6 characters long"
  const EmailTaken := "User with this email already exists"
  const RegistrationFailed := "Registration failed"

  /** The checks `register` makes before it writes anything. */
  function RegisterCheck(users: seq<User>, f: RegisterForm): (r: Option<Reply<map<string, Json>>>)
    ensures r.Some? ==> r.value.Refuse? && r.value.status == 400
    ensures r.None? ==> Present(f.email) && Present(f.password) && f.password == f.confirmPassword
                        && |f.password.value| >= 6 && FindByEmail(users, f.email.value).None?
  {
    if !Present(f.name) || !Present(f.email) || !Present(f.password) || !Present(f.confirmPassword) || !Present(f.petName) then
      Some(Refuse(400, AllFieldsRequired))
    else if f.password.value != f.confirmPassword.value then Some(Refuse(400, PasswordsDiffer))
    else if |f.password.value| < 6 then Some(Refuse(400, PasswordTooShort))
    else if FindByEmail(users, f.email.value).Some? then Some(Refuse(400, EmailTaken))
    else None
  }

  /** Register fails in this order, the first failure winning: a missing
   *  name, email, password, confirmation or pet name; a confirmation that
   *  differs; a password shorter than 6; an email already registered. It
   *  passes exactly when none of these holds. */
  lemma RegisterCheckOrder(users: seq<User>, f: RegisterForm)
    ensures var r := RegisterCheck(users, f);
      var allPresent := Present(f.name) && Present(f.email) && Present(f.password) && Present(f.confirmPassword) && Present(f.petName);
      && (!allPresent ==> r == Some(Refuse(400, AllFieldsRequired)))
      && (allPresent && f.password.value != f.confirmPassword.value ==> r == Some(Refuse(400, PasswordsDiffer)))
      && (allPresent && f.password.value == f.confirmPassword.value && |f.password.value| < 6 ==> r == Some(Refuse(400, PasswordTooShort)))
      && ((allPresent && f.password.value == f.confirmPassword.value && |f.password.value| >= 6
           && FindByEmail(users, f.email.value).Some?) ==> r == Some(Refuse(400, EmailTaken)))
      && (r.None? <==> allPresent && f.password.value == f.confirmPassword.value && |f.password.value| >= 6
                       && FindByEmail(users, f.email.value).None?)
  {
  }

  /** The availability `register` stores: the parsed field when it is
   *  truthy (`None` when `JSON.parse` throws), else all flags off with ''. */
  function RegisterAvailability(f: RegisterForm, env: Environment): Option<Availability>
  {
    if Present(f.availability) then env.parseAvailability(f.availability.value)
    else Some(Availability(false, false, false, ""))
  }

  /** The `userData` record `register` passes to `createUser`. */
  function RegisterDoc(f: RegisterForm, photo: Option<string>, availability: Availability, hashed: string): UserDoc
  {
    UserDoc(
      f.name, f.email, Some(hashed), f.location, f.petName, photo,
      Some(if f.skillsOffered.Some? then f.skillsOffered.value else []),
      Some(if f.skillsWanted.Some? then f.skillsWanted.value else []),
      Some(FlagIsTrue(f.isPublic)),
      None,
      Some(availability))
  }

  /** A registered user is public exactly when the form said `'true'` or
   *  `true`: an absent flag overrides the schema's default and makes the
   *  profile private. Missing skills become empty lists, never banned. */
  lemma RegisterDocFields(f: RegisterForm, photo: Option<string>, a: Availability, hashed: string, id: UserId, v: Validators)
    requires BuildUser(RegisterDoc(f, photo, a, hashed), id, v).Ok?
    ensures var u := BuildUser(RegisterDoc(f, photo, a, hashed), id, v).value;
      && (u.isPublic <==> f.isPublic == Text("true") || f.isPublic == Boolean(true))
      && (f.skillsOffered.None? ==> u.skillsOffered == [])
      && (f.skillsWanted.None? ==> u.skillsWanted == [])
      && !u.isBanned && u.availability == a && u.password == hashed && u.profilePhoto == photo
  {
  }

  /** `register`: the checks, the hash, the photo URL and availability, and
   *  the insert; any error after the checks answers 500. */
  method Register(store: Users, f: RegisterForm, upload: Option<string>, baseUrl: string, env: Environment, newId: UserId)
    returns (reply: Reply<map<string, Json>>)
    requires store.Valid() && IsObjectId(newId) && FindById(store.all, newId).None?
    modifies store
    ensures store.Valid()
    ensures RegisterCheck(old(store.all), f).Some? ==>
      reply == RegisterCheck(old(store.all), f).value && store.all == old(store.all)
    ensures RegisterCheck(old(store.all), f).None? && RegisterAvailability(f, env).None? ==>
      reply == Refuse(500, RegistrationFailed) && store.all == old(store.all)
    ensures RegisterCheck(old(store.all), f).None? && RegisterAvailability(f, env).Some? ==>
      var doc := RegisterDoc(f, UploadedPhotoUrl(upload, baseUrl), RegisterAvailability(f, env).value, env.hash(f.password.value));
      match InsertOutcome(old(store.all), doc, newId, env.validators)
      case Thrown(_) => reply == Refuse(500, RegistrationFailed) && store.all == old(store.all)
      case Ok(u) => reply == Send(201, ToJson(u)) && store.all == old(store.all) + [u]
  {
    var refused := RegisterCheck(store.all, f);
    if refused.Some? {
      return refused.value;
    }
    var hashedPassword := env.hash(f.password.value);
    var profilePhotoPath: Option<string> := None;
    if upload.Some? {
      profilePhotoPath := Some(PhotoUrl(baseUrl, upload.value));
    }
    var availability := RegisterAvailability(f, env);
    if availability.None? {
      return Refuse(500, RegistrationFailed);
    }
    var userData := RegisterDoc(f, profilePhotoPath, availability.value, hashedPassword);
    var created := store.Create(userData, newId, env.validators);
    if created.Thrown? {
      return Refuse(500, RegistrationFailed);
    }
    reply := Send(201, ToJson(created.value));
  }

  // ---------------------------------------------------------------------
  // login

  datatype LoginForm = LoginForm(email: Option<string>, password: Option<string>)

  const CredentialsRequired := "Email and password are required"
  const BadCredentials := "Invalid email or password"

  /** `login` as written: the password comparison is commented out, so any
   *  non-empty password logs in to an existing account. */
  function Login(users: seq<User>, f: LoginForm): (r: Reply<map<string, Json>>)
    ensures r.Send? ==> r.status == 200 && Present(f.email) && FindByEmail(users, f.email.value).Some?
                        && "password" !in r.payload
    ensures r.Refuse? ==> r.status == 400
  {
    if !Present(f.email) || !Present(f.password) then Refuse(400, CredentialsRequired)
    else
      match FindByEmail(users, f.email.value)
      case None => Refuse(400, BadCredentials)
      case Some(u) => Send(200, ToJson(u))
  }

  /** Login succeeds exactly when both fields are given and the email is
   *  registered; the password given plays no part. */
  lemma LoginIgnoresPassword(users: seq<User>, email: string, p1: string, p2: string)
    requires p1 != "" && p2 != ""
    ensures Login(users, LoginForm(Some(email), Some(p1))) == Login(users, LoginForm(Some(email), Some(p2)))
    ensures Login(users, LoginForm(Some(email), Some(p1))).Send? <==> email != "" && FindByEmail(users, email).Some?
  {
  }

  /** A concrete input: a stored user, a verifier that rejects every
   *  password, and still a successful login. */
  lemma LoginAcceptsWrongPassword()
    ensures var u := User("000000000000000000000001", "Ann", "ann@x.io", "hash", "Pune", "Rex", None, [], [], true, false,
                          Availability(false, false, false, ""));
      var compare := (given: string, stored: string) => false;
      && Login([u], LoginForm(Some("ann@x.io"), Some("wrong!"))).Send?
      && !compare("wrong!", u.password)
      && LoginVerified([u], LoginForm(Some("ann@x.io"), Some("wrong!")), compare) == Refuse(400, BadCredentials)
  {
    var u := User("000000000000000000000001", "Ann", "ann@x.io", "hash", "Pune", "Rex", None, [], [], true, false,
                  Availability(false, false, false, ""));
    assert Lower("ann@x.io") == "ann@x.io";
    TrimStartFixed("ann@x.io");
    TrimEndFixed("ann@x.io");
    assert NormaliseEmail(Lower("ann@x.io")) == "ann@x.io";
    assert IndexByEmail([u], "ann@x.io") == Some(0);
  }

  /** `login` with the password check restored: `bcrypt.compare(password,
   *  user.password)` must succeed, else the same 400 as an unknown email. */
  function LoginVerified(users: seq<User>, f: LoginForm, compare: (string, string) -> bool): (r: Reply<map<string, Json>>)
    ensures r.Send? ==> (Present(f.email) && Present(f.password) && FindByEmail(users, f.email.value).Some?
      && compare(f.password.value, FindByEmail(users, f.email.value).value.password)
      && r == Send(200, ToJson(FindByEmail(users, f.email.value).value)))
    ensures (Present(f.email) && Present(f.password) && FindByEmail(users, f.email.value).Some?
      && !compare(f.password.value, FindByEmail(users, f.email.value).value.password)) ==> r == Refuse(400, BadCredentials)
  {
    if !Present(f.email) || !Present(f.password) then Refuse(400, CredentialsRequired)
    else
      match FindByEmail(users, f.email.value)
      case None => Refuse(400, BadCredentials)
      case Some(u) => if compare(f.password.value, u.password) then Send(200, ToJson(u)) else Refuse(400, BadCredentials)
  }

  /** The reply sent on a successful login never carries the password hash. */
  lemma LoginHidesPassword(users: seq<User>, f: LoginForm, compare: (string, string) -> bool)
    ensures Login(users, f).Send? ==> "password" !in Login(users, f).payload
    ensures LoginVerified(users, f, compare).Send? ==> "password" !in LoginVerified(users, f, compare).payload
  {
  }

  // ---------------------------------------------------------------------
  // forgot-password

  const EmailAndPetRequired := "Email and pet name are required"
  const NoAccount := "No account found with this email address. Please check your email or register a new account."
  const PetMismatch := "The pet name you entered does not match our records. Please try again."
  const PetVerified := "Pet name verified successfully"

  /** `forgotPassword`: the answer is the `message` of the reply. */
  function ForgotPassword(users: seq<User>, email: Option<string>, petName: Option<string>): (r: Reply<string>)
    ensures r.Send? ==> r == Send(200, PetVerified)
    ensures r.Refuse? ==> r.status == 400
  {
    if !Present(email) || !Present(petName) then Refuse(400, EmailAndPetRequired)
    else
      match FindByEmail(users, email.value)
      case None => Refuse(400, NoAccount)
      case Some(u) => if u.petName != petName.value then Refuse(400, PetMismatch) else Send(200, PetVerified)
  }

  /** Forgot-password succeeds exactly when both fields are given, the email
   *  is registered, and the pet name equals the stored one character for
   *  character. */
  lemma ForgotPasswordIff(users: seq<User>, email: Option<string>, petName: Option<string>)
    ensures ForgotPassword(users, email, petName).Send? <==>
      Present(email) && Present(petName) && FindByEmail(users, email.value).Some?
      && FindByEmail(users, email.value).value.petName == petName.value
  {
  }

  // ---------------------------------------------------------------------
  // reset-password

  datatype ResetForm = ResetForm(email: Option<string>, petName: Option<string>, newPassword: Option<string>, confirmPassword: Option<string>)

  const UnknownUser := "User not found"
  const InvalidPet := "Invalid pet name"
  const ResetDone := "Password reset successfully"
  const ResetFailed := "Password reset failed"

  /** The checks `resetPassword` makes before it writes anything. */
  function ResetCheck(users: seq<User>, f: ResetForm): (r: Option<Reply<string>>)
    ensures r.None? ==> Present(f.email) && FindByEmail(users, f.email.value).Some? && Present(f.newPassword)
    ensures r.Some? ==> r.value.Refuse? && r.value.status == 400
  {
    if !Present(f.email) || !Present(f.petName) || !Present(f.newPassword) || !Present(f.confirmPassword) then
      Some(Refuse(400, AllFieldsRequired))
    else if f.newPassword.value != f.confirmPassword.value then Some(Refuse(400, PasswordsDiffer))
    else if |f.newPassword.value| < 6 then Some(Refuse(400, PasswordTooShort))
    else
      match FindByEmail(users, f.email.value)
      case None => Some(Refuse(400, UnknownUser))
      case Some(u) => if u.petName != f.petName.value then Some(Refuse(400, InvalidPet)) else None
  }

  /** Reset fails in this order: a missing field, differing passwords, a
   *  password shorter than 6, an unknown email, a pet name that does not
   *  match; it passes exactly when none of these holds. */
  lemma ResetCheckOrder(users: seq<User>, f: ResetForm)
    ensures var r := ResetCheck(users, f);
      var allPresent := Present(f.email) && Present(f.petName) && Present(f.newPassword) && Present(f.confirmPassword);
      && (!allPresent ==> r == Some(Refuse(400, AllFieldsRequired)))
      && (allPresent && f.newPassword.value != f.confirmPassword.value ==> r == Some(Refuse(400, PasswordsDiffer)))
      && ((allPresent && f.newPassword.value == f.confirmPassword.value && |f.newPassword.value| < 6)
            ==> r == Some(Refuse(400, PasswordTooShort)))
      && ((allPresent && f.newPassword.value == f.confirmPassword.value && |f.newPassword.value| >= 6
            && FindByEmail(users, f.email.value).None?) ==> r == Some(Refuse(400, UnknownUser)))
      && (r.None? <==> (allPresent && f.newPassword.value == f.confirmPassword.value && |f.newPassword.value| >= 6
            && FindByEmail(users, f.email.value).Some? && FindByEmail(users, f.email.value).value.petName == f.petName.value))
  {
  }

  lemma FoundIsIndexed(users: seq<User>, u: User)
    requires Wellformed(users) && u in users
    ensures IndexById(users, u.id).Some? && users[IndexById(users, u.id).value] == u
  {
    var k :| 0 <= k < |users| && users[k] == u;
    assert IndexById(users, u.id).Some?;
  }

  /** `resetPassword`: after the checks, the matched user's password becomes
   *  the hash of the new one and nothing else changes; only then. */
  method ResetPassword(store: Users, f: ResetForm, env: Environment) returns (reply: Reply<string>)
    requires store.Valid()
    modifies store
    ensures store.Valid()
    ensures ResetCheck(old(store.all), f).Some? ==> reply == ResetCheck(old(store.all), f).value && store.all == old(store.all)
    ensures ResetCheck(old(store.all), f).None? ==>
      var u := FindByEmail(old(store.all), f.email.value).value;
      var i := IndexById(old(store.all), u.id).value;
      var hashed := env.hash(f.newPassword.value);
      i < |old(store.all)| && old(store.all)[i] == u &&
      if |hashed| >= 6 then reply == Send(200, ResetDone) && store.all == old(store.all)[i := u.(password := hashed)]
      else reply == Refuse(500, ResetFailed) && store.all == old(store.all)
  {
    var refused := ResetCheck(store.all, f);
    if refused.Some? {
      return refused.value;
    }
    var user := FindByEmail(store.all, f.email.value).value;
    FoundIsIndexed(store.all, user);
    assert IsObjectId(user.id);
    var hashedPassword := env.hash(f.newPassword.value);
    var patch := UserPatch(Some(hashedPassword), None, None, None, None, None, None);
    assert ApplyPatch(user, patch, env.validators) == if |hashedPassword| >= 6 then Ok(user.(password := hashedPassword)) else Thrown(UserValidationFailed);
    var updated := store.Update(user.id, patch, env.validators);
    if updated.Thrown? {
      return Refuse(500, ResetFailed);
    }
    reply := Send(200, ResetDone);
  }

  // ---------------------------------------------------------------------
  // profile update

  /** The body fields `updateProfile` reads (`name` is read and then never used). */
  datatype ProfileForm = ProfileForm(
    name: Option<string>,
    location: Option<string>,
    isPublic: Flag,
    skillsOffered: Option<seq<string>>,
    skillsWanted: Option<seq<string>>,
    availability: Option<string>)

  const ProfileUserNotFound := "User not found"
  const ProfileUpdateFailed := "Profile update failed"

  /** The `updateData` record: the location as given (an undefined one is
   *  dropped from the update), `isPublic` true only for `'true'`/`true`,
   *  skills as given or `[]`, the given availability or the stored one, and
   *  the new photo's URL or the stored photo. */
  function ProfilePatch(u: User, f: ProfileForm, upload: Option<string>, baseUrl: string, availability: Availability)
    : (p: UserPatch)
    ensures p.password.None? && p.location == f.location && p.availability == Some(availability)
    ensures p.isPublic.Some? && p.skillsOffered.Some? && p.skillsWanted.Some? && p.profilePhoto.Some?
    ensures upload.None? ==> p.profilePhoto == Some(u.profilePhoto)
  {
    UserPatch(
      None,
      f.location,
      Some(FlagIsTrue(f.isPublic)),
      Some(if f.skillsOffered.Some? then f.skillsOffered.value else []),
      Some(if f.skillsWanted.Some? then f.skillsWanted.value else []),
      Some(availability),
      Some(if upload.Some? then UploadedPhotoUrl(upload, baseUrl) else u.profilePhoto))
  }

  /** The availability `updateProfile` stores: the parsed field when it is
   *  truthy (`None` when `JSON.parse` throws), else the stored one. */
  function ProfileAvailability(u: User, f: ProfileForm, env: Environment): Option<Availability>
  {
    if Present(f.availability) then env.parseAvailability(f.availability.value) else Some(u.availability)
  }

  /** What a profile update keeps and what it resets: without a new file the
   *  photo is kept, without an availability field the stored availability is
   *  kept, absent skills become `[]`, an absent flag makes the profile
   *  private, and name, email, password and ban flag never change. */
  lemma ProfilePatchEffect(u: User, f: ProfileForm, upload: Option<string>, baseUrl: string, env: Environment)
    requires ProfileAvailability(u, f, env).Some?
    requires ApplyPatch(u, ProfilePatch(u, f, upload, baseUrl, ProfileAvailability(u, f, env).value), env.validators).Ok?
    ensures var w := ApplyPatch(u, ProfilePatch(u, f, upload, baseUrl, ProfileAvailability(u, f, env).value), env.validators).value;
      && (upload.None? ==> w.profilePhoto == u.profilePhoto)
      && (upload.Some? ==> w.profilePhoto == Some(PhotoUrl(baseUrl, upload.value)))
      && (!Present(f.availability) ==> w.availability == u.availability)
      && (f.skillsOffered.None? ==> w.skillsOffered == [])
      && (f.skillsWanted.None? ==> w.skillsWanted == [])
      && (f.location.None? ==> w.location == u.location)
      && (w.isPublic <==> FlagIsTrue(f.isPublic))
      && w.id == u.id && w.name == u.name && w.email == u.email && w.password == u.password && w.isBanned == u.isBanned
  {
  }

  /** `updateProfile(userIdText)`: a CastError from the lookup answers 500,
   *  an unknown id 404, a failed parse or validation 500; otherwise the
   *  user is replaced by the updated one, which is sent without its
   *  password. */
  method UpdateProfile(store: Users, idText: string, f: ProfileForm, upload: Option<string>, baseUrl: string, env: Environment)
    returns (reply: Reply<map<string, Json>>)
    requires store.Valid()
    modifies store
    ensures store.Valid()
    ensures CastObjectId(idText).None? ==> reply == Refuse(500, ProfileUpdateFailed) && store.all == old(store.all)
    ensures CastObjectId(idText).Some? && FindById(old(store.all), CastObjectId(idText).value).None? ==>
      reply == Refuse(404, ProfileUserNotFound) && store.all == old(store.all)
    ensures CastObjectId(idText).Some? && FindById(old(store.all), CastObjectId(idText).value).Some? ==>
      var i := IndexById(old(store.all), CastObjectId(idText).value).value;
      var u := old(store.all)[i];
      match ProfileAvailability(u, f, env)
      case None => reply == Refuse(500, ProfileUpdateFailed) && store.all == old(store.all)
      case Some(a) =>
        match ApplyPatch(u, ProfilePatch(u, f, upload, baseUrl, a), env.validators)
        case Thrown(_) => reply == Refuse(500, ProfileUpdateFailed) && store.all == old(store.all)
        case Ok(w) => reply == Send(200, ToJson(w)) && store.all == old(store.all)[i := w]
  {
    var id := CastObjectId(idText);
    if id.None? {
      return Refuse(500, ProfileUpdateFailed);
    }
    var found := FindById(store.all, id.value);
    if found.None? {
      return Refuse(404, ProfileUserNotFound);
    }
    var user := found.value;
    var profilePhotoPath := user.profilePhoto;
    if upload.Some? {
      profilePhotoPath := Some(PhotoUrl(baseUrl, upload.value));
    }
    var availability := ProfileAvailability(user, f, env);
    if availability.None? {
      return Refuse(500, ProfileUpdateFailed);
    }
    var updateData := ProfilePatch(user, f, upload, baseUrl, availability.value);
    assert updateData.profilePhoto == Some(profilePhotoPath);
    var updated := store.Update(idText, updateData, env.validators);
    if updated.Thrown? || updated.value.None? {
      return Refuse(500, ProfileUpdateFailed);
    }
    reply := Send(200, ToJson(updated.value.value));
  }
}
