/** The user collection as the controllers and services see it: lookups by
 *  id and by email (`findUserById`, `findByEmail` in
 *  backend/models/BaseUser.js), `createUser`, `updateUser`
 *  (`findByIdAndUpdate` with validators), and `deleteProfilePhoto`
 *  (backend/models/User.js). Users are kept in the collection's natural
 *  (insertion) order, which is the order `find` returns them in. */
module UserStore {
  import opened Common
  import opened SwapRequestSchema
  import opened UserSchema

  /** The position of the user with id `id`. */
  function IndexById(users: seq<User>, id: UserId, from: nat := 0): (r: Option<nat>)
    ensures r.Some? ==> from <= r.value < |users| && users[r.value].id == id
    ensures r.Some? ==> forall j :: from <= j < r.value ==> users[j].id != id
    ensures r.None? ==> forall j :: from <= j < |users| ==> users[j].id != id
    decreases |users| - from
  {
    if from >= |users| then None
    else if users[from].id == id then Some(from)
    else IndexById(users, id, from + 1)
  }

  /** `findById(id)` on canonical id text. */
  function FindById(users: seq<User>, id: UserId): (r: Option<User>)
    ensures r.Some? <==> exists j :: 0 <= j < |users| && users[j].id == id
    ensures r.Some? ==> r.value in users && r.value.id == id
  {
    match IndexById(users, id)
    case None => None
    case Some(i) => Some(users[i])
  }

  /** The position of the user whose stored email is `email`. */
  function IndexByEmail(users: seq<User>, email: string, from: nat := 0): (r: Option<nat>)
    ensures r.Some? ==> from <= r.value < |users| && users[r.value].email == email
    ensures r.None? ==> forall j :: from <= j < |users| ==> users[j].email != email
    decreases |users| - from
  {
    if from >= |users| then None
    else if users[from].email == email then Some(from)
    else IndexByEmail(users, email, from + 1)
  }

  /** `findByEmail(email)`: `findOne({ email: email.toLowerCase() })`. When
   *  Mongoose casts the filter it also runs the `email` path's setters
   *  (lower-case, trim), so the stored value looked for is the normalised
   *  form of the lower-cased argument. */
  function FindByEmail(users: seq<User>, email: string): (r: Option<User>)
    ensures r.Some? ==> r.value in users
  {
    match IndexByEmail(users, NormaliseEmail(Lower(email)))
    case None => None
    case Some(i) => Some(users[i])
  }

  /** Looking a user up by any spelling of an email finds the user whose
   *  stored email is that email's normalised form, and nobody otherwise. */
  lemma FindByEmailNormalises(users: seq<User>, email: string)
    ensures FindByEmail(users, email).Some? <==> exists j :: 0 <= j < |users| && users[j].email == NormaliseEmail(email)
    ensures FindByEmail(users, email).Some? ==> FindByEmail(users, email).value.email == NormaliseEmail(email)
  {
    LowerIdempotent(email);
  }

  /** Stored users have distinct ids and (the unique index on `email`)
   *  distinct emails, and every id is an ObjectId. */
  ghost predicate Wellformed(users: seq<User>)
  {
    && (forall i :: 0 <= i < |users| ==> IsObjectId(users[i].id))
    && (forall i, j :: 0 <= i < j < |users| ==> users[i].id != users[j].id)
    && (forall i, j :: 0 <= i < j < |users| ==> users[i].email != users[j].email)
  }

  const DuplicateEmail := "E11000 duplicate key error collection: users index: email_1 dup key"

  /** `createUser(doc)`: validation, then the unique index on `email`. */
  function InsertOutcome(users: seq<User>, doc: UserDoc, id: UserId, v: Validators): (r: Result<User>)
    ensures r.Ok? ==> BuildUser(doc, id, v) == r && r.value.id == id && IndexByEmail(users, r.value.email).None?
    ensures r.Ok? <==> BuildUser(doc, id, v).Ok? && IndexByEmail(users, BuildUser(doc, id, v).value.email).None?
  {
    match BuildUser(doc, id, v)
    case Thrown(m) => Thrown(m)
    case Ok(u) => if IndexByEmail(users, u.email).Some? then Thrown(DuplicateEmail) else Ok(u)
  }

  /** The paths an update sets; `None` is a key whose value is `undefined`,
   *  which Mongoose strips from the update so the stored value stays. */
  datatype UserPatch = UserPatch(
    password: Option<string>,
    location: Option<string>,
    isPublic: Option<bool>,
    skillsOffered: Option<seq<string>>,
    skillsWanted: Option<seq<string>>,
    availability: Option<Availability>,
    profilePhoto: Option<Option<string>>)

  /** `findByIdAndUpdate(id, patch, { new: true, runValidators: true })` on
   *  one user: setters (trim on location and each skill) and then the
   *  validators of the set paths only (password present and at least 6
   *  characters, location non-empty, the photo validator). */
  function ApplyPatch(u: User, patch: UserPatch, v: Validators): (r: Result<User>)
    ensures r.Thrown? ==> r.message == UserValidationFailed
    ensures r.Ok? ==> (r.value.id == u.id && r.value.email == u.email && r.value.name == u.name
                       && r.value.petName == u.petName && r.value.isBanned == u.isBanned)
    ensures r.Ok? ==> r.value.password == (if patch.password.Some? then patch.password.value else u.password)
    ensures r.Ok? ==> r.value.availability == (if patch.availability.Some? then patch.availability.value else u.availability)
    ensures r.Ok? ==> r.value.profilePhoto == (if patch.profilePhoto.Some? then patch.profilePhoto.value else u.profilePhoto)
    ensures r.Ok? ==> r.value.isPublic == (if patch.isPublic.Some? then patch.isPublic.value else u.isPublic)
    ensures r.Ok? ==> r.value.location == (if patch.location.Some? then Trim(patch.location.value) else u.location)
    ensures r.Ok? ==> r.value.skillsOffered == (if patch.skillsOffered.Some? then TrimAll(patch.skillsOffered.value) else u.skillsOffered)
    ensures r.Ok? ==> r.value.skillsWanted == (if patch.skillsWanted.Some? then TrimAll(patch.skillsWanted.value) else u.skillsWanted)
    ensures r.Ok? <==>
      (patch.password.Some? ==> |patch.password.value| >= 6)
      && (patch.location.Some? ==> Trim(patch.location.value) != "")
      && (patch.profilePhoto.Some? ==> PhotoAccepted(patch.profilePhoto.value, v.urlProtocol))
  {
    var location := if patch.location.Some? then Some(Trim(patch.location.value)) else None;
    if (patch.password.Some? && |patch.password.value| < 6)
       || (location.Some? && location.value == "")
       || (patch.profilePhoto.Some? && !PhotoAccepted(patch.profilePhoto.value, v.urlProtocol))
    then Thrown(UserValidationFailed)
    else
      Ok(u.(
        password := if patch.password.Some? then patch.password.value else u.password,
        location := if location.Some? then location.value else u.location,
        isPublic := if patch.isPublic.Some? then patch.isPublic.value else u.isPublic,
        skillsOffered := if patch.skillsOffered.Some? then TrimAll(patch.skillsOffered.value) else u.skillsOffered,
        skillsWanted := if patch.skillsWanted.Some? then TrimAll(patch.skillsWanted.value) else u.skillsWanted,
        availability := if patch.availability.Some? then patch.availability.value else u.availability,
        profilePhoto := if patch.profilePhoto.Some? then patch.profilePhoto.value else u.profilePhoto))
  }

  lemma AppendWellformed(users: seq<User>, u: User)
    requires Wellformed(users) && IsObjectId(u.id)
    requires FindById(users, u.id).None? && IndexByEmail(users, u.email).None?
    ensures Wellformed(users + [u])
  {
    var all := users + [u];
    forall i, j | 0 <= i < j < |all| ensures all[i].id != all[j].id && all[i].email != all[j].email {
      if j == |users| {
        assert all[i] == users[i];
      }
    }
  }

  class Users {
    var all: seq<User>

    ghost predicate Valid()
      reads this
    {
      Wellformed(all)
    }

    constructor ()
      ensures Valid() && all == []
    {
      all := [];
    }

    /** `createUser(doc)` with the id MongoDB assigns to the new document. */
    method Create(doc: UserDoc, id: UserId, v: Validators) returns (r: Result<User>)
      requires Valid() && IsObjectId(id) && FindById(all, id).None?
      modifies this
      ensures Valid()
      ensures r == InsertOutcome(old(all), doc, id, v)
      ensures all == if r.Ok? then old(all) + [r.value] else old(all)
    {
      r := InsertOutcome(all, doc, id, v);
      if r.Ok? {
        AppendWellformed(all, r.value);
        all := all + [r.value];
      }
    }

    /** `updateUser(idText, patch)`: a CastError for malformed id text,
     *  `None` when no user has that id, a validation error, or the updated
     *  user, which replaces the old one in place. */
    method Update(idText: string, patch: UserPatch, v: Validators) returns (r: Result<Option<User>>)
      requires Valid()
      modifies this
      ensures Valid()
      ensures CastObjectId(idText).None? ==> r == Thrown(CastErrorMessage(idText)) && all == old(all)
      ensures CastObjectId(idText).Some? && FindById(old(all), CastObjectId(idText).value).None? ==>
        r == Ok(None) && all == old(all)
      ensures CastObjectId(idText).Some? && FindById(old(all), CastObjectId(idText).value).Some? ==>
        var i := IndexById(old(all), CastObjectId(idText).value).value;
        match ApplyPatch(old(all)[i], patch, v)
        case Thrown(m) => r == Thrown(m) && all == old(all)
        case Ok(u) => r == Ok(Some(u)) && all == old(all)[i := u]
    {
      var id := CastObjectId(idText);
      if id.None? {
        return Thrown(CastErrorMessage(idText));
      }
      var i := IndexById(all, id.value);
      if i.None? {
        return Ok(None);
      }
      var updated := ApplyPatch(all[i.value], patch, v);
      match updated
      case Thrown(m) =>
        r := Thrown(m);
      case Ok(u) =>
        all := all[i.value := u];
        r := Ok(Some(u));
    }

    /** `deleteProfilePhoto(userId)`: when the user exists and has a
     *  non-empty photo, the file it names is removed (the returned file name;
     *  the unlink itself is I/O) and the photo is set to null. Otherwise the
     *  store is untouched and no file name is returned. */
    method DeleteProfilePhoto(idText: string) returns (r: Result<Option<string>>)
      requires Valid()
      modifies this
      ensures Valid()
      ensures CastObjectId(idText).None? ==> r == Thrown(CastErrorMessage(idText)) && all == old(all)
      ensures CastObjectId(idText).Some? ==>
        var id := CastObjectId(idText).value;
        match IndexById(old(all), id)
        case None => r == Ok(None) && all == old(all)
        case Some(i) =>
          if Present(old(all)[i].profilePhoto) then
            r == Ok(Some(PhotoFilename(old(all)[i].profilePhoto.value)))
            && all == old(all)[i := old(all)[i].(profilePhoto := None)]
          else r == Ok(None) && all == old(all)
    {
      var id := CastObjectId(idText);
      if id.None? {
        return Thrown(CastErrorMessage(idText));
      }
      var i := IndexById(all, id.value);
      if i.None? || !Present(all[i.value].profilePhoto) {
        return Ok(None);
      }
      var user := all[i.value];
      var photo := user.profilePhoto.value;
      var filename := photo;
      if Includes(photo, UploadsMarker) {
        filename := PhotoFilename(photo);
      }
      user := user.(profilePhoto := None);
      all := all[i.value := user];
      r := Ok(Some(filename));
    }
  }
}
