/** The user schema: the BaseUser fields and constraints
 *  (backend/models/BaseUser.js) extended by the User discriminator's skill,
 *  visibility and availability fields and their defaults
 *  (backend/models/User.js), the profile-photo validator, `toJSON`, and the
 *  extraction of an uploaded photo's file name from its URL. */
module UserSchema {
  import opened Common

  datatype Availability = Availability(weekdays: bool, weekends: bool, custom: bool, customText: string)

  /** Each availability flag defaults to false and `customText` to ''. */
  const DefaultAvailability := Availability(false, false, false, "")

  /** A stored user. `password` holds the bcrypt hash; `profilePhoto` is
   *  `None` for null. */
  datatype User = User(
    id: UserId,
    name: string,
    email: string,
    password: string,
    location: string,
    petName: string,
    profilePhoto: Option<string>,
    skillsOffered: seq<string>,
    skillsWanted: seq<string>,
    isPublic: bool,
    isBanned: bool,
    availability: Availability)

  /** The field values a new user document is built from; `None` is a field
   *  left undefined. */
  datatype UserDoc = UserDoc(
    name: Option<string>,
    email: Option<string>,
    password: Option<string>,
    location: Option<string>,
    petName: Option<string>,
    profilePhoto: Option<string>,
    skillsOffered: Option<seq<string>>,
    skillsWanted: Option<seq<string>>,
    isPublic: Option<bool>,
    isBanned: Option<bool>,
    availability: Option<Availability>)

  /** The two checks the schema delegates to code outside the model: the
   *  email regular expression, and `new URL(v).protocol` (`None` when the
   *  URL constructor throws). */
  datatype Validators = Validators(emailPattern: string -> bool, urlProtocol: string -> Option<string>)

  const UserValidationFailed := "User validation failed"

  /** The `profilePhoto` validator: null and '' pass; a value starting with
   *  `http://localhost` or `https://localhost` passes; any other value passes
   *  only when it parses as a URL whose protocol is `http:` or `https:`. */
  predicate PhotoAccepted(v: Option<string>, urlProtocol: string -> Option<string>)
  {
    if v.None? || v.value == "" then true
    else if StartsWith(v.value, "http://localhost") || StartsWith(v.value, "https://localhost") then true
    else
      match urlProtocol(v.value)
      case None => false
      case Some(p) => p == "http:" || p == "https:"
  }

  /** `trim: true` on every element of a skill list; duplicates are kept. */
  function TrimAll(skills: seq<string>): (r: seq<string>)
    ensures |r| == |skills|
    ensures forall i :: 0 <= i < |skills| ==> r[i] == Trim(skills[i])
  {
    seq(|skills|, i requires 0 <= i < |skills| => Trim(skills[i]))
  }

  /** A stored skill list has no skill with white space at either end, and
   *  re-saving it (trimming again) changes nothing. */
  lemma TrimAllIdempotent(skills: seq<string>)
    ensures TrimAll(TrimAll(skills)) == TrimAll(skills)
    ensures forall t :: t in TrimAll(skills) ==> t == [] || (!IsSpace(t[0]) && !IsSpace(t[|t| - 1]))
  {
    forall i | 0 <= i < |skills| ensures Trim(Trim(skills[i])) == Trim(skills[i]) {
      TrimIdempotent(skills[i]);
    }
  }

  /** The stored form of an email: lower-cased, then trimmed. */
  function NormaliseEmail(email: string): string
  {
    Trim(Lower(email))
  }

  /** A string path marked `required`: set, and non-empty once its setters ran. */
  predicate RequiredString(v: Option<string>)
  {
    v.Some? && v.value != ""
  }

  /** Building a user document with id `id` and validating it: setters first
   *  (trim on name, location, petName and each skill; lower-case then trim
   *  on email), then defaults (`isPublic` true, `isBanned` false, empty skill
   *  lists, default availability, null photo), then the validators (the five
   *  required strings, a password of at least 6 characters, the email
   *  pattern, the photo validator). */
  function BuildUser(doc: UserDoc, id: UserId, v: Validators): (r: Result<User>)
    ensures r.Ok? ==> r.value.id == id
  {
    var name := if doc.name.Some? then Some(Trim(doc.name.value)) else None;
    var email := if doc.email.Some? then Some(NormaliseEmail(doc.email.value)) else None;
    var location := if doc.location.Some? then Some(Trim(doc.location.value)) else None;
    var petName := if doc.petName.Some? then Some(Trim(doc.petName.value)) else None;
    if !RequiredString(name) || !RequiredString(email) || !RequiredString(doc.password)
       || !RequiredString(location) || !RequiredString(petName)
       || |doc.password.value| < 6
       || !v.emailPattern(email.value)
       || !PhotoAccepted(doc.profilePhoto, v.urlProtocol)
    then Thrown(UserValidationFailed)
    else
      Ok(User(
        id, name.value, email.value, doc.password.value, location.value, petName.value,
        doc.profilePhoto,
        if doc.skillsOffered.Some? then TrimAll(doc.skillsOffered.value) else [],
        if doc.skillsWanted.Some? then TrimAll(doc.skillsWanted.value) else [],
        if doc.isPublic.Some? then doc.isPublic.value else true,
        if doc.isBanned.Some? then doc.isBanned.value else false,
        if doc.availability.Some? then doc.availability.value else DefaultAvailability))
  }

  /** When validation accepts a user document, and the error it raises otherwise. */
  lemma BuildUserValid(doc: UserDoc, id: UserId, v: Validators)
    ensures var r := BuildUser(doc, id, v);
      && (r.Ok? <==>
            doc.name.Some? && Trim(doc.name.value) != ""
            && doc.email.Some? && NormaliseEmail(doc.email.value) != "" && v.emailPattern(NormaliseEmail(doc.email.value))
            && doc.password.Some? && |doc.password.value| >= 6
            && doc.location.Some? && Trim(doc.location.value) != ""
            && doc.petName.Some? && Trim(doc.petName.value) != ""
            && PhotoAccepted(doc.profilePhoto, v.urlProtocol))
      && (r.Thrown? ==> r.message == UserValidationFailed)
  {
    var name := if doc.name.Some? then Some(Trim(doc.name.value)) else None;
    var email := if doc.email.Some? then Some(NormaliseEmail(doc.email.value)) else None;
    var location := if doc.location.Some? then Some(Trim(doc.location.value)) else None;
    var petName := if doc.petName.Some? then Some(Trim(doc.petName.value)) else None;
    assert RequiredString(name) <==> doc.name.Some? && Trim(doc.name.value) != "";
    assert RequiredString(email) <==> doc.email.Some? && NormaliseEmail(doc.email.value) != "";
    assert RequiredString(location) <==> doc.location.Some? && Trim(doc.location.value) != "";
    assert RequiredString(petName) <==> doc.petName.Some? && Trim(doc.petName.value) != "";
  }

  /** The fields of a saved user: the normalised email, the trimmed name,
   *  the password as given, and the required strings non-empty. */
  lemma BuildUserFields(doc: UserDoc, id: UserId, v: Validators)
    ensures var r := BuildUser(doc, id, v);
      r.Ok? ==>
        && r.value.id == id
        && r.value.email == NormaliseEmail(doc.email.value)
        && r.value.name == Trim(doc.name.value)
        && r.value.password == doc.password.value
        && |r.value.password| >= 6 && r.value.name != "" && r.value.location != "" && r.value.petName != ""
  {
  }

  /** The defaults: a document that leaves the User discriminator's fields
   *  unset is public, not banned, offers and wants nothing, has every
   *  availability flag off with empty custom text, and has no photo. */
  lemma BuildUserDefaults(doc: UserDoc, id: UserId, v: Validators)
    requires doc.isPublic.None? && doc.isBanned.None? && doc.availability.None?
    requires doc.skillsOffered.None? && doc.skillsWanted.None? && doc.profilePhoto.None?
    requires BuildUser(doc, id, v).Ok?
    ensures var u := BuildUser(doc, id, v).value;
      u.isPublic && !u.isBanned && u.skillsOffered == [] && u.skillsWanted == []
      && u.availability == Availability(false, false, false, "") && u.profilePhoto.None?
  {
  }

  /** Skills are trimmed one by one and never deduplicated. */
  lemma BuildUserKeepsSkills(doc: UserDoc, id: UserId, v: Validators)
    requires doc.skillsOffered.Some? && BuildUser(doc, id, v).Ok?
    ensures var u := BuildUser(doc, id, v).value;
      |u.skillsOffered| == |doc.skillsOffered.value|
      && forall i :: 0 <= i < |u.skillsOffered| ==> u.skillsOffered[i] == Trim(doc.skillsOffered.value[i])
  {
  }

  // ---------------------------------------------------------------------
  // toJSON

  /** The JSON values a user document is made of. */
  datatype Json = JStr(s: string) | JBool(b: bool) | JNull | JList(items: seq<Json>) | JObject(fields: map<string, Json>)

  function SkillsJson(skills: seq<string>): (r: Json)
    ensures r.JList? && |r.items| == |skills|
    ensures forall i :: 0 <= i < |skills| ==> r.items[i] == JStr(skills[i])
  {
    JList(seq(|skills|, i requires 0 <= i < |skills| => JStr(skills[i])))
  }

  function AvailabilityJson(a: Availability): Json
  {
    JObject(map["weekdays" := JBool(a.weekdays), "weekends" := JBool(a.weekends),
                "custom" := JBool(a.custom), "customText" := JStr(a.customText)])
  }

  /** `toObject()`: every path of the document, with the discriminator key `role`. */
  function ToObject(u: User): (r: map<string, Json>)
    ensures r.Keys == {"_id", "role", "name", "email", "password", "location", "petName", "profilePhoto",
                       "skillsOffered", "skillsWanted", "isPublic", "isBanned", "availability"}
    ensures r["_id"] == JStr(u.id) && r["name"] == JStr(u.name) && r["email"] == JStr(u.email)
    ensures r["location"] == JStr(u.location) && r["petName"] == JStr(u.petName)
    ensures r["profilePhoto"] == (if u.profilePhoto.Some? then JStr(u.profilePhoto.value) else JNull)
    ensures r["skillsOffered"] == SkillsJson(u.skillsOffered) && r["skillsWanted"] == SkillsJson(u.skillsWanted)
    ensures r["isPublic"] == JBool(u.isPublic) && r["isBanned"] == JBool(u.isBanned)
    ensures r["availability"] == AvailabilityJson(u.availability)
  {
    map[
      "_id" := JStr(u.id), "role" := JStr("User"),
      "name" := JStr(u.name), "email" := JStr(u.email), "password" := JStr(u.password),
      "location" := JStr(u.location), "petName" := JStr(u.petName),
      "profilePhoto" := (if u.profilePhoto.Some? then JStr(u.profilePhoto.value) else JNull),
      "skillsOffered" := SkillsJson(u.skillsOffered), "skillsWanted" := SkillsJson(u.skillsWanted),
      "isPublic" := JBool(u.isPublic), "isBanned" := JBool(u.isBanned),
      "availability" := AvailabilityJson(u.availability)]
  }

  /** `toJSON()`: a fresh `toObject()` copy with the `password` key deleted. */
  function ToJson(u: User): (r: map<string, Json>)
    ensures "password" !in r
    ensures r.Keys == ToObject(u).Keys - {"password"}
    ensures forall k :: k in r ==> r[k] == ToObject(u)[k]
  {
    var obj := ToObject(u);
    obj - {"password"}
  }

  lemma AvailabilityJsonInjective(a: Availability, b: Availability, same: bool)
    requires same == (AvailabilityJson(a) == AvailabilityJson(b))
    ensures same ==> a == b
  {
    if same {
      var fa, fb := AvailabilityJson(a).fields, AvailabilityJson(b).fields;
      assert fa["weekdays"] == fb["weekdays"] && fa["weekends"] == fb["weekends"];
      assert fa["custom"] == fb["custom"] && fa["customText"] == fb["customText"];
    }
  }

  lemma SkillsJsonInjective(a: seq<string>, b: seq<string>, same: bool)
    requires same == (SkillsJson(a) == SkillsJson(b))
    ensures same ==> a == b
  {
    if !same { return; }
    assert |a| == |b|;
    forall i | 0 <= i < |a| ensures a[i] == b[i] {
      assert SkillsJson(a).items[i] == JStr(a[i]);
      assert SkillsJson(b).items[i] == JStr(b[i]);
    }
  }

  /** Only the password is lost: two users with the same JSON differ at most
   *  in their password hash. */
  lemma ToJsonKeepsAllButPassword(u: User, w: User)
    requires ToJson(u) == ToJson(w)
    ensures u.(password := w.password) == w
  {
    var ou, ow := ToObject(u), ToObject(w);
    forall k | k in ou && k != "password" ensures ou[k] == ow[k] {
      assert ToJson(u)[k] == ToJson(w)[k];
    }
    assert ou["_id"] == ow["_id"] && ou["name"] == ow["name"] && ou["email"] == ow["email"];
    assert ou["location"] == ow["location"] && ou["petName"] == ow["petName"];
    assert ou["profilePhoto"] == ow["profilePhoto"];
    assert ou["isPublic"] == ow["isPublic"] && ou["isBanned"] == ow["isBanned"];
    AvailabilityJsonInjective(u.availability, w.availability, ou["availability"] == ow["availability"]);
    SkillsJsonInjective(u.skillsOffered, w.skillsOffered, ou["skillsOffered"] == ow["skillsOffered"]);
    SkillsJsonInjective(u.skillsWanted, w.skillsWanted, ou["skillsWanted"] == ow["skillsWanted"]);
  }

  // ---------------------------------------------------------------------
  // The file name of an uploaded photo

  const UploadsMarker := "/uploads/"

  /** The URL under which an uploaded file is served: `${baseUrl}/uploads/${filename}`. */
  function PhotoUrl(baseUrl: string, filename: string): string
  {
    baseUrl + UploadsMarker + filename
  }

  lemma {:induction false} NoOccurrenceInPrefix(s: string, sub: string, j: nat)
    requires j <= |s| && |sub| > 0
    requires forall k :: 0 <= k < j ==> !OccursAt(s, sub, k)
    ensures !Includes(s[..j], sub)
  {
    IncludesIff(s[..j], sub);
    if Includes(s[..j], sub) {
      var k: nat :| OccursAt(s[..j], sub, k);
      assert s[..j][k..k + |sub|] == s[k..k + |sub|];
      assert OccursAt(s, sub, k);
    }
  }

  lemma OccursInSuffix(s: string, sub: string, from: nat, k: nat)
    requires from <= |s|
    ensures OccursAt(s[from..], sub, k) <==> OccursAt(s, sub, from + k)
  {
    if from + k + |sub| <= |s| {
      assert s[from..][k..k + |sub|] == s[from + k..from + k + |sub|];
    }
  }

  /** The file name `deleteProfilePhoto` removes: when the value includes
   *  `/uploads/`, the second piece of `split('/uploads/')`, which runs from
   *  just after the first occurrence up to the next occurrence at or after
   *  that point, or to the end; otherwise the whole value. */
  function PhotoFilename(photo: string): (r: string)
    ensures !Includes(photo, UploadsMarker) ==> r == photo
    ensures Includes(photo, UploadsMarker) ==> !Includes(r, UploadsMarker)
    ensures Includes(photo, UploadsMarker) ==>
      var start := IndexOf(photo, UploadsMarker, 0).value + |UploadsMarker|;
      && start + |r| <= |photo| && photo[start..start + |r|] == r
      && (start + |r| == |photo| || OccursAt(photo, UploadsMarker, start + |r|))
      && forall k :: start <= k < start + |r| ==> !OccursAt(photo, UploadsMarker, k)
  {
    match IndexOf(photo, UploadsMarker, 0)
    case None => photo
    case Some(i) =>
      var start := i + |UploadsMarker|;
      var rest := photo[start..];
      match IndexOf(rest, UploadsMarker, 0)
      case None =>
        forall k | start <= k ensures !OccursAt(photo, UploadsMarker, k) {
          OccursInSuffix(photo, UploadsMarker, start, k - start);
        }
        assert photo[start..start + |rest|] == rest;
        rest
      case Some(j) =>
        NoOccurrenceInPrefix(rest, UploadsMarker, j);
        OccursInSuffix(photo, UploadsMarker, start, j);
        forall k | start <= k < start + j ensures !OccursAt(photo, UploadsMarker, k) {
          OccursInSuffix(photo, UploadsMarker, start, k - start);
        }
        assert rest[..j] == photo[start..start + j];
        rest[..j]
  }

  lemma IndexOfAt(s: string, sub: string, k: nat)
    requires OccursAt(s, sub, k)
    requires forall m :: 0 <= m < k ==> !OccursAt(s, sub, m)
    ensures IndexOf(s, sub, 0) == Some(k)
  {
  }

  /** Round trip with the URL that registration and profile update store:
   *  when the marker first occurs where it was appended and the file name
   *  has none, the extracted name is the uploaded file's name. */
  lemma {:induction false} PhotoFilenameOfUrl(baseUrl: string, filename: string)
    requires IndexOf(baseUrl + UploadsMarker, UploadsMarker, 0) == Some(|baseUrl|)
    requires !Includes(filename, UploadsMarker)
    ensures PhotoFilename(PhotoUrl(baseUrl, filename)) == filename
  {
    var head := baseUrl + UploadsMarker;
    var url := PhotoUrl(baseUrl, filename);
    assert url == head + filename;
    forall m | 0 <= m < |baseUrl| ensures !OccursAt(url, UploadsMarker, m) {
      assert !OccursAt(head, UploadsMarker, m);
      if m + |UploadsMarker| <= |url| {
        assert url[m..m + |UploadsMarker|] == head[m..m + |UploadsMarker|];
      }
    }
    assert url[|baseUrl|..|baseUrl| + |UploadsMarker|] == UploadsMarker;
    IndexOfAt(url, UploadsMarker, |baseUrl|);
    assert url[|baseUrl| + |UploadsMarker|..] == filename;
  }
}
