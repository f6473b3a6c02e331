/**
 * The user service: profile updates (salutation check, then a patch of the
 * fields the client sent) and avatar uploads (file name from the user id, a
 * timestamp and the uploaded file's extension). The user table is a map
 * from id to record; the database's `update` is `ApplyPatch` on it.
 */
module UserService {
  import opened Wrappers
  import opened Strings

  datatype User = User(
    id: string,
    name: string,
    firstname: string,
    lastname: string,
    email: string,
    emailVerified: bool,
    image: Option<string>,
    salutation: Option<string>)

  /** The body of a profile update: `None` is a field the client did not send. */
  datatype ProfileUpdate = ProfileUpdate(
    salutation: Option<string>,
    firstname: Option<string>,
    lastname: Option<string>,
    email: Option<string>)

  datatype Field = SalutationField | FirstnameField | LastnameField | EmailField

  /** The `data` object of a database update: a field maps to its new value, `None` standing for `null`. */
  type Patch = map<Field, Option<string>>

  /** Only the salutation may be set to `null`. */
  predicate WellFormedPatch(p: Patch) {
    forall f :: f in p && f != SalutationField ==> p[f].Some?
  }

  /** What the profile endpoint returns: six fields of the updated user. */
  datatype Profile = Profile(
    id: string,
    firstname: string,
    lastname: string,
    email: string,
    image: Option<string>,
    salutation: Option<string>)

  datatype AvatarResult = AvatarResult(image: string)

  /** An uploaded file as the upload middleware hands it over (the bytes are not modelled). */
  datatype UploadedFile = UploadedFile(originalname: string, mimetype: string, size: nat)

  datatype ServiceError =
    | InvalidSalutation  // thrown by the service itself
    | UserNotFound       // thrown by the database when no user has the id

  const Salutations: seq<string> := ["Mr", "Ms", "Mrs"]

  /** A salutation the service refuses: sent, not empty, and not one of the three accepted. */
  predicate RejectsSalutation(data: ProfileUpdate) {
    data.salutation.Some? && data.salutation.value != "" && data.salutation.value !in Salutations
  }

  // ---------------------------------------------------------------------
  // Profile update

  /** The value the client sent for `f`. */
  function Sent(data: ProfileUpdate, f: Field): Option<string> {
    match f
    case SalutationField => data.salutation
    case FirstnameField => data.firstname
    case LastnameField => data.lastname
    case EmailField => data.email
  }

  /**
   * The update the service asks for: exactly the fields that were sent,
   * copied as they are, except that an empty salutation becomes `null`.
   */
  function ProfilePatch(data: ProfileUpdate): (p: Patch)
    ensures WellFormedPatch(p)
    ensures forall f :: f in p <==> Sent(data, f).Some?
    ensures forall f :: f in p && f != SalutationField ==> p[f] == Sent(data, f)
    ensures SalutationField in p ==> p[SalutationField] == if data.salutation == Some("") then None else data.salutation
  {
    var fields := {SalutationField, FirstnameField, LastnameField, EmailField};
    map f | f in fields && Sent(data, f).Some? ::
      if f == SalutationField && Sent(data, f).value == "" then None else Sent(data, f)
  }

  /** `updateProfile` lines building `updateData`: check the salutation, then copy field by field. */
  method BuildProfilePatch(data: ProfileUpdate) returns (r: Result<Patch, ServiceError>)
    ensures r.Err? <==> RejectsSalutation(data)
    ensures r.Err? ==> r.error == InvalidSalutation
    ensures r.Ok? ==> r.value == ProfilePatch(data)
  {
    var updateData: Patch := map[];
    if data.salutation.Some? {
      if data.salutation.value != "" && data.salutation.value !in Salutations {
        return Err(InvalidSalutation);
      }
      updateData := updateData[SalutationField := if data.salutation.value == "" then None else data.salutation];
    }
    if data.firstname.Some? {
      updateData := updateData[FirstnameField := data.firstname];
    }
    if data.lastname.Some? {
      updateData := updateData[LastnameField := data.lastname];
    }
    if data.email.Some? {
      updateData := updateData[EmailField := data.email];
    }
    return Ok(updateData);
  }

  /** The database's `update`: the fields of the patch take their new values, the others keep theirs. */
  function ApplyPatch(u: User, p: Patch): (r: User)
    requires WellFormedPatch(p)
    ensures r.id == u.id && r.name == u.name && r.emailVerified == u.emailVerified && r.image == u.image
    ensures r.salutation == if SalutationField in p then p[SalutationField] else u.salutation
    ensures r.firstname == if FirstnameField in p then p[FirstnameField].value else u.firstname
    ensures r.lastname == if LastnameField in p then p[LastnameField].value else u.lastname
    ensures r.email == if EmailField in p then p[EmailField].value else u.email
  {
    u.(salutation := if SalutationField in p then p[SalutationField] else u.salutation,
       firstname := if FirstnameField in p then p[FirstnameField].value else u.firstname,
       lastname := if LastnameField in p then p[LastnameField].value else u.lastname,
       email := if EmailField in p then p[EmailField].value else u.email)
  }

  /** The response of the profile endpoint: the six returned fields of a user. */
  function ProfileOf(u: User): Profile {
    Profile(u.id, u.firstname, u.lastname, u.email, u.image, u.salutation)
  }

  /** `updateProfile` on a user table: its result and the table afterwards. */
  function ProfileOutcome(users: map<string, User>, userId: string, data: ProfileUpdate)
    : (Result<Profile, ServiceError>, map<string, User>)
  {
    if RejectsSalutation(data) then (Err(InvalidSalutation), users)
    else if userId !in users then (Err(UserNotFound), users)
    else
      var updated := ApplyPatch(users[userId], ProfilePatch(data));
      (Ok(ProfileOf(updated)), users[userId := updated])
  }

  /**
   * A refused salutation leaves every user as it was; otherwise the user
   * with the id, and only that user, gets exactly the fields that were sent
   * (an empty salutation becoming `null`), and the response repeats six
   * fields of the updated record.
   */
  lemma ProfileOutcomeSpec(users: map<string, User>, userId: string, data: ProfileUpdate)
    ensures RejectsSalutation(data) ==> ProfileOutcome(users, userId, data) == (Err(InvalidSalutation), users)
    ensures ProfileOutcome(users, userId, data).0.Err? ==> ProfileOutcome(users, userId, data).1 == users
    ensures ProfileOutcome(users, userId, data).0.Ok? <==> !RejectsSalutation(data) && userId in users
    ensures ProfileOutcome(users, userId, data).0.Ok? ==>
      var (r, after) := ProfileOutcome(users, userId, data);
      var (u, v) := (users[userId], after[userId]);
      && after.Keys == users.Keys
      && (forall id :: id in users && id != userId ==> after[id] == users[id])
      && v == u.(firstname := data.firstname.GetOr(u.firstname),
                 lastname := data.lastname.GetOr(u.lastname),
                 email := data.email.GetOr(u.email),
                 salutation := if data.salutation == Some("") then None else OrElse(data.salutation, u.salutation))
      && r.value == Profile(v.id, v.firstname, v.lastname, v.email, v.image, v.salutation)
  {
  }

  // ---------------------------------------------------------------------
  // Avatar upload

  /**
   * `originalname.split('.').pop() || 'jpg'`: the text after the last dot
   * (the whole name when there is none), or `jpg` when that text is empty.
   */
  function FileExtension(originalname: string): (ext: string)
    ensures ext != "" && '.' !in ext
    ensures originalname == "" || originalname[|originalname| - 1] == '.' ==> ext == "jpg"
    ensures originalname != "" && originalname[|originalname| - 1] != '.' ==>
      && ext == Last(Split(originalname, '.'))
      && |ext| <= |originalname|
      && originalname[|originalname| - |ext|..] == ext
      && (|ext| == |originalname| || originalname[|originalname| - |ext| - 1] == '.')
  {
    var last := Last(Split(originalname, '.'));
    LastPieceIsSuffix(originalname, '.');
    if last == "" then "jpg" else last
  }

  /** The last piece of a split is what follows the last separator. */
  lemma {:induction false} LastPieceIsSuffix(s: string, sep: char)
    ensures var last := Last(Split(s, sep));
      && |last| <= |s| && s[|s| - |last|..] == last
      && (|last| == |s| || s[|s| - |last| - 1] == sep)
    decreases |s|
  {
    if s != [] {
      LastPieceIsSuffix(s[1..], sep);
      var rest := Split(s[1..], sep);
      if s[0] != sep && |rest| == 1 {
        assert Last(Split(s, sep)) == [s[0]] + rest[0];
        assert [s[0]] + s[1..] == s;
      } else {
        var last := Last(rest);
        assert Last(Split(s, sep)) == last;
        assert s[|s| - |last|..] == s[1..][|s| - 1 - |last|..];
      }
    }
  }

  /** `${userId}-${timestamp}.${fileExtension}`. */
  function AvatarFilename(userId: string, timestamp: nat, ext: string): string {
    userId + "-" + NatToString(timestamp) + "." + ext
  }

  const AvatarDir: string := "/avatars/"

  function AvatarPath(filename: string): string {
    AvatarDir + filename
  }

  /** The stored file name keeps the extension of the uploaded one. */
  lemma AvatarFilenameKeepsExtension(userId: string, timestamp: nat, originalname: string)
    ensures FileExtension(AvatarFilename(userId, timestamp, FileExtension(originalname))) == FileExtension(originalname)
  {
    var ext := FileExtension(originalname);
    var prefix := userId + "-" + NatToString(timestamp);
    assert AvatarFilename(userId, timestamp, ext) == prefix + ['.'] + ext;
    SplitLastAfterSeparator(prefix, '.', ext);
    SplitNoSeparator(ext, '.');
  }

  /** `updateAvatar` on a user table (the timestamp is the clock reading the source takes). */
  function AvatarOutcome(users: map<string, User>, userId: string, file: UploadedFile, timestamp: nat)
    : (Result<AvatarResult, ServiceError>, map<string, User>)
  {
    var imagePath := AvatarPath(AvatarFilename(userId, timestamp, FileExtension(file.originalname)));
    if userId !in users then (Err(UserNotFound), users)
    else (Ok(AvatarResult(imagePath)), users[userId := users[userId].(image := Some(imagePath))])
  }

  /**
   * A successful avatar update returns the path it stored: it lies in the
   * avatars directory, starts with the user's id and ends with the uploaded
   * file's extension; nothing else of any user changes.
   */
  lemma AvatarOutcomeSpec(users: map<string, User>, userId: string, file: UploadedFile, timestamp: nat)
    ensures AvatarOutcome(users, userId, file, timestamp).0.Ok? <==> userId in users
    ensures AvatarOutcome(users, userId, file, timestamp).0.Err? ==> AvatarOutcome(users, userId, file, timestamp).1 == users
    ensures AvatarOutcome(users, userId, file, timestamp).0.Ok? ==>
      var (r, after) := AvatarOutcome(users, userId, file, timestamp);
      var path := r.value.image;
      && after.Keys == users.Keys
      && after[userId] == users[userId].(image := Some(path))
      && (forall id :: id in users && id != userId ==> after[id] == users[id])
      && IsPrefix(AvatarDir + userId + "-", path)
      && FileExtension(path) == FileExtension(file.originalname)
  {
    var ext := FileExtension(file.originalname);
    var path := AvatarPath(AvatarFilename(userId, timestamp, ext));
    AvatarPathShape(userId, timestamp, file.originalname);
    if userId in users {
      var after := users[userId := users[userId].(image := Some(path))];
      assert AvatarOutcome(users, userId, file, timestamp) == (Ok(AvatarResult(path)), after);
    }
  }

  /** The avatar path starts with the directory and the user's id and keeps the upload's extension. */
  lemma AvatarPathShape(userId: string, timestamp: nat, originalname: string)
    ensures var path := AvatarPath(AvatarFilename(userId, timestamp, FileExtension(originalname)));
      && IsPrefix(AvatarDir + userId + "-", path)
      && FileExtension(path) == FileExtension(originalname)
  {
    var ext := FileExtension(originalname);
    var path := AvatarPath(AvatarFilename(userId, timestamp, ext));
    var pre := AvatarDir + userId + "-" + NatToString(timestamp);
    assert path == pre + ['.'] + ext;
    assert path == (AvatarDir + userId + "-") + (NatToString(timestamp) + "." + ext);
    SplitLastAfterSeparator(pre, '.', ext);
    SplitNoSeparator(ext, '.');
  }

  // ---------------------------------------------------------------------
  // The service over a user table

  class UserStore {
    var users: map<string, User>

    constructor (users: map<string, User>)
      ensures this.users == users
    {
      this.users := users;
    }

    /** `updateProfile`: validate, then update, then project the updated user. */
    method UpdateProfile(userId: string, data: ProfileUpdate) returns (r: Result<Profile, ServiceError>)
      modifies this
      ensures (r, users) == ProfileOutcome(old(users), userId, data)
    {
      var patch := BuildProfilePatch(data);
      if patch.Err? {
        return Err(patch.error);
      }
      if userId !in users {
        return Err(UserNotFound);
      }
      var updatedUser := ApplyPatch(users[userId], patch.value);
      users := users[userId := updatedUser];
      return Ok(Profile(updatedUser.id, updatedUser.firstname, updatedUser.lastname,
                        updatedUser.email, updatedUser.image, updatedUser.salutation));
    }

    /** `updateAvatar`: name the file, then store its public path on the user. */
    method UpdateAvatar(userId: string, file: UploadedFile, timestamp: nat) returns (r: Result<AvatarResult, ServiceError>)
      modifies this
      ensures (r, users) == AvatarOutcome(old(users), userId, file, timestamp)
    {
      var fileExtension := FileExtension(file.originalname);
      var filename := AvatarFilename(userId, timestamp, fileExtension);
      var imagePath := AvatarPath(filename);
      if userId !in users {
        return Err(UserNotFound);
      }
      users := users[userId := users[userId].(image := Some(imagePath))];
      return Ok(AvatarResult(imagePath));
    }
  }
}
