/**
 * The user controller: the avatar upload endpoint checks the uploaded file
 * (present, an image, at most 5 MiB, in that order) before handing it to
 * the service; the profile endpoint passes the body through.
 */
module UserController {
  import opened Wrappers
  import opened Strings
  import opened UserService

  /** The largest accepted avatar, in bytes: 5 MiB. */
  const MaxAvatarSize: nat := 5 * 1024 * 1024

  const ImageMimePrefix: string := "image/"

  /** The authenticated caller. */
  datatype CurrentUser = CurrentUser(id: string)

  datatype UploadError =
    | NoFile
    | NotAnImage
    | TooLarge
    | Failed(cause: ServiceError)  // thrown by the service after the checks passed

  /**
   * The first check the upload fails, if any: a missing file, then a type
   * that is not `image/...`, then a size above 5 MiB.
   */
  function AvatarRejection(file: Option<UploadedFile>): (r: Option<UploadError>)
    ensures r.None? <==> file.Some? && IsPrefix(ImageMimePrefix, file.value.mimetype) && file.value.size <= MaxAvatarSize
    ensures file.None? ==> r == Some(NoFile)
    ensures file.Some? && !IsPrefix(ImageMimePrefix, file.value.mimetype) ==> r == Some(NotAnImage)
    ensures file.Some? && IsPrefix(ImageMimePrefix, file.value.mimetype) && file.value.size > MaxAvatarSize ==> r == Some(TooLarge)
  {
    if file.None? then Some(NoFile)
    else if !IsPrefix(ImageMimePrefix, file.value.mimetype) then Some(NotAnImage)
    else if file.value.size > MaxAvatarSize then Some(TooLarge)
    else None
  }

  /** An image of exactly 5 MiB passes; one byte more does not. */
  lemma SizeLimitBoundary(name: string, mimetype: string)
    requires IsPrefix(ImageMimePrefix, mimetype)
    ensures AvatarRejection(Some(UploadedFile(name, mimetype, 5242880))).None?
    ensures AvatarRejection(Some(UploadedFile(name, mimetype, 5242881))) == Some(TooLarge)
  {
  }

  /** `uploadAvatar`: the checks, then the service call with the caller's id. */
  method UploadAvatar(store: UserStore, user: CurrentUser, file: Option<UploadedFile>, timestamp: nat)
    returns (r: Result<AvatarResult, UploadError>)
    modifies store
    ensures AvatarRejection(file).Some? ==> r == Err(AvatarRejection(file).value) && store.users == old(store.users)
    ensures AvatarRejection(file).None? ==>
      var (result, after) := AvatarOutcome(old(store.users), user.id, file.value, timestamp);
      && store.users == after
      && r == (if result.Ok? then Ok(result.value) else Err(Failed(result.error)))
  {
    if file.None? {
      return Err(NoFile);
    }
    if !IsPrefix(ImageMimePrefix, file.value.mimetype) {
      return Err(NotAnImage);
    }
    if file.value.size > MaxAvatarSize {
      return Err(TooLarge);
    }
    var result := store.UpdateAvatar(user.id, file.value, timestamp);
    r := if result.Ok? then Ok(result.value) else Err(Failed(result.error));
  }

  /** `updateProfile`: the body goes to the service unchanged, with the caller's id. */
  method UpdateProfile(store: UserStore, user: CurrentUser, body: ProfileUpdate)
    returns (r: Result<Profile, ServiceError>)
    modifies store
    ensures (r, store.users) == ProfileOutcome(old(store.users), user.id, body)
  {
    r := store.UpdateProfile(user.id, body);
  }
}
