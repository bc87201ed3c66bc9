/** The profile page: the avatar's fallback initials and the avatar upload,
    with its size limit, its storage key and its two remote steps. */
module ProfilePage {
  import opened Common
  import opened Strings
  import opened Storage
  import Dashboard

  /** `profile?.full_name ? getInitials(profile.full_name) : 'U'`; this
      page's `getInitials` is the dashboard's rule. */
  function ProfileInitials(fullName: Option<string>): (r: string)
    ensures |r| <= 2
    ensures !Truthy(fullName) ==> r == "U"
    ensures Truthy(fullName) ==> r == Dashboard.GetInitials(fullName.value)
  {
    if Truthy(fullName) then Dashboard.GetInitials(fullName.value) else "U"
  }

  /** A first and a last name give their two capitalised first letters. */
  lemma ProfileInitialsOfTwoNames(first: string, last: string)
    requires first != "" && last != "" && ' ' !in first && ' ' !in last
    ensures ProfileInitials(Some(first + " " + last)) == [UpperChar(first[0]), UpperChar(last[0])]
  {
    Dashboard.InitialsOfTwoNames(first, last);
  }

  /** `5 * 1024 * 1024` bytes. */
  const MaxAvatarSize := 5 * 1024 * 1024

  /** `avatars/${user.id}-${Date.now()}.${fileExt}`. */
  function AvatarPath(userId: Id, now: nat, fileName: string): (path: string)
    ensures StartsWith(path, "avatars/" + userId + "-")
  {
    var path := "avatars/" + userId + "-" + NatToString(now) + "." + FileExt(fileName);
    assert path[..|"avatars/" + userId + "-"|] == "avatars/" + userId + "-";
    path
  }

  /** The stored avatar keeps the extension of the picked image. */
  lemma AvatarPathKeepsExt(userId: Id, now: nat, fileName: string)
    ensures FileExt(AvatarPath(userId, now, fileName)) == FileExt(fileName)
  {
    StoredNameKeepsExt("avatars/" + userId + "-" + NatToString(now), fileName);
  }

  /** The picked image. */
  datatype PickedImage = PickedImage(name: string, size: int)

  /** The remote calls of an avatar upload, in order. */
  datatype AvatarCall =
    | UploadAvatar(path: string, upsert: bool)
    | SetAvatarUrl(userId: Id, avatarUrl: string)

  const TooLargeToast := Toast("File too large", "Please choose an image smaller than 5MB", true)
  const AvatarUpdatedToast := Toast("Profile picture updated", "Your profile picture has been updated successfully.", false)

  /** What one avatar upload did: its remote calls, its notice, and whether
      the page reloads. */
  datatype AvatarUpload = AvatarUpload(calls: seq<AvatarCall>, notice: Option<Toast>, reload: bool)

  /** `handleAvatarUpload`. Nothing happens without a picked file or a user;
      an image over 5 MiB is refused before any call. Otherwise the image is
      stored (with `upsert`) under its key, and the profile's `avatar_url`
      becomes its public URL (`publicUrl`); the page reloads only when both
      steps succeed. A failing step (`storageError`, `updateError`) shows its
      message and stops. */
  method HandleAvatarUpload(file: Option<PickedImage>, user: Option<Id>, now: nat,
                            storageError: Option<string>, updateError: Option<string>,
                            publicUrl: string -> string)
    returns (r: AvatarUpload)
    ensures file.None? || user.None? ==> r == AvatarUpload([], None, false)
    ensures file.Some? && user.Some? && file.value.size > MaxAvatarSize ==>
              r == AvatarUpload([], Some(TooLargeToast), false)
    ensures file.Some? && user.Some? && file.value.size <= MaxAvatarSize ==>
              (|r.calls| >= 1 && r.calls[0] == UploadAvatar(AvatarPath(user.value, now, file.value.name), true))
    ensures file.Some? && user.Some? && file.value.size <= MaxAvatarSize && storageError.Some? ==>
              r == AvatarUpload(r.calls[..1], Some(Toast("Upload failed", storageError.value, true)), false)
    ensures file.Some? && user.Some? && file.value.size <= MaxAvatarSize && storageError.None? ==>
              (|r.calls| == 2 &&
               r.calls[1] == SetAvatarUrl(user.value, publicUrl(AvatarPath(user.value, now, file.value.name))))
    ensures file.Some? && user.Some? && file.value.size <= MaxAvatarSize && storageError.None? ==>
              (r.reload <==> updateError.None?)
    ensures file.Some? && user.Some? && file.value.size <= MaxAvatarSize && storageError.None? ==>
              r.notice == if updateError.None? then Some(AvatarUpdatedToast) else Some(Toast("Upload failed", updateError.value, true))
  {
    if file.None? || user.None? {
      return AvatarUpload([], None, false);
    }
    if file.value.size > MaxAvatarSize {
      return AvatarUpload([], Some(TooLargeToast), false);
    }
    var path := AvatarPath(user.value, now, file.value.name);
    var calls := [UploadAvatar(path, true)];
    if storageError.Some? {
      return AvatarUpload(calls, Some(Toast("Upload failed", storageError.value, true)), false);
    }
    calls := calls + [SetAvatarUrl(user.value, publicUrl(path))];
    if updateError.Some? {
      return AvatarUpload(calls, Some(Toast("Upload failed", updateError.value, true)), false);
    }
    r := AvatarUpload(calls, Some(AvatarUpdatedToast), true);
  }
}
