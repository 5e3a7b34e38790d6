/**
 * The profile page, `src/UserAdmin.tsx` and its older twin `src/UserAdmin.jsx`
 * (the two run the same handlers): loading the profile with its fallbacks,
 * saving it, replacing the avatar in the `avatars` bucket and removing it.
 * The bucket is a set of object keys and the user's `user_profiles` row an
 * optional record; every backend reply is a parameter.
 */
module Profile {
  import opened Js
  import AdminTs

  type ImageFile = AdminTs.ImageFile

  /** The columns of the user's `user_profiles` row; the avatar is kept in `avatar_url` or, in some databases, `avatar_URL`. */
  datatype ProfileRow = ProfileRow(firstName: Option<string>, lastName: Option<string>,
                                   avatarUrl: Option<string>, avatarURL: Option<string>)

  /** `user.user_metadata`, whose fields may be missing. */
  datatype Metadata = Metadata(firstName: Option<string>, lastName: Option<string>, avatarUrl: Option<string>)

  /** The page's `profile` state. */
  datatype UserProfile = UserProfile(firstName: string, lastName: string, avatarUrl: string)

  /** The reply of `select("*").eq("user_id", ...).single()`: the row, if any, and the error code, if any. */
  datatype FetchReply = FetchReply(data: Option<ProfileRow>, errorCode: Option<string>)

  /** The error code PostgREST gives `single()` when no row matches. */
  const NoRowsCode := "PGRST116"

  /**
   * `fetchProfile`: None when the query fails for another reason than a
   * missing row (the state is left as it was); otherwise the row's fields,
   * or the metadata's when there is no row, with "" for anything falsy.
   */
  function FetchedProfile(reply: FetchReply, meta: Metadata): Option<UserProfile> {
    if reply.errorCode.Some? && reply.errorCode.value != NoRowsCode then None
    else match reply.data
      case Some(row) =>
        Some(UserProfile(OrElse(row.firstName, ""), OrElse(row.lastName, ""),
                         OrElse(row.avatarUrl, OrElse(row.avatarURL, ""))))
      case None =>
        Some(UserProfile(OrElse(meta.firstName, ""), OrElse(meta.lastName, ""), OrElse(meta.avatarUrl, "")))
  }

  /**
   * Only a real query error leaves the profile alone; the avatar is
   * `avatar_url`, else `avatar_URL`, else ""; without a row (a missing row or
   * the no-rows error) every field comes from the metadata, defaulting to "".
   */
  lemma FetchedProfileSpec(reply: FetchReply, meta: Metadata)
    ensures FetchedProfile(reply, meta).None? <==> reply.errorCode.Some? && reply.errorCode.value != NoRowsCode
    ensures FetchedProfile(reply, meta).Some? && reply.data.Some? ==>
      var row := reply.data.value;
      var p := FetchedProfile(reply, meta).value;
      (Truthy(row.avatarUrl) ==> p.avatarUrl == row.avatarUrl.value)
      && (!Truthy(row.avatarUrl) && Truthy(row.avatarURL) ==> p.avatarUrl == row.avatarURL.value)
      && (!Truthy(row.avatarUrl) && !Truthy(row.avatarURL) ==> p.avatarUrl == "")
      && (Truthy(row.firstName) ==> p.firstName == row.firstName.value)
      && (!Truthy(row.firstName) ==> p.firstName == "")
      && (Truthy(row.lastName) ==> p.lastName == row.lastName.value)
      && (!Truthy(row.lastName) ==> p.lastName == "")
    ensures FetchedProfile(reply, meta).Some? && reply.data.None? ==>
      var p := FetchedProfile(reply, meta).value;
      (Truthy(meta.firstName) ==> p.firstName == meta.firstName.value)
      && (!Truthy(meta.firstName) ==> p.firstName == "")
      && (Truthy(meta.lastName) ==> p.lastName == meta.lastName.value)
      && (!Truthy(meta.lastName) ==> p.lastName == "")
      && (Truthy(meta.avatarUrl) ==> p.avatarUrl == meta.avatarUrl.value)
      && (!Truthy(meta.avatarUrl) ==> p.avatarUrl == "")
  {
  }

  /** Which avatar column an upsert writes. */
  datatype AvatarColumn = LowerCase | UpperCase

  /** The row after `upsert({ user_id, first_name, last_name, <column>: url }, { onConflict: "user_id" })`. */
  function Upserted(row: Option<ProfileRow>, first: string, last: string, column: AvatarColumn, url: string): (r: ProfileRow)
    ensures r.firstName == Some(first) && r.lastName == Some(last)
    ensures column == LowerCase ==> r.avatarUrl == Some(url) && r.avatarURL == (if row.Some? then row.value.avatarURL else None)
    ensures column == UpperCase ==> r.avatarURL == Some(url) && r.avatarUrl == (if row.Some? then row.value.avatarUrl else None)
  {
    var base := if row.Some? then row.value else ProfileRow(None, None, None, None);
    match column
    case LowerCase => base.(firstName := Some(first), lastName := Some(last), avatarUrl := Some(url))
    case UpperCase => base.(firstName := Some(first), lastName := Some(last), avatarURL := Some(url))
  }

  /**
   * A profile saved through the `avatar_url` column is loaded back as saved,
   * unless its avatar is "" while an older `avatar_URL` value is still in the row.
   */
  lemma SavedProfileReloads(row: Option<ProfileRow>, p: UserProfile, meta: Metadata)
    requires p.avatarUrl != "" || row.None? || !Truthy(row.value.avatarURL)
    ensures FetchedProfile(FetchReply(Some(Upserted(row, p.firstName, p.lastName, LowerCase, p.avatarUrl)), None), meta) == Some(p)
  {
  }

  /** The exception: clearing `avatar_url` brings back an avatar stored under `avatar_URL`. */
  lemma ClearedAvatarResurfaces()
    ensures var row := Some(ProfileRow(Some("Ola"), None, Some("https://x/a.png"), Some("https://x/b.png")));
      FetchedProfile(FetchReply(Some(Upserted(row, "Ola", "", LowerCase, "")), None), Metadata(None, None, None))
      == Some(UserProfile("Ola", "", "https://x/b.png"))
  {
  }

  // ---------------------------------------------------------------- avatar files

  const NotAnImage := "Kun bildefiler er tillatt"
  const TooLarge := "Bildet er for stort. " + "Maks størrelse er 5MB"

  /** The checks `handleImageUpload` makes before anything else, in order: None accepts the file. */
  function ValidateAvatar(f: ImageFile): (r: Option<string>)
    ensures r.None? <==> AdminTs.FileAcceptable(f)
    ensures r == Some(NotAnImage) <==> !StartsWith(f.mimeType, "image/")
    ensures r == Some(TooLarge) <==> StartsWith(f.mimeType, "image/") && f.size > AdminTs.MaxImageBytes
  {
    if !StartsWith(f.mimeType, "image/") then Some(NotAnImage)
    else if f.size > 5 * 1024 * 1024 then Some(TooLarge)
    else None
  }

  /** `${userId}-${Date.now()}.${file.name.split(".").pop()}`, with the clock reading as `stamp`. */
  function AvatarFileName(userId: string, stamp: string, name: string): string {
    userId + "-" + stamp + "." + AfterLast(name, '.')
  }

  /**
   * The stored name keeps the extension after the original name's last '.',
   * and a name without '.' is used whole as the extension.
   */
  lemma AvatarFileNameSpec(userId: string, stamp: string, base: string, ext: string)
    requires '.' !in ext
    ensures AvatarFileName(userId, stamp, base + "." + ext) == userId + "-" + stamp + "." + ext
    ensures AvatarFileName(userId, stamp, ext) == userId + "-" + stamp + "." + ext
  {
    AfterLastOf(base, '.', ext);
    assert base + "." + ext == base + ['.'] + ext;
    SplitNoSeparator(ext, '.');
  }

  /** A stored name always holds a '.', and holds no '/' or '?' when its parts hold none. */
  lemma AvatarFileNamePlain(userId: string, stamp: string, name: string)
    requires '/' !in userId && '?' !in userId && '/' !in stamp && '?' !in stamp && '/' !in name && '?' !in name
    ensures var n := AvatarFileName(userId, stamp, name); '/' !in n && '?' !in n && Includes(n, ".")
  {
    var ext := AfterLast(name, '.');
    AfterLastSpec(name, '.');
    forall ch | ch in ext
      ensures ch in name
    {
      var k :| 0 <= k < |ext| && ext[k] == ch;
      assert name[|name| - |ext| + k] == ch;
    }
    var n := AvatarFileName(userId, stamp, name);
    var i := |userId| + 1 + |stamp|;
    assert n[i..i + 1] == ".";
    assert OccursAt(n, ".", i);
  }

  /** Whether the old avatar is removed: only when its key contains a '.'. */
  predicate DeletesOldKey(key: string) {
    Includes(key, ".")
  }

  /**
   * The bucket after the attempt to remove the previous avatar stored at
   * `url`: the key alone first, `avatars/<key>` when that reports an error;
   * a second failure is ignored.
   */
  function AfterOldRemoved(files: set<string>, url: string, firstOk: bool, altOk: bool): (r: set<string>)
    ensures r <= files
  {
    var key := AdminTs.StorageKey(url);
    if url == "" || !DeletesOldKey(key) then files
    else if firstOk then files - {key}
    else if altOk then files - {"avatars/" + key}
    else files
  }

  /**
   * Removal only ever takes away the old avatar's key (or its `avatars/`
   * variant), and nothing when the key has no '.'.
   */
  lemma AfterOldRemovedSpec(files: set<string>, url: string, firstOk: bool, altOk: bool)
    ensures var key := AdminTs.StorageKey(url);
      forall x :: x in files && x != key && x != "avatars/" + key ==> x in AfterOldRemoved(files, url, firstOk, altOk)
    ensures !DeletesOldKey(AdminTs.StorageKey(url)) ==> AfterOldRemoved(files, url, firstOk, altOk) == files
  {
  }

  /**
   * The avatar a previous upload stored is the one the next upload or a
   * removal deletes: its key is read back from its public URL, query or not,
   * and contains a '.'.
   */
  lemma PreviousAvatarDeleted(files: set<string>, bucketUrl: string, userId: string, stamp: string, name: string,
                              query: string, altOk: bool)
    requires '/' !in userId && '?' !in userId && '/' !in stamp && '?' !in stamp && '/' !in name && '?' !in name
    requires '/' !in query
    ensures var n := AvatarFileName(userId, stamp, name);
      AfterOldRemoved(files, AdminTs.PublicUrl(bucketUrl, n), true, altOk) == files - {n}
      && AfterOldRemoved(files, AdminTs.PublicUrl(bucketUrl, n) + "?" + query, true, altOk) == files - {n}
  {
    var n := AvatarFileName(userId, stamp, name);
    AvatarFileNamePlain(userId, stamp, name);
    AdminTs.StorageKeyOfPublicUrl(bucketUrl, n, query);
    assert |AdminTs.PublicUrl(bucketUrl, n)| > 0;
  }

  // ---------------------------------------------------------------- messages

  const Uploaded := "Bilde lastet opp og lagret!"
  const UploadedNotSaved := "Bilde lastet opp, men " + "kunne ikke lagre i " + "database. Prøv å " + "lagre manuelt."
  const UploadFailedPrefix := "Feil ved opplasting av bilde: "
  const Removed := "Bilde fjernet!"
  const RemovedFromView := "Bilde fjernet fra visning. " + "Husk å lagre endringene."
  const Saved := "Profil oppdatert!"
  const SaveFailedPrefix := "Feil ved lagring: "

  /** A message is shown in the error style iff it contains "Feil". */
  predicate ShownAsError(message: string) {
    Includes(message, "Feil")
  }

  /** A message without a capital F is never shown as an error. */
  lemma NotShownWithoutF(message: string)
    requires 'F' !in message
    ensures !ShownAsError(message)
  {
    forall i | 0 <= i <= |message| - 4
      ensures !OccursAt(message, "Feil", i)
    {
      assert message[i..i + 4][0] == message[i];
    }
  }

  /** A message that starts with "Feil" is shown as an error. */
  lemma ShownWithF(rest: string)
    ensures ShownAsError("Feil" + rest)
  {
    assert OccursAt("Feil" + rest, "Feil", 0);
  }

  /**
   * The message an accepted upload ends with: the upload error, prefixed;
   * else the database outcome of the `avatar_url` upsert and, when that
   * fails, of the `avatar_URL` upsert.
   */
  function UploadMessage(uploadError: Option<string>, dbOk: bool, altDbOk: bool): (r: string)
    ensures ShownAsError(r) <==> uploadError.Some?
  {
    if uploadError.Some? then
      var r := UploadFailedPrefix + AdminTs.UploadErrorPrefix + uploadError.value;
      ShownWithF(r[4..]);
      assert r == "Feil" + r[4..];
      r
    else
      if dbOk || altDbOk then
        NotShownWithoutF(Uploaded);
        Uploaded
      else
        NotShownWithoutF(UploadedNotSaved);
        UploadedNotSaved
  }

  /** Neither rejection of a file is shown as an error: no "Feil" in either message. */
  lemma RejectionsNotShownAsErrors()
    ensures !ShownAsError(NotAnImage) && !ShownAsError(TooLarge)
  {
    NotShownWithoutF(NotAnImage);
    NotShownWithoutF(TooLarge);
  }

  /** Removing the avatar never reports an error, whether or not the database was updated. */
  lemma RemovalNotShownAsError()
    ensures !ShownAsError(Removed) && !ShownAsError(RemovedFromView)
  {
    NotShownWithoutF(Removed);
    NotShownWithoutF(RemovedFromView);
  }

  /** A save is reported as an error iff it failed. */
  lemma SaveMessagesClassified(error: string)
    ensures !ShownAsError(Saved) && ShownAsError(SaveFailedPrefix + error)
  {
    NotShownWithoutF(Saved);
    ShownWithF((SaveFailedPrefix + error)[4..]);
    assert SaveFailedPrefix + error == "Feil" + (SaveFailedPrefix + error)[4..];
  }

  /** `getUserInitial`: the first character of the first name, else of the last name, else the upper-cased first character of the e-mail, else "?". */
  function UserInitial(firstName: string, lastName: string, email: Option<string>): (r: string)
    ensures |r| == 1
    ensures firstName != "" ==> r[0] == firstName[0]
    ensures firstName == "" && lastName != "" ==> r[0] == lastName[0]
    ensures firstName == "" && lastName == "" && Truthy(email) ==> r[0] == UpperAscii(email.value[0])
    ensures firstName == "" && lastName == "" && !Truthy(email) ==> r == "?"
  {
    if firstName != "" then [firstName[0]]
    else if lastName != "" then [lastName[0]]
    else if email.Some? && email.value != "" then [UpperAscii(email.value[0])]
    else "?"
  }

  // ---------------------------------------------------------------- the page

  class ProfilePage {
    var profile: UserProfile
    var message: string
    var uploading: bool
    /** The keys in the `avatars` bucket. */
    var files: set<string>
    /** The user's `user_profiles` row. */
    var row: Option<ProfileRow>
    /** The auth user's metadata, as `updateUser` writes it. */
    var authMetadata: Metadata
    const userId: string
    const bucketUrl: string

    constructor(userId: string, bucketUrl: string, files: set<string>, row: Option<ProfileRow>, authMetadata: Metadata)
      ensures this.userId == userId && this.bucketUrl == bucketUrl
      ensures this.files == files && this.row == row && this.authMetadata == authMetadata
      ensures profile == UserProfile("", "", "") && message == "" && !uploading
    {
      this.userId := userId;
      this.bucketUrl := bucketUrl;
      this.files := files;
      this.row := row;
      this.authMetadata := authMetadata;
      profile := UserProfile("", "", "");
      message := "";
      uploading := false;
    }

    /** `fetchProfile`, with the session's metadata `meta`. */
    method Load(reply: FetchReply, meta: Metadata)
      modifies this`profile
      ensures profile == match FetchedProfile(reply, meta) case Some(p) => p case None => old(profile)
    {
      if reply.errorCode.Some? && reply.errorCode.value != NoRowsCode {
        return;
      }
      if reply.data.Some? {
        var data := reply.data.value;
        var avatarUrl := OrElse(data.avatarUrl, OrElse(data.avatarURL, ""));
        profile := UserProfile(OrElse(data.firstName, ""), OrElse(data.lastName, ""), avatarUrl);
      } else {
        profile := UserProfile(OrElse(meta.firstName, ""), OrElse(meta.lastName, ""), OrElse(meta.avatarUrl, ""));
      }
    }

    /**
     * `handleSave`: the row is upserted, then the metadata updated; the
     * first failure gives "Feil ved lagring: " and its message.
     */
    method Save(dbError: Option<string>, metadataError: Option<string>)
      modifies this`row, this`authMetadata, this`message
      ensures dbError.Some? ==>
        row == old(row) && authMetadata == old(authMetadata) && message == SaveFailedPrefix + dbError.value
      ensures dbError.None? ==>
        row == Some(Upserted(old(row), profile.firstName, profile.lastName, LowerCase, profile.avatarUrl))
      ensures dbError.None? && metadataError.Some? ==>
        authMetadata == old(authMetadata) && message == SaveFailedPrefix + metadataError.value
      ensures dbError.None? && metadataError.None? ==>
        authMetadata == Metadata(Some(profile.firstName), Some(profile.lastName), Some(profile.avatarUrl))
        && message == Saved
    {
      message := "";
      if dbError.Some? {
        message := SaveFailedPrefix + dbError.value;
        return;
      }
      row := Some(Upserted(row, profile.firstName, profile.lastName, LowerCase, profile.avatarUrl));
      if metadataError.Some? {
        message := SaveFailedPrefix + metadataError.value;
        return;
      }
      authMetadata := Metadata(Some(profile.firstName), Some(profile.lastName), Some(profile.avatarUrl));
      message := Saved;
    }

    /**
     * `handleImageUpload`: a rejected file only sets the message; otherwise
     * the previous avatar is removed (failures ignored), the file is stored
     * under its new name, the profile takes its public URL and the row is
     * upserted, through `avatar_URL` when `avatar_url` fails. A failed upload
     * leaves the profile and the row as they were, though the previous file
     * is already gone.
     */
    method Upload(file: Option<ImageFile>, stamp: string, firstRemoveOk: bool, altRemoveOk: bool,
                  uploadError: Option<string>, dbOk: bool, altDbOk: bool, metadataOk: bool)
      modifies this`profile, this`message, this`uploading, this`files, this`row, this`authMetadata
      ensures file.None? ==> unchanged(this)
      ensures file.Some? && ValidateAvatar(file.value).Some? ==>
        message == ValidateAvatar(file.value).value
        && profile == old(profile) && uploading == old(uploading) && files == old(files)
        && row == old(row) && authMetadata == old(authMetadata)
      ensures file.Some? && ValidateAvatar(file.value).None? ==>
        var name := AvatarFileName(userId, stamp, file.value.name);
        var url := AdminTs.PublicUrl(bucketUrl, name);
        var kept := AfterOldRemoved(old(files), old(profile).avatarUrl, firstRemoveOk, altRemoveOk);
        !uploading
        && message == UploadMessage(uploadError, dbOk, altDbOk)
        && files == (if uploadError.None? then kept + {name} else kept)
        && profile == (if uploadError.None? then old(profile).(avatarUrl := url) else old(profile))
        && row == (if uploadError.Some? then old(row)
                   else if dbOk then Some(Upserted(old(row), old(profile).firstName, old(profile).lastName, LowerCase, url))
                   else if altDbOk then Some(Upserted(old(row), old(profile).firstName, old(profile).lastName, UpperCase, url))
                   else old(row))
        && authMetadata == (if uploadError.None? && dbOk && metadataOk
                            then Metadata(Some(old(profile).firstName), Some(old(profile).lastName), Some(url))
                            else old(authMetadata))
    {
      if file.None? {
        return;
      }
      var f := file.value;
      if !StartsWith(f.mimeType, "image/") {
        message := NotAnImage;
        return;
      }
      if f.size > 5 * 1024 * 1024 {
        message := TooLarge;
        return;
      }
      uploading := true;
      message := "";
      var name := AvatarFileName(userId, stamp, f.name);
      files := AfterOldRemoved(files, profile.avatarUrl, firstRemoveOk, altRemoveOk);
      if uploadError.Some? {
        message := UploadFailedPrefix + AdminTs.UploadErrorPrefix + uploadError.value;
        uploading := false;
        return;
      }
      files := files + {name};
      var url := AdminTs.PublicUrl(bucketUrl, name);
      var previous := profile;
      profile := profile.(avatarUrl := url);
      if !dbOk {
        if altDbOk {
          row := Some(Upserted(row, previous.firstName, previous.lastName, UpperCase, url));
          message := Uploaded;
        } else {
          message := UploadedNotSaved;
        }
      } else {
        row := Some(Upserted(row, previous.firstName, previous.lastName, LowerCase, url));
        if metadataOk {
          authMetadata := Metadata(Some(previous.firstName), Some(previous.lastName), Some(url));
        }
        message := Uploaded;
      }
      uploading := false;
    }

    /**
     * `handleRemoveImage`: nothing without an avatar; otherwise the stored
     * file is removed (failures ignored) and the avatar is cleared whatever
     * the database says, which only decides the message.
     */
    method RemoveAvatar(firstRemoveOk: bool, altRemoveOk: bool, dbOk: bool, metadataOk: bool)
      modifies this`profile, this`message, this`uploading, this`files, this`row, this`authMetadata
      ensures old(profile).avatarUrl == "" ==> unchanged(this)
      ensures old(profile).avatarUrl != "" ==>
        profile == old(profile).(avatarUrl := "")
        && !uploading
        && files == AfterOldRemoved(old(files), old(profile).avatarUrl, firstRemoveOk, altRemoveOk)
        && message == (if dbOk then Removed else RemovedFromView)
        && row == (if dbOk then Some(Upserted(old(row), old(profile).firstName, old(profile).lastName, LowerCase, ""))
                   else old(row))
        && authMetadata == (if dbOk && metadataOk
                            then Metadata(Some(old(profile).firstName), Some(old(profile).lastName), Some(""))
                            else old(authMetadata))
    {
      if profile.avatarUrl == "" {
        return;
      }
      uploading := true;
      message := "";
      files := AfterOldRemoved(files, profile.avatarUrl, firstRemoveOk, altRemoveOk);
      var previous := profile;
      profile := profile.(avatarUrl := "");
      if dbOk {
        row := Some(Upserted(row, previous.firstName, previous.lastName, LowerCase, ""));
        if metadataOk {
          authMetadata := Metadata(Some(previous.firstName), Some(previous.lastName), Some(""));
        }
        message := Removed;
      } else {
        message := RemovedFromView;
      }
      uploading := false;
    }
  }
}
