/**
 * `POST /api/profile/upload-avatar`: a fail-fast pipeline that validates the
 * multipart form, checks that the named user has a primary card, stores the
 * image in the avatar bucket under a fresh name and points `avatar_url` of
 * every card of that user at the stored object.
 *
 * The handler takes `userId` from the form as given: it receives no caller
 * identity and makes no ownership check.
 */
module UploadAvatar {
  import opened Optional
  import opened Rows
  import opened Cards
  import opened Http
  import opened Storage
  import opened Gates
  import opened FileNames

  /** The multipart form after parsing: the `file` and `userId` entries, each possibly absent. */
  datatype UploadForm = UploadForm(file: Option<File>, userId: Option<string>)

  /**
   * What the handler depends on besides the form: whether the service key is
   * configured, `Date.now()`, the failure of each store call, and the bucket's
   * `getPublicUrl`.
   */
  datatype UploadEnv = UploadEnv(
    serviceKeyConfigured: bool,
    now: nat,
    lookupFails: bool,
    storageFails: bool,
    updateFails: bool,
    publicUrlOf: string -> string)

  /** Each route module has its own `Outcome` and messages, as each route file has its own. */
  datatype Outcome = Outcome(response: Response, rows: Table, avatars: Bucket)

  /** 5 MiB; a file of exactly this size is accepted. */
  const MaxAvatarBytes: nat := 5 * 1024 * 1024

  const ImageTypePrefix := "image/"

  const MsgNoServiceKey := "Service role key not configured. Please add SUPABASE_SERVICE_ROLE_KEY to your environment variables."
  const MsgMissingInput := "File and userId are required"
  const MsgNotImage := "File must be an image"
  const MsgTooLarge := "File size must be less than 5MB"
  const MsgNoPrimary := "Primary profile not found"
  const MsgUploadFailed := "Failed to upload image"
  const MsgUpdateFailed := "Failed to update profile"

  /** `type.startsWith('image/')`. */
  predicate IsImageType(contentType: string) {
    ImageTypePrefix <= contentType
  }

  /** Result of `uploadProfileImage`: the public URL (or `null`) and the bucket afterwards. */
  datatype ImageUpload = ImageUpload(publicUrl: Option<string>, avatars: Bucket)

  /**
   * `uploadProfileImage(file, userId)`: store the file under
   * `<userId>-<now>.<ext>` without overwriting and return its public URL.
   */
  function UploadProfileImage(file: File, userId: string, env: UploadEnv, avatars: Bucket): (r: ImageUpload)
    ensures var name := AvatarFileName(userId, env.now, file.name);
      && (r.publicUrl.Some? <==> env.serviceKeyConfigured && !env.storageFails && name !in avatars)
      && (r.publicUrl.Some? ==> r.publicUrl.value == env.publicUrlOf(name) && r.avatars == avatars[name := file])
      && (r.publicUrl.None? ==> r.avatars == avatars)
  {
    if !env.serviceKeyConfigured then ImageUpload(None, avatars)
    else
      var name := AvatarFileName(userId, env.now, file.name);
      var put := PutNew(avatars, name, file, env.storageFails);
      if !put.ok then ImageUpload(None, avatars)
      else ImageUpload(Some(env.publicUrlOf(name)), put.bucket)
  }

  /** The name the handler stores a valid upload under. */
  function StoredName(form: UploadForm, env: UploadEnv): string
    requires form.file.Some? && form.userId.Some?
  {
    AvatarFileName(form.userId.value, env.now, form.file.value.name)
  }

  /**
   * What a 200 response means: the form was complete and valid, the user had
   * exactly one primary card, the image went in under a fresh name, the
   * response carries that object's public URL, and every card of the user,
   * and no other row, now has `avatar_url` set to it.
   */
  ghost predicate AvatarAccepted(form: UploadForm, env: UploadEnv, rows: Table, avatars: Bucket, o: Outcome) {
    && form.file.Some? && Present(form.userId)
    && var file, userId := form.file.value, form.userId.value;
    && var name := StoredName(form, env);
    && var url := env.publicUrlOf(name);
    && IsImageType(file.contentType)
    && file.size <= MaxAvatarBytes
    && SelectSingle(rows, PrimaryFilter(userId)).Some?
    && name !in avatars
    && o.avatars == avatars[name := file]
    && url != ""
    && o.response == Response(Ok, AvatarUploaded(url))
    && |o.rows| == |rows|
    && (forall i :: 0 <= i < |rows| && OwnedBy(rows[i], userId) ==>
          o.rows[i] == rows[i][AvatarUrlColumn := Str(url)])
    && (forall i :: 0 <= i < |rows| && !OwnedBy(rows[i], userId) ==> o.rows[i] == rows[i])
  }

  /**
   * `.update({ avatar_url: url }).eq('user_id', userId)`: every card of the
   * user gets the new URL; all other columns and all other rows are kept.
   */
  function SetAvatarForUser(rows: Table, userId: string, url: string): (rows': Table)
    ensures |rows'| == |rows|
    ensures forall i :: 0 <= i < |rows| && OwnedBy(rows[i], userId) ==>
              rows'[i] == rows[i][AvatarUrlColumn := Str(url)]
    ensures forall i :: 0 <= i < |rows| && !OwnedBy(rows[i], userId) ==> rows'[i] == rows[i]
  {
    var patch := map[AvatarUrlColumn := Str(url)];
    var rows' := UpdateWhere(rows, OwnerFilter(userId), patch);
    assert forall i :: 0 <= i < |rows| && OwnedBy(rows[i], userId) ==>
      Merge(rows[i], patch) == rows[i][AvatarUrlColumn := Str(url)];
    rows'
  }

  /** The route handler. */
  function HandleUploadAvatar(form: UploadForm, env: UploadEnv, rows: Table, avatars: Bucket): (o: Outcome)
    ensures o.response.status in {Ok, BadRequest, NotFound, InternalError}
    ensures o.response.status != Ok ==> o.rows == rows
    ensures o.response.status in {BadRequest, NotFound} ==> o.avatars == avatars
    ensures o.avatars == avatars
            || (form.file.Some? && Present(form.userId)
                && StoredName(form, env) !in avatars
                && o.avatars == avatars[StoredName(form, env) := form.file.value])
    ensures o.response.status == Ok ==> AvatarAccepted(form, env, rows, avatars, o)
  {
    if !env.serviceKeyConfigured then
      Outcome(Reject(InternalError, MsgNoServiceKey), rows, avatars)
    else if form.file.None? || !Present(form.userId) then
      Outcome(Reject(BadRequest, MsgMissingInput), rows, avatars)
    else
      var file, userId := form.file.value, form.userId.value;
      if !IsImageType(file.contentType) then
        Outcome(Reject(BadRequest, MsgNotImage), rows, avatars)
      else if file.size > MaxAvatarBytes then
        Outcome(Reject(BadRequest, MsgTooLarge), rows, avatars)
      else if env.lookupFails || SelectSingle(rows, PrimaryFilter(userId)).None? then
        Outcome(Reject(NotFound, MsgNoPrimary), rows, avatars)
      else
        var upload := UploadProfileImage(file, userId, env, avatars);
        if upload.publicUrl.None? || upload.publicUrl.value == "" then
          Outcome(Reject(InternalError, MsgUploadFailed), rows, upload.avatars)
        else if env.updateFails then
          Outcome(Reject(InternalError, MsgUpdateFailed), rows, upload.avatars)
        else
          var url := upload.publicUrl.value;
          Outcome(Response(Ok, AvatarUploaded(url)), SetAvatarForUser(rows, userId, url), upload.avatars)
  }

  /** The handler's checks in source order, each with the rejection it produces. */
  function UploadGates(form: UploadForm, env: UploadEnv, rows: Table): seq<Gate> {
    [ Gate(env.serviceKeyConfigured, InternalError, MsgNoServiceKey),
      Gate(form.file.Some? && Present(form.userId), BadRequest, MsgMissingInput),
      Gate(form.file.None? || IsImageType(form.file.value.contentType), BadRequest, MsgNotImage),
      Gate(form.file.None? || form.file.value.size <= MaxAvatarBytes, BadRequest, MsgTooLarge),
      Gate(form.userId.None? || (!env.lookupFails && SelectSingle(rows, PrimaryFilter(form.userId.value)).Some?),
           NotFound, MsgNoPrimary) ]
  }

  /**
   * Check ordering: when some check fails, the first failing one alone decides
   * the response and neither the rows nor the bucket change; when all pass,
   * the handler goes on to storage and answers 200 or one of the two
   * storage-stage 500s.
   */
  lemma UploadFollowsGates(form: UploadForm, env: UploadEnv, rows: Table, avatars: Bucket)
    ensures var gs := UploadGates(form, env, rows);
            var o := HandleUploadAvatar(form, env, rows, avatars);
            match FirstFailure(gs)
            case Some(k) => o == Outcome(Reject(gs[k].status, gs[k].message), rows, avatars)
            case None => o.response.status == Ok
                         || o.response == Reject(InternalError, MsgUploadFailed)
                         || o.response == Reject(InternalError, MsgUpdateFailed)
  {
    var gs := UploadGates(form, env, rows);
    match FirstFailure(gs)
    case Some(k) =>
      if k >= 1 { assert gs[0].passes; }
      if k >= 2 { assert gs[1].passes; }
      if k >= 3 { assert gs[2].passes; }
      if k >= 4 { assert gs[3].passes; }
    case None =>
      assert gs[0].passes && gs[1].passes && gs[2].passes && gs[3].passes && gs[4].passes;
  }

  /**
   * Exactly when the upload succeeds. Nothing about the caller appears: any
   * request naming a user with one primary card can set that user's avatar.
   */
  lemma UploadSuccessCharacterized(form: UploadForm, env: UploadEnv, rows: Table, avatars: Bucket)
    ensures HandleUploadAvatar(form, env, rows, avatars).response.status == Ok
        <==> && env.serviceKeyConfigured
             && form.file.Some? && Present(form.userId)
             && IsImageType(form.file.value.contentType)
             && form.file.value.size <= MaxAvatarBytes
             && !env.lookupFails
             && (exists k :: UniqueMatch(rows, PrimaryFilter(form.userId.value), k))
             && !env.storageFails
             && StoredName(form, env) !in avatars
             && env.publicUrlOf(StoredName(form, env)) != ""
             && !env.updateFails
  {
    if form.userId.Some? {
      var f := PrimaryFilter(form.userId.value);
      if SelectSingle(rows, f).Some? {
        assert UniqueMatch(rows, f, SelectSingle(rows, f).value);
      }
    }
  }

  /**
   * The 5 MiB boundary: a valid image of exactly 5,242,880 bytes passes the
   * size check, one byte more is rejected with 400 by it.
   */
  lemma SizeLimitBoundary(form: UploadForm, env: UploadEnv, rows: Table, avatars: Bucket)
    requires env.serviceKeyConfigured && form.file.Some? && Present(form.userId)
    requires IsImageType(form.file.value.contentType)
    ensures var o := HandleUploadAvatar(form, env, rows, avatars);
            o.response == Reject(BadRequest, MsgTooLarge) <==> form.file.value.size > 5242880
    ensures var o := HandleUploadAvatar(form, env, rows, avatars);
            form.file.value.size > 5242880 ==> o.rows == rows && o.avatars == avatars
  {
  }

  /** A storage failure after every check passed answers 500 and changes neither rows nor bucket. */
  lemma StorageFailureChangesNothing(form: UploadForm, env: UploadEnv, rows: Table, avatars: Bucket)
    requires FirstFailure(UploadGates(form, env, rows)).None? && env.storageFails
    ensures HandleUploadAvatar(form, env, rows, avatars) == Outcome(Reject(InternalError, MsgUploadFailed), rows, avatars)
  {
    var gs := UploadGates(form, env, rows);
    assert gs[0].passes && gs[1].passes && gs[2].passes && gs[3].passes && gs[4].passes;
  }

  /**
   * A failure after the object was stored (an empty public URL, or the row
   * update failing) answers 500 but leaves the new object in the bucket.
   */
  lemma LateFailureKeepsObject(form: UploadForm, env: UploadEnv, rows: Table, avatars: Bucket)
    requires var r := HandleUploadAvatar(form, env, rows, avatars).response;
             || r == Reject(InternalError, MsgUpdateFailed)
             || (&& r == Reject(InternalError, MsgUploadFailed)
                 && form.file.Some? && form.userId.Some?
                 && !env.storageFails && StoredName(form, env) !in avatars)
    ensures form.file.Some? && form.userId.Some?
    ensures var o := HandleUploadAvatar(form, env, rows, avatars);
            && o.rows == rows
            && StoredName(form, env) !in avatars
            && o.avatars == avatars[StoredName(form, env) := form.file.value]
    ensures HandleUploadAvatar(form, env, rows, avatars).response == Reject(InternalError, MsgUploadFailed)
            ==> env.publicUrlOf(StoredName(form, env)) == ""
  {
    var gs := UploadGates(form, env, rows);
    UploadFollowsGates(form, env, rows, avatars);
    assert FirstFailure(gs).None?;
    assert gs[0].passes && gs[1].passes && gs[2].passes && gs[3].passes && gs[4].passes;
    var file, userId := form.file.value, form.userId.value;
    var upload := UploadProfileImage(file, userId, env, avatars);
    assert upload.publicUrl.Some?;
  }
}
