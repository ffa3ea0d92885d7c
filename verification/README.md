# Profile API handlers: a Dafny model

This project models the decision logic of the two server routes that change a
digital business card: `POST /api/profile/upload-avatar` and
`POST /api/profile/update`. Each route is a pure function from an
already-parsed request, the current `business_cards` table and the
`profile-avatars` bucket to an HTTP status and body plus the new table and
bucket. The hosted store is replaced by an in-memory model:

- The table is a sequence of rows. A row is a map from column name to a
  scalar JSON value (null, boolean, integer or string). A row's position is its identity in the store. Its `id` column is
  ordinary data, because the update route may rewrite it.
- `.eq(column, value)` chains are filters. `.single()` succeeds only when
  exactly one row passes the filter. `.update(patch)` merges the patch into
  every row that passes the filter.
- The bucket maps object names to uploaded files. Uploads use
  `upsert: false`: a name already taken makes the upload fail and never
  replaces the object.
- Everything the routes get from outside is a parameter: whether the
  service-role key is configured, `Date.now()`, `getPublicUrl`, and whether
  each store or storage call fails.

Modules:

- `Rows`: the row model and the query operations.
- `Cards`: the column names and the filters the routes build.
- `Http`: statuses, bodies, and JavaScript truthiness of request fields.
- `Storage`: the bucket and the non-overwriting put.
- `Gates`: a generic fail-fast check list. It is the reference definition that
  each handler's check ordering is proved against.
- `Decimal`: the decimal rendering of the timestamp and its inverse.
- `FileNames`: the `<userId>-<timestamp>.<ext>` object name and its parser.
- `UploadAvatar` and `UpdateProfile`: the two handlers and their properties.

What the code does, as modelled:

- The upload route takes `userId` from the form. It has no caller identity and
  no ownership check. `UploadSuccessCharacterized` lists every condition for a
  200, and none of them concerns the caller.
- On success the upload route sets `avatar_url` on every card whose
  `user_id` matches, not only on the primary card it looked up.
- The update route passes `updates` to the store unfiltered. `id`, `user_id`
  and `is_primary` can therefore be rewritten. `UpdateCanReassignOwner`
  shows an owner handing a card to another user, after which the former
  owner's updates get 403.
- A storage-stage 500 can leave a new object in the bucket with no row
  pointing at it. `LateFailureKeepsObject` states this.
- A file of exactly 5 MiB is accepted, although the rejection message says
  the size "must be less than 5MB".

Neither route authenticates the caller, and the update route does not
restrict which columns `updates` may set; the model follows the code.

## Model

| member | source | states |
|---|---|---|
| Rows.SelectSingle | src/app/api/profile/upload-avatar/route.ts:89-98 | `.single()` yields position k exactly when row k is the one and only row passing the filter, and an error when no row or several rows pass |
| Rows.MatchIndices | src/app/api/profile/update/route.ts:24-28 | the positions reported are exactly the rows passing the `.eq` filters, in strictly increasing store order |
| Rows.UpdateWhere | src/app/api/profile/upload-avatar/route.ts:117-120 | `.update(patch).eq(...)` keeps the table's length, merges the patch into every row passing the filter and leaves every other row as it was |
| Rows.Merge | src/app/api/profile/update/route.ts:46-51 | a partial-column update: the columns named in the patch take the patch's values, every other column keeps its prior value, and no column is dropped |
| Rows.MergeIdempotent | src/app/api/profile/update/route.ts:46-51 | merging the same update object twice gives the same row as merging it once |
| Cards.IdFilter | src/app/api/profile/update/route.ts:24-28 | a row passes `.eq('id', profileId)` exactly when its `id` column is that string |
| Cards.OwnerFilter | src/app/api/profile/upload-avatar/route.ts:117-120 | a row passes `.eq('user_id', userId)` exactly when it is owned by that user |
| Cards.PrimaryFilter | src/app/api/profile/upload-avatar/route.ts:89-94 | a row passes the primary-profile lookup exactly when it is owned by the user and `is_primary` is `true` |
| Gates.FirstFailure | src/app/api/profile/upload-avatar/route.ts:48-104 | fail-fast order: the reported check fails and every earlier check passes, and no check is reported exactly when all pass |
| Decimal.NatToDecimal | src/app/api/profile/upload-avatar/route.ts:19 | the timestamp renders as a non-empty string of decimal digits with no leading zero |
| Decimal.DecimalRoundTrip | src/app/api/profile/upload-avatar/route.ts:19 | parsing the decimal rendering of a timestamp gives back the timestamp |
| Decimal.DecimalInjective | src/app/api/profile/upload-avatar/route.ts:19 | different timestamps render as different strings |
| FileNames.AfterLast | src/app/api/profile/upload-avatar/route.ts:18 | `split(sep).pop()` is a separator-free suffix that is either the whole string or follows a separator |
| FileNames.LastSegmentUnique | src/app/api/profile/upload-avatar/route.ts:18 | a string is the part after the last separator if and only if it is what `split(sep).pop()` returns |
| FileNames.Extension | src/app/api/profile/upload-avatar/route.ts:18 | the extension is the part of the file name after its last `.`, or the whole name when it has no `.`; it contains no `.` |
| FileNames.AvatarFileNameRoundTrip | src/app/api/profile/upload-avatar/route.ts:18-19 | the object name `<userId>-<timestamp>.<ext>` parses back into the user id, timestamp and extension it was built from |
| FileNames.AvatarFileNameInjective | src/app/api/profile/upload-avatar/route.ts:18-19 | equal object names come from the same user id, timestamp and extension |
| FileNames.DistinctTimestampsDistinctNames | src/app/api/profile/upload-avatar/route.ts:17-19 | for one user and one uploaded file name, distinct timestamps give distinct object names |
| Storage.PutNew | src/app/api/profile/upload-avatar/route.ts:22-32 | with `upsert: false` the upload succeeds exactly when the name is free and the service does not fail; existing objects are never replaced; on success the one new object is the file; on failure the bucket is unchanged |
| UploadAvatar.UploadProfileImage | src/app/api/profile/upload-avatar/route.ts:8-44 | a URL is returned exactly when the key is configured, storage does not fail and the generated name is free; the URL is that name's public URL and the bucket gains exactly that object; on `null` the bucket is unchanged |
| UploadAvatar.SetAvatarForUser | src/app/api/profile/upload-avatar/route.ts:116-120 | every card of the user gets `avatar_url` set to the URL with all other columns kept, and every other user's row is unchanged |
| UploadAvatar.HandleUploadAvatar | src/app/api/profile/upload-avatar/route.ts:46-133 | status is 200, 400, 404 or 500; rows change only on 200; 400 and 404 change nothing; the bucket either is unchanged or gains the file under the fresh generated name; a 200 carries the stored object's public URL, which every card of the user now holds while all other rows are untouched |
| UploadAvatar.UploadFollowsGates | src/app/api/profile/upload-avatar/route.ts:48-104 | checks run in the order service key, missing input, type, size, primary-profile lookup; the first failing one decides status and message with no state change; when all pass the answer is 200 or a storage-stage 500 |
| UploadAvatar.UploadSuccessCharacterized | src/app/api/profile/upload-avatar/route.ts:46-133 | a 200 happens if and only if every check passes, the user has exactly one primary card, storage succeeds under a free name, the public URL is non-empty and the row update succeeds; no caller identity is involved |
| UploadAvatar.SizeLimitBoundary | src/app/api/profile/upload-avatar/route.ts:78-84 | for a valid image the size rejection happens exactly when the size exceeds 5,242,880 bytes, so exactly 5 MiB passes; a rejected file touches neither rows nor bucket |
| UploadAvatar.StorageFailureChangesNothing | src/app/api/profile/upload-avatar/route.ts:106-114 | when every check passes but the storage service fails, the answer is 500 "Failed to upload image" and neither the rows nor the bucket change |
| UploadAvatar.LateFailureKeepsObject | src/app/api/profile/upload-avatar/route.ts:106-128 | a 500 after the object was stored, whether from an empty public URL or from a failed row update, leaves the rows unchanged while the newly stored object stays in the bucket |
| UpdateProfile.HandleUpdateProfile | src/app/api/profile/update/route.ts:10-64 | status is 200, 400, 403, 404 or 500; nothing changes unless 200; 400 exactly when a field is missing; 404 exactly when the fields are present and the fetch fails or no single row has the id; 403 exactly when that one row exists and has another owner; 500 exactly when the owner's write fails; 200 merges the update into exactly that owned row, leaves every other row alone and returns the merged row |
| UpdateProfile.UpdateFollowsGates | src/app/api/profile/update/route.ts:16-43 | checks run in the order required fields, lookup, ownership; the first failing one decides status and message with no state change; so a missing row is never a 403 |
| UpdateProfile.UpdateIdempotent | src/app/api/profile/update/route.ts:46-51 | sending an accepted update again leaves the table exactly as the first call left it, whatever the store does on the second call |
| UpdateProfile.ForeignUpdateForbidden | src/app/api/profile/update/route.ts:38-43 | for every table and request, a well-formed update of the one existing row with that id by a user other than its owner gets 403 and leaves the table unchanged |
| UpdateProfile.OwnerUpdateMerges | src/app/api/profile/update/route.ts:46-51 | for every table, the owner's update of one column on the one row with that id answers 200, sets that column, keeps every other column of the row (`id`, `user_id` and `is_primary` included), adds no other column and leaves every other row unchanged |
| UpdateProfile.SampleForeignUpdateForbidden | src/app/api/profile/update/route.ts:38-43 | example: user `u2`'s update of `u1`'s card `p1` gets 403 and changes nothing |
| UpdateProfile.SampleOwnerUpdateMerges | src/app/api/profile/update/route.ts:46-51 | example: `u1`'s update of `phone` on card `p1` sets it and keeps `email` |
| UpdateProfile.UpdateCanReassignOwner | src/app/api/profile/update/route.ts:46-51 | an accepted update may rewrite `user_id`, after which the former owner is refused with 403 |

## Left out

- HTTP parsing (`request.formData()`, `request.json()`) and `NextResponse`: requests are parsed records and responses are status plus body.
- Request fields that are not strings: a `file` entry that is a string, numeric or boolean `profileId`/`userId`, and a truthy `updates` that is not an object. They are not modelled.
- An empty `updates` object is modelled as a merge that changes nothing. What the store does with an empty update is library behaviour.
- Column values other than null, booleans, integers and strings (fractional numbers, arrays, objects), and the store's conversion of a written value to its column's type: the model stores values as sent.
- The store's schema and constraints: unknown columns, and key and uniqueness constraints. An update that rewrites `id` to another row's id answers 200 in the model and leaves two rows with the same `id`; the real store refuses that write. The model has that refusal only through the write-failure parameter.
- The catch-all `try/catch` blocks and `console` logging. Exceptions thrown by the library are not modelled.
- Supabase client construction and environment reads. The service-role key is a boolean parameter.
- `getPublicUrl` is an arbitrary function of the object name, and `Date.now()` is a natural-number parameter.
- JavaScript's exponent notation for numbers of 10^21 and above: the timestamp is rendered as plain decimal digits.
- Object `cacheControl` metadata, and the bucket name `profile-avatars`: the model has one bucket.
- The store's consistency and atomicity are assumed: a failed update changes nothing, and no other request interleaves.
- `src/utils/supabaseClient.ts` is not part of this model. Its `uploadProfileImage` duplicates the route's own copy, which is modelled. Its client singletons and `deleteProfileImage` are store plumbing.
- Page components and the field-visibility rules of the profile page are not part of this model. Neither route uses them.
