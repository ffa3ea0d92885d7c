/**
 * The `profile-avatars` storage bucket: object name to uploaded file. Uploads
 * use `upsert: false`, so an object name that is already taken makes the
 * upload fail instead of replacing the object.
 */
module Storage {

  /** An uploaded file as the multipart form presents it. */
  datatype File = File(name: string, contentType: string, size: nat)

  type Bucket = map<string, File>

  datatype PutResult = PutResult(ok: bool, bucket: Bucket)

  /**
   * `.upload(name, file, { upsert: false })`; `fails` stands for every other
   * reason the storage service may return an error.
   */
  function PutNew(bucket: Bucket, name: string, file: File, fails: bool): (r: PutResult)
    ensures r.ok <==> !fails && name !in bucket
    ensures forall n :: n in bucket ==> n in r.bucket && r.bucket[n] == bucket[n]
    ensures r.bucket.Keys <= bucket.Keys + {name}
    ensures r.ok ==> name in r.bucket && r.bucket[name] == file
    ensures !r.ok ==> r.bucket == bucket
  {
    if fails || name in bucket then PutResult(false, bucket)
    else PutResult(true, bucket[name := file])
  }
}
