/**
  `/api/upload` (`src/app/api/upload/route.ts`): the validation chains in
  front of storing and deleting a media file.  The security layers, the
  admin check, the clock, the random name part and the file system are
  parameters: their verdicts or results are inputs to the decision.
 */
module Upload {
  import opened Wrappers
  import opened Text

  const ImageTypes := ["image/jpeg", "image/jpg", "image/png", "image/webp", "image/gif"]
  const AudioTypes := ["audio/mpeg", "audio/mp3", "audio/wav", "audio/ogg"]
  const VideoTypes := ["video/mp4", "video/webm", "video/ogg"]

  /** 10 MiB. */
  const MaxFileSize := 10 * 1024 * 1024

  /** The uploaded file: its name, its declared MIME type and its size in bytes. */
  datatype File = File(name: string, mimeType: string, size: int)

  /** The form fields `file` and `type`, or a body `formData()` could not read. */
  datatype Form = Fields(file: Option<File>, kind: string) | Unreadable(message: string)

  /** Whatever the route answers. */
  datatype Reply =
    | Blocked                       // a response of a security layer, passed through
    | Error(status: int, error: string)
    | Stored(url: string, path: string, bucket: string, mimeType: string, size: int)
    | Removed

  /** The allowed MIME types and the bucket of a declared kind. */
  function Allowed(kind: string): (r: (seq<string>, string))
    requires kind in {"image", "audio", "video"}
    ensures r.1 in {"media-images", "media-audio", "media-videos"}
  {
    if kind == "image" then (ImageTypes, "media-images")
    else if kind == "audio" then (AudioTypes, "media-audio")
    else (VideoTypes, "media-videos")
  }

  /** `file.name.split('.').pop()` */
  function Extension(name: string): string {
    LastPiece(name, '.')
  }

  /** `${Date.now()}_${random}.${fileExt}` */
  function StoredName(now: int, random: string, name: string): string {
    IntToString(now) + "_" + random + "." + Extension(name)
  }

  /** `Upload failed: ${error.message || 'Unknown error'}` */
  function UploadFailed(m: string): string {
    "Upload failed: " + (if m == "" then "Unknown error" else m)
  }

  /**
    `POST`: the security layer, the admin check and the API security layer
    in that order, then the form checks; `writeError` is what `mkdir` or
    `writeFile` threw, if anything.
   */
  function UploadPost(securityBlocks: bool, authenticated: bool, apiSecurityBlocks: bool, form: Form,
                      now: int, random: string, writeError: Option<string>): Reply {
    if securityBlocks then Blocked
    else if !authenticated then Error(401, "Unauthorized")
    else if apiSecurityBlocks then Blocked
    else
      match form
      case Unreadable(m) => Error(500, UploadFailed(m))
      case Fields(file, kind) =>
        if file.None? then Error(400, "No file provided")
        else if kind !in {"image", "audio", "video"} then Error(400, "Invalid file type specified")
        else if file.value.size > MaxFileSize then Error(400, "File size must be less than 10MB")
        else
          var (types, bucket) := Allowed(kind);
          if file.value.mimeType !in types then Error(400, "Invalid file type. Allowed types: " + Join(types, ", "))
          else if writeError.Some? then Error(500, UploadFailed(writeError.value))
          else
            var fileName := StoredName(now, random, file.value.name);
            Stored("/uploads/" + bucket + "/" + fileName, fileName, bucket, file.value.mimeType, file.value.size)
  }

  /** The admin check comes before the API security layer and before anything about the form. */
  lemma UploadNeedsAdmin(securityBlocks: bool, apiSecurityBlocks: bool, form: Form, now: int, random: string, writeError: Option<string>)
    requires !securityBlocks
    ensures UploadPost(securityBlocks, false, apiSecurityBlocks, form, now, random, writeError) == Error(401, "Unauthorized")
  {
  }

  /**
    For an authenticated request past both security layers: no file is
    400, a kind outside image/audio/video is 400, a size over 10 MiB is
    400 while exactly 10 MiB passes, and a MIME type outside the kind's list
    is 400.
   */
  lemma UploadChecks(file: Option<File>, kind: string, now: int, random: string, writeError: Option<string>)
    ensures var r := UploadPost(false, true, false, Fields(file, kind), now, random, writeError);
      (file.None? ==> r == Error(400, "No file provided"))
      && (file.Some? && kind !in {"image", "audio", "video"} ==> r == Error(400, "Invalid file type specified"))
      && (file.Some? && kind in {"image", "audio", "video"} && file.value.size > MaxFileSize ==> r.Error? && r.status == 400)
      && (r.Stored? ==>
            file.Some? && file.value.size <= MaxFileSize && kind in {"image", "audio", "video"}
            && file.value.mimeType in Allowed(kind).0)
  {
  }

  /**
    A stored upload lands in the bucket of its kind, under
    "/uploads/<bucket>/<name>", and its name ends in a dot and the text
    after the last dot of the original name (all of it when there is none).
   */
  lemma StoredUpload(file: File, kind: string, now: int, random: string)
    requires kind in {"image", "audio", "video"}
    requires file.size <= MaxFileSize && file.mimeType in Allowed(kind).0
    ensures var r := UploadPost(false, true, false, Fields(Some(file), kind), now, random, None);
      var ext := Extension(file.name);
      r.Stored?
      && r.bucket == (if kind == "image" then "media-images" else if kind == "audio" then "media-audio" else "media-videos")
      && r.url == "/uploads/" + r.bucket + "/" + r.path
      && EndsWith(r.path, "." + ext) && '.' !in ext
      && EndsWith(file.name, ext)
      && (|ext| < |file.name| ==> file.name[|file.name| - |ext| - 1] == '.')
      && ('.' !in file.name ==> ext == file.name)
  {
    LastPieceShape(file.name, '.');
    StoredNameEnds(now, random, file.name);
  }

  /** The stored name ends in a dot and the extension. */
  lemma StoredNameEnds(now: int, random: string, name: string)
    ensures EndsWith(StoredName(now, random, name), "." + Extension(name))
  {
    var prefix := IntToString(now) + "_" + random;
    var tail := "." + Extension(name);
    assert StoredName(now, random, name) == prefix + tail;
    assert (prefix + tail)[|prefix + tail| - |tail|..] == tail;
  }

  /** `Delete failed: ${error.message || 'Unknown error'}` */
  function DeleteFailed(m: string): string {
    "Delete failed: " + (if m == "" then "Unknown error" else m)
  }

  /** The file `DELETE` removes, relative to the working directory, before `path.join` normalises it. */
  function DeleteTarget(bucket: string, file: string): string {
    "public/uploads/" + bucket + "/" + file
  }

  /** Whether the file parameter may name a file: no "..", no "/" and no "\". */
  predicate SafeFileName(file: string) {
    !Contains(file, "..") && '/' !in file && '\\' !in file
  }

  /** `DELETE`, with the file the store removed (or the error `unlink` threw). */
  function UploadDelete(authenticated: bool, path: Option<string>, bucket: Option<string>, unlinkError: Option<string>): Reply {
    if !authenticated then Error(401, "Unauthorized")
    else if path.None? || path.value == "" || bucket.None? || bucket.value == "" then Error(400, "Missing path or bucket parameter")
    else if !SafeFileName(path.value) then Error(400, "Invalid path parameter")
    else if unlinkError.Some? then Error(500, DeleteFailed(unlinkError.value))
    else Removed
  }

  /**
    The admin check comes first; then missing parameters, then an unsafe
    file name, give 400; a deletion happens only for a safe file name.
   */
  lemma DeleteChecks(authenticated: bool, path: Option<string>, bucket: Option<string>, unlinkError: Option<string>)
    ensures !authenticated ==> UploadDelete(authenticated, path, bucket, unlinkError) == Error(401, "Unauthorized")
    ensures authenticated && (path.None? || bucket.None?) ==>
      UploadDelete(authenticated, path, bucket, unlinkError) == Error(400, "Missing path or bucket parameter")
    ensures UploadDelete(authenticated, path, bucket, unlinkError) == Removed ==>
      authenticated && path.Some? && bucket.Some? && SafeFileName(path.value) && path.value != "" && bucket.value != ""
  {
  }

  /**
    The bucket parameter is not checked: any non-empty bucket is accepted
    with a safe file name, including one that climbs out of the uploads
    directory.
   */
  lemma BucketUnchecked(path: string, bucket: string)
    requires SafeFileName(path) && path != "" && bucket != ""
    ensures UploadDelete(true, Some(path), Some(bucket), None) == Removed
    ensures UploadDelete(true, Some("a"), Some(".."), None) == Removed
    ensures Contains(DeleteTarget("..", "a"), "..")
  {
    var t := DeleteTarget("..", "a");
    assert t[15..17] == "..";
    ContainsAt(t, "..", 15);
  }
}
