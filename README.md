# Upload handlers of a video file-storage API, in Dafny

This project models the two upload endpoints of a small video-hosting back end:

- `handlerUploadVideo` accepts an mp4 for a video record. It checks the id, then
  that the record exists and belongs to the caller, and then the form file's
  presence, size (at most `1 << 30` bytes) and type (exactly `video/mp4`). Next it
  stages the bytes under the assets root as `<token>.mp4`. It copies them to the
  object-storage bucket under the same key and sets the record's `videoURL` to
  `https://<bucket>.s3.<region>.amazonaws.com/<token>.mp4`. Finally it deletes the
  staged file and persists the record.
- `handlerUploadThumbnail` accepts a JPEG or PNG. It checks the id, then the form
  file's presence, size (at most `10 << 20` bytes) and type. It writes the image
  under the assets root as `<token>.jpeg` or `<token>.png`. Only then does it look
  the record up and check its owner. For the owner it sets `thumbnailURL` to
  `http://localhost:<port>/assets/<file>`, persists the record and returns it.

The world the handlers act on is the class `Backend.World`. It holds the metadata
store (a map from id to record), the names of the files under the assets root, the
object-storage keys written (with their content types) and the log of records
passed to `updateVideo`. Each handler has two forms. One is a pure function from
the state before a request to the response and the state after it
(`UploadVideoOutcome`, `UploadThumbnailOutcome`). The other is a method that
performs the handler's steps one by one against a `World` and is proved to produce
exactly that outcome. The properties are stated on the pure functions.

`token` is the random part of the file name (`randomBytes(32)` in base64url). It is
an input of the request here. The caller's `userID` is an input too: it is the
identity that authentication already resolved.

Points worth knowing about the two handlers:
- The object key is the bare `<token>.mp4`, the same name as the staged local file.
- The video handler checks existence and ownership before it looks at the file.
- The thumbnail handler writes its file before it checks existence and ownership.
  That file is never removed, so a refused thumbnail upload leaves it behind.
- The video handler stages a file only once every guard has passed, and deletes it
  again before it persists the record.

## Model

| member | source | states |
|---|---|---|
| Common.OwnedVideo | src/api/videos.ts:24-30 | a missing record is NotFound with its message, another user's record is Forbidden with its message, and otherwise the stored record itself is accepted (both directions); the same check sits at src/api/thumbnails.ts:46-52 |
| Common.MissingId | src/api/videos.ts:15 | `!videoId` holds exactly when the id is absent or empty (also at src/api/thumbnails.ts:12) |
| Common.FileName | src/api/videos.ts:52 | the name is the token, a dot, then the extension, and each part can be read back from it |
| Common.FileNameInjective | src/api/thumbnails.ts:40-42 | for a fixed extension, distinct tokens give distinct file names and object keys |
| Strings.FindFrom | src/api/videos.ts:47 | the separator search behind `split`: the first occurrence at or after a position, or none anywhere after it |
| Strings.SplitSecond | src/api/videos.ts:47 | `split(sep)[1]` is undefined exactly when the separator never occurs; otherwise it is the text right after the first occurrence, up to the next occurrence or the end, and contains no separator |
| Strings.Render | src/api/videos.ts:52 | a template literal prints a defined value as itself and `undefined` as the text `undefined` (also at src/api/thumbnails.ts:42) |
| Strings.SplitSecondAfterPrefix | src/api/thumbnails.ts:37 | a string made of the separator and a shorter tail splits to exactly that tail |
| Backend.World.GetVideo | src/api/videos.ts:24 | the lookup finds a record exactly when the id is stored, and the record it returns carries that id |
| Backend.World.WriteAsset | src/api/videos.ts:57 | after the write the file exists under the assets root, and no other state changes |
| Backend.World.DeleteAsset | src/api/videos.ts:66 | after the delete the file is absent, and no other state changes |
| Backend.World.PutObject | src/api/videos.ts:60-61 | the key holds an object of the given content type, replacing any earlier one |
| Backend.World.UpdateVideo | src/api/videos.ts:68 | the row with the record's id is replaced, the call is logged once, and every record stays under its own id |
| Videos.CheckVideoRequest | src/api/videos.ts:14-45 | each error answer with its message, and acceptance, happen exactly under their conditions in guard order: the id, existence, the owner, then the file's presence, size and type |
| Videos.VideoExt | src/api/videos.ts:47 | the extension taken from `video/mp4` is `mp4`, and a type without `video/` renders as `undefined` |
| Videos.S3Url | src/api/videos.ts:63 | the video URL is an https URL that ends with the object key |
| Videos.S3UrlInjective | src/api/videos.ts:60-63 | under one configuration, the URL determines the object key |
| Videos.UploadVideoOutcome | src/api/videos.ts:11-71 | success happens exactly when the guards accept. Every error leaves the whole store unchanged. On success, only the record's `videoURL` changes; the object `<token>.mp4` is written as `video/mp4` under the key the URL names; the staged file is removed; and `updateVideo` is called once |
| Videos.HandleUploadVideo | src/api/videos.ts:11-71 | performing the handler's steps in order (lookup, guards, write, upload, set URL, delete, update) yields exactly the outcome above and keeps records under their own ids |
| Videos.VideoSizeBoundary | src/api/videos.ts:39-41 | for the record's owner sending `video/mp4`: a file of exactly `1 << 30` bytes is accepted; anything larger is BadRequest and changes nothing |
| Videos.VideoLeavesNoStagedFile | src/api/videos.ts:57-66 | on success with a fresh token, the files under the assets root are the same as before |
| Videos.VideoOwnershipBeforeFile | src/api/videos.ts:24-37 | when the record is missing or not the caller's, the answer is NotFound or Forbidden whatever file was sent, and nothing changes |
| Thumbnails.CheckThumbnailRequest | src/api/thumbnails.ts:11-35 | each error answer with its message, and acceptance, happen exactly under their conditions in guard order: the id, then the file's presence, size and type; every refusal here is BadRequest |
| Thumbnails.ThumbnailExt | src/api/thumbnails.ts:37 | `image/jpeg` yields the extension `jpeg`, `image/png` yields `png`, and a type without `image/` renders as `undefined` |
| Thumbnails.ThumbnailUrl | src/api/thumbnails.ts:54 | the thumbnail URL starts with `http://localhost:` and ends with the asset's file name |
| Thumbnails.UploadThumbnailOutcome | src/api/thumbnails.ts:10-60 | a request the guards refuse changes nothing. Otherwise `<token>.<ext>` is added under the assets root and no object is written. A missing or foreign record then leaves the records and the update log as they were. For the owner, only `thumbnailURL` changes, the record is persisted once and returned, and the file is not deleted |
| Thumbnails.HandleUploadThumbnail | src/api/thumbnails.ts:10-60 | performing the handler's steps in order (guards, write, lookup, owner check, set URL, update) yields exactly the outcome above |
| Thumbnails.ThumbnailSizeBoundary | src/api/thumbnails.ts:27-30 | with an id and a JPEG or PNG: a file of exactly `10 << 20` bytes passes the guards; anything larger is BadRequest and changes nothing |
| Thumbnails.ThumbnailOrphanedOnRefusal | src/api/thumbnails.ts:44-52 | a well-formed upload that ends in NotFound or Forbidden still leaves `<token>.<ext>` under the assets root, with the records and update log untouched |
| Ordering.SizeLimits | src/api/videos.ts:12 | the two limits are 1073741824 and 10485760 bytes (the second from src/api/thumbnails.ts:27) |
| Ordering.OversizedFromNonOwner | src/api/thumbnails.ts:28-30 | an oversized upload for another user's record is Forbidden from the video handler but BadRequest from the thumbnail handler, and neither changes the store |
| Ordering.WrongTypeFromNonOwner | src/api/thumbnails.ts:33-35 | a small upload of a type neither handler accepts, for another user's record, is Forbidden from the video handler but BadRequest from the thumbnail handler |
| Ordering.WriteBeforeOwnershipOnlyForThumbnails | src/api/thumbnails.ts:44-52 | for a missing or foreign record both handlers give the same error, but only the thumbnail handler, given a valid image, has written a file |
| Ordering.ThumbnailFileBeforeOwnership | src/api/thumbnails.ts:22-35 | when the thumbnail file guards refuse, the answer is BadRequest whatever the metadata store holds |

## Left out

- Authentication (`getBearerToken`, `validateJWT`) is a call into code outside this model. The caller's `userID` is an input, and the Unauthenticated path is not modelled.
- Multipart parsing (`req.formData()`, `file.arrayBuffer()`) and the `instanceof File` test are not modelled. A form field that is absent or is not a file is `None`, and the file's bytes are opaque: only their size and media type are modelled. `file` is the field each handler reads: `video` for the video handler (src/api/videos.ts:33) and `thumbnail` for the thumbnail handler (src/api/thumbnails.ts:23). Where one request is given to both handlers, the same file is taken as sent under each handler's own field.
- Random token generation and base64url encoding are not modelled. The token is an arbitrary string in the request.
- The filesystem, object storage and database are abstract sets and maps in `Backend.World`. File contents are not tracked.
- `path.join` is not modelled. A local file is named by its file name relative to the assets root.
- The unawaited promises of the write, the upload and the delete in the video handler (src/api/videos.ts:57, 61, 66), and of the write in the thumbnail handler (src/api/thumbnails.ts:44), are modelled as steps that finish in order. The thumbnail write is taken as done before the lookup and before the response. Any interleaving between them is concurrency and is out of scope.
- Logging and JSON response encoding are not modelled. A response is the answer kind with its message, or the record returned as the body. HTTP status codes belong to the error classes, and those are not part of this model.
- Records carry only `id`, `userID`, `thumbnailURL` and `videoURL`. Any other column is one that both handlers carry through unchanged.
- The configuration module is not part of this model. `port` is taken as the text that the template literal interpolates.
- `split` is modelled for non-empty separators only. Both handlers call it with the constants `video/` and `image/`.
