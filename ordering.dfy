/** How the two handlers differ in the order of their guards and their writes:
    the video handler settles existence and ownership before it looks at the file
    and writes nothing until every guard has passed; the thumbnail handler checks
    the file first, writes it, and only then settles existence and ownership. */
module Ordering {
  import opened Common
  import opened Videos
  import opened Thumbnails

  /** The size limits are the values the shifts evaluate to. */
  lemma SizeLimits()
    ensures MaxUploadSize == 1073741824
    ensures MaxThumbnailSize == 10485760
  {
  }

  /** An upload too large for either handler, sent for someone else's record: the video
      handler answers Forbidden, the thumbnail handler BadRequest. Neither changes the
      store. */
  lemma OversizedFromNonOwner(s: Store, cfg: Config, req: Request)
    requires Keyed(s.videos)
    requires !MissingId(req.videoId) && req.videoId.value in s.videos
    requires s.videos[req.videoId.value].userID != req.userID
    requires req.file.Some? && req.file.value.size > MaxUploadSize
    ensures UploadVideoOutcome(s, cfg, req) == (Forbidden("Not your video"), s)
    ensures UploadThumbnailOutcome(s, cfg, req) == (BadRequest("File size too big"), s)
  {
  }

  /** A small file of a type neither handler accepts, sent for someone else's record:
      again Forbidden from the video handler and BadRequest from the thumbnail handler. */
  lemma WrongTypeFromNonOwner(s: Store, cfg: Config, req: Request)
    requires Keyed(s.videos)
    requires !MissingId(req.videoId) && req.videoId.value in s.videos
    requires s.videos[req.videoId.value].userID != req.userID
    requires req.file.Some? && req.file.value.size <= MaxThumbnailSize
    requires req.file.value.mediaType !in {VideoMediaType, Jpeg, Png}
    ensures UploadVideoOutcome(s, cfg, req) == (Forbidden("Not your video"), s)
    ensures UploadThumbnailOutcome(s, cfg, req) == (BadRequest("Only jpeg/png are allowed"), s)
  {
  }

  /** For a record that is missing or not the caller's, the video handler writes no
      file, whatever was uploaded, while the thumbnail handler, given an acceptable
      image, leaves that image under the assets root. Both answer the same error. */
  lemma WriteBeforeOwnershipOnlyForThumbnails(s: Store, cfg: Config, req: Request, image: Upload)
    requires Keyed(s.videos)
    requires !MissingId(req.videoId) && !OwnedBy(s.videos, req)
    requires image.size <= MaxThumbnailSize && image.mediaType in {Jpeg, Png}
    ensures UploadVideoOutcome(s, cfg, req).1 == s
    ensures var t := UploadThumbnailOutcome(s, cfg, req.(file := Some(image)));
      t.0 == UploadVideoOutcome(s, cfg, req).0 &&
      t.1.assets == s.assets + {FileName(req.token, AcceptedExt(image.mediaType))} &&
      t.1.videos == s.videos && t.1.updates == s.updates && t.1.objects == s.objects
  {
  }

  /** When the thumbnail guards refuse a request, the answer does not depend on the
      metadata store at all. */
  lemma ThumbnailFileBeforeOwnership(s1: Store, s2: Store, cfg: Config, req: Request)
    requires Keyed(s1.videos) && Keyed(s2.videos)
    requires CheckThumbnailRequest(req).Reject?
    ensures UploadThumbnailOutcome(s1, cfg, req).0 == UploadThumbnailOutcome(s2, cfg, req).0
    ensures UploadThumbnailOutcome(s1, cfg, req).0.BadRequest?
  {
  }
}
