/** `handlerUploadThumbnail`: validate the id and the form file, write the image
    under the assets root, and only then look the record up, check its owner, set
    its `thumbnailURL` to the asset's local URL and persist it. */
module Thumbnails {
  import opened Common
  import opened Strings
  import opened Backend

  /** `10 << 20` bytes. JavaScript shifts a signed 32-bit integer and `bv32` is unsigned;
      the two agree here because the result is below 2^31. */
  const MaxThumbnailSize: nat := ((10 as bv32) << 20) as nat

  /** The two accepted media types. */
  const Jpeg: string := "image/jpeg"
  const Png: string := "image/png"

  /** The guards that run before anything is written: the id, then the form file's
      presence, size and type. None of them consults the metadata store. */
  function CheckThumbnailRequest(req: Request): (r: Checked<Upload>)
    ensures r.Reject? ==> r.response.BadRequest?
    ensures r == Reject(BadRequest("Invalid video ID")) <==> MissingId(req.videoId)
    ensures r == Reject(BadRequest("Thumbnail file missing")) <==> !MissingId(req.videoId) && req.file.None?
    ensures r == Reject(BadRequest("File size too big")) <==>
      !MissingId(req.videoId) && req.file.Some? && req.file.value.size > MaxThumbnailSize
    ensures r == Reject(BadRequest("Only jpeg/png are allowed")) <==>
      !MissingId(req.videoId) && req.file.Some? && req.file.value.size <= MaxThumbnailSize &&
      req.file.value.mediaType != Jpeg && req.file.value.mediaType != Png
    ensures r.Accept? <==>
      !MissingId(req.videoId) && req.file.Some? && req.file.value.size <= MaxThumbnailSize &&
      (req.file.value.mediaType == Jpeg || req.file.value.mediaType == Png)
    ensures r.Accept? ==> r.value == req.file.value
  {
    if MissingId(req.videoId) then Reject(BadRequest("Invalid video ID"))
    else if req.file.None? then Reject(BadRequest("Thumbnail file missing"))
    else if req.file.value.size > MaxThumbnailSize then Reject(BadRequest("File size too big"))
    else if req.file.value.mediaType != Jpeg && req.file.value.mediaType != Png then Reject(BadRequest("Only jpeg/png are allowed"))
    else Accept(req.file.value)
  }

  /** `mediaType.split('image/')[1]`, rendered as the template literal renders it:
      the two accepted media types yield "jpeg" and "png", and a type that does not
      contain `image/` yields the text "undefined". */
  function ThumbnailExt(mediaType: string): (ext: string)
    ensures mediaType == Jpeg ==> ext == "jpeg"
    ensures mediaType == Png ==> ext == "png"
    ensures (forall k :: 0 <= k <= |mediaType| ==> !OccursAt(mediaType, "image/", k)) ==> ext == "undefined"
  {
    Render(SplitSecond(mediaType, "image/"))
  }

  /** The extension the accepted media type stands for. */
  function AcceptedExt(mediaType: string): string {
    if mediaType == Jpeg then "jpeg" else "png"
  }

  /** The URL under which the server itself serves the written asset. */
  function ThumbnailUrl(cfg: Config, fileName: string): (url: string)
    ensures |url| > 17 + |fileName| && url[..17] == "http://localhost:" && url[|url| - |fileName|..] == fileName
  {
    "http://localhost:" + cfg.port + "/assets/" + fileName
  }

  /** The handler as a function of the store before the request. A request the guards
      refuse changes nothing. Otherwise the image is written first; a missing record
      or another owner then ends the request with the file left in place and the
      record untouched; for the owner, only `thumbnailURL` changes, the record is
      persisted once and returned, and nothing is deleted or uploaded. */
  function UploadThumbnailOutcome(s: Store, cfg: Config, req: Request): (r: (Response, Store))
    requires Keyed(s.videos)
    ensures CheckThumbnailRequest(req).Reject? ==> r == (CheckThumbnailRequest(req).response, s)
    ensures CheckThumbnailRequest(req).Accept? ==>
      var id := req.videoId.value;
      var fileName := FileName(req.token, AcceptedExt(req.file.value.mediaType));
      r.1.assets == s.assets + {fileName} && r.1.objects == s.objects &&
      (OwnedVideo(s.videos, id, req.userID).Reject? ==>
        r.0 == OwnedVideo(s.videos, id, req.userID).response && r.1.videos == s.videos && r.1.updates == s.updates) &&
      (OwnedVideo(s.videos, id, req.userID).Accept? ==>
        var record := s.videos[id].(thumbnailURL := Some(ThumbnailUrl(cfg, fileName)));
        r.0 == Ok(Some(record)) && r.1.videos == s.videos[id := record] && r.1.updates == s.updates + [record])
  {
    match CheckThumbnailRequest(req)
    case Reject(resp) => (resp, s)
    case Accept(file) =>
      var filePath := FileName(req.token, ThumbnailExt(file.mediaType));
      var written := s.(assets := s.assets + {filePath});
      match OwnedVideo(written.videos, req.videoId.value, req.userID)
      case Reject(resp) => (resp, written)
      case Accept(metadata) =>
        var record := metadata.(thumbnailURL := Some(ThumbnailUrl(cfg, filePath)));
        (Ok(Some(record)), written.(videos := written.videos[record.id := record], updates := written.updates + [record]))
  }

  /** The handler run against the world, step by step as `handlerUploadThumbnail` does it. */
  method HandleUploadThumbnail(w: World, cfg: Config, req: Request) returns (resp: Response)
    requires w.Valid()
    modifies w
    ensures w.Valid()
    ensures (resp, w.State()) == UploadThumbnailOutcome(old(w.State()), cfg, req)
  {
    if MissingId(req.videoId) {
      return BadRequest("Invalid video ID");
    }
    var videoId := req.videoId.value;
    if req.file.None? {
      return BadRequest("Thumbnail file missing");
    }
    var file := req.file.value;
    if file.size > MaxThumbnailSize {
      return BadRequest("File size too big");
    }
    var mediaType := file.mediaType;
    if mediaType != Jpeg && mediaType != Png {
      return BadRequest("Only jpeg/png are allowed");
    }
    var ext := ThumbnailExt(mediaType);
    var filePath := FileName(req.token, ext);
    w.WriteAsset(filePath);
    var metadata := w.GetVideo(videoId);
    if metadata.None? {
      return NotFound("No video exists with that ID");
    }
    if metadata.value.userID != req.userID {
      return Forbidden("Not your video");
    }
    var record := metadata.value.(thumbnailURL := Some(ThumbnailUrl(cfg, filePath)));
    w.UpdateVideo(record);
    resp := Ok(Some(record));
  }

  /** The size bound is inclusive: exactly `10 << 20` bytes passes the guards, one
      byte more is refused before anything is written. */
  lemma ThumbnailSizeBoundary(s: Store, cfg: Config, req: Request)
    requires Keyed(s.videos) && !MissingId(req.videoId)
    requires req.file.Some? && req.file.value.mediaType in {Jpeg, Png}
    ensures req.file.value.size == MaxThumbnailSize ==> CheckThumbnailRequest(req).Accept?
    ensures req.file.value.size > MaxThumbnailSize ==> UploadThumbnailOutcome(s, cfg, req) == (BadRequest("File size too big"), s)
  {
  }

  /** A well-formed upload for a missing record or another user's record still leaves
      `<token>.<ext>` under the assets root, while the store's records and update log
      are untouched. */
  lemma ThumbnailOrphanedOnRefusal(s: Store, cfg: Config, req: Request)
    requires Keyed(s.videos)
    requires CheckThumbnailRequest(req).Accept?
    requires UploadThumbnailOutcome(s, cfg, req).0.NotFound? || UploadThumbnailOutcome(s, cfg, req).0.Forbidden?
    ensures FileName(req.token, AcceptedExt(req.file.value.mediaType)) in UploadThumbnailOutcome(s, cfg, req).1.assets
    ensures UploadThumbnailOutcome(s, cfg, req).1.videos == s.videos
    ensures UploadThumbnailOutcome(s, cfg, req).1.updates == s.updates
  {
  }
}
