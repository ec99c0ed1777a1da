/** `handlerUploadVideo`: validate the request, check ownership, stage the upload
    under a random name, copy it to object storage under the same name, point the
    record's `videoURL` at the object, delete the staged file and persist the record. */
module Videos {
  import opened Common
  import opened Strings
  import opened Backend

  /** `1 << 30` bytes. JavaScript shifts a signed 32-bit integer and `bv32` is unsigned;
      the two agree here because the result is below 2^31. */
  const MaxUploadSize: nat := ((1 as bv32) << 30) as nat

  /** The only media type accepted. */
  const VideoMediaType: string := "video/mp4"

  /** What the guards hand on to the rest of the handler. */
  datatype Accepted = Accepted(record: Video, file: Upload)

  /** The record exists and belongs to the caller (and the id is present). */
  predicate OwnedBy(videos: map<string, Video>, req: Request) {
    !MissingId(req.videoId) && req.videoId.value in videos && videos[req.videoId.value].userID == req.userID
  }

  /** The guard chain of `handlerUploadVideo`, in its order: the id, then the record's
      existence and owner, and only then the form file's presence, size and type. */
  function CheckVideoRequest(videos: map<string, Video>, req: Request): (r: Checked<Accepted>)
    ensures r == Reject(BadRequest("Invalid video ID")) <==> MissingId(req.videoId)
    ensures r == Reject(NotFound("No video exists with that ID")) <==> !MissingId(req.videoId) && req.videoId.value !in videos
    ensures r == Reject(Forbidden("Not your video")) <==>
      !MissingId(req.videoId) && req.videoId.value in videos && videos[req.videoId.value].userID != req.userID
    ensures r == Reject(BadRequest("Video file missing")) <==> OwnedBy(videos, req) && req.file.None?
    ensures r == Reject(BadRequest("File size too big")) <==>
      OwnedBy(videos, req) && req.file.Some? && req.file.value.size > MaxUploadSize
    ensures r == Reject(BadRequest("Invalid video format")) <==>
      OwnedBy(videos, req) && req.file.Some? && req.file.value.size <= MaxUploadSize && req.file.value.mediaType != VideoMediaType
    ensures r.Accept? <==>
      OwnedBy(videos, req) && req.file.Some? && req.file.value.size <= MaxUploadSize && req.file.value.mediaType == VideoMediaType
    ensures r.Accept? ==> r.value == Accepted(videos[req.videoId.value], req.file.value)
  {
    if MissingId(req.videoId) then Reject(BadRequest("Invalid video ID"))
    else
      match OwnedVideo(videos, req.videoId.value, req.userID)
      case Reject(resp) => Reject(resp)
      case Accept(metadata) =>
        if req.file.None? then Reject(BadRequest("Video file missing"))
        else if req.file.value.size > MaxUploadSize then Reject(BadRequest("File size too big"))
        else if req.file.value.mediaType != VideoMediaType then Reject(BadRequest("Invalid video format"))
        else Accept(Accepted(metadata, req.file.value))
  }

  /** `file.type.split('video/')[1]`, rendered as the template literal renders it:
      the one accepted media type yields "mp4", and a type that does not contain
      `video/` yields the text "undefined". */
  function VideoExt(mediaType: string): (ext: string)
    ensures mediaType == VideoMediaType ==> ext == "mp4"
    ensures (forall k :: 0 <= k <= |mediaType| ==> !OccursAt(mediaType, "video/", k)) ==> ext == "undefined"
  {
    Render(SplitSecond(mediaType, "video/"))
  }

  /** The public URL of the object stored under `key`. */
  function S3Url(cfg: Config, key: string): (url: string)
    ensures |url| > 8 + |key| && url[..8] == "https://" && url[|url| - |key|..] == key
  {
    "https://" + cfg.s3Bucket + ".s3." + cfg.s3Region + ".amazonaws.com/" + key
  }

  /** Under one configuration the URL determines the object key. */
  lemma S3UrlInjective(cfg: Config, k1: string, k2: string)
    requires S3Url(cfg, k1) == S3Url(cfg, k2)
    ensures k1 == k2
  {
  }

  /** The handler as a function of the store before the request: the response and the
      store after it. Every error leaves the store as it was; success stages the file,
      writes the object, sets `videoURL` on the fetched record, deletes the staged
      file and persists the record once. */
  function UploadVideoOutcome(s: Store, cfg: Config, req: Request): (r: (Response, Store))
    requires Keyed(s.videos)
    ensures r.0.Ok? <==> CheckVideoRequest(s.videos, req).Accept?
    ensures !r.0.Ok? ==> r == (CheckVideoRequest(s.videos, req).response, s)
    ensures r.0.Ok? ==>
      var id := req.videoId.value;
      var key := FileName(req.token, "mp4");
      r.0 == Ok(None) &&
      id in s.videos && r.1.videos.Keys == s.videos.Keys &&
      (forall other :: other in s.videos && other != id ==> r.1.videos[other] == s.videos[other]) &&
      r.1.videos[id] == s.videos[id].(videoURL := Some(S3Url(cfg, key))) &&
      r.1.assets == s.assets - {key} &&
      r.1.objects == s.objects[key := VideoMediaType] &&
      r.1.updates == s.updates + [r.1.videos[id]]
  {
    match CheckVideoRequest(s.videos, req)
    case Reject(resp) => (resp, s)
    case Accept(a) =>
      var fileName := FileName(req.token, VideoExt(a.file.mediaType));
      var staged := s.assets + {fileName};
      var metadata := a.record.(videoURL := Some(S3Url(cfg, fileName)));
      (Ok(None), Store(s.videos[metadata.id := metadata], staged - {fileName}, s.objects[fileName := a.file.mediaType], s.updates + [metadata]))
  }

  /** The handler run against the world, step by step as `handlerUploadVideo` does it. */
  method HandleUploadVideo(w: World, cfg: Config, req: Request) returns (resp: Response)
    requires w.Valid()
    modifies w
    ensures w.Valid()
    ensures (resp, w.State()) == UploadVideoOutcome(old(w.State()), cfg, req)
  {
    if MissingId(req.videoId) {
      return BadRequest("Invalid video ID");
    }
    var videoId := req.videoId.value;
    var metadata := w.GetVideo(videoId);
    if metadata.None? {
      return NotFound("No video exists with that ID");
    }
    if metadata.value.userID != req.userID {
      return Forbidden("Not your video");
    }
    if req.file.None? {
      return BadRequest("Video file missing");
    }
    var file := req.file.value;
    if file.size > MaxUploadSize {
      return BadRequest("File size too big");
    }
    if file.mediaType != VideoMediaType {
      return BadRequest("Invalid video format");
    }
    var ext := VideoExt(file.mediaType);
    var fileName := FileName(req.token, ext);
    w.WriteAsset(fileName);
    w.PutObject(fileName, file.mediaType);
    var record := metadata.value.(videoURL := Some(S3Url(cfg, fileName)));
    w.DeleteAsset(fileName);
    w.UpdateVideo(record);
    resp := Ok(None);
  }

  /** The size bound is inclusive: a file of exactly `1 << 30` bytes passes, one byte
      more is refused, for an owner sending an mp4. */
  lemma VideoSizeBoundary(s: Store, cfg: Config, req: Request)
    requires Keyed(s.videos) && OwnedBy(s.videos, req)
    requires req.file.Some? && req.file.value.mediaType == VideoMediaType
    ensures req.file.value.size == MaxUploadSize ==> UploadVideoOutcome(s, cfg, req).0 == Ok(None)
    ensures req.file.value.size > MaxUploadSize ==> UploadVideoOutcome(s, cfg, req) == (BadRequest("File size too big"), s)
  {
  }

  /** The staged copy is removed again: when the random name was not already taken,
      the files under the assets root are exactly those present before. */
  lemma VideoLeavesNoStagedFile(s: Store, cfg: Config, req: Request)
    requires Keyed(s.videos)
    requires UploadVideoOutcome(s, cfg, req).0.Ok?
    requires FileName(req.token, "mp4") !in s.assets
    ensures UploadVideoOutcome(s, cfg, req).1.assets == s.assets
  {
  }

  /** Existence and ownership are settled before the form file is looked at: when they
      fail, the outcome is the same whatever file (or none) was sent. */
  lemma VideoOwnershipBeforeFile(s: Store, cfg: Config, req: Request, other: Option<Upload>)
    requires Keyed(s.videos)
    requires !MissingId(req.videoId) && !OwnedBy(s.videos, req)
    ensures UploadVideoOutcome(s, cfg, req) == UploadVideoOutcome(s, cfg, req.(file := other))
    ensures UploadVideoOutcome(s, cfg, req).1 == s
    ensures UploadVideoOutcome(s, cfg, req).0.NotFound? || UploadVideoOutcome(s, cfg, req).0.Forbidden?
  {
  }
}
