/** Values shared by the two upload handlers: the metadata record, the request as
    the handlers see it once authentication is done, the configuration they read,
    the responses they produce, and the ownership check both of them perform. */
module Common {

  datatype Option<+T> = None | Some(value: T)

  /** A row of the metadata store. Only the fields the handlers read or write are
      modelled; `with`-updates leave every other field as it was. */
  datatype Video = Video(id: string, userID: string, thumbnailURL: Option<string>, videoURL: Option<string>)

  /** The form file of a multipart request: its declared byte length and media type.
      The bytes themselves are opaque to both handlers. */
  datatype Upload = Upload(size: nat, mediaType: string)

  /** One upload request. `userID` is the identity the bearer token resolved to;
      `file` is the form field the handler reads (`video` for the video upload,
      `thumbnail` for the thumbnail upload), None when it is absent or not a file;
      where one request is given to both handlers, the same file is taken as sent
      under each handler's own field. `token` stands for the 32 random bytes
      rendered in base64url. */
  datatype Request = Request(videoId: Option<string>, userID: string, file: Option<Upload>, token: string)

  /** The configuration values the handlers interpolate into URLs. */
  datatype Config = Config(port: string, s3Bucket: string, s3Region: string)

  /** What a handler answers: success with an optional JSON body, or one of the
      thrown errors with its message. */
  datatype Response =
    | Ok(body: Option<Video>)
    | BadRequest(message: string)
    | NotFound(message: string)
    | Forbidden(message: string)

  /** The outcome of a validation step: the value it extracted, or the error it throws. */
  datatype Checked<+T> = Accept(value: T) | Reject(response: Response)

  /** The abstract world a handler acts on: the metadata store, the names of the
      files present under the assets root, the object-storage keys written (with the
      content type each was written with), and every record passed to `updateVideo`,
      in call order. */
  datatype Store = Store(videos: map<string, Video>, assets: set<string>, objects: map<string, string>, updates: seq<Video>)

  /** The store files each record under its own id. */
  ghost predicate Keyed(videos: map<string, Video>) {
    forall id :: id in videos ==> videos[id].id == id
  }

  /** `!videoId` in both handlers: the path parameter is absent or empty, the two
      values of an optional string that JavaScript treats as false. */
  predicate MissingId(videoId: Option<string>): (missing: bool)
    ensures !missing <==> videoId.Some? && |videoId.value| > 0
  {
    videoId.None? || videoId.value == ""
  }

  /** The lookup by id followed by the two ownership guards: no record is NotFound,
      a record owned by someone else is Forbidden, otherwise the record itself. */
  function OwnedVideo(videos: map<string, Video>, id: string, userID: string): (r: Checked<Video>)
    ensures r.Accept? <==> id in videos && videos[id].userID == userID
    ensures r.Accept? ==> r.value == videos[id]
    ensures r == Reject(NotFound("No video exists with that ID")) <==> id !in videos
    ensures r == Reject(Forbidden("Not your video")) <==> id in videos && videos[id].userID != userID
    ensures r.Reject? ==> r.response.NotFound? || r.response.Forbidden?
  {
    if id !in videos then Reject(NotFound("No video exists with that ID"))
    else if videos[id].userID != userID then Reject(Forbidden("Not your video"))
    else Accept(videos[id])
  }

  /** The file name both handlers build from the random token and the extension. */
  function FileName(token: string, ext: string): (name: string)
    ensures |name| == |token| + 1 + |ext|
    ensures name[..|token|] == token && name[|token|] == '.' && name[|token| + 1..] == ext
  {
    token + "." + ext
  }

  /** Distinct tokens give distinct file names for the same extension, so two
      uploads never share a local file or an object key unless their tokens collide. */
  lemma FileNameInjective(t1: string, t2: string, ext: string)
    requires FileName(t1, ext) == FileName(t2, ext)
    ensures t1 == t2
  {
  }
}
