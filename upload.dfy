/** POST /api/upload: `protect`, then multer's file filter and size limit, then the handler
    that hands the image to the media host as a base64 data URI (RFC 2397, section 3). */
module Upload {
  import opened Basics
  import opened Model
  import opened Http
  import opened Tokens
  import opened Base64
  import Server
  import AuthMiddleware

  /** multer's `limits.fileSize`: 10 MiB. */
  const MaxFileSize: int := 10 * 1024 * 1024

  /** The uploaded part as multer exposes it in `req.file`. */
  datatype File = File(mimetype: string, buffer: seq<byte>)

  /** multer's `fileFilter`: None accepts the file; otherwise the error it passes to the callback. */
  function FileFilter(mimetype: string): (r: Option<Error>)
    ensures r.None? <==> StartsWith(mimetype, "image/")
    ensures r.Some? ==> r.value == Thrown("Not an image! Please upload an image.")
  {
    if StartsWith(mimetype, "image/") then None
    else Some(Thrown("Not an image! Please upload an image."))
  }

  /** What `upload.single('image')` lets through: the filter runs before the bytes are read; a file
      longer than the limit is refused by multer with its own error. */
  function MulterCheck(file: Option<File>): (r: Option<Error>)
    ensures r.None? <==> file.None? || (StartsWith(file.value.mimetype, "image/") && |file.value.buffer| <= 10485760)
    ensures file.Some? && !StartsWith(file.value.mimetype, "image/") ==>
      r == Some(Thrown("Not an image! Please upload an image."))
    ensures file.Some? && StartsWith(file.value.mimetype, "image/") && |file.value.buffer| > 10485760 ==>
      r == Some(Error("MulterError", "File too large"))
  {
    if file.None? then None
    else if FileFilter(file.value.mimetype).Some? then FileFilter(file.value.mimetype)
    else if |file.value.buffer| > MaxFileSize then Some(Error("MulterError", "File too large"))
    else None
  }

  /** The three parts of a data URI can be read back by position. */
  lemma DataUriParts(m: string, p: string)
    ensures var u, n := "data:" + m + ";base64," + p, |m|;
      && |u| == 13 + n + |p|
      && u[..5] == "data:" && u[5..5 + n] == m && u[5 + n..13 + n] == ";base64," && u[13 + n..] == p
  {
    var u := "data:" + m + ";base64," + p;
    assert u == "data:" + (m + (";base64," + p));
    assert u[5..] == m + (";base64," + p);
    assert u[5 + |m|..] == ";base64," + p;
  }

  /** `"data:" + mimetype + ";base64," + b64` */
  function DataUri(f: File): (u: string)
    ensures var n := |f.mimetype|;
      && |u| == 13 + n + |Encode(f.buffer)|
      && u[..5] == "data:" && u[5..5 + n] == f.mimetype && u[5 + n..13 + n] == ";base64,"
      && u[13 + n..] == Encode(f.buffer)
      && Decode(u[13 + n..]) == Some(f.buffer)
  {
    DataUriParts(f.mimetype, Encode(f.buffer));
    DecodeEncode(f.buffer);
    "data:" + f.mimetype + ";base64," + Encode(f.buffer)
  }

  /** The media host's answer to an upload: the public URL, or a failure. */
  datatype HostReply = Stored(secureUrl: string) | HostFailed

  /** The route handler: the outcome, and the data URI handed to the media host (None when no upload
      is attempted). Every failure after the file check is answered 500 "Error uploading file". */
  function HandleUpload(file: Option<File>, host: string -> HostReply): (r: (Outcome, Option<string>))
    ensures file.None? ==> r == (Sent(400, Message("Please upload a file")), None)
    ensures file.Some? ==> r.1 == Some(DataUri(file.value))
    ensures file.Some? && host(DataUri(file.value)).Stored? ==>
      r.0 == Sent(200, Url(host(DataUri(file.value)).secureUrl))
    ensures file.Some? && host(DataUri(file.value)).HostFailed? ==>
      r.0 == Sent(500, Message("Error uploading file"))
  {
    if file.None? then (Sent(400, Message("Please upload a file")), None)
    else
      var uri := DataUri(file.value);
      match host(uri)
      case Stored(url) => (Sent(200, Url(url)), Some(uri))
      case HostFailed => (Sent(500, Message("Error uploading file")), Some(uri))
  }

  /** The whole route: guard, multer, handler, error middleware. */
  function UploadRoute(header: Option<string>, users: map<Id, User>, jwt: JwtLib, secret: string, now: int,
                       file: Option<File>, host: string -> HostReply): (r: (Response, Option<string>))
    ensures r.1.Some? ==>
      && AuthMiddleware.Authenticate(header, users, jwt, secret, now).Pass?
      && file.Some? && StartsWith(file.value.mimetype, "image/") && |file.value.buffer| <= MaxFileSize
      && r.1 == Some(DataUri(file.value))
    ensures AuthMiddleware.Authenticate(header, users, jwt, secret, now).Reject? ==>
      r.0.status == 500 && r.1.None?
    ensures var d := AuthMiddleware.Authenticate(header, users, jwt, secret, now);
      d.Reject? ==> r == (Response(500, Message(d.error.message)), None)
    ensures AuthMiddleware.Authenticate(header, users, jwt, secret, now).Pass? && file.Some?
            && !StartsWith(file.value.mimetype, "image/") ==>
      r == (Response(500, Message("Not an image! Please upload an image.")), None)
    ensures AuthMiddleware.Authenticate(header, users, jwt, secret, now).Pass? && file.Some?
            && StartsWith(file.value.mimetype, "image/") && |file.value.buffer| > MaxFileSize ==>
      r == (Response(500, Message("File too large")), None)
    // the converse: once the guard and multer pass, the handler runs and its answer is what the client gets
    ensures AuthMiddleware.Authenticate(header, users, jwt, secret, now).Pass? && MulterCheck(file).None? ==>
      r == (Server.Respond(HandleUpload(file, host).0), HandleUpload(file, host).1)
    ensures AuthMiddleware.Authenticate(header, users, jwt, secret, now).Pass? && file.None? ==>
      r == (Response(400, Message("Please upload a file")), None)
  {
    match AuthMiddleware.Authenticate(header, users, jwt, secret, now)
    case Reject(err) => (Server.Respond(Raised(401, err)), None)
    case Pass(_) =>
      match MulterCheck(file)
      case Some(err) => (Server.Respond(Raised(200, err)), None)
      case None =>
        var (o, sent) := HandleUpload(file, host);
        (Server.Respond(o), sent)
  }
}
