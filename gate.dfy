/**
 * The checks at the start of a `/detect` request, in the order they run: an
 * upload field named "image" must be present, its filename must be non-empty
 * and its bytes must decode as a raster image; each failure ends the request
 * with its own 400 message.  The confidence threshold is then the submitted
 * `conf` parsed as a float, or 0.25 when that is missing, unparsable or zero.
 */
module Gate {

  import opened Wrappers

  /** What decoding the uploaded bytes with `Image.open(...).convert("RGB")` gives. */
  datatype Decoding = Raster(width: nat, height: nat) | Undecodable

  /** An uploaded file: its client-side filename and what its bytes decode to. */
  datatype Upload = Upload(filename: string, content: Decoding)

  /**
   * The parts of a request the gate reads: the uploaded files by field name,
   * and the form's `conf` as `request.form.get("conf", type=float)` returns it
   * (None when the field is missing or `float()` rejects it).
   */
  datatype Request = Request(files: map<string, Upload>, conf: Option<real>)

  datatype Rejection = NoFilePart | NoSelectedFile | UnreadableImage

  /** An accepted request: the decoded image's size and the threshold for the detector. */
  datatype Accepted = Accepted(width: nat, height: nat, threshold: real)

  /** The HTTP status of every rejection. */
  const BadRequest: nat := 400

  /** The default confidence threshold. */
  const DefaultConf: real := 0.25

  function Message(e: Rejection): string {
    match e
    case NoFilePart => "No file part named 'image'."
    case NoSelectedFile => "No selected file."
    case UnreadableImage => "Could not read image. Upload a valid JPG/PNG."
  }

  /** The three rejections are told apart by their messages. */
  lemma MessagesDistinct(e1: Rejection, e2: Rejection)
    requires e1 != e2
    ensures Message(e1) != Message(e2)
  {
  }

  /**
   * `conf or 0.25`: a parsed value is used unless it is falsy (0.0); no range
   * check, so negative values and values above 1 pass through.
   */
  function Threshold(conf: Option<real>): (t: real)
    ensures t != 0.0
    ensures conf.Some? && conf.value != 0.0 ==> t == conf.value
    ensures conf.None? || conf.value == 0.0 ==> t == DefaultConf
  {
    match conf
    case Some(c) => if c != 0.0 then c else DefaultConf
    case None => DefaultConf
  }

  /** The gate of `/detect`: the first failing check decides the rejection. */
  function Admit(req: Request): (r: Result<Accepted, Rejection>)
    ensures "image" !in req.files <==> r == Failure(NoFilePart)
    ensures r == Failure(NoSelectedFile) <==>
              "image" in req.files && req.files["image"].filename == ""
    ensures r == Failure(UnreadableImage) <==>
              "image" in req.files && req.files["image"].filename != ""
              && req.files["image"].content.Undecodable?
    ensures r.Success? ==>
              "image" in req.files && req.files["image"].filename != ""
              && req.files["image"].content == Raster(r.value.width, r.value.height)
              && r.value.threshold == Threshold(req.conf)
  {
    if "image" !in req.files then Failure(NoFilePart)
    else
      var file := req.files["image"];
      if file.filename == "" then Failure(NoSelectedFile)
      else match file.content
        case Undecodable => Failure(UnreadableImage)
        case Raster(w, h) => Success(Accepted(w, h, Threshold(req.conf)))
  }

  /** The page `bad_request` renders for a rejection: no image, no summary, the message. */
  datatype ErrorPage = ErrorPage(image: Option<string>, summary: Option<seq<string>>,
                                 error: string, status: nat)

  function RejectionPage(e: Rejection): (p: ErrorPage)
    ensures p.image.None? && p.summary.None? && p.status == BadRequest
    ensures p.error == Message(e)
  {
    ErrorPage(None, None, Message(e), BadRequest)
  }

  /** A submitted threshold of 0.0 is replaced by the default, like a missing one. */
  lemma ZeroThresholdIsDefault()
    ensures Threshold(Some(0.0)) == Threshold(None) == 0.25
  {
  }
}
