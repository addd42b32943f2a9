/**
 * `POST /upload` (apps/server/src/routes/parser.routes.ts): multer's
 * `fields([{ name: "content", maxCount: 5 }])` in front of the disk storage
 * and filter of apps/server/src/middlewares/multer.middleware.ts. Multer
 * takes the file parts of the body in order; for each it checks the field
 * and the remaining count, then runs the extension filter, then streams the
 * file under the size limit, and the first failure aborts the whole request.
 * `clock(i)` is the (`Date.now()`, random) pair drawn for the part at index i.
 */
module ParserRoutes {
  import opened Wrappers
  import opened Envelope
  import opened ErrorMiddleware
  import opened ParserController
  import Multer

  /** One file part of the multipart body, as multer sees it before storing it. */
  datatype Part = Part(fieldname: string, originalname: string, mimetype: string, size: nat)

  /** `maxCount` of the one field the route accepts. */
  const MaxContentFiles: nat := 5

  /** `MulterError('LIMIT_UNEXPECTED_FILE')`: an unlisted field, or one file too many. */
  const UnexpectedField: Failure := Failure("MulterError", "Unexpected field", Plain)

  /** `MulterError('LIMIT_FILE_SIZE')`. */
  const FileTooLarge: Failure := Failure("MulterError", "File too large", Plain)

  /** The plain `Error` the file filter rejects with. */
  function FilterError(message: string): Failure {
    Failure("Error", message, Plain)
  }

  /**
   * A part multer keeps when a slot of the field is still free: it is under
   * "content", the filter `accepted` its name, and it fits the size limit.
   */
  predicate Passes(p: Part, accepted: bool) {
    p.fieldname == ContentField && accepted && Multer.WithinSizeLimit(p.size)
  }

  /** `Passes` with the upload filter's own verdict on the part's name. */
  predicate Admitted(p: Part) {
    Passes(p, Multer.FileFilter(p.originalname).Accept?)
  }

  /**
   * Why multer stops at part `p` when `slots` more content files are allowed
   * and the filter `accepted` its name or not: the field check first, then
   * the filter, then the size.
   */
  function PartError(p: Part, accepted: bool, slots: nat): (e: Option<Failure>)
    ensures e.None? <==> slots > 0 && Passes(p, accepted)
    ensures p.fieldname != ContentField || slots == 0 ==> e == Some(UnexpectedField)
    ensures p.fieldname == ContentField && slots > 0 && !accepted ==> e == Some(FilterError(Multer.RejectMessage))
    ensures (p.fieldname == ContentField && slots > 0 && accepted && !Multer.WithinSizeLimit(p.size)) ==>
      e == Some(FileTooLarge)
  {
    if p.fieldname != ContentField || slots == 0 then Some(UnexpectedField)
    else if !accepted then Some(FilterError(Multer.RejectMessage))
    else if Multer.WithinSizeLimit(p.size) then None
    else Some(FileTooLarge)
  }

  /** The filter's verdict on each part's name. */
  function Verdicts(parts: seq<Part>): (accepted: seq<bool>)
    ensures |accepted| == |parts|
    ensures forall j :: 0 <= j < |parts| ==> (accepted[j] <==> Multer.FileFilter(parts[j].originalname).Accept?)
  {
    seq(|parts|, j requires 0 <= j < |parts| => Multer.FileFilter(parts[j].originalname).Accept?)
  }

  /**
   * The disk storage: the file is written into "public/" under its stored
   * name, and since that name is a single component it stays in that directory.
   */
  function Store(p: Part, stamp: (nat, nat)): (f: MulterFile)
    ensures f.fieldname == p.fieldname && f.originalname == p.originalname
    ensures f.mimetype == p.mimetype && f.size == p.size
    ensures f.filename == Multer.StoredName(p.originalname, stamp.0, stamp.1)
    ensures f.destination == Multer.Destination && f.path == Multer.Destination + f.filename
    ensures '/' !in f.filename
  {
    var name := Multer.StoredName(p.originalname, stamp.0, stamp.1);
    MulterFile(p.fieldname, p.originalname, p.mimetype, Multer.Destination, name, Multer.Destination + name, p.size)
  }

  /**
   * Multer's checks over the parts from index `i` on, with `slots` content
   * files still allowed and `accepted` the filter's verdicts: the error of
   * the first part that fails, if any. Every part passes exactly when all of
   * them pass on their own and they fit the slots.
   */
  function FirstError(parts: seq<Part>, accepted: seq<bool>, i: nat, slots: nat): (e: Option<Failure>)
    requires |accepted| == |parts| && i <= |parts|
    ensures e.None? <==> |parts| - i <= slots && forall j :: i <= j < |parts| ==> Passes(parts[j], accepted[j])
    ensures e.Some? ==> e.value in {UnexpectedField, FileTooLarge, FilterError(Multer.RejectMessage)}
    decreases |parts| - i
  {
    if i == |parts| then None
    else
      var e := PartError(parts[i], accepted[i], slots);
      if e.Some? then e else FirstError(parts, accepted, i + 1, slots - 1)
  }

  /** Every part passes exactly when all are admitted and they fit the five slots. */
  lemma AllAdmitted(parts: seq<Part>)
    ensures FirstError(parts, Verdicts(parts), 0, MaxContentFiles).None? <==>
      |parts| <= MaxContentFiles && forall j :: 0 <= j < |parts| ==> Admitted(parts[j])
  {
    var accepted := Verdicts(parts);
    assert forall j :: 0 <= j < |parts| ==> (Admitted(parts[j]) <==> Passes(parts[j], accepted[j]));
  }

  /** The disk storage applied to every part, the i-th with the i-th clock reading. */
  function StoreAll(parts: seq<Part>, clock: nat -> (nat, nat)): (files: seq<MulterFile>)
    ensures |files| == |parts| && forall j :: 0 <= j < |parts| ==> files[j] == Store(parts[j], clock(j))
  {
    seq(|parts|, j requires 0 <= j < |parts| => Store(parts[j], clock(j)))
  }

  /**
   * The route's middleware on a whole request body: the first failure, or
   * every part stored, in order. (Multer deletes the files it already wrote
   * when a later part fails, so nothing stays on disk then.)
   */
  function UploadRoute(parts: seq<Part>, clock: nat -> (nat, nat)): (r: Result)
    ensures r.Ok? <==> |parts| <= MaxContentFiles && forall j :: 0 <= j < |parts| ==> Admitted(parts[j])
    ensures r.Ok? ==> r.files == StoreAll(parts, clock)
    ensures r.Err? ==> r.error in {UnexpectedField, FileTooLarge, FilterError(Multer.RejectMessage)}
  {
    AllAdmitted(parts);
    match FirstError(parts, Verdicts(parts), 0, MaxContentFiles)
    case Some(e) => Err(e)
    case None => Ok(StoreAll(parts, clock))
  }

  /** What multer leaves in `req.files`: a "content" key only when files arrived. */
  function RequestFilesOf(files: seq<MulterFile>): (r: RequestFiles)
    ensures r.ByField? && (ContentField in r.fields <==> files != [])
    ensures files != [] ==> r.fields == map[ContentField := files]
  {
    ByField(if files == [] then map[] else map[ContentField := files])
  }

  /**
   * Once the slots are used up by parts that pass, one more part of any kind
   * fails the request with "Unexpected field".
   */
  lemma {:induction false} ExtraFileRejected(parts: seq<Part>, accepted: seq<bool>, i: nat, slots: nat)
    requires |accepted| == |parts| && i + slots < |parts|
    requires forall j :: i <= j < i + slots ==> Passes(parts[j], accepted[j])
    ensures FirstError(parts, accepted, i, slots) == Some(UnexpectedField)
    decreases slots
  {
    if slots > 0 {
      ExtraFileRejected(parts, accepted, i + 1, slots - 1);
    }
  }

  /** A request whose first file is under any field but "content" fails with "Unexpected field". */
  lemma UnlistedFieldRejected(parts: seq<Part>, clock: nat -> (nat, nat))
    requires parts != [] && parts[0].fieldname != ContentField
    ensures UploadRoute(parts, clock) == Err(UnexpectedField)
  {
    assert PartError(parts[0], Verdicts(parts)[0], MaxContentFiles) == Some(UnexpectedField);
  }

  /** A sixth file under "content" after five admitted ones fails the request. */
  lemma SixthContentFileRejected(parts: seq<Part>, clock: nat -> (nat, nat))
    requires |parts| > MaxContentFiles
    requires forall j :: 0 <= j < MaxContentFiles ==> Admitted(parts[j])
    ensures UploadRoute(parts, clock) == Err(UnexpectedField)
  {
    ExtraFileRejected(parts, Verdicts(parts), 0, MaxContentFiles);
  }

  /**
   * An upload that succeeds stored at most five files, all from the
   * "content" field, each directly in "public/" under a name the filter
   * would accept again.
   */
  lemma StoredFilesStayInPublic(parts: seq<Part>, clock: nat -> (nat, nat))
    requires UploadRoute(parts, clock).Ok?
    ensures |UploadRoute(parts, clock).files| <= MaxContentFiles
    ensures forall f <- UploadRoute(parts, clock).files ::
      f.fieldname == ContentField && f.path == "public/" + f.filename && '/' !in f.filename
      && Multer.FileFilter(f.filename).Accept?
  {
    var files := UploadRoute(parts, clock).files;
    forall j | 0 <= j < |parts|
      ensures Multer.FileFilter(files[j].filename).Accept?
    {
      Multer.AcceptedStaysAccepted(parts[j].originalname, clock(j).0, clock(j).1);
    }
  }

  /**
   * Every way the route fails reaches the error handler as a plain error
   * and is answered 500, with its message shown only outside production.
   */
  lemma UploadFailuresAre500(parts: seq<Part>, clock: nat -> (nat, nat), production: bool)
    requires UploadRoute(parts, clock).Err?
    ensures ErrorHandler<UploadResult>(UploadRoute(parts, clock).error, production)
      == HttpResponse(500, Error(if production then "Internal server error"
                                 else UploadRoute(parts, clock).error.message, None))
  {
    var e := UploadRoute(parts, clock).error;
    assert e.kind.Plain? && e.name in {"MulterError", "Error"};
  }
}
