/**
 * `processFile` (apps/server/src/controllers/parser.controller.ts): checks
 * `req.files`, requires a non-empty `content` field and answers with a
 * manifest of the stored files. Every failure inside it is re-thrown as an
 * `AppError` without a status, so it reaches the error handler as a 500.
 */
module ParserController {
  import opened Wrappers
  import opened Envelope
  import opened ErrorMiddleware

  /** The metadata multer attaches to each stored file. */
  datatype MulterFile = MulterFile(
    fieldname: string,
    originalname: string,
    mimetype: string,
    destination: string,
    filename: string,
    path: string,
    size: nat)

  /**
   * What `req.files` can be: absent (`undefined`/`null`), a non-object
   * value, an array (multer's `.array()`), or a map from field name to files
   * (multer's `.fields()`).
   */
  datatype RequestFiles =
    | Missing
    | NotAnObject
    | FileArray(list: seq<MulterFile>)
    | ByField(fields: map<string, seq<MulterFile>>)

  /** One entry of the manifest's `files` list. */
  datatype FileSummary = FileSummary(
    originalName: string,
    filename: string,
    path: string,
    size: nat,
    mimetype: string)

  datatype Manifest = Manifest(filesCount: nat, files: seq<FileSummary>)

  /** The inner `{success, message, data}` object the controller wraps in its envelope. */
  datatype UploadResult = UploadResult(success: bool, message: string, data: Manifest)

  /** What a call of `processFile` does: send one response, or throw. */
  datatype Outcome = Responded(response: HttpResponse<UploadResult>) | Threw(error: Failure)

  const ContentField: string := "content"

  /** The manifest entry of one file. */
  function Summarize(f: MulterFile): FileSummary {
    FileSummary(f.originalname, f.filename, f.path, f.size, f.mimetype)
  }

  /** `files.content.map(...)`: one entry per file, in order, copying five fields. */
  function Summaries(files: seq<MulterFile>): (r: seq<FileSummary>)
    ensures |r| == |files|
    ensures forall i :: 0 <= i < |files| ==>
      && r[i].originalName == files[i].originalname
      && r[i].filename == files[i].filename
      && r[i].path == files[i].path
      && r[i].size == files[i].size
      && r[i].mimetype == files[i].mimetype
  {
    if files == [] then [] else [Summarize(files[0])] + Summaries(files[1..])
  }

  datatype Result = Ok(files: seq<MulterFile>) | Err(error: Failure)

  /** The body of the `try`: the content files, or the `AppError` it throws. */
  function ContentFiles(files: RequestFiles): (r: Result)
    ensures r.Ok? ==>
      files.ByField? && ContentField in files.fields && r.files == files.fields[ContentField] && |r.files| > 0
  {
    if !files.ByField? then Err(AppError("Files not found", 400))
    else if ContentField !in files.fields || |files.fields[ContentField]| == 0 then
      Err(AppError("No content files uploaded", 400))
    else Ok(files.fields[ContentField])
  }

  /** `processFile(req, res)`. */
  function ProcessFile(files: RequestFiles): (r: Outcome)
    ensures r.Responded? <==> files.ByField? && ContentField in files.fields && |files.fields[ContentField]| > 0
    ensures !files.ByField? ==> r == Threw(NewAppError("Files not found", None, None))
    ensures files.ByField? && (ContentField !in files.fields || |files.fields[ContentField]| == 0) ==>
      r == Threw(NewAppError("No content files uploaded", None, None))
    ensures r.Responded? ==>
      var content := files.fields[ContentField];
      && r.response.status == 200
      && r.response.body == Success("File uploaded successfully",
           Some(UploadResult(true, "Files uploaded successfully", Manifest(|content|, Summaries(content)))))
  {
    match ContentFiles(files)
    case Err(e) => Threw(NewAppError(e.message, None, None))
    case Ok(content) =>
      var manifest := Manifest(|content|, Summaries(content));
      Responded(HttpResponse(200, Success("File uploaded successfully",
        Some(UploadResult(true, "Files uploaded successfully", manifest)))))
  }

  /**
   * The 400 statuses never survive: whatever `processFile` throws is answered
   * with 500 and its original message.
   */
  lemma FailuresAre500(files: RequestFiles, production: bool)
    requires ProcessFile(files).Threw?
    ensures ErrorHandler<UploadResult>(ProcessFile(files).error, production).status == 500
    ensures ErrorHandler<UploadResult>(ProcessFile(files).error, production).body.message in
      {"Files not found", "No content files uploaded"}
  {
  }

  /** Files under any field other than `content` never reach the manifest. */
  lemma OtherFieldsIgnored(fields: map<string, seq<MulterFile>>, other: string, extra: seq<MulterFile>)
    requires other != ContentField
    ensures ProcessFile(ByField(fields[other := extra])) == ProcessFile(ByField(fields))
  {
    assert ContentField in fields[other := extra] <==> ContentField in fields;
    if ContentField in fields {
      assert fields[other := extra][ContentField] == fields[ContentField];
    }
  }

  /** On success the count is the number of content files and each entry describes one of them, in order. */
  lemma ManifestDescribesContent(fields: map<string, seq<MulterFile>>, i: nat)
    requires ProcessFile(ByField(fields)).Responded?
    requires ContentField in fields && i < |fields[ContentField]|
    ensures ProcessFile(ByField(fields)).response.body.data.value.data.filesCount == |fields[ContentField]|
    ensures ProcessFile(ByField(fields)).response.body.data.value.data.files[i] == Summarize(fields[ContentField][i])
  {
  }
}
