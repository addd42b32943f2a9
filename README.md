# FRA-Analyzer upload and ingest rules, modelled in Dafny

This project models the decision logic around the file-upload path of the
FRA-Analyzer dashboard and its Express API, and proves properties of it:

- **Server ingest rules** (`multer.dfy`, `parser_controller.dfy`): the
  extension allow-list filter (`csv, txt, xlsx, xml`, case-insensitive, on
  Node's `path.extname`), the stored-name builder
  `stem-timestamp-random.ext` with the clock and the random number as
  parameters, the 10 MiB ceiling, and `processFile`, which checks
  `req.files`, requires a non-empty `content` field and answers with a
  manifest. As in the source, every failure of `processFile` is re-thrown as
  an `AppError` without a status, so its 400s reach the client as 500s.
- **Client upload widget** (`file_upload.dfy`): a class holding the
  `uploadState` record, the transfer handle (`xhrRef.current`) and the set
  of transfers whose callbacks can still fire, with one method per handler:
  select, upload, progress, load, network error, reset. `Valid()` keeps
  "never uploading and complete at once" across all of them. The source's
  own quirks are kept: selecting a new file does not abort a running
  transfer, and the load of an older transfer clears the handle of a newer
  one.
- **Response envelope and error mapping** (`api_response.dfy`,
  `error_middleware.dfy`, `validate_middleware.dfy`): `ApiResponse`
  builders, the ordered classification of `errorHandler`,
  `notFoundHandler`, and the validator's error formatting.
- **Auth guards** (`auth_middleware.dfy`): Bearer header parsing, the
  collapse of every verification or lookup failure into 401
  "Invalid token", and the role check. `jwt.verify` and `User.findById` are
  oracle functions.
- **Database connection** (`database_config.dfy`): the single instance, the
  bounded retry loop over an oracle of attempt outcomes, the idempotent
  disconnect and the connection-lost events.
- **Chart data** (`graphs.dfy`): the range selector, the 30-line CSV
  preview, the row filter and the choice between the `data` prop and the
  CSV path.
- **Upload route** (`parser_routes.dfy`): `POST /upload` with multer's
  `fields([{ name: "content", maxCount: 5 }])` over the parts of a request:
  the field gate, the filter, the size limit and the disk storage, each
  failure answered by the error handler.
- `pipeline.dfy` states where the client and the server disagree: the client
  checks MIME types and the server checks extensions, and the client posts
  the form field `file`, which the route does not list.
- `text.dfy` and `wrappers.dfy` hold the JavaScript string and array
  behaviour the rest relies on (`split`, `join`, `slice`, `toLowerCase`) and
  an `Option` type.

`new ApiResponse(...)` is the `Envelope.ApiResponse` datatype constructor,
which stores its four arguments unchanged.

## Model

| member | source | states |
|---|---|---|
| Envelope.Success | apps/server/src/utils/ApiResponse.ts:25-27 | a success envelope has success true, the given message and data, and no errors |
| Envelope.Error | apps/server/src/utils/ApiResponse.ts:34-36 | an error envelope has success false, the given message and errors, and no data |
| Envelope.SuccessAndErrorDiffer | apps/server/src/utils/ApiResponse.ts:25-36 | a success envelope and an error envelope never share a success flag |
| ErrorMiddleware.NewAppError | apps/server/src/middlewares/error.middleware.ts:12-21 | an AppError keeps its message; an omitted status is 500 and an omitted operational flag is true |
| ErrorMiddleware.AppError | apps/server/src/middlewares/error.middleware.ts:12-21 | `new AppError(message, status)` keeps both, is operational and named "Error" |
| ErrorMiddleware.AppErrorAnswered | apps/server/src/middlewares/error.middleware.ts:37-47 | an AppError is answered with its own status and message and one "general" error entry, in every environment |
| ErrorMiddleware.DefaultAppErrorIs500 | apps/server/src/middlewares/error.middleware.ts:15 | an AppError built without a status is answered with 500 and its own message |
| ErrorMiddleware.ErrorHandler | apps/server/src/middlewares/error.middleware.ts:29-81 | every branch answers one failure envelope without data; AppError gives its own status and a "general" error entry; ValidationError 400 with a "validation" entry; JsonWebTokenError 401 "Invalid token"; TokenExpiredError 401 "Token expired"; anything else 500, its message hidden in production |
| ErrorMiddleware.AppErrorIgnoresName | apps/server/src/middlewares/error.middleware.ts:37-47 | the AppError test comes first: an AppError's response does not depend on its name or the environment |
| ErrorMiddleware.PlainStatusClasses | apps/server/src/middlewares/error.middleware.ts:50-80 | a non-AppError gets 400, 401 or 500; 401 exactly for the two token errors and 400 exactly for ValidationError |
| ErrorMiddleware.NotFoundHandler | apps/server/src/middlewares/error.middleware.ts:87-89 | 404 with "Route <url> not found" |
| Multer.TrimmedLength | apps/server/src/middlewares/multer.middleware.ts:25 | the trimmed length is the largest n such that everything from n on is '/' and the character before n, if any, is not |
| Multer.TrimTrailingSlashes | apps/server/src/middlewares/multer.middleware.ts:25 | the result is the prefix of the path that remains once the run of trailing '/' is removed, and it does not end in '/' |
| Multer.LastSlashEnd | apps/server/src/middlewares/multer.middleware.ts:25 | the index just after the last '/', or 0 when there is none; no '/' follows it |
| Multer.AfterLastSlash | apps/server/src/middlewares/multer.middleware.ts:25 | the longest suffix without '/': all of the path, or the text after a '/' |
| Multer.FinalSegment | apps/server/src/middlewares/multer.middleware.ts:25-31 | the last path component: the '/'-free run that ends the path once its trailing separators are dropped, preceded by '/' unless it is all of the rest |
| Multer.LastDot | apps/server/src/middlewares/multer.middleware.ts:31 | the index of the last '.' of a segment, None when it has none |
| Multer.LastDotCovers | apps/server/src/middlewares/multer.middleware.ts:31 | the last '.' is past the first character exactly when some '.' is |
| Multer.SegmentExtension | apps/server/src/middlewares/multer.middleware.ts:31 | the extension is a suffix of the segment from its last '.'; it is non-empty exactly when the segment is not ".." and has a '.' after its first character |
| Multer.Extname | apps/server/src/middlewares/multer.middleware.ts:31 | `path.extname`: "" or a suffix starting with its only '.', non-empty exactly when the final segment is not ".." and has a '.' after its first character |
| Multer.ParsedName | apps/server/src/middlewares/multer.middleware.ts:25 | `path.parse(..).name`: the stem followed by the extension is exactly the final segment, and the stem holds no '/' |
| Multer.DirectoryIgnored | apps/server/src/middlewares/multer.middleware.ts:25-31 | a name under any directory has the name's own segment, extension and stem |
| Multer.TrailingSlashIgnored | apps/server/src/middlewares/multer.middleware.ts:25-31 | a trailing '/' changes neither the segment nor the extension nor the stem |
| Multer.DottedStemName | apps/server/src/middlewares/multer.middleware.ts:25-38 | "FRA.2024.05.csv" has extension ".csv" and stem "FRA.2024.05", and the filter accepts it |
| Multer.DirectoryName | apps/server/src/middlewares/multer.middleware.ts:25-38 | "dir/readings.csv" has extension ".csv" and stem "readings", and the filter accepts it |
| Multer.TrailingSlashName | apps/server/src/middlewares/multer.middleware.ts:25-38 | "readings.csv/" has extension ".csv" and stem "readings", and the filter accepts it |
| Multer.CheckedExtension | apps/server/src/middlewares/multer.middleware.ts:31 | the checked word is "" without an extension, and otherwise the lower-cased extension with its dot removed, itself dot-free |
| Multer.FileFilter | apps/server/src/middlewares/multer.middleware.ts:30-40 | a name is accepted iff its checked word is csv, txt, xlsx or xml; a rejection carries the fixed message |
| Multer.RejectMessageText | apps/server/src/middlewares/multer.middleware.ts:38 | the rejection reads "Invalid file type. Only csv, txt, xlsx, xml files are allowed." |
| Multer.CsvAccepted | apps/server/src/middlewares/multer.middleware.ts:31-35 | a name whose extension is ".csv" is accepted |
| Multer.NoExtensionRejected | apps/server/src/middlewares/multer.middleware.ts:31-39 | a name without an extension is always rejected |
| Multer.FilterByExtension | apps/server/src/middlewares/multer.middleware.ts:31-35 | acceptance iff the lower-cased extension is .csv, .txt, .xlsx or .xml |
| Multer.FilterCaseInsensitive | apps/server/src/middlewares/multer.middleware.ts:31 | lower-casing the name never changes the verdict |
| Multer.LowerExtname | apps/server/src/middlewares/multer.middleware.ts:31 | the extension of the lower-cased name is the lower-cased extension |
| Multer.PlainName | apps/server/src/middlewares/multer.middleware.ts:25 | for a '/'-free stem (dots allowed) followed by a '.'-led, dot-free ext, the extension is ext and the stem is stem |
| Multer.Decimal | apps/server/src/middlewares/multer.middleware.ts:22 | a number prints as a non-empty string of decimal digits |
| Multer.DecimalInjective | apps/server/src/middlewares/multer.middleware.ts:22 | different numbers print differently |
| Multer.UniqueSuffix | apps/server/src/middlewares/multer.middleware.ts:22 | the suffix splits at its one '-' into the decimal timestamp and the decimal random number, and holds no '.' or '/' |
| Multer.UniqueSuffixInjective | apps/server/src/middlewares/multer.middleware.ts:22 | the timestamp-random suffix determines both numbers |
| Multer.StoredName | apps/server/src/middlewares/multer.middleware.ts:21-26 | the stored name is a single path component (no '/'), so the file stays directly in the destination |
| Multer.StoredNameShape | apps/server/src/middlewares/multer.middleware.ts:21-26 | the stored name begins with the original stem and a dash and ends with the original extension, case kept |
| Multer.StoredNameInjective | apps/server/src/middlewares/multer.middleware.ts:21-26 | for one original name, distinct (timestamp, random) pairs give distinct stored names |
| Multer.StoredNameKeepsExtension | apps/server/src/middlewares/multer.middleware.ts:25 | the stored name's extension is the original extension (unless the last segment is "..") |
| Multer.AcceptedStaysAccepted | apps/server/src/middlewares/multer.middleware.ts:16-40 | a name the filter accepts is stored under a name the filter accepts |
| Multer.SizeCeiling | apps/server/src/middlewares/multer.middleware.ts:47 | the ceiling is 10485760 bytes, and a file of exactly that size is kept |
| ParserRoutes.PartError | apps/server/src/routes/parser.routes.ts:6 | the part passes iff a slot is left, it is under "content", the filter accepted it and it fits the limit; otherwise "Unexpected field" for a wrong field or no slot left, then the filter's error, then "File too large" |
| ParserRoutes.Verdicts | apps/server/src/middlewares/multer.middleware.ts:30-40 | the filter's verdict on each part's original name, in order |
| ParserRoutes.Store | apps/server/src/middlewares/multer.middleware.ts:7-28 | the stored file keeps the part's field, name, type and size, is named by the filename rule and lies directly in "public/" |
| ParserRoutes.FirstError | apps/server/src/routes/parser.routes.ts:6 | no error iff the remaining parts fit the slots and each passes on its own; any error is one of the three multer/filter errors |
| ParserRoutes.AllAdmitted | apps/server/src/routes/parser.routes.ts:6 | a request passes iff it has at most five parts and every one is admitted |
| ParserRoutes.StoreAll | apps/server/src/middlewares/multer.middleware.ts:7-28 | every part stored, the i-th with the i-th clock reading |
| ParserRoutes.UploadRoute | apps/server/src/routes/parser.routes.ts:6 | succeeds iff at most five parts, all under "content", accepted and within 10 MiB, storing all of them in order; otherwise one of the three errors |
| ParserRoutes.RequestFilesOf | apps/server/src/routes/parser.routes.ts:6 | `req.files` has a "content" key exactly when files arrived, holding them |
| ParserRoutes.ExtraFileRejected | apps/server/src/routes/parser.routes.ts:6 | once the slots are used by passing parts, the next part fails with "Unexpected field" |
| ParserRoutes.UnlistedFieldRejected | apps/server/src/routes/parser.routes.ts:6 | a first part under any field but "content" fails the request with "Unexpected field" |
| ParserRoutes.SixthContentFileRejected | apps/server/src/routes/parser.routes.ts:6 | after five admitted files a sixth part fails the request with "Unexpected field" |
| ParserRoutes.StoredFilesStayInPublic | apps/server/src/routes/parser.routes.ts:6 | a successful upload stores at most five content files, each directly in "public/" under a name the filter accepts |
| ParserRoutes.UploadFailuresAre500 | apps/server/src/middlewares/error.middleware.ts:73-80 | every failure of the route is answered 500, its message hidden in production |
| ParserController.Summaries | apps/server/src/controllers/parser.controller.ts:21-27 | one manifest entry per file, in order, copying originalname, filename, path, size and mimetype |
| ParserController.ContentFiles | apps/server/src/controllers/parser.controller.ts:8-15 | the checks pass only for a field map whose non-empty content field is returned |
| ParserController.ProcessFile | apps/server/src/controllers/parser.controller.ts:6-46 | responds iff req.files is a field map with non-empty content; otherwise throws "Files not found" or "No content files uploaded" with status 500; the success body wraps the manifest with filesCount and files |
| ParserController.FailuresAre500 | apps/server/src/controllers/parser.controller.ts:41-45 | whatever processFile throws is answered with 500 and its original message |
| ParserController.OtherFieldsIgnored | apps/server/src/controllers/parser.controller.ts:13-21 | files under any field other than content do not change the outcome |
| ParserController.ManifestDescribesContent | apps/server/src/controllers/parser.controller.ts:21-37 | filesCount is the number of content files and entry i describes content file i |
| AuthMiddleware.Token | apps/server/src/middlewares/auth.middleware.ts:25 | `split(' ')[1]` of a Bearer header is the first space-separated field of the text after "Bearer " |
| AuthMiddleware.TokenIsSecondField | apps/server/src/middlewares/auth.middleware.ts:25 | the token is the text after "Bearer " up to the next space or the end |
| AuthMiddleware.Authenticate | apps/server/src/middlewares/auth.middleware.ts:16-47 | no Bearer header: 401 "No token provided" and no verification; a verified token whose user exists sets req.user and calls next; every other case 401 "Invalid token" with req.user unchanged |
| AuthMiddleware.Authorize | apps/server/src/middlewares/auth.middleware.ts:56-68 | next exactly when a user exists and its role is listed; 401 "Unauthorized" without a user; 403 "Insufficient permissions" otherwise |
| AuthMiddleware.EmptyRolesRefuseEveryone | apps/server/src/middlewares/auth.middleware.ts:62-64 | an empty role list refuses everyone |
| ValidateMiddleware.FormatIssue | apps/server/src/middlewares/validate.middleware.ts:21-22 | the field is path for a field error and "unknown" otherwise; the message is msg |
| ValidateMiddleware.FormatIssues | apps/server/src/middlewares/validate.middleware.ts:20-23 | the formatted list keeps the input's length and order |
| ValidateMiddleware.FormatIssuesAppend | apps/server/src/middlewares/validate.middleware.ts:20-23 | formatting distributes over concatenation |
| ValidateMiddleware.Validate | apps/server/src/middlewares/validate.middleware.ts:16-30 | next exactly when there are no errors; otherwise 400 "Validation failed" with the formatted list |
| Database.FirstSuccessSpec | apps/server/src/configs/database.config.ts:34-50 | the first successful attempt below the limit is the earliest one; none exactly when all fail |
| Database.DatabaseConfig.constructor | apps/server/src/configs/database.config.ts:9-11 | a new instance is not connected |
| Database.DatabaseConfig.Connect | apps/server/src/configs/database.config.ts:25-63 | connected: no attempt; otherwise stops at the first success after k+1 attempts and k waits, connected; all of maxRetries >= 1 attempts failing: rejects with the fixed message after maxRetries - 1 waits, still disconnected; maxRetries <= 0: resolves without an attempt |
| Database.DatabaseConfig.ConnectWithDefaults | apps/server/src/main.ts:53 | `connect()` with the defaults makes at most 5 attempts and waits at most 20000 ms; resolved iff connected; a rejection follows 5 failed attempts and 20000 ms of waiting |
| Database.DatabaseConfig.Disconnect | apps/server/src/configs/database.config.ts:65-73 | calls the driver only when connected; clears the flag only when the driver resolves; a driver rejection propagates and leaves the flag true |
| Database.DatabaseConfig.OnConnectionLost | apps/server/src/configs/database.config.ts:40-48 | the error and disconnected events clear the flag once a connect has registered them |
| Database.DatabaseConfig.GetConnectionStatus | apps/server/src/configs/database.config.ts:75-77 | returns the flag |
| Database.InstanceSlot.GetInstance | apps/server/src/configs/database.config.ts:13-18 | creates the instance once and then always returns the same one |
| FileUpload.Selectable | apps/web/components/file-upload.tsx:95-103 | a file is taken iff its MIME type is text/csv, application/vnd.ms-excel or the XLSX type and it has at most 10485760 bytes |
| FileUpload.SizeBoundary | apps/web/components/file-upload.tsx:100 | the size check is strict: 10485760 bytes pass, one more fails |
| FileUpload.RoundPercent | apps/web/components/file-upload.tsx:47-51 | the progress is the integer nearest to 100 * loaded / total, halves rounded up |
| FileUpload.RoundPercentAtMost100 | apps/web/components/file-upload.tsx:49 | with loaded <= total the progress is at most 100, and 100 when all is sent |
| FileUpload.UploadUrl | apps/web/components/file-upload.tsx:40 | the endpoint always ends with "/upload" |
| FileUpload.UploadUrlIgnoresTrailingSlash | apps/web/components/file-upload.tsx:40 | a base URL with or without one trailing slash gives the same endpoint |
| FileUpload.Uploader.constructor | apps/web/components/file-upload.tsx:16-29 | the empty initial state, no handle, no transfer |
| FileUpload.Uploader.HandleFile | apps/web/components/file-upload.tsx:92-106 | no file, a MIME type outside the three, or more than 10 MiB leaves the state unchanged; otherwise the state becomes {file, 0, false, false}; the transfers are untouched |
| FileUpload.Uploader.UploadToServer | apps/web/components/file-upload.tsx:39-90 | opens one new transfer, stores it as the handle and posts the file under "file" to the upload URL |
| FileUpload.Uploader.HandleUpload | apps/web/components/file-upload.tsx:108-112 | nothing without a file or while uploading or complete; otherwise uploading true, progress 0 and exactly one new transfer |
| FileUpload.Uploader.OnProgress | apps/web/components/file-upload.tsx:47-52 | a length-computable event of a live transfer sets the rounded percentage; anything else changes nothing |
| FileUpload.Uploader.OnLoad | apps/web/components/file-upload.tsx:54-75 | clears the handle; 2xx: progress 100, complete, onUploadComplete called once; other statuses: progress 0, both flags false; the file is kept |
| FileUpload.Uploader.OnError | apps/web/components/file-upload.tsx:77-86 | clears the handle; progress 0, both flags false, the file kept |
| FileUpload.Uploader.ResetFile | apps/web/components/file-upload.tsx:123-130 | aborts the transfer in the handle, so it delivers nothing more, and restores the initial state |
| Graphs.FilteredData | apps/web/app/sections/Graphs.tsx:77-84 | empty data gives []; "all" and unknown ranges give the data; first100/first500 the first min(n,100)/min(n,500) points; last100 the last min(n,100) |
| Graphs.FilteredIsWindow | apps/web/app/sections/Graphs.tsx:77-84 | the result is always a contiguous run of the data, no longer than it |
| Graphs.Preview | apps/web/app/sections/Graphs.tsx:61 | the preview is a prefix of the CSV text with fewer than 30 line breaks: the whole text when it has fewer than 30, otherwise exactly its first 30 lines, ending just before the 30th line break |
| Graphs.HasBothColumns | apps/web/app/sections/Graphs.tsx:64 | a row is kept iff both the "Freq." and the "V(e1)/I(V1)" cell are present and non-empty |
| Graphs.FormatRows | apps/web/app/sections/Graphs.tsx:63-71 | at most one point per row; all rows complete gives one point per row in order; no complete row gives [] |
| Graphs.FormatRowsAppend | apps/web/app/sections/Graphs.tsx:63-71 | the row pipeline distributes over concatenation, keeping the order |
| Graphs.FormatRowsAt | apps/web/app/sections/Graphs.tsx:64-70 | a row lacking "Freq." or "V(e1)/I(V1)" is dropped; any other yields exactly one point in its place |
| Graphs.LoadChart | apps/web/app/sections/Graphs.tsx:52-75 | a non-empty data prop is used directly; otherwise a fetched CSV gives the preview and the points of its complete rows, and a failed fetch sets nothing |
| Pipeline.SpreadsheetPassesClientOnly | apps/web/components/file-upload.tsx:31-35 | every plain stem.xls file of at most 10 MiB with the Excel MIME type passes the client and is rejected by the server |
| Pipeline.TextPassesServerOnly | apps/server/src/middlewares/multer.middleware.ts:5 | every plain stem.txt file with MIME type text/plain is refused by the client and accepted by the server |
| Pipeline.ClientParts | apps/web/components/file-upload.tsx:42 | the widget's request is one file part under its form field, carrying the file's name |
| Pipeline.ClientFieldIsNotContent | apps/web/components/file-upload.tsx:42 | every upload the widget posts under "file" is failed by multer with "Unexpected field" and answered 500 ("Internal server error" in production) |

## Left out

- Multer's disk writes, multipart parsing and byte streaming are library code; the route is modelled on the parts' metadata (field, name, type, size), with the size limit checked per part. Multer's skipping of parts with an empty file name, its removal of partly written files after a failure, and busboy limits other than `fileSize` are not modelled.
- ParserRoutes.UploadRoute: app.ts mounts only the auth and user routers (apps/server/src/app.ts:125-126), so in the wired app a `POST /upload` reaches `notFoundHandler` (line 154); the route is modelled as parser.routes.ts declares it. It has no handler after multer, so `processFile` is never called on it; `ParserController` models `processFile` on its own.
- Multer.LowerExtname: `toLowerCase` is modelled for the ASCII letters A-Z only; Unicode case mapping is not modelled.
- Multer.ParsedName: one definition of the last path segment serves both `path.extname` and `path.parse(..).name`. They agree with Node everywhere except where ".." sits directly under the root ("/..", "/../"): there Node's `parse` gives the name "." (stored as ".-t-r") while the model gives ".." (stored as "..-t-r"). "/a/.." and "//.." agree.
- Multer.StoredNameInjective: uniqueness across concurrent requests that draw the same clock and random values is a matter of probability and is not modelled; only injectivity in the two numbers is proved. `Date.now()` and the rounded random number are parameters.
- ParserController.ProcessFile: the fallback message for a thrown non-Error value cannot arise, since the body only throws `AppError`s; the `console.log` of the file paths is not modelled.
- AuthMiddleware.Authenticate: `jwt.verify` and `User.findById` are oracle functions whose None covers both "throws" and "nothing found"; the secret and token decoding are theirs.
- ValidateMiddleware.Validate: `validationResult` is an input list of issues.
- FileUpload.RoundPercent: exact rational arithmetic with round-half-up stands for `Math.round` on floating point.
- FileUpload.Uploader.OnProgress: a length-computable event with a total of 0 (a division by zero in the source) is treated as leaving the progress unchanged.
- FileUpload.Uploader.OnLoad: `JSON.parse` is an input (the parsed body, or None when it throws); the toasts, the file input reset and all rendering are not modelled. The browser transport is abstract: a transfer is live until it loads, fails or is aborted, and only live transfers deliver callbacks.
- Database.DatabaseConfig.Connect: `mongoose.connect` outcomes are an oracle and `setTimeout` delays are counted as waits, not timed; the connection URI and logging are not modelled.
- Database.DatabaseConfig.Disconnect: how `mongoose.disconnect()` settles is a parameter (resolves, or rejects with a message); the log line is not modelled.
- Graphs.LoadChart: `fetch`, Papa.parse and the regex and `parseFloat` extraction of magnitude and phase are inputs (`rows`, `toPoint`); chart rendering is not modelled.
- Wiring and bootstrapping (app.ts, main.ts beyond its `connect()` call, swagger.config.ts, page.tsx), AsyncHandler.ts, the auth and user controllers, AnalyticsSection.tsx and Hero.tsx are not part of this model.
