/**
 * How the client widget and the server rules meet. The client judges a file
 * by its declared MIME type and posts it under the form field "file"; the
 * server judges by extension and accepts files only under the field "content".
 */
module Pipeline {
  import opened Wrappers
  import opened Envelope
  import FileUpload
  import Multer
  import Text
  import ParserController
  import ParserRoutes
  import ErrorMiddleware

  /** Any .xls spreadsheet of an allowed size passes the client's check and fails the server's. */
  lemma SpreadsheetPassesClientOnly(stem: string, size: nat)
    requires stem != [] && '/' !in stem && size <= FileUpload.MaxSize
    ensures FileUpload.Selectable(FileUpload.FileInfo(stem + ".xls", "application/vnd.ms-excel", size))
    ensures Multer.FileFilter(stem + ".xls") == Multer.Reject(Multer.RejectMessage)
  {
    ExcelTypeListed();
    CheckedPlainName(stem, ".xls", "xls");
    XlsNotAllowed();
    VerdictOfChecked(stem + ".xls", "xls");
  }

  /** Any plain-text .txt file fails the client's check and passes the server's. */
  lemma TextPassesServerOnly(stem: string, size: nat)
    requires stem != [] && '/' !in stem
    ensures !FileUpload.Selectable(FileUpload.FileInfo(stem + ".txt", "text/plain", size))
    ensures Multer.FileFilter(stem + ".txt") == Multer.Accept
  {
    PlainTextUnlisted();
    CheckedPlainName(stem, ".txt", "txt");
    TxtAllowed();
    VerdictOfChecked(stem + ".txt", "txt");
  }

  lemma ExcelTypeListed()
    ensures "application/vnd.ms-excel" in FileUpload.ValidFileTypes
  {
    assert FileUpload.ValidFileTypes[1] == "application/vnd.ms-excel";
  }

  lemma PlainTextUnlisted()
    ensures "text/plain" !in FileUpload.ValidFileTypes
  {
    var v := FileUpload.ValidFileTypes;
    assert v[0] != "text/plain" by { assert v[0][5] != "text/plain"[5]; }
    assert |v[1]| != |"text/plain"| && |v[2]| != |"text/plain"|;
  }

  lemma TxtAllowed()
    ensures "txt" in Multer.AllowedFormats
  {
    assert Multer.AllowedFormats[1] == "txt";
  }

  lemma XlsNotAllowed()
    ensures "xls" !in Multer.AllowedFormats
  {
    assert "xls"[2] != "csv"[2] && "xls"[2] != "txt"[2] && "xls"[2] != "xml"[2];
    assert |"xls"| != |"xlsx"|;
  }

  /** The filter's verdict depends only on the checked extension. */
  lemma VerdictOfChecked(name: string, word: string)
    requires Multer.CheckedExtension(name) == word
    ensures Multer.FileFilter(name) ==
      if word in Multer.AllowedFormats then Multer.Accept else Multer.Reject(Multer.RejectMessage)
  {
  }

  /** The server checks the word after the last dot of a `stem.word` name, the stem dotted or not. */
  lemma CheckedPlainName(stem: string, ext: string, word: string)
    requires stem != [] && '/' !in stem
    requires ext == "." + word && word != [] && forall i :: 0 <= i < |word| ==> 'a' <= word[i] <= 'z'
    ensures Multer.CheckedExtension(stem + ext) == word
  {
    assert ext[1..] == word;
    assert |stem + ext| > 2;
    Multer.PlainName(stem, ext);
    LowerDotted(ext, word);
  }

  lemma LowerDotted(ext: string, word: string)
    requires ext == "." + word && forall i :: 0 <= i < |word| ==> 'a' <= word[i] <= 'z'
    ensures Text.Lower(ext) == ext && Text.Lower(ext)[1..] == word
  {
  }

  /** The body of the widget's request as multer sees it: one file part under the post's field. */
  function ClientParts(post: FileUpload.Post): (parts: seq<ParserRoutes.Part>)
    ensures |parts| == 1 && parts[0].fieldname == post.field && parts[0].originalname == post.file.name
  {
    [ParserRoutes.Part(post.field, post.file.name, post.file.mimeType, post.file.size)]
  }

  /**
   * The widget's uploads never get through the route: they are posted under
   * "file", a field the route does not list, so multer fails them with
   * "Unexpected field" whatever the file, and the error handler answers 500
   * (the message reads "Internal server error" in production).
   */
  lemma ClientFieldIsNotContent(post: FileUpload.Post, clock: nat -> (nat, nat), production: bool)
    requires post.field == FileUpload.FormField
    ensures ParserRoutes.UploadRoute(ClientParts(post), clock) == ParserController.Err(ParserRoutes.UnexpectedField)
    ensures ErrorMiddleware.ErrorHandler<ParserController.UploadResult>(ParserRoutes.UnexpectedField, production)
      == HttpResponse(500, Error(if production then "Internal server error" else "Unexpected field", None))
  {
    assert FileUpload.FormField != ParserController.ContentField by {
      assert |FileUpload.FormField| != |ParserController.ContentField|;
    }
    ParserRoutes.UnlistedFieldRejected(ClientParts(post), clock);
  }
}
