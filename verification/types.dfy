/**
 * The records the client passes around (types.ts), the error-carrying result
 * used where the source throws, and the shape in which an uploaded file reaches
 * the extraction layer.
 */
module Types {

  /** A computation that either yields a value or throws an Error with `msg`. */
  datatype Result<T> = Ok(value: T) | Err(msg: string)

  datatype Option<T> = None | Some(value: T)

  /** `Message.role`. */
  datatype Role = User | Model

  /** A transcript entry: `Message`. */
  datatype Message = Message(id: string, role: Role, text: string, timestamp: int)

  /** A successfully extracted document: `ProcessedFile` (`type` is a Dafny keyword, hence `fileType`). */
  datatype ProcessedFile = ProcessedFile(name: string, content: string, fileType: string, size: nat)

  /** The record built by the stand-alone PDF service: `PDFDocument`. */
  datatype PdfDocument = PdfDocument(name: string, content: string, pageCount: nat, size: nat)

  /** The screen the client shows: `AppState`. */
  datatype AppState = Upload | Processing | Chat | Error

  // ---------------------------------------------------------------------------
  // Uploaded files and what the format libraries make of them
  // ---------------------------------------------------------------------------

  /** One sheet of a workbook as the spreadsheet library reports it: its name and `sheet_to_csv` output. */
  datatype Sheet = Sheet(name: string, csv: string)

  /**
   * One entry of a presentation archive: its path in the archive and, when the
   * entry yields non-empty XML text, the `textContent` of each `a:t` node of
   * that XML in document order (None when `zip.file(path)?.async('text')`
   * gives nothing usable).
   */
  datatype ZipEntry = ZipEntry(path: string, textNodes: Option<seq<string>>)

  /**
   * What each format library would report for the bytes of one file. Each is
   * either the library's output or the message of the error it throws.
   * `plain` is None when the FileReader signals an error.
   */
  datatype Parsed = Parsed(
    pdfPages: Result<seq<seq<string>>>,   // per page, the `str` of each text item
    docxText: Result<string>,             // the raw text of a Word document
    workbook: Result<seq<Sheet>>,         // sheets in `SheetNames` order
    archive: Result<seq<ZipEntry>>,       // entries in `Object.keys(zip.files)` order
    plain: Option<string>)                // the text a FileReader decodes

  /** A browser `File`: its name, declared MIME type, byte size and what the parsers see in it. */
  datatype UploadedFile = UploadedFile(name: string, mime: string, size: nat, parsed: Parsed)

  /** Which global format libraries the page has loaded (the `window` lookups). */
  datatype Libraries = Libraries(pdfjs: bool, mammoth: bool, xlsx: bool, jszip: bool)
}
