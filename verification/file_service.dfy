/**
 * The extraction dispatcher (services/fileService.ts): works out each file's
 * extension, picks an extractor by a fixed first-match rule, lays the
 * library output out as text, trims it, and builds the batch of records,
 * stopping at the first file that fails.
 */
module FileService {
  import opened Types
  import opened Strings
  import opened Layout

  // ---------------------------------------------------------------------------
  // Extension and dispatch
  // ---------------------------------------------------------------------------

  /** `file.name.split('.').pop()?.toLowerCase() || ''`. */
  function Extension(name: string): string {
    ToLower(AfterLast(name, '.'))
  }

  /** An extension never contains a `.`: it is what follows the last one, and lower-casing keeps dots. */
  lemma ExtensionHasNoDot(name: string)
    ensures '.' !in Extension(name)
  {
    AfterLastSpec(name, '.');
    var tail := AfterLast(name, '.');
    forall i | 0 <= i < |tail| ensures Extension(name)[i] != '.' {
      assert tail[i] != '.';
    }
  }

  /** A name with an extension yields that extension, lower-cased; a trailing `.` yields "". */
  lemma ExtensionOfDotted(stem: string, ext: string)
    requires '.' !in ext
    ensures Extension(stem + "." + ext) == ToLower(ext)
  {
    AfterLastOfJoined(stem, '.', ext);
  }

  /** A name without a `.` is its own extension, lower-cased. */
  lemma ExtensionOfUndotted(name: string)
    requires '.' !in name
    ensures Extension(name) == ToLower(name)
  {
    AfterLastNoSeparator(name, '.');
  }

  /** `TEXT_EXTS`: the extensions read as plain text. */
  const TextExtensions: seq<string> :=
    ["txt", "md", "csv", "json", "ts", "tsx", "js", "jsx", "py", "java", "html", "css",
     "sql", "yaml", "yml", "xml", "log", "sh", "env"]

  const PdfMime := "application/pdf"

  /** The branch of the dispatcher a file takes. */
  datatype Format = Pdf | Docx | Spreadsheet | Presentation | Legacy | PlainText | Unsupported

  /** The `if … else if …` chain of `processFiles`: the first condition that holds wins. */
  function Classify(ext: string, mime: string): Format {
    if ext == "pdf" || mime == PdfMime then Pdf
    else if ext == "docx" then Docx
    else if ext == "xlsx" || ext == "xls" then Spreadsheet
    else if ext == "pptx" then Presentation
    else if ext == "ppt" || ext == "doc" then Legacy
    else if ext in TextExtensions || StartsWith(mime, "text/") then PlainText
    else Unsupported
  }

  /**
   * The PDF test comes first, so a PDF MIME type wins over any extension; only
   * `.ppt` and `.doc` files without it are legacy; a file is unsupported only
   * when neither its extension nor its MIME type marks it as text.
   */
  lemma ClassifySpec(ext: string, mime: string)
    ensures Classify(ext, mime) == Pdf <==> ext == "pdf" || mime == PdfMime
    ensures Classify(ext, mime) == Legacy <==> (ext == "ppt" || ext == "doc") && mime != PdfMime
    ensures Classify(ext, mime) == PlainText ==> ext in TextExtensions || StartsWith(mime, "text/")
    ensures Classify(ext, mime) == Unsupported <==>
      ext !in ["pdf", "docx", "xlsx", "xls", "pptx", "ppt", "doc"] && mime != PdfMime
      && ext !in TextExtensions && !StartsWith(mime, "text/")
  {
  }

  function LegacyMessage(ext: string): string {
    "Legacy ." + ext + " files are not supported. Please save as .pptx or .docx first."
  }

  function UnsupportedMessage(ext: string): string {
    "The file extension ." + ext + " is not supported yet."
  }

  const NoTextMessage := "No readable text found in this file."

  /** The error `getLib` throws when a global library is missing. */
  function LibraryMessage(lib: string): string {
    "Library " + lib + " not loaded correctly."
  }

  function ReadFailedMessage(fileName: string): string {
    "Failed to read " + fileName
  }

  /** The message every per-file failure is wrapped in. */
  function BatchError(fileName: string, msg: string): string {
    "Error with " + fileName + ": " + msg
  }

  // ---------------------------------------------------------------------------
  // PDF: one `[PAGE i]` block per page
  // ---------------------------------------------------------------------------

  function PdfMarker(i: nat): string {
    "[PAGE " + NatToString(i) + "]"
  }

  /** The blocks of a PDF: exactly one per page, marked `[PAGE i]` for i = 1..n in page order. */
  function PdfBlocks(pages: seq<seq<string>>): (blocks: seq<Block>)
    ensures |blocks| == |pages|
    ensures forall i :: 0 <= i < |pages| ==> blocks[i] == Block(PdfMarker(i + 1), PageText(pages[i]))
  {
    if pages == [] then []
    else PdfBlocks(pages[..|pages| - 1]) + [Block(PdfMarker(|pages|), PageText(pages[|pages| - 1]))]
  }

  /** `extractTextFromPDF` once the document is loaded: pages visited for i = 1..numPages. */
  method ExtractPdfText(pages: seq<seq<string>>) returns (text: string)
    ensures text == Render(PdfBlocks(pages))
  {
    text := "";
    var i := 1;
    while i <= |pages|
      invariant 1 <= i <= |pages| + 1
      invariant text == Render(PdfBlocks(pages[..i - 1]))
    {
      var pageText := PageText(pages[i - 1]);
      PdfBlocksSnoc(pages, i - 1);
      RenderSnoc(PdfBlocks(pages[..i - 1]), Block(PdfMarker(i), pageText));
      AppendPageBlock(text, i, pageText);
      text := text + "[PAGE " + NatToString(i) + "]\n" + pageText + "\n\n";
      i := i + 1;
    }
    assert pages[..|pages|] == pages;
  }

  lemma PdfBlocksSnoc(pages: seq<seq<string>>, i: nat)
    requires i < |pages|
    ensures PdfBlocks(pages[..i + 1]) == PdfBlocks(pages[..i]) + [Block(PdfMarker(i + 1), PageText(pages[i]))]
  {
    assert pages[..i + 1][..i] == pages[..i];
  }

  lemma AppendPageBlock(acc: string, i: nat, body: string)
    ensures acc + "[PAGE " + NatToString(i) + "]\n" + body + "\n\n" == acc + BlockText(Block(PdfMarker(i), body))
  {
  }

  /** A PDF with at least one page never reads as blank: its page markers survive trimming. */
  lemma PdfTextNotBlank(pages: seq<seq<string>>)
    requires |pages| > 0
    ensures Trim(Render(PdfBlocks(pages))) != ""
  {
    assert PdfMarker(1)[0] == '[';
    RenderVisibleHeader(PdfBlocks(pages), 0);
  }

  // ---------------------------------------------------------------------------
  // XLSX: one `### SHEET: name` block per sheet
  // ---------------------------------------------------------------------------

  function SheetMarker(name: string): string {
    "### SHEET: " + name
  }

  /** The blocks of a workbook: one per sheet, in `SheetNames` order, holding its CSV. */
  function SheetBlocks(sheets: seq<Sheet>): (blocks: seq<Block>)
    ensures |blocks| == |sheets|
    ensures forall i :: 0 <= i < |sheets| ==> blocks[i] == Block(SheetMarker(sheets[i].name), sheets[i].csv)
  {
    if sheets == [] then []
    else
      var last := sheets[|sheets| - 1];
      SheetBlocks(sheets[..|sheets| - 1]) + [Block(SheetMarker(last.name), last.csv)]
  }

  /** `extractTextFromXlsx` once the workbook is read: the `forEach` over `SheetNames`. */
  method ExtractXlsxText(sheets: seq<Sheet>) returns (text: string)
    ensures text == Render(SheetBlocks(sheets))
  {
    text := "";
    var i := 0;
    while i < |sheets|
      invariant 0 <= i <= |sheets|
      invariant text == Render(SheetBlocks(sheets[..i]))
    {
      var sheet := sheets[i];
      SheetBlocksSnoc(sheets, i);
      RenderSnoc(SheetBlocks(sheets[..i]), Block(SheetMarker(sheet.name), sheet.csv));
      AppendNumberedBlock(text, "### SHEET: ", sheet.name, sheet.csv);
      text := text + "### SHEET: " + sheet.name + "\n";
      text := text + sheet.csv + "\n\n";
      i := i + 1;
    }
    assert sheets[..|sheets|] == sheets;
  }

  lemma SheetBlocksSnoc(sheets: seq<Sheet>, i: nat)
    requires i < |sheets|
    ensures SheetBlocks(sheets[..i + 1]) == SheetBlocks(sheets[..i]) + [Block(SheetMarker(sheets[i].name), sheets[i].csv)]
  {
    assert sheets[..i + 1][..i] == sheets[..i];
  }

  /** A workbook with at least one sheet never reads as blank. */
  lemma XlsxTextNotBlank(sheets: seq<Sheet>)
    requires |sheets| > 0
    ensures Trim(Render(SheetBlocks(sheets))) != ""
  {
    assert SheetMarker(sheets[0].name)[0] == '#';
    RenderVisibleHeader(SheetBlocks(sheets), 0);
  }

  // ---------------------------------------------------------------------------
  // PPTX: slide entries, numeric sort, `### SLIDE k` blocks
  // ---------------------------------------------------------------------------

  predicate IsSlidePath(path: string) {
    StartsWith(path, "ppt/slides/slide") && EndsWith(path, ".xml")
  }

  /** The archive entries kept by the `filter`, in archive order. */
  function SlideEntries(entries: seq<ZipEntry>): (slides: seq<ZipEntry>)
    ensures |slides| <= |entries|
    ensures forall e :: e in slides <==> e in entries && IsSlidePath(e.path)
  {
    if entries == [] then []
    else
      var last := entries[|entries| - 1];
      SlideEntries(entries[..|entries| - 1]) + (if IsSlidePath(last.path) then [last] else [])
  }

  /** The sort key: `parseInt` of the first run of digits in the entry's path. */
  function SlideNumber(e: ZipEntry): nat {
    match FirstDigitRun(e.path)
    case Some(d) => DigitsValue(d)
    case None => 0
  }

  /** The canonical slide path for slide n sorts under the key n, so slide10 comes after slide9. */
  lemma SlideNumberOfCanonicalPath(n: nat, nodes: Option<seq<string>>)
    ensures SlideNumber(ZipEntry("ppt/slides/slide" + NatToString(n) + ".xml", nodes)) == n
  {
    var p := "ppt/slides/slide";
    assert forall i :: 0 <= i < |p| ==> !IsDigit(p[i]);
    FirstDigitRunOfNumbered(p, n, ".xml");
    DigitsValueOfNatToString(n);
  }

  /** `s` is in ascending order of `key`. */
  predicate SortedBy<T>(s: seq<T>, key: T -> nat) {
    forall i, j :: 0 <= i < j < |s| ==> key(s[i]) <= key(s[j])
  }

  /** Inserts `x` before the first element whose key is not smaller, so earlier equal keys stay first. */
  function InsertBy<T>(x: T, sorted: seq<T>, key: T -> nat): seq<T> {
    if sorted == [] || key(x) <= key(sorted[0]) then [x] + sorted
    else [sorted[0]] + InsertBy(x, sorted[1..], key)
  }

  /** Inserting adds exactly one occurrence of `x` and loses nothing. */
  lemma {:induction false} InsertByPermutes<T>(x: T, sorted: seq<T>, key: T -> nat)
    ensures multiset(InsertBy(x, sorted, key)) == multiset(sorted) + multiset{x}
  {
    if sorted != [] && key(sorted[0]) < key(x) {
      InsertByPermutes(x, sorted[1..], key);
      assert sorted == [sorted[0]] + sorted[1..];
    }
  }

  /** Every key in `s` is at least `b`. */
  predicate KeysAtLeast<T>(s: seq<T>, key: T -> nat, b: nat) {
    forall j :: 0 <= j < |s| ==> b <= key(s[j])
  }

  /** A bound that holds for `x` and for every element still holds after the insertion. */
  lemma {:induction false} InsertByKeepsBound<T>(x: T, s: seq<T>, key: T -> nat, b: nat)
    requires KeysAtLeast(s, key, b) && b <= key(x)
    ensures KeysAtLeast(InsertBy(x, s, key), key, b)
  {
    if s != [] && key(s[0]) < key(x) {
      InsertByKeepsBound(x, s[1..], key, b);
      var r := InsertBy(x, s, key);
      assert r == [s[0]] + InsertBy(x, s[1..], key);
    }
  }

  /** The head of a sorted list bounds the keys of the rest. */
  lemma PrependSorted<T>(head: T, rest: seq<T>, key: T -> nat)
    requires SortedBy(rest, key) && KeysAtLeast(rest, key, key(head))
    ensures SortedBy([head] + rest, key)
  {
    var r := [head] + rest;
    forall i, j | 0 <= i < j < |r| ensures key(r[i]) <= key(r[j]) {
      assert r[j] == rest[j - 1];
      if i > 0 {
        assert r[i] == rest[i - 1];
      }
    }
  }

  /** Inserting into a sorted list keeps it sorted. */
  lemma {:induction false} InsertBySorted<T>(x: T, sorted: seq<T>, key: T -> nat)
    requires SortedBy(sorted, key)
    ensures SortedBy(InsertBy(x, sorted, key), key)
  {
    if sorted == [] || key(x) <= key(sorted[0]) {
      assert KeysAtLeast(sorted, key, key(x)) by {
        forall j | 0 <= j < |sorted| ensures key(x) <= key(sorted[j]) {
          if j > 0 {
            assert key(sorted[0]) <= key(sorted[j]);
          }
        }
      }
      PrependSorted(x, sorted, key);
    } else {
      var head, tail := sorted[0], sorted[1..];
      assert SortedBy(tail, key) by {
        forall i, j | 0 <= i < j < |tail| ensures key(tail[i]) <= key(tail[j]) {
          assert tail[i] == sorted[i + 1] && tail[j] == sorted[j + 1];
        }
      }
      assert KeysAtLeast(tail, key, key(head)) by {
        forall j | 0 <= j < |tail| ensures key(head) <= key(tail[j]) {
          assert tail[j] == sorted[j + 1];
        }
      }
      InsertBySorted(x, tail, key);
      InsertByKeepsBound(x, tail, key, key(head));
      PrependSorted(head, InsertBy(x, tail, key), key);
    }
  }

  /**
   * A stable sort by `key`: the order `Array.prototype.sort` produces with the
   * comparator `key(a) - key(b)`.
   */
  function SortBy<T>(s: seq<T>, key: T -> nat): seq<T> {
    if s == [] then [] else InsertBy(s[0], SortBy(s[1..], key), key)
  }

  /** The sorted list is in ascending key order and is a permutation of the input. */
  lemma {:induction false} SortBySpec<T>(s: seq<T>, key: T -> nat)
    ensures SortedBy(SortBy(s, key), key)
    ensures multiset(SortBy(s, key)) == multiset(s)
  {
    if s != [] {
      SortBySpec(s[1..], key);
      InsertBySorted(s[0], SortBy(s[1..], key), key);
      InsertByPermutes(s[0], SortBy(s[1..], key), key);
      assert s == [s[0]] + s[1..];
    }
  }

  /** The TypeError raised when `match(/\d+/)!` is indexed on a name with no digit. */
  const NullMatchMessage := "Cannot read properties of null (reading '0')"

  /** Some entry's path holds no digit, so `match(/\d+/)` gives null for it. */
  predicate HasUnnumbered(slides: seq<ZipEntry>) {
    exists e :: e in slides && FirstDigitRun(e.path).None?
  }

  /**
   * The sort step: the comparator runs (on every entry) only when there are at
   * least two entries, and it throws on an entry whose path has no digit.
   */
  function SortSlides(slides: seq<ZipEntry>): Result<seq<ZipEntry>> {
    if |slides| >= 2 && HasUnnumbered(slides) then Err(NullMatchMessage)
    else Ok(SortBy(slides, SlideNumber))
  }

  /** The sort fails exactly when it compares an unnumbered entry; otherwise it sorts by slide number and keeps every entry. */
  lemma SortSlidesSpec(slides: seq<ZipEntry>)
    ensures SortSlides(slides).Err? <==> |slides| >= 2 && exists e :: e in slides && FirstDigitRun(e.path).None?
    ensures SortSlides(slides).Err? ==> SortSlides(slides).msg == NullMatchMessage
    ensures SortSlides(slides).Ok? ==>
      SortedBy(SortSlides(slides).value, SlideNumber) && multiset(SortSlides(slides).value) == multiset(slides)
  {
    SortBySpec(slides, SlideNumber);
  }

  /** The joined text of a slide's `a:t` nodes ("" when the entry gave no XML). */
  function SlideText(e: ZipEntry): string {
    if e.textNodes.Some? then Join(e.textNodes.value, " ") else ""
  }

  /** A slide is emitted when its XML was read and its joined text is not blank. */
  predicate SlideShown(e: ZipEntry) {
    e.textNodes.Some? && !IsBlank(SlideText(e))
  }

  /** The 1-based positions, in the sorted list, of the slides that are emitted. */
  function ShownPositions(sorted: seq<ZipEntry>): seq<nat> {
    if sorted == [] then []
    else
      var n := |sorted|;
      ShownPositions(sorted[..n - 1]) + (if SlideShown(sorted[n - 1]) then [n] else [])
  }

  /** `ks` is in strictly ascending order. */
  predicate Increasing(ks: seq<nat>) {
    forall a, b :: 0 <= a < b < |ks| ==> ks[a] < ks[b]
  }

  /** Each position lies within the sorted list and names a slide that is shown. */
  lemma {:induction false} ShownPositionsAreShown(sorted: seq<ZipEntry>)
    ensures forall j :: 0 <= j < |ShownPositions(sorted)| ==>
      1 <= ShownPositions(sorted)[j] <= |sorted| && SlideShown(sorted[ShownPositions(sorted)[j] - 1])
  {
    if sorted != [] {
      var n := |sorted|;
      var prev := sorted[..n - 1];
      ShownPositionsAreShown(prev);
      var ks', ks := ShownPositions(prev), ShownPositions(sorted);
      assert ks == ks' + (if SlideShown(sorted[n - 1]) then [n] else []);
      forall j | 0 <= j < |ks| ensures 1 <= ks[j] <= n && SlideShown(sorted[ks[j] - 1]) {
        if j < |ks'| {
          assert ks[j] == ks'[j];
          assert sorted[ks'[j] - 1] == prev[ks'[j] - 1];
        }
      }
    }
  }

  /** The positions strictly increase: slides are numbered in sorted order, never twice. */
  lemma {:induction false} ShownPositionsIncrease(sorted: seq<ZipEntry>)
    ensures Increasing(ShownPositions(sorted))
  {
    if sorted != [] {
      var n := |sorted|;
      var prev := sorted[..n - 1];
      ShownPositionsIncrease(prev);
      ShownPositionsAreShown(prev);
      var ks', ks := ShownPositions(prev), ShownPositions(sorted);
      assert ks == ks' + (if SlideShown(sorted[n - 1]) then [n] else []);
      forall a, b | 0 <= a < b < |ks| ensures ks[a] < ks[b] {
        assert ks[a] == ks'[a];
        if b < |ks'| {
          assert ks[b] == ks'[b];
        }
      }
    }
  }

  /** Every shown slide gets a position: only blank slides are skipped, so numbering can have gaps. */
  lemma {:induction false} ShownPositionsComplete(sorted: seq<ZipEntry>, k: nat)
    requires 1 <= k <= |sorted| && SlideShown(sorted[k - 1])
    ensures k in ShownPositions(sorted)
  {
    var n := |sorted|;
    var prev := sorted[..n - 1];
    var ks', ks := ShownPositions(prev), ShownPositions(sorted);
    assert ks == ks' + (if SlideShown(sorted[n - 1]) then [n] else []);
    if k < n {
      assert prev[k - 1] == sorted[k - 1];
      ShownPositionsComplete(prev, k);
    }
  }

  function SlideMarker(k: nat): string {
    "### SLIDE " + NatToString(k)
  }

  /** The block emitted for the slide at 1-based position k of the sorted list. */
  function SlideBlock(sorted: seq<ZipEntry>, k: nat): Block
    requires 1 <= k <= |sorted|
  {
    Block(SlideMarker(k), SlideText(sorted[k - 1]))
  }

  /** The blocks of a presentation, built slide by slide as the extraction loop does. */
  function SlideBlocks(sorted: seq<ZipEntry>): seq<Block> {
    if sorted == [] then []
    else
      var n := |sorted|;
      var emitted := if SlideShown(sorted[n - 1]) then [Block(SlideMarker(n), SlideText(sorted[n - 1]))] else [];
      SlideBlocks(sorted[..n - 1]) + emitted
  }

  /** There is one block per shown slide, in sorted order, each numbered by the slide's sorted position. */
  lemma {:induction false} SlideBlocksSpec(sorted: seq<ZipEntry>)
    ensures |SlideBlocks(sorted)| == |ShownPositions(sorted)|
    ensures forall j :: 0 <= j < |SlideBlocks(sorted)| ==>
      1 <= ShownPositions(sorted)[j] <= |sorted| &&
      SlideBlocks(sorted)[j] == SlideBlock(sorted, ShownPositions(sorted)[j])
  {
    ShownPositionsAreShown(sorted);
    if sorted != [] {
      var n := |sorted|;
      var prev := sorted[..n - 1];
      SlideBlocksSpec(prev);
      ShownPositionsAreShown(prev);
      assert forall i :: 0 <= i < n - 1 ==> sorted[i] == prev[i];
    }
  }

  /** The text `extractTextFromPptx` returns for an archive, or the error of its sort. */
  function PptxText(entries: seq<ZipEntry>): Result<string> {
    match SortSlides(SlideEntries(entries))
    case Err(m) => Err(m)
    case Ok(sorted) => Ok(Render(SlideBlocks(sorted)))
  }

  /** `extractTextFromPptx` once the archive is open: filter, sort, then one pass over the sorted slides. */
  method ExtractPptxText(entries: seq<ZipEntry>) returns (r: Result<string>)
    ensures r == PptxText(entries)
  {
    var sorting := SortSlides(SlideEntries(entries));
    if sorting.Err? {
      return Err(sorting.msg);
    }
    var text := RenderSlides(sorting.value);
    return Ok(text);
  }

  /** The `for … of slideFiles.entries()` loop: appends `### SLIDE index+1` for each non-blank slide. */
  method RenderSlides(slides: seq<ZipEntry>) returns (text: string)
    ensures text == Render(SlideBlocks(slides))
  {
    text := "";
    var index := 0;
    while index < |slides|
      invariant 0 <= index <= |slides|
      invariant text == Render(SlideBlocks(slides[..index]))
    {
      var slide := slides[index];
      SlideBlocksSnoc(slides, index);
      ghost var before := SlideBlocks(slides[..index]);
      if slide.textNodes.Some? {
        var slideText := Join(slide.textNodes.value, " ");
        if Trim(slideText) != "" {
          RenderSnoc(before, Block(SlideMarker(index + 1), slideText));
          AppendNumberedBlock(text, "### SLIDE ", NatToString(index + 1), slideText);
          text := text + "### SLIDE " + NatToString(index + 1) + "\n" + slideText + "\n\n";
        } else {
          assert SlideBlocks(slides[..index + 1]) == before;
        }
      } else {
        assert SlideBlocks(slides[..index + 1]) == before;
      }
      index := index + 1;
    }
    assert slides[..|slides|] == slides;
  }

  /** The loop step: the slide at `index` adds its block exactly when it is shown. */
  lemma SlideBlocksSnoc(slides: seq<ZipEntry>, index: nat)
    requires index < |slides|
    ensures SlideBlocks(slides[..index + 1]) == SlideBlocks(slides[..index]) +
      (if SlideShown(slides[index]) then [Block(SlideMarker(index + 1), SlideText(slides[index]))] else [])
  {
    assert slides[..index + 1][..index] == slides[..index];
  }

  /** A presentation reads as blank exactly when none of its sorted slides is shown. */
  lemma PptxBlankIffNoShownSlide(sorted: seq<ZipEntry>)
    ensures Trim(Render(SlideBlocks(sorted))) == "" <==> ShownPositions(sorted) == []
  {
    var blocks := SlideBlocks(sorted);
    SlideBlocksSpec(sorted);
    if ShownPositions(sorted) != [] {
      var k := ShownPositions(sorted)[0];
      assert blocks[0] == SlideBlock(sorted, k);
      assert SlideMarker(k)[0] == '#';
      RenderVisibleHeader(blocks, 0);
    } else {
      assert blocks == [];
    }
  }

  // ---------------------------------------------------------------------------
  // One file, and the batch
  // ---------------------------------------------------------------------------

  /** What the chosen extractor returns for a file, before trimming (or the error it throws). */
  function RawContent(file: UploadedFile, libs: Libraries): Result<string> {
    var ext := Extension(file.name);
    match Classify(ext, file.mime)
    case Pdf =>
      if !libs.pdfjs then Err(LibraryMessage("pdfjsLib"))
      else (match file.parsed.pdfPages
            case Err(m) => Err(m)
            case Ok(pages) => Ok(Render(PdfBlocks(pages))))
    case Docx =>
      if !libs.mammoth then Err(LibraryMessage("mammoth")) else file.parsed.docxText
    case Spreadsheet =>
      if !libs.xlsx then Err(LibraryMessage("XLSX"))
      else (match file.parsed.workbook
            case Err(m) => Err(m)
            case Ok(sheets) => Ok(Render(SheetBlocks(sheets))))
    case Presentation =>
      if !libs.jszip then Err(LibraryMessage("JSZip"))
      else (match file.parsed.archive
            case Err(m) => Err(m)
            case Ok(entries) => PptxText(entries))
    case Legacy => Err(LegacyMessage(ext))
    case PlainText =>
      if file.parsed.plain.Some? then Ok(file.parsed.plain.value) else Err(ReadFailedMessage(file.name))
    case Unsupported => Err(UnsupportedMessage(ext))
  }

  /** The dispatch of `processFiles` for one file, running the chosen extractor. */
  method ExtractFile(file: UploadedFile, libs: Libraries) returns (r: Result<string>)
    ensures r == RawContent(file, libs)
  {
    var ext := Extension(file.name);
    var format := Classify(ext, file.mime);
    match format {
      case Pdf =>
        if !libs.pdfjs { return Err(LibraryMessage("pdfjsLib")); }
        if file.parsed.pdfPages.Err? { return Err(file.parsed.pdfPages.msg); }
        var text := ExtractPdfText(file.parsed.pdfPages.value);
        return Ok(text);
      case Docx =>
        if !libs.mammoth { return Err(LibraryMessage("mammoth")); }
        return file.parsed.docxText;
      case Spreadsheet =>
        if !libs.xlsx { return Err(LibraryMessage("XLSX")); }
        if file.parsed.workbook.Err? { return Err(file.parsed.workbook.msg); }
        var text := ExtractXlsxText(file.parsed.workbook.value);
        return Ok(text);
      case Presentation =>
        if !libs.jszip { return Err(LibraryMessage("JSZip")); }
        if file.parsed.archive.Err? { return Err(file.parsed.archive.msg); }
        r := ExtractPptxText(file.parsed.archive.value);
      case Legacy =>
        return Err(LegacyMessage(ext));
      case PlainText =>
        if file.parsed.plain.None? { return Err(ReadFailedMessage(file.name)); }
        return Ok(file.parsed.plain.value);
      case Unsupported =>
        return Err(UnsupportedMessage(ext));
    }
  }

  /** The `type` of a record: the declared MIME type, or the extension when none is declared. */
  function RecordType(file: UploadedFile): string {
    if file.mime == "" then Extension(file.name) else file.mime
  }

  /** One iteration of `processFiles`: extract, trim, reject blank text, build the record. */
  function ProcessFile(file: UploadedFile, libs: Libraries): Result<ProcessedFile> {
    match RawContent(file, libs)
    case Err(m) => Err(BatchError(file.name, m))
    case Ok(content) =>
      if Trim(content) != "" then Ok(ProcessedFile(file.name, Trim(content), RecordType(file), file.size))
      else Err(BatchError(file.name, NoTextMessage))
  }

  /**
   * A file yields a record exactly when its extraction succeeds with non-blank
   * text; the record's content is that text trimmed (so trimming it again
   * changes nothing); every failure names the file.
   */
  lemma ProcessFileSpec(file: UploadedFile, libs: Libraries)
    ensures ProcessFile(file, libs).Ok? <==> RawContent(file, libs).Ok? && !IsBlank(RawContent(file, libs).value)
    ensures ProcessFile(file, libs).Ok? ==>
      var rec := ProcessFile(file, libs).value;
      && rec.name == file.name
      && rec.content == Trim(RawContent(file, libs).value)
      && rec.content != "" && Trim(rec.content) == rec.content
      && rec.fileType == RecordType(file)
      && rec.size == file.size
    ensures ProcessFile(file, libs).Err? ==> StartsWith(ProcessFile(file, libs).msg, "Error with " + file.name + ": ")
    ensures RawContent(file, libs).Err? ==> ProcessFile(file, libs) == Err(BatchError(file.name, RawContent(file, libs).msg))
    ensures RawContent(file, libs).Ok? && IsBlank(RawContent(file, libs).value) ==>
              ProcessFile(file, libs) == Err(BatchError(file.name, NoTextMessage))
  {
    var raw := RawContent(file, libs);
    if raw.Ok? {
      TrimIdempotent(raw.value);
    }
  }

  /** The index of the first failed step, or the number of steps when none failed. */
  function FirstError<T>(results: seq<Result<T>>): (k: nat)
    ensures k <= |results|
    ensures forall i :: 0 <= i < k ==> results[i].Ok?
    ensures k < |results| ==> results[k].Err?
  {
    if results == [] then 0
    else
      var n := |results|;
      var k := FirstError(results[..n - 1]);
      if k < n - 1 then k else if results[n - 1].Err? then n - 1 else n
  }

  /** Steps run in order, stopping at the first failure. */
  function Collect<T>(results: seq<Result<T>>): Result<seq<T>> {
    if results == [] then Ok([])
    else
      var n := |results|;
      match Collect(results[..n - 1])
      case Err(m) => Err(m)
      case Ok(values) =>
        if results[n - 1].Err? then Err(results[n - 1].msg) else Ok(values + [results[n - 1].value])
  }

  /**
   * All values, in order, when every step succeeds; otherwise the error of the
   * first step that fails, and no values.
   */
  lemma {:induction false} CollectSpec<T>(results: seq<Result<T>>)
    ensures Collect(results).Ok? <==> FirstError(results) == |results|
    ensures Collect(results).Ok? ==>
      |Collect(results).value| == |results| &&
      forall i :: 0 <= i < |results| ==> results[i] == Ok(Collect(results).value[i])
    ensures Collect(results).Err? ==> Collect(results).msg == results[FirstError(results)].msg
  {
    if results != [] {
      CollectSpec(results[..|results| - 1]);
    }
  }

  /** Once a prefix of the steps has failed, later steps do not change the outcome. */
  lemma {:induction false} CollectStopsAtError<T>(results: seq<Result<T>>, k: nat)
    requires k <= |results| && Collect(results[..k]).Err?
    ensures Collect(results) == Collect(results[..k])
  {
    if k < |results| {
      var n := |results|;
      assert results[..n - 1][..k] == results[..k];
      CollectStopsAtError(results[..n - 1], k);
    } else {
      assert results[..k] == results;
    }
  }

  /** One more step: an earlier failure stands, a new failure ends the run, a success adds its value. */
  lemma CollectSnoc<T>(results: seq<Result<T>>, i: nat)
    requires i < |results|
    ensures Collect(results[..i + 1]) ==
      match Collect(results[..i])
      case Err(m) => Err(m)
      case Ok(values) => if results[i].Err? then Err(results[i].msg) else Ok(values + [results[i].value])
  {
    assert results[..i + 1][..i] == results[..i];
  }

  lemma CollectWhole<T>(results: seq<Result<T>>)
    ensures Collect(results[..|results|]) == Collect(results)
  {
    assert results[..|results|] == results;
  }

  /** The per-file outcomes of a batch, in input order. */
  function Outcomes(files: seq<UploadedFile>, libs: Libraries): seq<Result<ProcessedFile>> {
    seq(|files|, i requires 0 <= i < |files| => ProcessFile(files[i], libs))
  }

  /** The outcome of `processFiles` on a batch. */
  function ProcessAll(files: seq<UploadedFile>, libs: Libraries): Result<seq<ProcessedFile>> {
    Collect(Outcomes(files, libs))
  }

  /**
   * `processFiles`: the loop that pushes one record per file and throws on the
   * first failure.
   */
  method ProcessFiles(files: seq<UploadedFile>, libs: Libraries) returns (r: Result<seq<ProcessedFile>>)
    ensures r == ProcessAll(files, libs)
  {
    var processed: seq<ProcessedFile> := [];
    var i := 0;
    while i < |files|
      invariant 0 <= i <= |files|
      invariant Collect(Outcomes(files, libs)[..i]) == Ok(processed)
    {
      var outcome := ProcessFileStep(files[i], libs);
      ProcessedPrefixStep(files, libs, i, processed, outcome);
      if outcome.Err? {
        return Err(outcome.msg);
      }
      processed := processed + [outcome.value];
      i := i + 1;
    }
    CollectWhole(Outcomes(files, libs));
    r := Ok(processed);
  }

  /** One iteration of the loop: a failing file decides the batch, a successful one extends the records. */
  lemma ProcessedPrefixStep(files: seq<UploadedFile>, libs: Libraries, i: nat,
                            processed: seq<ProcessedFile>, outcome: Result<ProcessedFile>)
    requires i < |files| && Collect(Outcomes(files, libs)[..i]) == Ok(processed)
    requires outcome == ProcessFile(files[i], libs)
    ensures outcome.Err? ==> ProcessAll(files, libs) == Err(outcome.msg)
    ensures outcome.Ok? ==> Collect(Outcomes(files, libs)[..i + 1]) == Ok(processed + [outcome.value])
  {
    var rs := Outcomes(files, libs);
    CollectSnoc(rs, i);
    if outcome.Err? {
      CollectStopsAtError(rs, i + 1);
    }
  }

  /** The body of the `try` in `processFiles` for one file, with the `catch` that wraps its error. */
  method ProcessFileStep(file: UploadedFile, libs: Libraries) returns (r: Result<ProcessedFile>)
    ensures r == ProcessFile(file, libs)
  {
    var content := ExtractFile(file, libs);
    if content.Err? {
      return Err(BatchError(file.name, content.msg));
    }
    var trimmed := Trim(content.value);
    if trimmed == "" {
      return Err(BatchError(file.name, NoTextMessage));
    }
    var fileType := if file.mime == "" then Extension(file.name) else file.mime;
    return Ok(ProcessedFile(file.name, trimmed, fileType, file.size));
  }

  /** A batch that succeeds holds one record per file, in input order: record i is file i's own. */
  lemma ProcessAllRecords(files: seq<UploadedFile>, libs: Libraries, i: nat)
    requires ProcessAll(files, libs).Ok? && i < |files|
    ensures |ProcessAll(files, libs).value| == |files|
    ensures ProcessFile(files[i], libs) == Ok(ProcessAll(files, libs).value[i])
  {
    CollectSpec(Outcomes(files, libs));
  }

  /** A single failing file makes the whole batch fail. */
  lemma ProcessAllFailsOnAnyError(files: seq<UploadedFile>, libs: Libraries, i: nat)
    requires i < |files| && ProcessFile(files[i], libs).Err?
    ensures ProcessAll(files, libs).Err?
  {
    var rs := Outcomes(files, libs);
    assert rs[i].Err?;
    CollectSpec(rs);
  }

  /**
   * A batch that fails reports the error of its first failing file: every
   * earlier file succeeds, and the message names the failing file.
   */
  lemma ProcessAllFirstError(files: seq<UploadedFile>, libs: Libraries)
    requires ProcessAll(files, libs).Err?
    ensures FirstError(Outcomes(files, libs)) < |files|
    ensures var k := FirstError(Outcomes(files, libs));
      && ProcessFile(files[k], libs).Err?
      && ProcessAll(files, libs).msg == ProcessFile(files[k], libs).msg
      && StartsWith(ProcessAll(files, libs).msg, "Error with " + files[k].name + ": ")
  {
    var rs := Outcomes(files, libs);
    CollectSpec(rs);
    ProcessFileSpec(files[FirstError(rs)], libs);
  }

  /** Every file before the first failing one is processed successfully. */
  lemma ProcessAllBeforeFirstError(files: seq<UploadedFile>, libs: Libraries, i: nat)
    requires i < FirstError(Outcomes(files, libs))
    ensures i < |files| && ProcessFile(files[i], libs).Ok?
  {
    var rs := Outcomes(files, libs);
    assert rs[i].Ok?;
  }

  /** A batch yields no records only when no file was given: each file gives a record or fails the batch. */
  lemma ProcessAllEmpty(files: seq<UploadedFile>, libs: Libraries)
    ensures ProcessAll(files, libs) == Ok([]) <==> files == []
  {
    CollectSpec(Outcomes(files, libs));
    if files == [] {
      assert Outcomes(files, libs) == [];
    }
  }

  /** No record of a successful batch has empty or untrimmed content. */
  lemma ProcessAllContentNonEmpty(files: seq<UploadedFile>, libs: Libraries, i: nat)
    requires ProcessAll(files, libs).Ok? && i < |ProcessAll(files, libs).value|
    ensures ProcessAll(files, libs).value[i].content != ""
    ensures Trim(ProcessAll(files, libs).value[i].content) == ProcessAll(files, libs).value[i].content
  {
    CollectSpec(Outcomes(files, libs));
    ProcessFileSpec(files[i], libs);
  }

  // ---------------------------------------------------------------------------
  // Consequences of the dispatch order
  // ---------------------------------------------------------------------------

  /** A `.ppt` or `.doc` file without the PDF MIME type is always rejected, whatever its contents. */
  lemma LegacyRejected(file: UploadedFile, libs: Libraries)
    requires Extension(file.name) == "ppt" || Extension(file.name) == "doc"
    requires file.mime != PdfMime
    ensures ProcessFile(file, libs) == Err(BatchError(file.name, LegacyMessage(Extension(file.name))))
  {
    ClassifySpec(Extension(file.name), file.mime);
  }

  /**
   * A file that neither its extension nor its MIME type marks as readable is
   * rejected with its extension named, whatever its contents.
   */
  lemma UnsupportedRejected(file: UploadedFile, libs: Libraries)
    requires Extension(file.name) !in ["pdf", "docx", "xlsx", "xls", "pptx", "ppt", "doc"] && file.mime != PdfMime
    requires Extension(file.name) !in TextExtensions && !StartsWith(file.mime, "text/")
    ensures ProcessFile(file, libs) == Err(BatchError(file.name, UnsupportedMessage(Extension(file.name))))
  {
    ClassifySpec(Extension(file.name), file.mime);
  }

  /** A `.doc` declared as `text/plain` is still rejected: the legacy test comes before the text test. */
  lemma DocWithTextMimeRejected(size: nat, parsed: Parsed, libs: Libraries)
    ensures ProcessFile(UploadedFile("notes.doc", "text/plain", size, parsed), libs)
         == Err(BatchError("notes.doc", LegacyMessage("doc")))
  {
    ExtensionOfDotted("notes", "doc");
    assert "notes" + "." + "doc" == "notes.doc";
    LegacyRejected(UploadedFile("notes.doc", "text/plain", size, parsed), libs);
  }

  /** A PDF with at least one page never fails the blank-text check: its `[PAGE i]` markers survive trimming. */
  lemma PdfWithPagesAccepted(file: UploadedFile, libs: Libraries)
    requires Extension(file.name) == "pdf" || file.mime == PdfMime
    requires libs.pdfjs && file.parsed.pdfPages.Ok? && |file.parsed.pdfPages.value| > 0
    ensures ProcessFile(file, libs).Ok?
    ensures ProcessFile(file, libs).value.content == Trim(Render(PdfBlocks(file.parsed.pdfPages.value)))
  {
    ClassifySpec(Extension(file.name), file.mime);
    PdfTextNotBlank(file.parsed.pdfPages.value);
  }

  /**
   * The PDF test also catches legacy extensions: a `.doc` file declared as
   * `application/pdf` is read as a PDF instead of being rejected.
   */
  lemma DocWithPdfMimeReadAsPdf(size: nat, parsed: Parsed, libs: Libraries)
    requires libs.pdfjs && parsed.pdfPages.Ok? && |parsed.pdfPages.value| > 0
    ensures ProcessFile(UploadedFile("report.doc", PdfMime, size, parsed), libs).Ok?
  {
    PdfWithPagesAccepted(UploadedFile("report.doc", PdfMime, size, parsed), libs);
  }

  /** A workbook with at least one sheet never fails the blank-text check. */
  lemma XlsxWithSheetsAccepted(file: UploadedFile, libs: Libraries)
    requires Classify(Extension(file.name), file.mime) == Spreadsheet
    requires libs.xlsx && file.parsed.workbook.Ok? && |file.parsed.workbook.value| > 0
    ensures ProcessFile(file, libs).Ok?
  {
    XlsxTextNotBlank(file.parsed.workbook.value);
  }
}
