/**
 * The stand-alone PDF reader (services/pdfService.ts): one
 * `--- Page i ---` block per page, the untrimmed text returned with the page
 * count, and every failure after the library lookup reported under one
 * message.
 */
module PdfService {
  import opened Types
  import opened Strings
  import opened Layout

  const LibraryMissingMessage: string := "PDF.js library not loaded"

  function FailedMessage(name: string): string {
    "Failed to extract text from " + name + "."
  }

  function PageMarker(i: nat): string {
    "--- Page " + NatToString(i) + " ---"
  }

  /** The blocks of the text: exactly one per page, marked `--- Page i ---` for i = 1..n in page order. */
  function PageBlocks(pages: seq<seq<string>>): (blocks: seq<Block>)
    ensures |blocks| == |pages|
    ensures forall i :: 0 <= i < |pages| ==> blocks[i] == Block(PageMarker(i + 1), PageText(pages[i]))
  {
    if pages == [] then []
    else PageBlocks(pages[..|pages| - 1]) + [Block(PageMarker(|pages|), PageText(pages[|pages| - 1]))]
  }

  lemma PageBlocksSnoc(pages: seq<seq<string>>, i: nat)
    requires i < |pages|
    ensures PageBlocks(pages[..i + 1]) == PageBlocks(pages[..i]) + [Block(PageMarker(i + 1), PageText(pages[i]))]
  {
    assert pages[..i + 1][..i] == pages[..i];
  }

  lemma AppendPage(acc: string, i: nat, body: string)
    ensures acc + "--- Page " + NatToString(i) + " ---\n" + body + "\n\n" == acc + BlockText(Block(PageMarker(i), body))
  {
  }

  /**
   * `extractTextFromPDF`. A missing library fails before the `try` and keeps
   * its own message; a document that cannot be read fails with the file's
   * name; otherwise the pages are appended for i = 1..numPages.
   */
  method ExtractTextFromPdf(file: UploadedFile, pdfjsLoaded: bool) returns (r: Result<PdfDocument>)
    ensures !pdfjsLoaded ==> r == Err(LibraryMissingMessage)
    ensures pdfjsLoaded && file.parsed.pdfPages.Err? ==> r == Err(FailedMessage(file.name))
    ensures pdfjsLoaded && file.parsed.pdfPages.Ok? ==>
              r == Ok(PdfDocument(file.name, Render(PageBlocks(file.parsed.pdfPages.value)),
                                  |file.parsed.pdfPages.value|, file.size))
    ensures pdfjsLoaded && file.parsed.pdfPages == Ok([]) ==> r == Ok(PdfDocument(file.name, "", 0, file.size))
  {
    if !pdfjsLoaded {
      return Err(LibraryMissingMessage);
    }
    if file.parsed.pdfPages.Err? {
      return Err(FailedMessage(file.name));
    }
    var pages := file.parsed.pdfPages.value;
    var fullText := AppendPages(pages);
    r := Ok(PdfDocument(file.name, fullText, |pages|, file.size));
  }

  /** The page loop of `extractTextFromPDF`: `fullText` grows by one block per page, i = 1..numPages. */
  method AppendPages(pages: seq<seq<string>>) returns (fullText: string)
    ensures fullText == Render(PageBlocks(pages))
  {
    fullText := "";
    var i := 1;
    while i <= |pages|
      invariant 1 <= i <= |pages| + 1
      invariant fullText == Render(PageBlocks(pages[..i - 1]))
    {
      var pageText := PageText(pages[i - 1]);
      PageBlocksSnoc(pages, i - 1);
      RenderSnoc(PageBlocks(pages[..i - 1]), Block(PageMarker(i), pageText));
      AppendPage(fullText, i, pageText);
      fullText := fullText + "--- Page " + NatToString(i) + " ---\n" + pageText + "\n\n";
      i := i + 1;
    }
    assert pages[..|pages|] == pages;
  }

  /**
   * The text is not trimmed: with at least one page it ends in the blank line
   * of the last block, so trimming would change it.
   */
  lemma {:induction false} ContentKeepsTrailingBlankLine(pages: seq<seq<string>>)
    requires pages != []
    ensures EndsWith(Render(PageBlocks(pages)), "\n\n")
    ensures Trim(Render(PageBlocks(pages))) != Render(PageBlocks(pages))
  {
    var blocks := PageBlocks(pages);
    var text := Render(blocks);
    var last := blocks[|blocks| - 1];
    assert text == Render(blocks[..|blocks| - 1]) + BlockText(last);
    assert text[|text| - 2..] == BlockText(last)[|BlockText(last)| - 2..];
    assert text[|text| - 1] == '\n';
    assert IsWhitespace(text[|text| - 1]);
  }

  /** With at least one page the text opens with the first page's block. */
  lemma ContentStartsWithFirstPage(pages: seq<seq<string>>)
    requires pages != []
    ensures StartsWith(Render(PageBlocks(pages)), "--- Page 1 ---\n" + PageText(pages[0]) + "\n\n")
  {
    var blocks := PageBlocks(pages);
    RenderFirst(blocks);
    FirstPageBlock(PageText(pages[0]));
  }

  lemma FirstPageBlock(body: string)
    ensures BlockText(Block(PageMarker(1), body)) == "--- Page 1 ---\n" + body + "\n\n"
  {
    assert NatToString(1) == "1";
  }

  /** The text of the first k pages is a prefix of the whole text: pages are appended in order. */
  lemma ContentExtendsPrefix(pages: seq<seq<string>>, k: nat)
    requires k <= |pages|
    ensures StartsWith(Render(PageBlocks(pages)), Render(PageBlocks(pages[..k])))
  {
    PageBlocksPrefix(pages, k);
    RenderPrefix(PageBlocks(pages), k);
  }

  lemma PageBlocksPrefix(pages: seq<seq<string>>, k: nat)
    requires k <= |pages|
    ensures PageBlocks(pages[..k]) == PageBlocks(pages)[..k]
  {
    var blocks := PageBlocks(pages);
    var prefix := PageBlocks(pages[..k]);
    forall j | 0 <= j < k
      ensures prefix[j] == blocks[j]
    {
      assert pages[..k][j] == pages[j];
    }
  }
}
