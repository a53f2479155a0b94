# DocuChat client core, modelled in Dafny

DocuChat is a browser client: the user uploads documents, the client turns each one into plain text and starts a chat session with a hosted language model. The session's system instruction carries every document, and the model's streamed answers appear in a chat transcript. This project models the four files that do that work. Each one has its own module.

- `FileService` (file_service.dfy) covers `services/fileService.ts`.
  - It computes the extension of a file name.
  - It dispatches each file to an extractor by a fixed first-match rule (PDF, DOCX, XLSX/XLS, PPTX, legacy PPT/DOC, plain text, unsupported).
  - It lays the extractor output out as text: `[PAGE i]` blocks for PDF pages, `### SHEET: name` blocks for sheets, and `### SLIDE k` blocks for the non-blank slides after a numeric sort of the slide entries.
  - It trims the text and rejects blank text.
  - It builds the batch of records, stopping at the first file that fails and wrapping that failure as `Error with <name>: <message>`.
  - The loops of the source are methods proved against specification functions: `ExtractPdfText`, `ExtractXlsxText`, `RenderSlides` and `ProcessFiles`.
- `PdfService` (pdf_service.dfy) covers `services/pdfService.ts`, the stand-alone PDF reader.
  - It produces `--- Page i ---` blocks, returns the untrimmed text with its page count, and reports one message for every failure after the library lookup.
- `GeminiService` (gemini_service.dfy) covers `services/geminiService.ts`.
  - The module-level session is a `ChatService` object with a `session` field. Each successful initialisation replaces the field with a fresh `ChatHandle` that records the model, temperature, system instruction and seed history.
  - The system instruction is laid out from the ordered document list.
  - The streaming relay passes on the non-empty chunks and maps a remote failure to a message.
- `App` (app.dfy) covers `App.tsx`. The component state is an `App` object with one field per `useState`. The handlers that change it are methods:
  - `FilesSelected` for `handleFilesSelected`;
  - `SendMessage` for `handleSendMessage`, with its streaming loop in `ShowReply`;
  - `AddFiles` for `handleAddFiles`;
  - `ClearDocuments` for `handleClearDocuments`.

  Each handler is one transition from the state before it runs to the state after its `finally`. All handlers preserve the invariant `Valid`: nothing is in progress between handlers, and the chat screen is shown only when documents are loaded and the session's instruction lays out exactly those documents.

Shared modules:
- `Types` holds the records of `types.ts` and the abstract library outputs.
- `Strings` holds the JavaScript string built-ins the code relies on, with their meaning: `trim`, `toLowerCase`, `split('.').pop()`, `startsWith`, `join`, `${n}` and `parseInt` of `match(/\d+/)`.
- `Layout` holds the `header\nbody\n\n` block layout shared by every extractor.

Where the code and the project's design description differ, the model follows the code:
- The `k` in `### SLIDE k` is the slide's 1-based position in the sorted list of all slide entries, not its position among the slides that are emitted. A blank slide therefore leaves a gap in the numbering (`ShownPositionsComplete`, `SlideBlocksSpec`).
- A `.ppt` or `.doc` file declared as `application/pdf` is read as a PDF, because the PDF test comes first. Legacy files are not rejected unconditionally (`DocWithPdfMimeReadAsPdf`).
- Clearing the documents does not create a new chat session. The old session stays until the next successful load (`App.App.ClearDocuments`).

## Model

| member | source | states |
|---|---|---|
| FileService.ExtensionHasNoDot | services/fileService.ts:86 | the extension never contains a `.`: it is what follows the last one |
| FileService.ExtensionOfDotted | services/fileService.ts:86 | for `stem.ext` with no `.` in `ext`, the extension is `ext` lower-cased, whatever the stem |
| FileService.ExtensionOfUndotted | services/fileService.ts:86 | a name without a `.` is its own extension, lower-cased |
| FileService.ClassifySpec | services/fileService.ts:89-103 | the PDF branch is taken iff the extension is `pdf` or the MIME type is `application/pdf`; the legacy branch iff the extension is `ppt`/`doc` and the MIME type is not the PDF one; a file is unsupported iff no extension rule matches, the MIME type is not the PDF one, and neither the text extensions nor a `text/` MIME type apply |
| FileService.ExtractPdfText | services/fileService.ts:15-22 | the page loop yields exactly the rendering of one `[PAGE i]` block per page, for i = 1..n in page order |
| FileService.PdfBlocks | services/fileService.ts:16-21 | one block per page, block i marked `[PAGE i+1]` and holding that page's items joined by spaces |
| FileService.PdfTextNotBlank | services/fileService.ts:20 | a PDF with at least one page never reads as blank, because its markers survive trimming |
| FileService.ExtractXlsxText | services/fileService.ts:36-42 | the sheet loop yields exactly the rendering of one `### SHEET: name` block per sheet, in workbook order |
| FileService.SheetBlocks | services/fileService.ts:37-41 | one block per sheet, in order, holding the sheet's CSV |
| FileService.XlsxTextNotBlank | services/fileService.ts:39 | a workbook with at least one sheet never reads as blank |
| FileService.SlideEntries | services/fileService.ts:49-50 | exactly the archive entries under `ppt/slides/slide` ending `.xml` are kept |
| FileService.SlideNumberOfCanonicalPath | services/fileService.ts:52-53 | the sort key of `ppt/slides/slideN.xml` is N, so slide10 sorts after slide9 |
| FileService.InsertByPermutes | services/fileService.ts:51-55 | one insertion step of the sort adds exactly the inserted entry |
| FileService.InsertBySorted | services/fileService.ts:51-55 | inserting into a sorted list keeps it sorted |
| FileService.SortBySpec | services/fileService.ts:51-55 | the sort's output is in ascending key order and is a permutation of its input |
| FileService.SortSlidesSpec | services/fileService.ts:51-55 | the sort fails iff there are at least two entries and one has no digit, and the failure carries the null-match TypeError message; otherwise the output is sorted by slide number and is a permutation of the entries |
| FileService.ShownPositionsAreShown | services/fileService.ts:57-66 | every numbered position lies within the sorted list and names a slide whose XML was read and whose text is not blank |
| FileService.ShownPositionsIncrease | services/fileService.ts:57-66 | slide numbers strictly increase: slides are numbered in sorted order and never twice |
| FileService.ShownPositionsComplete | services/fileService.ts:57-66 | every non-blank slide is emitted with its sorted position; only blank slides are skipped |
| FileService.SlideBlocksSpec | services/fileService.ts:57-68 | there is one block per shown slide, in sorted order, each marked with the slide's sorted position and holding its text |
| FileService.RenderSlides | services/fileService.ts:57-69 | the slide loop yields exactly the rendering of the blocks of the shown slides |
| FileService.ExtractPptxText | services/fileService.ts:45-70 | a presentation's text is the sort's error, or the rendered slides of the filtered and sorted entries |
| FileService.PptxBlankIffNoShownSlide | services/fileService.ts:64-66 | a presentation reads as blank iff none of its slides is shown |
| FileService.ExtractFile | services/fileService.ts:86-103 | the dispatch returns the chosen extractor's result, or the missing-library, legacy, read-failure or unsupported-extension error |
| FileService.ProcessFileSpec | services/fileService.ts:105-117 | a file yields a record iff extraction succeeds with non-blank text; the record keeps the file's name, size and type (the MIME type, or the extension when that is empty), and its content is the trimmed text, non-empty and already trimmed; a failing extractor gives `Error with <name>: <its message>`, blank text gives `Error with <name>: No readable text found in this file.`, and every failure is prefixed `Error with <name>: ` |
| FileService.ProcessFileStep | services/fileService.ts:87-117 | one iteration of the batch loop produces that file's record or its wrapped error |
| FileService.FirstError | services/fileService.ts:85-118 | the index of the first failing step: every step before it succeeds, and the step there fails |
| FileService.CollectSpec | services/fileService.ts:85-119 | the batch succeeds iff no step fails, with one value per step in order; otherwise it carries the first failing step's error |
| FileService.CollectStopsAtError | services/fileService.ts:115-117 | once a prefix of the steps has failed, later steps do not change the outcome |
| FileService.ProcessFiles | services/fileService.ts:83-120 | the batch loop returns exactly the batch outcome: all records in input order, or the first file's error |
| FileService.ProcessAllRecords | services/fileService.ts:105-111 | a successful batch holds one record per file, and record i is file i's own |
| FileService.ProcessAllFailsOnAnyError | services/fileService.ts:115-117 | a single failing file makes the whole batch fail |
| FileService.ProcessAllFirstError | services/fileService.ts:115-117 | a failed batch reports the error of its first failing file, which names that file |
| FileService.ProcessAllBeforeFirstError | services/fileService.ts:85-118 | every file before the first failing one is processed successfully |
| FileService.ProcessAllEmpty | services/fileService.ts:83-120 | a batch yields no records iff it was given no files |
| FileService.ProcessAllContentNonEmpty | services/fileService.ts:105-108 | no record of a successful batch has empty or untrimmed content |
| FileService.LegacyRejected | services/fileService.ts:97-98 | a `.ppt` or `.doc` file without the PDF MIME type is rejected with the legacy message, whatever its contents |
| FileService.UnsupportedRejected | services/fileService.ts:101-102 | a file whose extension matches no branch and whose MIME type is neither the PDF type nor `text/` is rejected with `The file extension .<ext> is not supported yet.`, whatever its contents |
| FileService.DocWithTextMimeRejected | services/fileService.ts:97-99 | `notes.doc` declared `text/plain` is still rejected: the legacy test precedes the text test |
| FileService.PdfWithPagesAccepted | services/fileService.ts:89-90 | a PDF with at least one page always yields a record holding its trimmed page text |
| FileService.DocWithPdfMimeReadAsPdf | services/fileService.ts:89 | `report.doc` declared `application/pdf` is read as a PDF and accepted |
| FileService.XlsxWithSheetsAccepted | services/fileService.ts:93-94 | a workbook with at least one sheet always yields a record |
| PdfService.ExtractTextFromPdf | services/pdfService.ts:10-38 | a missing library fails with its own message; an unreadable document fails with `Failed to extract text from <name>.`; otherwise the result has the file's name and size, the page count, and the text of one `--- Page i ---` block per page; an empty document gives "" and 0 pages |
| PdfService.AppendPages | services/pdfService.ts:18-27 | the page loop yields exactly the rendering of the page blocks for i = 1..numPages |
| PdfService.PageBlocks | services/pdfService.ts:19-27 | one block per page, block i marked `--- Page i+1 ---` |
| PdfService.ContentKeepsTrailingBlankLine | services/pdfService.ts:26-31 | with at least one page the text ends in a blank line and is returned untrimmed |
| PdfService.ContentStartsWithFirstPage | services/pdfService.ts:19-26 | with at least one page the text opens with `--- Page 1 ---` and the first page's text |
| PdfService.ContentExtendsPrefix | services/pdfService.ts:19-27 | the text of the first k pages is a prefix of the whole text |
| GeminiService.InstructionHasEveryDocument | services/geminiService.ts:20-34 | every document's block, with its 1-based position, name and content, occurs in the system instruction |
| GeminiService.InstructionWithoutDocuments | services/geminiService.ts:26-34 | with no documents the instruction is the policy text alone |
| GeminiService.DocBlocksAppend | services/geminiService.ts:20-24 | splitting the document list splits the numbered blocks, and the second part is numbered on from the first |
| GeminiService.ContextAppend | services/geminiService.ts:20-24 | adding documents keeps the earlier context as a prefix and numbers the new documents from the earlier count plus one |
| GeminiService.AllTexts | services/geminiService.ts:62-63 | one text per chunk received, in order: the chunk's text, or "" when it carries none |
| GeminiService.NonEmptyTextsAppend | services/geminiService.ts:62-66 | the relay keeps arrival order |
| GeminiService.NonEmptyTextsSpec | services/geminiService.ts:62-66 | exactly the chunks with non-empty text are yielded: each yielded text is non-empty and came from a chunk, and no such chunk is dropped |
| GeminiService.NonEmptyTextsConcat | services/geminiService.ts:62-66 | dropping empty chunks loses no text: the yielded texts concatenate to everything the model sent |
| GeminiService.FailureMessage | services/geminiService.ts:69 | a failure is reported with the remote message when it is non-empty, and never with an empty message |
| GeminiService.ChatHandle.constructor | services/geminiService.ts:36-43 | a new session records the model, instruction, temperature and history it was created with |
| GeminiService.ChatService.constructor | services/geminiService.ts:5 | no session exists before the first initialisation |
| GeminiService.ChatService.Initialize | services/geminiService.ts:10-50 | a missing, empty or `"undefined"` key fails with the key message and leaves the previous session in place; otherwise a fresh session replaces it, created with `gemini-3-flash-preview`, temperature 0.2, the instruction over the given documents, and the given history or none |
| GeminiService.ChatService.SendMessageStream | services/geminiService.ts:55-71 | without a session nothing is yielded and the stream fails with `Session not initialized.`; otherwise exactly the non-empty chunk texts are yielded in order, then the remote failure, if any, is reported through `FailureMessage` |
| App.MessageOr | App.tsx:45 | `err.message` when it is non-empty, the fallback otherwise, so the text shown is never empty when the fallback is not |
| App.NamesEveryDocument | App.tsx:34-39 | every loaded or added document is named in bold in the message that announces it |
| App.RewriteSpec | App.tsx:67-69 | rewriting keeps the length and every message whose id differs, and changes only the text of the messages with that id |
| App.RewriteTwice | App.tsx:65-70 | a later rewrite of the placeholder overrides an earlier one, so each chunk leaves all text so far |
| App.OnlyPlaceholderRewritten | App.tsx:55-70 | when no earlier message carries the placeholder's id, a send changes only the placeholder's text |
| App.SendIdsDiffer | App.tsx:55-59 | the user's message and the placeholder get different ids |
| App.CompletedReplyIsWholeStream | App.tsx:63-70 | a reply that completes leaves the concatenation of everything the model sent, and an empty reply leaves the placeholder empty |
| App.ShownReply | App.tsx:62-75 | what the streaming loop shows equals the placeholder text the session's reply determines |
| App.SanitizeAppend | App.tsx:88-90 | the history keeps the transcript's order |
| App.SanitizeSpec | App.tsx:88-90 | exactly the messages that are not the greeting, not empty and not an error reach the new history, each as its role and text |
| App.FailedReplyNotKept | App.tsx:73-90 | a placeholder holding an error never reaches a new session's history |
| App.OutcomeErrorsNonEmpty | App.tsx:43-46 | every error `handleFilesSelected` shows and every alert `handleAddFiles` raises is a non-empty message, whatever failed |
| App.LoadOutcomeSpec | App.tsx:18-50 | a selection loads iff every file yields text, the selection is non-empty and the key is usable; the loaded list is the batch itself, one document per file; an empty selection is reported as having no readable text |
| App.App.constructor | App.tsx:12-16 | the client starts on the upload screen with no documents, no messages and no error |
| App.App.FilesSelected | App.tsx:18-50 | on failure the error is shown and the client returns to the upload screen with documents, messages and session as they were; on success a fresh session over the documents replaces the old one, the chat screen lists them, and the transcript is the single welcome message; `Valid` is preserved |
| App.App.SendMessage | App.tsx:52-79 | a blank message changes nothing; otherwise the user message and a placeholder are appended, and the placeholder ends holding the reply text or the warning-prefixed error; screen, documents and error are unchanged, and `Valid` is preserved |
| App.App.ShowReply | App.tsx:63-75 | after the loop and the `catch`, the placeholder holds all relayed text, or the error when the stream failed; nothing else changes |
| App.App.AddFiles | App.tsx:81-111 | a failure raises an alert and changes nothing; an empty batch changes nothing; otherwise the documents are appended, a fresh session whose instruction lays out all of them starts from the sanitized history, and the announcement is appended; screen and error are unchanged, and `Valid` is preserved |
| App.App.ClearDocuments | App.tsx:113-120 | once confirmed, documents, messages and error are cleared and the upload screen is shown; unconfirmed, nothing changes; the session is kept |

## Left out

- The UI components (header, uploader, chat view) and the rendering in `App.tsx` are not modelled. The handlers are called directly.
- The format libraries (pdf.js, mammoth, SheetJS, JSZip with `DOMParser`) are not modelled. Each uploaded file carries what each library would report for it, as a `Result` or an `Option`: pages of text items, raw DOCX text, sheets with their CSV, archive entries with their `a:t` node texts, or the `FileReader` text. Which libraries are loaded is the `Libraries` record. `file.arrayBuffer()` and `FileReader` are part of that input.
- The remote model and the SDK are not modelled. The reply to a message is an input `RemoteReply` (chunks, then possibly an error). The session handle records only its configuration; the history the SDK appends during a conversation is not modelled.
- GeminiService.ChatService.SendMessageStream: the `message` argument is not modelled, because what the remote model answers is an input.
- `async`/`await`, interleavings of handlers, and React's batching of `setState` are not modelled. A handler runs to completion as one transition, and `isProcessing` is true only inside it.
- App.App.SendMessage: `Date.now()` is one `now` parameter, so every reading inside a handler is taken to return the same instant. The ids are `now` and `now + 1` as decimal text.
- App.App.AddFiles: `alert` is the returned message. `confirm` is the `confirmed` parameter of `ClearDocuments`. `console.error` is left out.
- The API key is a constant of the `App` object, read from the build environment.
- `toLowerCase` is modelled for ASCII letters only. Non-ASCII upper-case letters in an extension are left unchanged.
- Strings are sequences of code points, not UTF-16 code units. `parseInt` is exact, including above 2^53.
- The TypeError text of `match(/\d+/)![0]` on a name with no digit is the one V8 produces. Other engines word it differently.
- FileService.SortBySpec: the sort is modelled as a stable insertion sort, which is the order `Array.prototype.sort` must produce. Stability itself is not stated as a lemma.
- PdfService.ExtractTextFromPdf: `console.error` in the `catch` is left out. Every failure inside the `try` maps to the same message, so the kind of failure is not modelled.
