/**
 * The chat session layer (services/geminiService.ts): one module-level
 * session that each successful initialisation replaces, the system
 * instruction laid out from the ordered document list, and the relay that
 * passes the remote model's streamed chunks on.
 *
 * The hosted model is not modelled: a session is an opaque handle recording
 * what it was created with, and the remote answer to a message is an input.
 */
module GeminiService {
  import opened Types
  import opened Strings

  /** A history entry handed to the SDK: `Content` with its text parts. */
  datatype Content = Content(role: Role, parts: seq<string>)

  const ModelName: string := "gemini-3-flash-preview"
  const Temperature: real := 0.2
  const MissingKeyMessage: string := "API Key is missing. Set VITE_API_KEY in your environment."
  const NotInitializedMessage: string := "Session not initialized."
  const NoResponseMessage: string := "AI failed to respond."

  /** The key is unusable when absent, empty, or the literal text `undefined` a build leaves behind. */
  predicate KeyMissing(apiKey: Option<string>) {
    apiKey.None? || apiKey.value == "" || apiKey.value == "undefined"
  }

  // ---------------------------------------------------------------------------
  // The system instruction
  // ---------------------------------------------------------------------------

  /** The context block of the document at 1-based position `i`. */
  function DocBlock(i: nat, file: ProcessedFile): string {
    "\n--- DOCUMENT " + NatToString(i) + ": " + file.name + " ---\n"
    + file.content
    + "\n--- END OF DOCUMENT " + NatToString(i) + " ---\n"
  }

  /** `files.map(...)`: the blocks of `files`, numbered consecutively from `first`. */
  function DocBlocksFrom(files: seq<ProcessedFile>, first: nat): seq<string> {
    seq(|files|, i requires 0 <= i < |files| => DocBlock(first + i, files[i]))
  }

  /** `fileContext`: one block per document, numbered 1..n in list order, separated by a blank line. */
  function FileContext(files: seq<ProcessedFile>): string {
    Join(DocBlocksFrom(files, 1), "\n\n")
  }

  const InstructionPreamble: string :=
    "\n      You are a specialized Document Analysis Assistant. "
    + "\n      Answer questions based ONLY on the provided document content."
    + "\n      Always cite the document name."
    + "\n      If information is missing, say you don't know based on these files."
    + "\n      "
    + "\n      DOCUMENTS:"
    + "\n      "

  const InstructionTail: string := "\n    "

  /** `systemInstruction`: the fixed policy text, then the document context. */
  function SystemInstruction(files: seq<ProcessedFile>): string {
    InstructionPreamble + FileContext(files) + InstructionTail
  }

  /** Every document's block, with its position and name, is part of the instruction. */
  lemma InstructionHasEveryDocument(files: seq<ProcessedFile>, i: nat)
    requires i < |files|
    ensures Contains(SystemInstruction(files), DocBlock(i + 1, files[i]))
  {
    var blocks := DocBlocksFrom(files, 1);
    JoinContains(blocks, "\n\n", i);
    ContainsWithin(InstructionPreamble, FileContext(files), InstructionTail, blocks[i]);
  }

  /** With no documents the instruction is the policy text alone. */
  lemma InstructionWithoutDocuments()
    ensures SystemInstruction([]) == InstructionPreamble + InstructionTail
  {
    assert FileContext([]) == "";
  }

  /** Splitting the document list splits the numbering: the second part is numbered on from the first. */
  lemma DocBlocksAppend(a: seq<ProcessedFile>, b: seq<ProcessedFile>, first: nat)
    ensures DocBlocksFrom(a + b, first) == DocBlocksFrom(a, first) + DocBlocksFrom(b, first + |a|)
  {
    var whole := DocBlocksFrom(a + b, first);
    var parts := DocBlocksFrom(a, first) + DocBlocksFrom(b, first + |a|);
    forall i | 0 <= i < |whole|
      ensures whole[i] == parts[i]
    {
      if i >= |a| {
        assert (a + b)[i] == b[i - |a|];
      } else {
        assert (a + b)[i] == a[i];
      }
    }
  }

  /**
   * Adding documents to a non-empty list keeps the earlier context as a prefix and
   * continues the numbering: the new documents are numbered from |earlier| + 1.
   */
  lemma ContextAppend(earlier: seq<ProcessedFile>, added: seq<ProcessedFile>)
    requires earlier != [] && added != []
    ensures FileContext(earlier + added) == FileContext(earlier) + "\n\n" + Join(DocBlocksFrom(added, |earlier| + 1), "\n\n")
  {
    DocBlocksAppend(earlier, added, 1);
    JoinAppend(DocBlocksFrom(earlier, 1), DocBlocksFrom(added, |earlier| + 1), "\n\n");
  }

  // ---------------------------------------------------------------------------
  // The streamed reply
  // ---------------------------------------------------------------------------

  /** `chunk.text`: None when the chunk carries no text. */
  function ChunkText(chunk: Option<string>): string {
    if chunk.Some? then chunk.value else ""
  }

  /** What the remote model sends back for one message: its chunks in arrival order, then possibly an error with its message. */
  datatype RemoteReply = RemoteReply(chunks: seq<Option<string>>, failure: Option<string>)

  /** Every chunk's text, in arrival order, empty where the chunk has none. */
  function AllTexts(chunks: seq<Option<string>>): (texts: seq<string>)
    ensures |texts| == |chunks|
    ensures forall i :: 0 <= i < |chunks| ==> texts[i] == ChunkText(chunks[i])
  {
    if chunks == [] then [] else AllTexts(chunks[..|chunks| - 1]) + [ChunkText(chunks[|chunks| - 1])]
  }

  /** The texts the relay yields: those of the chunks with non-empty text, in arrival order. */
  function NonEmptyTexts(chunks: seq<Option<string>>): seq<string> {
    if chunks == [] then []
    else
      var text := ChunkText(chunks[|chunks| - 1]);
      NonEmptyTexts(chunks[..|chunks| - 1]) + (if text != "" then [text] else [])
  }

  lemma NonEmptyTextsSnoc(chunks: seq<Option<string>>, i: nat)
    requires i < |chunks|
    ensures NonEmptyTexts(chunks[..i + 1])
         == NonEmptyTexts(chunks[..i]) + (if ChunkText(chunks[i]) != "" then [ChunkText(chunks[i])] else [])
  {
    assert chunks[..i + 1][..i] == chunks[..i];
  }

  /** Arrival order is kept: the texts of a stream are the texts of its first part, then those of the rest. */
  lemma {:induction false} NonEmptyTextsAppend(a: seq<Option<string>>, b: seq<Option<string>>)
    ensures NonEmptyTexts(a + b) == NonEmptyTexts(a) + NonEmptyTexts(b)
  {
    if b == [] {
      assert a + b == a;
    } else {
      var init := b[..|b| - 1];
      assert (a + b)[..|a + b| - 1] == a + init;
      assert (a + b)[|a + b| - 1] == b[|b| - 1];
      NonEmptyTextsAppend(a, init);
    }
  }

  /** Exactly the chunks with non-empty text are yielded: each yielded text is non-empty and came from a chunk, and no such chunk is dropped. */
  lemma {:induction false} NonEmptyTextsSpec(chunks: seq<Option<string>>)
    ensures |NonEmptyTexts(chunks)| <= |chunks|
    ensures forall t :: t in NonEmptyTexts(chunks) ==> t != "" && Some(t) in chunks
    ensures forall j :: 0 <= j < |chunks| && ChunkText(chunks[j]) != "" ==> ChunkText(chunks[j]) in NonEmptyTexts(chunks)
  {
    if chunks != [] {
      var init, last := chunks[..|chunks| - 1], chunks[|chunks| - 1];
      NonEmptyTextsSpec(init);
      assert chunks == init + [last];
      forall j | 0 <= j < |chunks| && ChunkText(chunks[j]) != ""
        ensures ChunkText(chunks[j]) in NonEmptyTexts(chunks)
      {
        if j < |init| {
          assert chunks[j] == init[j];
        }
      }
    }
  }

  /** Dropping empty chunks loses no text: what is yielded concatenates to everything the model sent. */
  lemma {:induction false} NonEmptyTextsConcat(chunks: seq<Option<string>>)
    ensures Concat(NonEmptyTexts(chunks)) == Concat(AllTexts(chunks))
  {
    if chunks != [] {
      var init := chunks[..|chunks| - 1];
      var text := ChunkText(chunks[|chunks| - 1]);
      NonEmptyTextsConcat(init);
      assert AllTexts(chunks) == AllTexts(init) + [text];
      if text != "" {
        assert Concat(NonEmptyTexts(init) + [text]) == Concat(NonEmptyTexts(init)) + text;
      } else {
        assert NonEmptyTexts(chunks) == NonEmptyTexts(init);
        assert Concat(AllTexts(chunks)) == Concat(AllTexts(init)) + "";
      }
    }
  }

  /** The message a failed stream is reported with: the remote error's own, or a fixed one when it has none. */
  function FailureMessage(remote: string): (msg: string)
    ensures msg != ""
    ensures remote != "" ==> msg == remote
  {
    if remote != "" then remote else NoResponseMessage
  }

  // ---------------------------------------------------------------------------
  // The session
  // ---------------------------------------------------------------------------

  /** A chat created by the SDK: what it was configured with. */
  class ChatHandle {
    const model: string
    const systemInstruction: string
    const temperature: real
    const history: seq<Content>

    constructor(model: string, systemInstruction: string, temperature: real, history: seq<Content>)
      ensures this.model == model && this.systemInstruction == systemInstruction
      ensures this.temperature == temperature && this.history == history
    {
      this.model := model;
      this.systemInstruction := systemInstruction;
      this.temperature := temperature;
      this.history := history;
    }
  }

  /** The module state: `chatSession`, null until the first successful initialisation. */
  class ChatService {
    var session: ChatHandle?

    constructor()
      ensures session == null
    {
      session := null;
    }

    /**
     * `initializeChatSession`. A missing key fails before anything is
     * assigned, so the previous session survives; otherwise a new chat
     * replaces it, seeded with `history` or with nothing.
     */
    method Initialize(apiKey: Option<string>, files: seq<ProcessedFile>, history: Option<seq<Content>>)
      returns (r: Result<bool>)
      modifies this
      ensures KeyMissing(apiKey) ==> r == Err(MissingKeyMessage) && session == old(session)
      ensures !KeyMissing(apiKey) ==> r == Ok(true) && session != null && fresh(session)
      ensures !KeyMissing(apiKey) ==>
                session.model == ModelName && session.temperature == Temperature
                && session.systemInstruction == SystemInstruction(files)
                && session.history == (if history.Some? then history.value else [])
    {
      if KeyMissing(apiKey) {
        return Err(MissingKeyMessage);
      }
      var seed := if history.Some? then history.value else [];
      session := new ChatHandle(ModelName, SystemInstruction(files), Temperature, seed);
      r := Ok(true);
    }

    /**
     * `sendMessageStream`: without a session nothing is yielded; otherwise the
     * chunks with text are yielded in arrival order, and a remote failure
     * ends the stream with its message after what was already yielded.
     */
    method SendMessageStream(reply: RemoteReply) returns (yielded: seq<string>, failure: Option<string>)
      ensures session == null ==> yielded == [] && failure == Some(NotInitializedMessage)
      ensures session != null ==> yielded == NonEmptyTexts(reply.chunks)
      ensures session != null ==>
                failure == (if reply.failure.Some? then Some(FailureMessage(reply.failure.value)) else None)
    {
      if session == null {
        return [], Some(NotInitializedMessage);
      }
      yielded := [];
      var i := 0;
      while i < |reply.chunks|
        invariant 0 <= i <= |reply.chunks|
        invariant yielded == NonEmptyTexts(reply.chunks[..i])
      {
        var text := ChunkText(reply.chunks[i]);
        NonEmptyTextsSnoc(reply.chunks, i);
        if text != "" {
          yielded := yielded + [text];
        }
        i := i + 1;
      }
      assert reply.chunks[..|reply.chunks|] == reply.chunks;
      failure := if reply.failure.Some? then Some(FailureMessage(reply.failure.value)) else None;
    }
  }
}
