/**
 * The client's top-level state (App.tsx) and the four handlers that change
 * it: loading a first selection of files, sending a message, adding files to
 * the conversation and clearing it. Each handler is one sequential
 * transition from the state before it runs to the state after its `finally`.
 */
module App {
  import opened Types
  import opened Strings
  import opened FileService
  import opened GeminiService

  const WelcomeId: string := "welcome"
  const NoReadableTextMessage: string := "No readable text could be extracted from these files."
  const LoadFallbackMessage: string := "An error occurred while processing files."
  const AddFallbackMessage: string := "Failed to add files."

  /** The warning sign that opens every error shown in the transcript (U+26A0 with emoji presentation). */
  const Warning: string := "\U{26A0}\U{FE0F}"

  /** `err.message || fallback`. */
  function MessageOr(msg: string, fallback: string): (r: string)
    ensures msg != "" ==> r == msg
    ensures msg == "" ==> r == fallback
    ensures fallback != "" ==> r != ""
  {
    if msg != "" then msg else fallback
  }

  /** The text a failed reply leaves in its placeholder. */
  function ErrorText(msg: string): string {
    Warning + " Error: " + msg
  }

  /** The document names in bold, separated by commas. */
  function BoldNames(docs: seq<ProcessedFile>): (names: string) {
    Join(seq(|docs|, i requires 0 <= i < |docs| => "**" + docs[i].name + "**"), ", ")
  }

  function WelcomeText(docs: seq<ProcessedFile>): string {
    Template(["I've successfully loaded ", " document(s): ", ". How can I assist you with them today?"],
             [NatToString(|docs|), BoldNames(docs)])
  }

  function AddedText(docs: seq<ProcessedFile>): string {
    Template(["Added ", " more document(s): ", ". Context updated."], [NatToString(|docs|), BoldNames(docs)])
  }

  /** Every loaded document is named, in bold, in the message that announces it. */
  lemma NamesEveryDocument(docs: seq<ProcessedFile>, i: nat)
    requires i < |docs|
    ensures Contains(WelcomeText(docs), "**" + docs[i].name + "**")
    ensures Contains(AddedText(docs), "**" + docs[i].name + "**")
  {
    var bold := seq(|docs|, i requires 0 <= i < |docs| => "**" + docs[i].name + "**");
    JoinContains(bold, ", ", i);
    TemplateOfTwo("I've successfully loaded ", " document(s): ", ". How can I assist you with them today?",
                  NatToString(|docs|), BoldNames(docs));
    TemplateOfTwo("Added ", " more document(s): ", ". Context updated.", NatToString(|docs|), BoldNames(docs));
    ContainsWithin("I've successfully loaded " + NatToString(|docs|) + " document(s): ", BoldNames(docs),
                   ". How can I assist you with them today?", bold[i]);
    assert "I've successfully loaded " + NatToString(|docs|) + " document(s): " + BoldNames(docs)
           + ". How can I assist you with them today?" == WelcomeText(docs);
    ContainsWithin("Added " + NatToString(|docs|) + " more document(s): ", BoldNames(docs),
                   ". Context updated.", bold[i]);
    assert "Added " + NatToString(|docs|) + " more document(s): " + BoldNames(docs) + ". Context updated."
           == AddedText(docs);
  }

  // ---------------------------------------------------------------------------
  // Rewriting the streamed placeholder
  // ---------------------------------------------------------------------------

  /** `prev.map(msg => msg.id === id ? { ...msg, text } : msg)`. */
  function Rewrite(messages: seq<Message>, id: string, text: string): seq<Message> {
    if messages == [] then []
    else
      var last := messages[|messages| - 1];
      Rewrite(messages[..|messages| - 1], id, text) + [if last.id == id then last.(text := text) else last]
  }

  /** Only the text of the messages carrying `id` changes; every other message, and every other field, stays. */
  lemma {:induction false} RewriteSpec(messages: seq<Message>, id: string, text: string)
    ensures |Rewrite(messages, id, text)| == |messages|
    ensures forall j :: 0 <= j < |messages| && messages[j].id != id ==> Rewrite(messages, id, text)[j] == messages[j]
    ensures forall j :: 0 <= j < |messages| && messages[j].id == id ==> Rewrite(messages, id, text)[j] == messages[j].(text := text)
  {
    if messages != [] {
      RewriteSpec(messages[..|messages| - 1], id, text);
    }
  }

  /** A later rewrite of the same message overrides an earlier one. */
  lemma {:induction false} RewriteTwice(messages: seq<Message>, id: string, a: string, b: string)
    ensures Rewrite(Rewrite(messages, id, a), id, b) == Rewrite(messages, id, b)
  {
    if messages != [] {
      var once := Rewrite(messages, id, a);
      RewriteSpec(messages, id, a);
      assert once[..|once| - 1] == Rewrite(messages[..|messages| - 1], id, a);
      RewriteTwice(messages[..|messages| - 1], id, a, b);
    }
  }

  /**
   * When no earlier message carries the placeholder's id, a send changes
   * nothing but the placeholder's text: the earlier log and the user's
   * message stay as they were.
   */
  lemma OnlyPlaceholderRewritten(prior: seq<Message>, user: Message, placeholder: Message, text: string)
    requires forall m :: m in prior ==> m.id != placeholder.id
    requires user.id != placeholder.id
    ensures Rewrite(prior + [user, placeholder], placeholder.id, text) == prior + [user, placeholder.(text := text)]
  {
    var log := prior + [user, placeholder];
    RewriteSpec(log, placeholder.id, text);
    forall j | 0 <= j < |prior|
      ensures log[j].id != placeholder.id
    {
      assert log[j] == prior[j];
    }
  }

  /** The user's message and the placeholder get different ids: the clock reading and the one after it. */
  lemma SendIdsDiffer(now: nat)
    ensures NatToString(now) != NatToString(now + 1)
  {
    if NatToString(now) == NatToString(now + 1) {
      NatToStringInjective(now, now + 1);
    }
  }

  /**
   * The text a send leaves in its placeholder, or None when the placeholder
   * keeps its empty text: an error, or the concatenated chunks once any
   * non-empty chunk arrived.
   */
  function ReplyText(ready: bool, reply: RemoteReply): Option<string> {
    if !ready then Some(ErrorText(NotInitializedMessage))
    else if reply.failure.Some? then Some(ErrorText(FailureMessage(reply.failure.value)))
    else if NonEmptyTexts(reply.chunks) != [] then Some(Concat(NonEmptyTexts(reply.chunks)))
    else None
  }

  /** A reply that completes shows everything the model sent, empty chunks included at no cost. */
  lemma CompletedReplyIsWholeStream(reply: RemoteReply)
    requires reply.failure.None?
    ensures ReplyText(true, reply).Some? ==> ReplyText(true, reply).value == Concat(AllTexts(reply.chunks))
    ensures ReplyText(true, reply).None? ==> Concat(AllTexts(reply.chunks)) == ""
  {
    NonEmptyTextsConcat(reply.chunks);
  }

  /** The log once the relayed texts and failure have been shown in the placeholder `botId`. */
  function Shown(log: seq<Message>, botId: string, yielded: seq<string>, failure: Option<string>): seq<Message> {
    if failure.Some? then Rewrite(log, botId, ErrorText(failure.value))
    else if yielded != [] then Rewrite(log, botId, Concat(yielded))
    else log
  }

  /** Showing what the relay passes on leaves the placeholder with `ReplyText`. */
  lemma ShownReply(log: seq<Message>, botId: string, ready: bool, reply: RemoteReply,
                   yielded: seq<string>, failure: Option<string>)
    requires !ready ==> yielded == [] && failure == Some(NotInitializedMessage)
    requires ready ==> yielded == NonEmptyTexts(reply.chunks)
    requires ready ==> failure == (if reply.failure.Some? then Some(FailureMessage(reply.failure.value)) else None)
    ensures Shown(log, botId, yielded, failure)
         == if ReplyText(ready, reply).Some? then Rewrite(log, botId, ReplyText(ready, reply).value) else log
  {
  }

  // ---------------------------------------------------------------------------
  // The history a re-seeded session starts from
  // ---------------------------------------------------------------------------

  /** Messages that make it into a new session's history: not the greeting, not empty, not an error. */
  predicate Kept(m: Message) {
    m.id != WelcomeId && m.text != "" && !StartsWith(m.text, Warning)
  }

  function ToContent(m: Message): Content {
    Content(m.role, [m.text])
  }

  /** The `filter`/`map` over the message log that builds the history for `initializeChatSession`. */
  function SanitizeHistory(messages: seq<Message>): seq<Content> {
    if messages == [] then []
    else
      var last := messages[|messages| - 1];
      SanitizeHistory(messages[..|messages| - 1]) + (if Kept(last) then [ToContent(last)] else [])
  }

  /** The history keeps the log's order: cleaning a log is cleaning its parts one after the other. */
  lemma {:induction false} SanitizeAppend(a: seq<Message>, b: seq<Message>)
    ensures SanitizeHistory(a + b) == SanitizeHistory(a) + SanitizeHistory(b)
  {
    if b == [] {
      assert a + b == a;
    } else {
      assert (a + b)[..|a + b| - 1] == a + b[..|b| - 1];
      assert (a + b)[|a + b| - 1] == b[|b| - 1];
      SanitizeAppend(a, b[..|b| - 1]);
    }
  }

  /** Exactly the kept messages reach the history, as their role and text. */
  lemma {:induction false} SanitizeSpec(messages: seq<Message>)
    ensures forall c :: c in SanitizeHistory(messages) ==>
              exists j :: 0 <= j < |messages| && Kept(messages[j]) && c == ToContent(messages[j])
    ensures forall j :: 0 <= j < |messages| && Kept(messages[j]) ==> ToContent(messages[j]) in SanitizeHistory(messages)
  {
    if messages != [] {
      var init := messages[..|messages| - 1];
      SanitizeSpec(init);
      forall c | c in SanitizeHistory(messages)
        ensures exists j :: 0 <= j < |messages| && Kept(messages[j]) && c == ToContent(messages[j])
      {
        if c in SanitizeHistory(init) {
          var j :| 0 <= j < |init| && Kept(init[j]) && c == ToContent(init[j]);
          assert messages[j] == init[j];
        } else {
          assert Kept(messages[|messages| - 1]) && c == ToContent(messages[|messages| - 1]);
        }
      }
      forall j | 0 <= j < |messages| && Kept(messages[j])
        ensures ToContent(messages[j]) in SanitizeHistory(messages)
      {
        if j < |init| {
          assert messages[j] == init[j];
        }
      }
    }
  }

  /** A failed reply never reaches a new session's history. */
  lemma FailedReplyNotKept(m: Message, msg: string)
    requires m.text == ErrorText(msg)
    ensures !Kept(m)
  {
    assert m.text[..|Warning|] == Warning;
  }

  // ---------------------------------------------------------------------------
  // How a batch turns into a screen
  // ---------------------------------------------------------------------------

  /**
   * What `handleFilesSelected` makes of a processed batch: the documents to
   * chat about, or the error it shows instead (a failed batch, an empty
   * batch, or a session that cannot start).
   */
  function LoadOutcome(processed: Result<seq<ProcessedFile>>, apiKey: Option<string>): Result<seq<ProcessedFile>> {
    if processed.Err? then Err(MessageOr(processed.msg, LoadFallbackMessage))
    else if processed.value == [] then Err(NoReadableTextMessage)
    else if KeyMissing(apiKey) then Err(MissingKeyMessage)
    else Ok(processed.value)
  }

  /**
   * What `handleAddFiles` makes of a processed batch: the documents to add
   * (none when the batch is empty), or the alert it raises instead.
   */
  function AddOutcome(processed: Result<seq<ProcessedFile>>, apiKey: Option<string>): Result<seq<ProcessedFile>> {
    if processed.Err? then Err(MessageOr(processed.msg, AddFallbackMessage))
    else if processed.value != [] && KeyMissing(apiKey) then Err(MissingKeyMessage)
    else Ok(processed.value)
  }

  /** Every error a handler shows or alerts is a non-empty message. */
  lemma OutcomeErrorsNonEmpty(processed: Result<seq<ProcessedFile>>, apiKey: Option<string>)
    ensures LoadOutcome(processed, apiKey).Err? ==> LoadOutcome(processed, apiKey).msg != ""
    ensures AddOutcome(processed, apiKey).Err? ==> AddOutcome(processed, apiKey).msg != ""
  {
    assert |LoadFallbackMessage| > 0 && |AddFallbackMessage| > 0;
    assert |NoReadableTextMessage| > 0 && |MissingKeyMessage| > 0;
  }

  /**
   * A selection loads exactly when every file yields text and the key is
   * usable; the screen then lists one document per file, in order. An empty
   * selection is reported as having no readable text.
   */
  lemma LoadOutcomeSpec(files: seq<UploadedFile>, libs: Libraries, apiKey: Option<string>)
    ensures LoadOutcome(ProcessAll(files, libs), apiKey).Ok? <==>
              ProcessAll(files, libs).Ok? && files != [] && !KeyMissing(apiKey)
    ensures LoadOutcome(ProcessAll(files, libs), apiKey).Ok? ==>
              LoadOutcome(ProcessAll(files, libs), apiKey).value == ProcessAll(files, libs).value
              && |LoadOutcome(ProcessAll(files, libs), apiKey).value| == |files|
    ensures files == [] ==> LoadOutcome(ProcessAll(files, libs), apiKey) == Err(NoReadableTextMessage)
  {
    ProcessAllEmpty(files, libs);
    CollectSpec(Outcomes(files, libs));
  }

  // ---------------------------------------------------------------------------
  // The component state
  // ---------------------------------------------------------------------------

  class App {
    var appState: AppState
    var activeDocuments: seq<ProcessedFile>
    var messages: seq<Message>
    var isProcessing: bool
    var error: Option<string>

    /** The chat service the handlers talk to, and the environment the page was built with. */
    const chat: ChatService
    const libs: Libraries
    const apiKey: Option<string>

    /**
     * Between handlers nothing is in progress, and the chat screen is shown
     * only with documents loaded and a session whose instruction lays out
     * exactly those documents.
     */
    predicate Valid()
      reads this, chat
    {
      !isProcessing && appState != Processing
      && (appState == Chat ==>
            activeDocuments != [] && chat.session != null
            && chat.session.systemInstruction == SystemInstruction(activeDocuments))
    }

    constructor(chat: ChatService, libs: Libraries, apiKey: Option<string>)
      ensures Valid()
      ensures appState == Upload && activeDocuments == [] && messages == [] && error == None
      ensures this.chat == chat && this.libs == libs && this.apiKey == apiKey
    {
      appState := Upload;
      activeDocuments := [];
      messages := [];
      isProcessing := false;
      error := None;
      this.chat := chat;
      this.libs := libs;
      this.apiKey := apiKey;
    }

    /**
     * `handleFilesSelected`: process the selection; on success start a session
     * over it, show the chat and greet with the document names; on any
     * failure go back to the upload screen with the message shown.
     */
    method FilesSelected(files: seq<UploadedFile>, now: int)
      requires Valid()
      modifies this, chat
      ensures Valid()
      ensures var outcome := LoadOutcome(ProcessAll(files, libs), apiKey);
              outcome.Err? ==>
                error == Some(outcome.msg) && appState == Upload
                && activeDocuments == old(activeDocuments) && messages == old(messages)
                && chat.session == old(chat.session)
      ensures var outcome := LoadOutcome(ProcessAll(files, libs), apiKey);
              outcome.Ok? ==>
                error == None && appState == Chat && activeDocuments == outcome.value
                && messages == [Message(WelcomeId, Model, WelcomeText(outcome.value), now)]
                && fresh(chat.session) && chat.session.history == []
    {
      error := None;
      isProcessing := true;
      appState := Processing;
      var processed := ProcessFiles(files, libs);
      if processed.Err? {
        error := Some(MessageOr(processed.msg, LoadFallbackMessage));
        appState := Upload;
      } else if processed.value == [] {
        error := Some(NoReadableTextMessage);
        appState := Upload;
      } else {
        var docs := processed.value;
        var started := chat.Initialize(apiKey, docs, None);
        if started.Err? {
          error := Some(MessageOr(started.msg, LoadFallbackMessage));
          appState := Upload;
        } else {
          activeDocuments := docs;
          appState := Chat;
          messages := [Message(WelcomeId, Model, WelcomeText(docs), now)];
        }
      }
      isProcessing := false;
    }

    /**
     * `handleSendMessage`: a blank message is ignored; otherwise the user's
     * message and an empty placeholder are appended, the placeholder shows the
     * reply as it streams in, and a failure replaces it with the error.
     */
    method SendMessage(text: string, now: nat, reply: RemoteReply)
      requires Valid()
      modifies this
      ensures Valid()
      ensures appState == old(appState) && activeDocuments == old(activeDocuments) && error == old(error)
      ensures IsBlank(text) ==> messages == old(messages)
      ensures !IsBlank(text) ==>
                var log := old(messages) + [Message(NatToString(now), User, text, now),
                                            Message(NatToString(now + 1), Model, "", now)];
                var shown := ReplyText(chat.session != null, reply);
                messages == if shown.Some? then Rewrite(log, NatToString(now + 1), shown.value) else log
    {
      if Trim(text) == "" {
        return;
      }
      var botId := NatToString(now + 1);
      messages := messages + [Message(NatToString(now), User, text, now)];
      isProcessing := true;
      messages := messages + [Message(botId, Model, "", now)];
      ghost var log := messages;
      assert log == old(messages) + [Message(NatToString(now), User, text, now), Message(botId, Model, "", now)];
      var yielded, failure := chat.SendMessageStream(reply);
      ShowReply(botId, yielded, failure);
      ShownReply(log, botId, chat.session != null, reply, yielded, failure);
      isProcessing := false;
    }

    /**
     * The `for await` loop and `catch` of `handleSendMessage`: after each
     * chunk the placeholder holds all text received so far, and a failure
     * replaces whatever it held with the error.
     */
    method ShowReply(botId: string, yielded: seq<string>, failure: Option<string>)
      modifies this
      ensures messages == Shown(old(messages), botId, yielded, failure)
      ensures appState == old(appState) && activeDocuments == old(activeDocuments)
      ensures error == old(error) && isProcessing == old(isProcessing)
    {
      ghost var log := messages;
      var fullText := "";
      var i := 0;
      while i < |yielded|
        invariant 0 <= i <= |yielded|
        invariant fullText == Concat(yielded[..i])
        invariant messages == if i == 0 then log else Rewrite(log, botId, fullText)
        invariant appState == old(appState) && activeDocuments == old(activeDocuments)
        invariant error == old(error) && isProcessing == old(isProcessing)
      {
        assert yielded[..i + 1] == yielded[..i] + [yielded[i]];
        fullText := fullText + yielded[i];
        if i > 0 {
          RewriteTwice(log, botId, Concat(yielded[..i]), fullText);
        }
        messages := Rewrite(messages, botId, fullText);
        i := i + 1;
      }
      assert yielded[..|yielded|] == yielded;
      if failure.Some? {
        if yielded != [] {
          RewriteTwice(log, botId, fullText, ErrorText(failure.value));
        }
        messages := Rewrite(messages, botId, ErrorText(failure.value));
      }
    }

    /**
     * `handleAddFiles`: process the new files; if there are any, re-seed the
     * session with all documents and the cleaned history, append them, and
     * announce them. A failure is reported through the returned alert and
     * changes neither documents nor messages.
     */
    method AddFiles(files: seq<UploadedFile>, now: nat) returns (alert: Option<string>)
      requires Valid()
      modifies this, chat
      ensures Valid()
      ensures appState == old(appState) && error == old(error)
      ensures var outcome := AddOutcome(ProcessAll(files, libs), apiKey);
              outcome.Err? ==>
                alert == Some(outcome.msg)
                && activeDocuments == old(activeDocuments) && messages == old(messages)
                && chat.session == old(chat.session)
      ensures var outcome := AddOutcome(ProcessAll(files, libs), apiKey);
              outcome == Ok([]) ==>
                alert == None
                && activeDocuments == old(activeDocuments) && messages == old(messages)
                && chat.session == old(chat.session)
      ensures var outcome := AddOutcome(ProcessAll(files, libs), apiKey);
              outcome.Ok? && outcome.value != [] ==>
                alert == None
                && activeDocuments == old(activeDocuments) + outcome.value
                && messages == old(messages) + [Message(NatToString(now), Model, AddedText(outcome.value), now)]
                && fresh(chat.session) && chat.session.history == SanitizeHistory(old(messages))
                && chat.session.systemInstruction == SystemInstruction(activeDocuments)
    {
      isProcessing := true;
      alert := None;
      var processed := ProcessFiles(files, libs);
      if processed.Err? {
        alert := Some(MessageOr(processed.msg, AddFallbackMessage));
      } else if processed.value != [] {
        var added := processed.value;
        var updated := activeDocuments + added;
        var history := SanitizeHistory(messages);
        var started := chat.Initialize(apiKey, updated, Some(history));
        if started.Err? {
          alert := Some(MessageOr(started.msg, AddFallbackMessage));
        } else {
          activeDocuments := updated;
          messages := messages + [Message(NatToString(now), Model, AddedText(added), now)];
        }
      }
      isProcessing := false;
    }

    /**
     * `handleClearDocuments`: once the user confirms, forget the documents
     * and the conversation and return to the upload screen. The chat
     * session itself is left as it was.
     */
    method ClearDocuments(confirmed: bool)
      requires Valid()
      modifies this
      ensures Valid()
      ensures chat.session == old(chat.session)
      ensures confirmed ==> activeDocuments == [] && messages == [] && appState == Upload && error == None
      ensures !confirmed ==>
                appState == old(appState) && activeDocuments == old(activeDocuments)
                && messages == old(messages) && error == old(error)
    {
      if confirmed {
        activeDocuments := [];
        messages := [];
        appState := Upload;
        error := None;
      }
    }
  }
}
