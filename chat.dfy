/**
 * ChatService: answering a question from the documents of a collection.
 * The question is looked up in the collection's vector store; the hits
 * become a context block inside the system prompt; the system prompt, the
 * user and assistant turns of the history and the question form the
 * message list sent to the chat model; and the hits' distinct sources
 * become links under `/docs/<collection>/`.
 *
 * The similarity search is a function of the chosen store and the query
 * (None: it throws); the chat model is a function of the message list.
 */
module Chat {
  import opened Wrappers
  import opened Strings

  /** A retrieved Spring AI Document: its text and the "source" and "title" entries of its metadata (None: absent). */
  datatype RetrievedDoc = RetrievedDoc(content: string, source: Option<string>, title: Option<string>)

  /** `ChatRequest.ChatMessage`: a history turn; the role may be null. */
  datatype HistoryMessage = HistoryMessage(role: Option<string>, content: string)

  /** `ChatRequest`, with the optional collection name the service reads; the history and the custom prompt may be null. */
  datatype ChatRequest = ChatRequest(message: string, history: Option<seq<HistoryMessage>>,
    systemPrompt: Option<string>, collectionName: Option<string>)

  /** A Spring AI chat message. */
  datatype Message = SystemMessage(text: string) | UserMessage(text: string) | AssistantMessage(text: string)

  /** The vector store a request reads: the configured default one, or the factory's store for a collection. */
  datatype StoreRef = DefaultStore | FactoryStore(name: string)

  /** What `chat` returns: the model's answer and the source links. */
  datatype ChatResponse = ChatResponse(message: string, sources: seq<string>)

  const DefaultCollection: string := "documents"

  const NoDocumentsFound: string := "No relevant documents found."

  /** `DEFAULT_SYSTEM_PROMPT`, one text-block line per entry, each ending in a line break. */
  const DefaultPromptLines: seq<string> := [
    "You are an expert support assistant for the CCLAS EL system. You have deep knowledge of CCLAS EL functionality, configuration, troubleshooting, and best practices.\n",
    "\n",
    "Instructions:\n",
    "- Answer questions based primarily on the provided context documents from the CCLAS EL documentation\n",
    "- If the context doesn't contain relevant information, say so clearly and suggest where the user might find help\n",
    "- Provide complete and detailed answers with step-by-step instructions when appropriate\n",
    "- When describing forms, screens, or processes, list ALL fields that need to be filled out with explanations of what each field is for and any valid values or formats\n",
    "- Use CCLAS EL terminology accurately and consistently\n",
    "- If you're unsure about something, acknowledge the uncertainty\n",
    "- Format your responses using markdown when appropriate (use tables for field listings when helpful)\n",
    "- Provide useful suggestions for what the user should do next or related features they might find helpful\n"
  ]

  /** `DEFAULT_SYSTEM_PROMPT`: the text block with its indentation removed. */
  const DefaultSystemPrompt: string := Concat(DefaultPromptLines)

  /** `CONTEXT_TEMPLATE` with `%s` filled by `context`. */
  function ContextSection(context: string): string {
    "\nContext from documents:\n" + context + "\n"
  }

  /** A collection name that is set and not blank. */
  predicate Named(collectionName: Option<string>) {
    collectionName.Some? && !IsBlank(collectionName.value)
  }

  // ---------------------------------------------------------------------------
  // Store, prompt, retrieval
  // ---------------------------------------------------------------------------

  /** `getVectorStore`: the default store for a null or blank name, the collection's store otherwise. */
  function GetVectorStore(collectionName: Option<string>): (r: StoreRef)
    ensures r.DefaultStore? <==> !Named(collectionName)
    ensures r.FactoryStore? ==> r.name == collectionName.value
  {
    if Named(collectionName) then FactoryStore(collectionName.value) else DefaultStore
  }

  /** The collection named in the source links: the request's collection, or "documents". */
  function EffectiveCollection(collectionName: Option<string>): (r: string)
    ensures Named(collectionName) ==> r == collectionName.value
    ensures !Named(collectionName) ==> r == DefaultCollection
  {
    if Named(collectionName) then collectionName.value else DefaultCollection
  }

  /** The links name the collection whose store was searched; the default store is linked as "documents". */
  lemma LinksNameSearchedStore(collectionName: Option<string>)
    ensures GetVectorStore(collectionName).FactoryStore? ==>
      EffectiveCollection(collectionName) == GetVectorStore(collectionName).name
    ensures GetVectorStore(collectionName).DefaultStore? ==> EffectiveCollection(collectionName) == DefaultCollection
  {
  }

  /** `buildFullSystemPrompt`: the chosen base prompt followed by the filled context template. */
  function BuildFullSystemPrompt(customPrompt: Option<string>, context: string): string {
    (if Named(customPrompt) then customPrompt.value else DefaultSystemPrompt) + ContextSection(context)
  }

  /**
   * The system prompt starts with the custom prompt when it is set and not
   * blank, with the default prompt otherwise, and ends with the context.
   */
  lemma FullPromptShape(customPrompt: Option<string>, context: string)
    ensures var r := BuildFullSystemPrompt(customPrompt, context);
      (Named(customPrompt) ==> StartsWith(r, customPrompt.value))
      && (!Named(customPrompt) ==> StartsWith(r, DefaultSystemPrompt))
      && EndsWith(r, ContextSection(context))
  {
    var basePrompt := if Named(customPrompt) then customPrompt.value else DefaultSystemPrompt;
    var r := BuildFullSystemPrompt(customPrompt, context);
    assert r == basePrompt + ContextSection(context);
    assert r[..|basePrompt|] == basePrompt;
    assert r[|r| - |ContextSection(context)|..] == ContextSection(context);
  }

  /** A null and a blank custom prompt both select the default prompt. */
  lemma BlankPromptIsDefault(customPrompt: string, context: string)
    requires IsBlank(customPrompt)
    ensures BuildFullSystemPrompt(Some(customPrompt), context) == BuildFullSystemPrompt(None, context)
  {
  }

  /**
   * `retrieveRelevantDocuments`: the search on the chosen store, or no
   * documents at all when choosing the store or searching throws.
   */
  function RetrieveRelevantDocuments(query: string, collectionName: Option<string>,
    search: (StoreRef, string) -> Option<seq<RetrievedDoc>>): (r: seq<RetrievedDoc>)
    ensures search(GetVectorStore(collectionName), query).None? ==> r == []
    ensures search(GetVectorStore(collectionName), query).Some? ==> r == search(GetVectorStore(collectionName), query).value
  {
    search(GetVectorStore(collectionName), query).GetOr([])
  }

  // ---------------------------------------------------------------------------
  // Context
  // ---------------------------------------------------------------------------

  /** The heading of the document at index `i`, up to its title. */
  function BlockHead(i: nat, d: RetrievedDoc): string {
    "\n--- Document " + NatToString(i + 1) + " (Source: " + d.source.GetOr("unknown")
  }

  /**
   * The context block of the document at index `i`: a numbered header
   * naming its source and, when it is not empty, its title; then its text.
   */
  function Block(i: nat, d: RetrievedDoc): string {
    var title := d.title.GetOr("");
    var head := if title != "" then BlockHead(i, d) + ", Title: " + title else BlockHead(i, d);
    head + ") ---\n" + d.content + "\n"
  }

  /** A block opens with its number and source and closes with the document's text. */
  lemma BlockShape(i: nat, d: RetrievedDoc)
    ensures StartsWith(Block(i, d), "\n--- Document " + NatToString(i + 1) + " (Source: " + d.source.GetOr("unknown"))
    ensures EndsWith(Block(i, d), ") ---\n" + d.content + "\n")
  {
    var h := BlockHead(i, d);
    var title := d.title.GetOr("");
    var head := if title != "" then h + ", Title: " + title else h;
    var tail := ") ---\n" + d.content + "\n";
    assert head[..|h|] == h;
    assert Block(i, d) == head + tail;
    assert Block(i, d)[..|h|] == h;
    assert Block(i, d)[|Block(i, d)| - |tail|..] == tail;
  }

  /** One block per document, numbered by position. */
  function BlockList(docs: seq<RetrievedDoc>): seq<string> {
    seq(|docs|, i requires 0 <= i < |docs| => Block(i, docs[i]))
  }

  /** `buildContext`'s result: a fixed sentence for no documents, the blocks in retrieval order otherwise. */
  function Context(docs: seq<RetrievedDoc>): string {
    if docs == [] then NoDocumentsFound else Concat(BlockList(docs))
  }

  /**
   * The context is the "no documents" sentence exactly when nothing was
   * retrieved; otherwise it is document 1's block followed by the blocks of
   * the others, front to back.
   */
  lemma ContextEmptyIff(docs: seq<RetrievedDoc>)
    ensures Context(docs) == NoDocumentsFound <==> docs == []
    ensures docs != [] ==> Context(docs) == Block(0, docs[0]) + ConcatFrom(BlockList(docs), 1)
  {
    if docs != [] {
      var parts := BlockList(docs);
      ConcatInOrder(parts);
      BlockOpensWithNewline(0, docs[0]);
      assert Context(docs) == parts[0] + ConcatFrom(parts, 1);
      assert Context(docs)[0] == '\n' != NoDocumentsFound[0];
    }
  }

  lemma BlockOpensWithNewline(i: nat, d: RetrievedDoc)
    ensures |Block(i, d)| > 0 && Block(i, d)[0] == '\n'
  {
    BlockShape(i, d);
  }

  /** `buildContext`. */
  method BuildContext(documents: seq<RetrievedDoc>) returns (context: string)
    ensures context == Context(documents)
  {
    if |documents| == 0 {
      return NoDocumentsFound;
    }
    ghost var blocks := BlockList(documents);
    context := "";
    var i := 0;
    while i < |documents|
      invariant 0 <= i <= |documents|
      invariant context == Concat(blocks[..i])
    {
      var doc := documents[i];
      var source := doc.source.GetOr("unknown");
      var title := doc.title.GetOr("");
      // the appends of one iteration, gathered into one piece
      var piece := "\n--- Document " + NatToString(i + 1) + " (Source: " + source;
      if title != "" {
        piece := piece + ", Title: " + title;
      }
      piece := piece + ") ---\n" + doc.content + "\n";
      context := context + piece;
      assert blocks[..i + 1][..i] == blocks[..i];
      i := i + 1;
    }
    assert blocks[..|documents|] == blocks;
  }

  // ---------------------------------------------------------------------------
  // Sources
  // ---------------------------------------------------------------------------

  /** The non-null "source" entries of the documents, in order. */
  function SourceNames(docs: seq<RetrievedDoc>): seq<string>
    decreases |docs|
  {
    if docs == [] then []
    else
      var last := docs[|docs| - 1];
      SourceNames(docs[..|docs| - 1]) + (if last.source.Some? then [last.source.value] else [])
  }

  /** A name is listed exactly when some document has it as its source. */
  lemma {:induction false} SourceNamesSpec(docs: seq<RetrievedDoc>, x: string)
    ensures x in SourceNames(docs) <==> exists i :: 0 <= i < |docs| && docs[i].source == Some(x)
    decreases |docs|
  {
    if docs != [] {
      var init := docs[..|docs| - 1];
      SourceNamesSpec(init, x);
      assert forall i :: 0 <= i < |init| ==> init[i] == docs[i];
    }
  }

  /** Stream `distinct()`: the first occurrence of each value, in order. */
  function Distinct(s: seq<string>): seq<string>
    decreases |s|
  {
    if s == [] then []
    else
      var d := Distinct(s[..|s| - 1]);
      if s[|s| - 1] in d then d else d + [s[|s| - 1]]
  }

  /** `k` is the index where `x` first occurs in `s`. */
  predicate FirstAt(s: seq<string>, x: string, k: nat) {
    k < |s| && s[k] == x && forall j :: 0 <= j < k ==> s[j] != x
  }

  /** `Distinct` keeps every value, each once. */
  lemma {:induction false} DistinctElements(s: seq<string>)
    ensures forall x :: x in Distinct(s) <==> x in s
    ensures forall i, j :: 0 <= i < j < |Distinct(s)| ==> Distinct(s)[i] != Distinct(s)[j]
    decreases |s|
  {
    if s != [] {
      var init := s[..|s| - 1];
      DistinctElements(init);
      assert s == init + [s[|s| - 1]];
    }
  }

  /** A first occurrence in `s + [x]` of a value already in `s` is its first occurrence in `s`. */
  lemma FirstAtSnoc(s: seq<string>, x: string, y: string, k: nat)
    requires FirstAt(s + [x], y, k)
    ensures y in s ==> FirstAt(s, y, k)
    ensures y !in s ==> y == x && k == |s|
  {
    assert forall j :: 0 <= j < |s| ==> (s + [x])[j] == s[j];
    if y in s {
      var m :| 0 <= m < |s| && s[m] == y;
      assert (s + [x])[m] == y;
      assert k <= m;
    }
  }

  /** `Distinct` lists the values in the order of their first occurrence. */
  lemma {:induction false} DistinctFirstSeenOrder(s: seq<string>, i: nat, j: nat, ki: nat, kj: nat)
    requires i < j < |Distinct(s)|
    requires FirstAt(s, Distinct(s)[i], ki) && FirstAt(s, Distinct(s)[j], kj)
    ensures ki < kj
    decreases |s|
  {
    var init := s[..|s| - 1];
    var x := s[|s| - 1];
    assert s == init + [x];
    var d := Distinct(init);
    DistinctElements(init);
    FirstAtSnoc(init, x, Distinct(s)[i], ki);
    FirstAtSnoc(init, x, Distinct(s)[j], kj);
    if x in d {
      DistinctFirstSeenOrder(init, i, j, ki, kj);
    } else if j < |d| {
      DistinctFirstSeenOrder(init, i, j, ki, kj);
    } else {
      assert Distinct(s)[i] == d[i] && d[i] in init;
    }
  }

  /** One source link. */
  function SourceUrl(collection: string, source: string): string {
    "/docs/" + collection + "/" + source
  }

  /** Links into one collection are different for different sources. */
  lemma SourceUrlInjective(collection: string, a: string, b: string)
    requires SourceUrl(collection, a) == SourceUrl(collection, b)
    ensures a == b
  {
    var p := "/docs/" + collection + "/";
    assert SourceUrl(collection, a)[|p|..] == a;
    assert SourceUrl(collection, b)[|p|..] == b;
  }

  /** The source pipeline of `chat`: non-null sources, distinct, each as a link into the effective collection. */
  function Sources(docs: seq<RetrievedDoc>, collectionName: Option<string>): (r: seq<string>)
    ensures |r| == |Distinct(SourceNames(docs))|
  {
    var names := Distinct(SourceNames(docs));
    seq(|names|, i requires 0 <= i < |names| => SourceUrl(EffectiveCollection(collectionName), names[i]))
  }

  /**
   * There is one link per distinct source and no other: a link is listed
   * exactly when some retrieved document has that source, and no link is
   * listed twice.
   */
  lemma SourcesSpec(docs: seq<RetrievedDoc>, collectionName: Option<string>)
    ensures var r := Sources(docs, collectionName);
      (forall i, j :: 0 <= i < j < |r| ==> r[i] != r[j])
      && forall x :: SourceUrl(EffectiveCollection(collectionName), x) in r <==>
        exists i :: 0 <= i < |docs| && docs[i].source == Some(x)
  {
    var c := EffectiveCollection(collectionName);
    var names := Distinct(SourceNames(docs));
    var r := Sources(docs, collectionName);
    DistinctElements(SourceNames(docs));
    forall i, j | 0 <= i < j < |r| ensures r[i] != r[j] {
      if r[i] == r[j] {
        SourceUrlInjective(c, names[i], names[j]);
      }
    }
    forall x ensures SourceUrl(c, x) in r <==> exists i :: 0 <= i < |docs| && docs[i].source == Some(x) {
      SourceNamesSpec(docs, x);
      if SourceUrl(c, x) in r {
        var k :| 0 <= k < |r| && r[k] == SourceUrl(c, x);
        SourceUrlInjective(c, names[k], x);
      }
      if x in names {
        var k :| 0 <= k < |names| && names[k] == x;
        assert r[k] == SourceUrl(c, x);
      }
    }
  }

  // ---------------------------------------------------------------------------
  // Messages
  // ---------------------------------------------------------------------------

  /** A history turn as a chat message: user and assistant roles (any case) are kept, all others dropped. */
  function Converted(h: HistoryMessage): seq<Message> {
    if h.role.Some? && EqualsIgnoreCaseLower(h.role.value, "user") then [UserMessage(h.content)]
    else if h.role.Some? && EqualsIgnoreCaseLower(h.role.value, "assistant") then [AssistantMessage(h.content)]
    else []
  }

  /** `f` applied to each element of `xs`, the results one after the other. */
  function FlatMap<A, B>(xs: seq<A>, f: A -> seq<B>): seq<B>
    decreases |xs|
  {
    if xs == [] then [] else FlatMap(xs[..|xs| - 1], f) + f(xs[|xs| - 1])
  }

  /** Mapping distributes over concatenation. */
  lemma {:induction false} FlatMapAppend<A, B>(a: seq<A>, b: seq<A>, f: A -> seq<B>)
    ensures FlatMap(a + b, f) == FlatMap(a, f) + FlatMap(b, f)
    decreases |b|
  {
    if b == [] {
      assert a + b == a;
    } else {
      var b0 := b[..|b| - 1];
      FlatMapAppend(a, b0, f);
      assert (a + b)[..|a + b| - 1] == a + b0;
      calc {
        FlatMap(a + b, f);
        FlatMap(a + b0, f) + f(b[|b| - 1]);
        (FlatMap(a, f) + FlatMap(b0, f)) + f(b[|b| - 1]);
        FlatMap(a, f) + (FlatMap(b0, f) + f(b[|b| - 1]));
        FlatMap(a, f) + FlatMap(b, f);
      }
    }
  }

  /** The history turns as chat messages, in order. */
  function HistoryMessages(history: seq<HistoryMessage>): seq<Message> {
    FlatMap(history, Converted)
  }

  /** A turn with any other role is dropped without trace; the turns around it keep their order. */
  lemma HistoryDropsOtherRoles(a: seq<HistoryMessage>, m: HistoryMessage, b: seq<HistoryMessage>)
    requires m.role.None? || (!EqualsIgnoreCaseLower(m.role.value, "user") && !EqualsIgnoreCaseLower(m.role.value, "assistant"))
    ensures HistoryMessages(a + [m] + b) == HistoryMessages(a + b)
  {
    FlatMapAppend(a + [m], b, Converted);
    FlatMapAppend(a, [m], Converted);
    FlatMapAppend(a, b, Converted);
    assert [m][..0] == [];
  }

  /** The history never contributes a system message, and at most one message per turn. */
  lemma {:induction false} HistoryMessagesShape(history: seq<HistoryMessage>)
    ensures |HistoryMessages(history)| <= |history|
    ensures forall k :: 0 <= k < |HistoryMessages(history)| ==> !HistoryMessages(history)[k].SystemMessage?
    decreases |history|
  {
    if history != [] {
      HistoryMessagesShape(history[..|history| - 1]);
      assert HistoryMessages(history) == HistoryMessages(history[..|history| - 1]) + Converted(history[|history| - 1]);
    }
  }

  /** The message list: the system prompt, the kept history turns, the question. */
  function PromptMessages(fullSystemPrompt: string, history: Option<seq<HistoryMessage>>, message: string): (r: seq<Message>)
    ensures |r| >= 2 && r[0] == SystemMessage(fullSystemPrompt) && r[|r| - 1] == UserMessage(message)
    ensures r[1..|r| - 1] == HistoryMessages(history.GetOr([]))
  {
    [SystemMessage(fullSystemPrompt)] + HistoryMessages(history.GetOr([])) + [UserMessage(message)]
  }

  /** The message-list loop of `chat` and `chatStream`. */
  method BuildMessages(fullSystemPrompt: string, history: Option<seq<HistoryMessage>>, message: string)
    returns (messages: seq<Message>)
    ensures messages == PromptMessages(fullSystemPrompt, history, message)
  {
    messages := [SystemMessage(fullSystemPrompt)];
    if history.Some? {
      var h := history.value;
      var i := 0;
      while i < |h|
        invariant 0 <= i <= |h|
        invariant messages == [SystemMessage(fullSystemPrompt)] + HistoryMessages(h[..i])
      {
        var historyMsg := h[i];
        if historyMsg.role.Some? && EqualsIgnoreCaseLower(historyMsg.role.value, "user") {
          messages := messages + [UserMessage(historyMsg.content)];
        } else if historyMsg.role.Some? && EqualsIgnoreCaseLower(historyMsg.role.value, "assistant") {
          messages := messages + [AssistantMessage(historyMsg.content)];
        }
        assert h[..i + 1][..i] == h[..i];
        i := i + 1;
      }
      assert h[..|h|] == h;
    }
    messages := messages + [UserMessage(message)];
  }

  // ---------------------------------------------------------------------------
  // chat and chatStream
  // ---------------------------------------------------------------------------

  /** What `chat` and `chatStream` send to the model for a request. */
  function ChatPrompt(request: ChatRequest, search: (StoreRef, string) -> Option<seq<RetrievedDoc>>): seq<Message> {
    var docs := RetrieveRelevantDocuments(request.message, request.collectionName, search);
    PromptMessages(BuildFullSystemPrompt(request.systemPrompt, Context(docs)), request.history, request.message)
  }

  /** When retrieval throws, the model still gets the prompt, with the "no documents" context, and there are no links. */
  lemma RetrievalFailureProceeds(request: ChatRequest, search: (StoreRef, string) -> Option<seq<RetrievedDoc>>)
    requires search(GetVectorStore(request.collectionName), request.message).None?
    ensures ChatPrompt(request, search)[0] == SystemMessage(BuildFullSystemPrompt(request.systemPrompt, NoDocumentsFound))
    ensures Sources(RetrieveRelevantDocuments(request.message, request.collectionName, search), request.collectionName) == []
  {
  }

  /** `chat`: the model's answer to the prompt, and the links to the retrieved sources. */
  method ChatCall(request: ChatRequest, search: (StoreRef, string) -> Option<seq<RetrievedDoc>>,
    model: seq<Message> -> string) returns (response: ChatResponse)
    ensures response.message == model(ChatPrompt(request, search))
    ensures response.sources == Sources(RetrieveRelevantDocuments(request.message, request.collectionName, search),
      request.collectionName)
  {
    var relevantDocs := RetrieveRelevantDocuments(request.message, request.collectionName, search);
    var context := BuildContext(relevantDocs);
    var sources := Sources(relevantDocs, request.collectionName);
    var fullSystemPrompt := BuildFullSystemPrompt(request.systemPrompt, context);
    var messages := BuildMessages(fullSystemPrompt, request.history, request.message);
    response := ChatResponse(model(messages), sources);
  }

  /** `chatStream`: the model's streamed answer to the same prompt as `chat`. */
  method ChatStream(request: ChatRequest, search: (StoreRef, string) -> Option<seq<RetrievedDoc>>,
    stream: seq<Message> -> seq<string>) returns (pieces: seq<string>)
    ensures pieces == stream(ChatPrompt(request, search))
  {
    var relevantDocs := RetrieveRelevantDocuments(request.message, request.collectionName, search);
    var context := BuildContext(relevantDocs);
    var fullSystemPrompt := BuildFullSystemPrompt(request.systemPrompt, context);
    var messages := BuildMessages(fullSystemPrompt, request.history, request.message);
    pieces := stream(messages);
  }
}
