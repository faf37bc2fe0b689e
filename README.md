# A verified model of a retrieval-augmented chat service

This project is a Dafny model of the logic in a retrieval-augmented (RAG)
chat service backed by ChromaDB. The back end is Spring (Java) and the front end is React. The model
covers seven parts:

- **Document ingestion** (`Documents`, `TextChunker`): the sliding-window
  splitter `chunkText`; the directory load with its counters, chunk
  metadata, batches of 100 and page registry; and the single-page loads.
- **HTML normalisation** (`HtmlParsing`): the removal of non-content
  elements, the title fallback, and the white-space collapse and trim.
- **Collection metadata** (`CollectionMetadataStore`): titles, logos and
  one-hop aliases, read from and written back to a metadata file.
- **Prompt assembly** (`Chat`): the store choice, the context block, the
  system prompt, the message list and the de-duplicated source links.
- **Saved conversations** (`ConversationEntity`, `Conversations`): the JPA
  entity with its setters; session cookies; updates scoped to a session,
  with automatic titles; and delete.
- **The front-end conversation list** (`ConversationsHook`): a list of
  conversations and an active id, modelled as a class.
- **Markdown tables** (`Markdown`): `parseMarkdownTables` and
  `convertTableToHtml`, plus the paragraph and line-break tail of
  `formatMessage`.

`Strings` holds the Java and JavaScript string operations the code relies
on: the two `trim()`s, `isBlank`, `lastIndexOf`, `replace`, `split` and
`join`, the `\s` class, and `equalsIgnoreCase` against lower-case ASCII
targets. `Wrappers` holds `Option`.

The outside parts of the system are parameters of the operations:

- **Vector stores.** The model records the log of calls made on them as
  `storeCalls`. A failing `add` is a predicate on the batch's first record
  index.
- **Similarity search.** A function of the chosen store and the query;
  None means it throws.
- **Chat model.** A function of the message list.
- **Other libraries and nondeterminism.**
  - Jsoup becomes a parsed DOM value.
  - Jackson becomes a decoding function.
  - The metadata file becomes a `MetadataFile` value.
  - UUIDs, clocks and `Date.now` become explicit arguments.
  - Browser `localStorage` becomes the stored state the hook is started with.

Where a loop in the source changes state, the model has a method with a
loop. Each such method is proved equal to a specification function, and the
properties are proved as lemmas about that function. This holds for
`chunkText`, `buildContext`, the history loop, the per-file and batch loops,
the cookie search, the title search and both markdown loops.

## Model

| member | source | states |
|---|---|---|
| Strings.RegexSpaceIsTrimmable | src/main/java/com/chatbot/service/HtmlParserService.java:37 | every character `\s` matches is also one that Java's `trim()` removes |
| Strings.BlankIffAllWhitespace | src/main/java/com/chatbot/service/DocumentService.java:233 | `isBlank()` holds exactly when every character is Java white space |
| Strings.NotBlankAt | src/main/java/com/chatbot/service/DocumentService.java:233 | one non-white-space character makes a string non-blank |
| Strings.LeadingCount | src/main/java/com/chatbot/service/DocumentService.java:256 | the length of the longest prefix of removable characters: all before it are removable and the next one is not |
| Strings.TrailingCount | src/main/java/com/chatbot/service/DocumentService.java:256 | the same for the longest removable suffix |
| Strings.Trim | src/main/java/com/chatbot/service/DocumentService.java:256 | the result is the slice of the input after its leading run, and neither of its end characters is removable |
| Strings.TrimDropsOnly | src/main/java/com/chatbot/service/DocumentService.java:256 | trimming removes only removable characters, from the two ends |
| Strings.TrimEmptyIff | src/main/java/com/chatbot/service/DocumentService.java:256-257 | a trim gives "" exactly when every character is removable |
| Strings.TrimOfTrimmed | src/main/java/com/chatbot/service/DocumentService.java:256 | a trim is trimmed, and a string equals its trim exactly when it is trimmed (idempotence) |
| Strings.TrimKeeps | src/main/java/com/chatbot/service/DocumentService.java:256 | a non-removable character survives trimming, shifted left by the leading run |
| Strings.LastAtOrBefore | src/main/java/com/chatbot/service/DocumentService.java:246-247 | the result is -1 or an occurrence of the pattern at or before the bound |
| Strings.LastAtOrBeforeIsLast | src/main/java/com/chatbot/service/DocumentService.java:246-247 | no occurrence lies between the result and the bound |
| Strings.LastIndexOf | src/main/java/com/chatbot/service/DocumentService.java:246-247 | `lastIndexOf(pat, from)` gives -1 or an occurrence at or before `from` |
| Strings.LastIndexOfIsLast | src/main/java/com/chatbot/service/DocumentService.java:246-247 | there is no later occurrence at or before `from` |
| Strings.IndexOfFrom | src/main/java/com/chatbot/service/HtmlParserService.java:27 | the first occurrence at or after `from`, or -1 when there is none |
| Strings.ReplaceAbsent | src/main/java/com/chatbot/service/HtmlParserService.java:27 | `replace` leaves a string without the pattern unchanged |
| Strings.RemoveTrailing | src/main/java/com/chatbot/service/HtmlParserService.java:27 | removing a pattern from a stem that lacks the pattern's first character, followed by the pattern, gives the stem |
| Strings.ReplaceCharRemovesIt | src/main/java/com/chatbot/service/DocumentService.java:94 | replacing a character by a text that lacks it leaves no occurrence of it |
| Strings.SplitOn | frontend/src/utils/markdown.js:41 | JavaScript `split` always gives at least one piece |
| Strings.JoinSplit | frontend/src/utils/markdown.js:41-70 | joining the pieces of a split with the separator gives back the original text |
| Strings.SplitPiecesAvoidSep | frontend/src/utils/markdown.js:23 | no piece of a split contains the separator |
| Strings.ConcatSplit | src/main/java/com/chatbot/service/ChatService.java:196-211 | concatenating a prefix and the rest of a list of pieces gives the whole |
| Strings.ConcatInOrder | src/main/java/com/chatbot/service/ChatService.java:196-211 | the right-nested and left-nested concatenations agree |
| Strings.NatToString | src/main/java/com/chatbot/service/ChatService.java:202 | `%d` of a natural number is a non-empty string of digits with no leading zero |
| Strings.AsciiLowerString | src/main/java/com/chatbot/service/DocumentService.java:72 | `toLowerCase()` keeps the length and lower-cases each character |
| HtmlParsing.StripRemovesAll | src/main/java/com/chatbot/service/HtmlParserService.java:31 | after the removal, no element at any depth matches the selector |
| HtmlParsing.StripNodeRemovesAll | src/main/java/com/chatbot/service/HtmlParserService.java:31 | removal inside a kept element leaves no matching descendant and keeps its tag |
| HtmlParsing.StripKeepsClean | src/main/java/com/chatbot/service/HtmlParserService.java:31 | removal changes nothing in a tree without matching elements |
| HtmlParsing.StripNodeKeepsClean | src/main/java/com/chatbot/service/HtmlParserService.java:31 | the same for a single node |
| HtmlParsing.DropSpaces | src/main/java/com/chatbot/service/HtmlParserService.java:37 | dropping leading `\s` characters leaves none at the front |
| HtmlParsing.CollapseSpaces | src/main/java/com/chatbot/service/HtmlParserService.java:37 | `replaceAll("\\s+", " ")` keeps a first character that is not white space |
| HtmlParsing.CollapseSingleSpaced | src/main/java/com/chatbot/service/HtmlParserService.java:37 | after the collapse, every white-space character is a single space with no white space after it |
| HtmlParsing.SingleSpacedSlice | src/main/java/com/chatbot/service/HtmlParserService.java:37 | any slice of a single-spaced string is single-spaced |
| HtmlParsing.NormalizedIsClean | src/main/java/com/chatbot/service/HtmlParserService.java:37 | the normalised content has no run of white space and nothing to trim at either end |
| HtmlParsing.VisibleAppend | src/main/java/com/chatbot/service/HtmlParserService.java:37 | the visible characters of a concatenation are those of its parts |
| HtmlParsing.VisibleOfInvisible | src/main/java/com/chatbot/service/HtmlParserService.java:37 | a string of control characters and spaces has no visible characters |
| HtmlParsing.VisibleDropSpaces | src/main/java/com/chatbot/service/HtmlParserService.java:37 | dropping white space keeps every visible character |
| HtmlParsing.CollapseKeepsVisible | src/main/java/com/chatbot/service/HtmlParserService.java:37 | collapsing white space keeps every visible character, in order |
| HtmlParsing.TrimKeepsVisible | src/main/java/com/chatbot/service/HtmlParserService.java:37 | trimming keeps every visible character |
| HtmlParsing.NormalizeKeepsVisible | src/main/java/com/chatbot/service/HtmlParserService.java:37 | normalisation loses no visible character and adds none |
| HtmlParsing.ParseHtmlFile | src/main/java/com/chatbot/service/HtmlParserService.java:20-42 | the result carries the file's name and its absolute path |
| HtmlParsing.ParsedFileTitleAndContent | src/main/java/com/chatbot/service/HtmlParserService.java:20-42 | a parsed file's title is the page's own when it is not blank, otherwise the fallback from the file's name; its content is single-spaced and trimmed, and has exactly the visible characters of the extracted text |
| HtmlParsing.ParseHtmlString | src/main/java/com/chatbot/service/HtmlParserService.java:44-58 | the result carries the given filename and a null file path |
| HtmlParsing.TitleChoice | src/main/java/com/chatbot/service/HtmlParserService.java:47-50 | the title is the page's own when it is not blank, otherwise the filename fallback |
| HtmlParsing.FallbackOfPlainName | src/main/java/com/chatbot/service/HtmlParserService.java:49 | a name without ".htm" is its own fallback title |
| HtmlParsing.FallbackDropsHtml | src/main/java/com/chatbot/service/HtmlParserService.java:49 | "stem.html" falls back to "stem" |
| HtmlParsing.FallbackDropsHtm | src/main/java/com/chatbot/service/HtmlParserService.java:49 | "stem.htm" falls back to "stem" |
| HtmlParsing.FallbackIsCaseSensitive | src/main/java/com/chatbot/service/HtmlParserService.java:27 | "X.HTML" keeps its extension |
| HtmlParsing.ParsedContentIsNormalized | src/main/java/com/chatbot/service/HtmlParserService.java:52-55 | the content is single-spaced and trimmed, and has exactly the visible characters of the extracted text |
| TextChunker.DefaultConfigIsValid | src/main/java/com/chatbot/service/DocumentService.java:237-238 | the defaults of 1000 and 200 satisfy `0 <= overlap <= chunkSize/2` |
| TextChunker.WindowEnd | src/main/java/com/chatbot/service/DocumentService.java:242-254 | a window ends after its start, within the text, at most chunkSize+1 characters on, exceeds chunkSize only by snapping to a ". " at start+chunkSize, and when it ends before the text does, ends past the middle |
| TextChunker.EndTableValid | src/main/java/com/chatbot/service/DocumentService.java:242-254 | the window ends of all start positions obey those bounds |
| TextChunker.Windows | src/main/java/com/chatbot/service/DocumentService.java:241-265 | the windows the loop visits start at `start` and the last one reaches the end of the text |
| TextChunker.WindowsStep | src/main/java/com/chatbot/service/DocumentService.java:261-264 | the loop breaks exactly at a window that reaches the end; otherwise the next one starts at end − overlap, strictly later and inside the text |
| TextChunker.WindowsBounded | src/main/java/com/chatbot/service/DocumentService.java:242-254 | every window lies in the text, is non-empty and has at most chunkSize+1 characters |
| TextChunker.WindowsProgress | src/main/java/com/chatbot/service/DocumentService.java:261-264 | consecutive windows satisfy next.start = prev.end − overlap with start strictly increasing, and only the last reaches the end |
| TextChunker.WindowsCover | src/main/java/com/chatbot/service/DocumentService.java:241-265 | every position from `start` on lies in some window |
| TextChunker.WindowTextIsSlice | src/main/java/com/chatbot/service/DocumentService.java:256 | a trimmed window is a slice of the text inside the window |
| TextChunker.ChunkFromWindow | src/main/java/com/chatbot/service/DocumentService.java:256-259 | every chunk is the non-empty trimmed text of a visited window |
| TextChunker.WindowChunkHolds | src/main/java/com/chatbot/service/DocumentService.java:256-259 | every visited window with non-empty trimmed text gives a chunk |
| TextChunker.SnapWindowEnd | src/main/java/com/chatbot/service/DocumentService.java:242-254 | the loop body's end computation equals WindowEnd |
| TextChunker.SlideWindows | src/main/java/com/chatbot/service/DocumentService.java:240-267 | the while loop yields exactly the non-empty trimmed window texts, in order |
| TextChunker.ChunkText | src/main/java/com/chatbot/service/DocumentService.java:230-268 | `chunkText` equals the specification Chunks, and a blank text gives no chunks |
| TextChunker.ChunkIsWindowText | src/main/java/com/chatbot/service/DocumentService.java:241-265 | each chunk is the trimmed text of a window of at most chunkSize+1 characters |
| TextChunker.ChunksAreTrimmedAndBounded | src/main/java/com/chatbot/service/DocumentService.java:256-259 | every chunk is non-empty, equal to its own trim, and at most chunkSize+1 long |
| TextChunker.LongWindowOnlyAtPeriod | src/main/java/com/chatbot/service/DocumentService.java:246-250 | a window of chunkSize+1 characters arises only from a ". " found at index start+chunkSize |
| TextChunker.TextWindowsProgress | src/main/java/com/chatbot/service/DocumentService.java:240-265 | the windows start at 0, reach the end of the text, and advance as WindowsProgress says |
| TextChunker.ShortTextIsOneChunk | src/main/java/com/chatbot/service/DocumentService.java:233-259 | a non-blank text of at most chunkSize characters gives exactly its trim as the single chunk, or nothing when the trim is empty |
| TextChunker.WindowAt | src/main/java/com/chatbot/service/DocumentService.java:241-265 | every non-white-space character lies in a visited window, whose trimmed text, when non-empty, is a chunk |
| TextChunker.KeptInWindowText | src/main/java/com/chatbot/service/DocumentService.java:256 | a character that trimming keeps lies in the trimmed window text, which is a slice |
| TextChunker.EveryVisibleCharIsChunked | src/main/java/com/chatbot/service/DocumentService.java:230-268 | every character that is neither trimmable nor white space lies within a slice of the text that is a chunk |
| TextChunker.ChunksAreSlices | src/main/java/com/chatbot/service/DocumentService.java:256 | every chunk is a contiguous slice of the text |
| TextChunker.StallBeyondHalfOverlap | src/main/java/com/chatbot/service/DocumentService.java:249-261 | with chunkSize 10 and overlap 6, the first window of "aaaaaa bbbbbbbbbbbbb" snaps back to end 6, so the next start 6 − 6 is again 0 and the loop never advances |
| Documents.HtmlFiles | src/main/java/com/chatbot/service/DocumentService.java:68-75 | exactly the regular files whose lower-cased name ends in ".html" or ".htm" are kept |
| Documents.HtmlNameIgnoresCase | src/main/java/com/chatbot/service/DocumentService.java:72-73 | the selection does not depend on the case of the name |
| Documents.SourcePath | src/main/java/com/chatbot/service/DocumentService.java:94 | the relative path with every '\' replaced by '/', so a chunk's source contains no '\' |
| Documents.RecordsForNumbered | src/main/java/com/chatbot/service/DocumentService.java:98-109 | a page's documents carry its chunks in order, numbered 1 to n of n, under one docId, source and collection key |
| Documents.IngestCounts | src/main/java/com/chatbot/service/DocumentService.java:83-128 | errors count the files whose parse fails; filesProcessed and chunksCreated count only files with chunks; a file without chunks counts nowhere |
| Documents.AddPageKeeps | src/main/java/com/chatbot/service/DocumentService.java:98-121 | adding a page keeps the per-file loop consistent: one info per processed file, one record per chunk, pages laid out in order |
| Documents.IngestFileKeeps | src/main/java/com/chatbot/service/DocumentService.java:84-127 | one turn of the per-file loop keeps it consistent |
| Documents.IngestAllKeeps | src/main/java/com/chatbot/service/DocumentService.java:83-128 | the whole per-file loop keeps it consistent |
| Documents.PagesAtMostChunks | src/main/java/com/chatbot/service/DocumentService.java:88-91 | when every page has at least one chunk, there are no more pages than chunk documents |
| Documents.Adds | src/main/java/com/chatbot/service/DocumentService.java:147 | one `add` call per batch |
| Documents.BatchesPartition | src/main/java/com/chatbot/service/DocumentService.java:140-144 | the batches hold every record once, in order: ceil(n/100) batches of 1 to 100 records |
| Documents.RegisterRangeSplit | src/main/java/com/chatbot/service/DocumentService.java:151-154 | registering two adjacent ranges equals registering their union |
| Documents.RegisterRangeKeys | src/main/java/com/chatbot/service/DocumentService.java:151-154 | registering adds exactly the ids of the range to the keys |
| Documents.RegisterRangeValues | src/main/java/com/chatbot/service/DocumentService.java:151-154 | with distinct ids, each registered id maps to its own info |
| Documents.RegisterRangeKeep | src/main/java/com/chatbot/service/DocumentService.java:151-154 | entries with other ids are kept |
| Documents.BatchAt | src/main/java/com/chatbot/service/DocumentService.java:141-144 | a batch has 1 to 100 records |
| Documents.SendOne | src/main/java/com/chatbot/service/DocumentService.java:141-155 | the corrected turn (see Findings): one `add` call, and the index moves to the number of complete pages |
| Documents.AsWrittenSendOne | src/main/java/com/chatbot/service/DocumentService.java:141-155 | the turn as written makes one `add` call and keeps the index within the pending infos |
| Documents.FirstFailure | src/main/java/com/chatbot/service/DocumentService.java:140-147 | the first failing batch start is at or after `start`, within the records, and the batch at `start` did not fail when it is later |
| Documents.SendThrew | src/main/java/com/chatbot/service/DocumentService.java:140-156 | the batch loop throws exactly when some batch fails |
| Documents.SendCalls | src/main/java/com/chatbot/service/DocumentService.java:140-156 | the store receives, in order, the batches of the records up to and including the first failing batch, or all of them |
| Documents.SendCallsStep | src/main/java/com/chatbot/service/DocumentService.java:140-156 | after a successful batch at `start`, the calls are that batch followed by those of the batches after it |
| Documents.SendLastCall | src/main/java/com/chatbot/service/DocumentService.java:140-156 | the last batch sent is a failing batch or a final short batch |
| Documents.SendRegistry | src/main/java/com/chatbot/service/DocumentService.java:149-155 | the corrected loop (see Findings) registers exactly the pages whose documents all lie before the first failing batch |
| Documents.AsWrittenAgrees | src/main/java/com/chatbot/service/DocumentService.java:140-156 | the loop as written and the corrected loop make the same store calls and throw in the same cases |
| Documents.AsWrittenSendRegistry | src/main/java/com/chatbot/service/DocumentService.java:149-155 | as written, the registry gains the first min(stop, pending infos) infos, stop being the number of records in the batches before the first failure |
| Documents.CompleteDocs | src/main/java/com/chatbot/service/DocumentService.java:149-155 | the number of complete pages is at most the number of pages |
| Documents.CompleteDocsSpec | src/main/java/com/chatbot/service/DocumentService.java:149-155 | page j counts as complete exactly when all its documents are among the records sent |
| Documents.AllSentAllComplete | src/main/java/com/chatbot/service/DocumentService.java:149-155 | once every document is sent, every page is complete |
| Documents.CompleteDocsMono | src/main/java/com/chatbot/service/DocumentService.java:149-155 | more documents sent never means fewer complete pages |
| Documents.CompleteDocsNone | src/main/java/com/chatbot/service/DocumentService.java:149-155 | before anything is sent no page is complete |
| Documents.AsWrittenRegistersUnsentPages | src/main/java/com/chatbot/service/DocumentService.java:149-155 | two pages of 150 chunks and a failing second batch: the code as written registers both, where neither had all its chunks sent |
| Documents.CompleteDocsAtMostSent | src/main/java/com/chatbot/service/DocumentService.java:149-155 | no more pages are complete than documents were sent |
| Documents.AsWrittenCoversComplete | src/main/java/com/chatbot/service/DocumentService.java:149-155 | the rule as written registers every page the corrected rule registers |
| Documents.WalkedLoadCalls | src/main/java/com/chatbot/service/DocumentService.java:131-181 | after a walk, the store receives the batches up to and including the first failing one, the load throws exactly when a batch fails, and otherwise the counters come from the per-file loop |
| Documents.NoDirectoryResult | src/main/java/com/chatbot/service/DocumentService.java:49-61 | a missing path or a non-directory: the collection is wiped and its store requested, then answered with 0 files, 0 chunks, 1 error and "Directory does not exist: " + path |
| Documents.DirectoryLoadWalked | src/main/java/com/chatbot/service/DocumentService.java:45-83 | a walked directory: the collection is wiped and its store requested, then its HTML files are ingested in walk order and sent |
| Documents.DirectoryLoadCalls | src/main/java/com/chatbot/service/DocumentService.java:45-181 | a directory load makes the delete call, the store request and then the batch calls, and throws exactly when a batch fails |
| Documents.DirectoryLoadCounters | src/main/java/com/chatbot/service/DocumentService.java:120-127 | a returned result counts the failed parses, the files with chunks and their chunks, one record per chunk |
| Documents.IngestAllRecords | src/main/java/com/chatbot/service/DocumentService.java:108-121 | the per-file loop makes one record per chunk counted, and at most as many pages |
| Documents.DirectoryLoadRegistry | src/main/java/com/chatbot/service/DocumentService.java:131-160 | the registry gains the first min(stop, pages) pending infos, stop being the number of records in the batches before the first failing one, and every produced page when the load returns |
| Documents.WalkedLoadRegistry | src/main/java/com/chatbot/service/DocumentService.java:131-160 | the same property, for the part after the walk |
| Documents.SingleLoadFacts | src/main/java/com/chatbot/service/DocumentService.java:193-228 | a single load returns its chunk count; with no chunks it changes nothing; otherwise it makes one `add` to the default store of the numbered documents with the file name as source, and it registers the page unless the `add` throws |
| Documents.DocumentService.constructor | src/main/java/com/chatbot/service/DocumentService.java:31-39 | the registry and the call log start empty |
| Documents.DocumentService.WipeChromaCollection | src/main/java/com/chatbot/service/DocumentService.java:41-43 | one delete call, and the registry is unchanged |
| Documents.DocumentService.IngestOne | src/main/java/com/chatbot/service/DocumentService.java:84-127 | one turn of the per-file loop |
| Documents.DocumentService.IngestFiles | src/main/java/com/chatbot/service/DocumentService.java:83-128 | the per-file loop equals IngestAll |
| Documents.DocumentService.RegisterPending | src/main/java/com/chatbot/service/DocumentService.java:151-154 | the registration loop puts exactly the range, with no store call |
| Documents.DocumentService.SendBatches | src/main/java/com/chatbot/service/DocumentService.java:131-156 | the batch loop's calls, registry and throw equal AsWrittenSendFrom's |
| Documents.DocumentService.LoadDocumentsFromDirectory | src/main/java/com/chatbot/service/DocumentService.java:45-181 | the calls, registry and outcome equal DirectoryLoad's |
| Documents.DocumentService.LoadParsedDocument | src/main/java/com/chatbot/service/DocumentService.java:193-228 | the calls, registry and result equal SingleLoad's |
| Documents.DocumentService.LoadDocument | src/main/java/com/chatbot/service/DocumentService.java:183-186 | an unreadable file throws and changes nothing; otherwise a single load of the parsed file |
| Documents.DocumentService.LoadDocumentFromString | src/main/java/com/chatbot/service/DocumentService.java:188-191 | a single load of the parsed string |
| Documents.DocumentService.GetLoadedDocuments | src/main/java/com/chatbot/service/DocumentService.java:270-272 | exactly the registered infos |
| Documents.DocumentService.GetDocumentByFilename | src/main/java/com/chatbot/service/DocumentService.java:274-279 | a registered info with that filename, or none exactly when no registered info has it |
| Documents.DocumentService.ClearDocuments | src/main/java/com/chatbot/service/DocumentService.java:281-284 | the registry becomes empty and the stores are untouched |
| CollectionMetadataStore.Read | src/main/java/com/chatbot/service/CollectionMetadataService.java:165-183 | a stored file reads as its map; a missing or unreadable file reads as empty |
| CollectionMetadataStore.WithTitle | src/main/java/com/chatbot/service/CollectionMetadataService.java:79-84 | the entry is created when absent and only its title changes; every other entry stays |
| CollectionMetadataStore.WithLogo | src/main/java/com/chatbot/service/CollectionMetadataService.java:86-91 | the entry is created when absent and only its logo changes; every other entry stays |
| CollectionMetadataStore.WithAlias | src/main/java/com/chatbot/service/CollectionMetadataService.java:93-99 | the entry is created when absent and only its aliasOf changes; its title and logo and every other entry stay |
| CollectionMetadataStore.WithoutAlias | src/main/java/com/chatbot/service/CollectionMetadataService.java:101-109 | the entry is removed exactly when it is an alias; otherwise nothing changes |
| CollectionMetadataStore.Resolve | src/main/java/com/chatbot/service/CollectionMetadataService.java:115-124 | the result is the name itself, or the non-blank aliasOf of its entry, which it is whenever the entry is an alias |
| CollectionMetadataStore.Lookup | src/main/java/com/chatbot/service/CollectionMetadataService.java:157-159 | the entry when present, null exactly when absent |
| CollectionMetadataStore.AliasOf | src/main/java/com/chatbot/service/CollectionMetadataService.java:129-133 | the entry's aliasOf, blank or not, and null for a missing name |
| CollectionMetadataStore.LookupsFollowResolve | src/main/java/com/chatbot/service/CollectionMetadataService.java:135-155 | title and logo are read from the entry of the resolved name, and are null when it is missing |
| CollectionMetadataStore.ResolveIsOneHop | src/main/java/com/chatbot/service/CollectionMetadataService.java:115-124 | an alias of an alias resolves to the middle name, not to the end of the chain |
| CollectionMetadataStore.SetTitleVisibility | src/main/java/com/chatbot/service/CollectionMetadataService.java:79-144 | setting the title of an alias that points elsewhere does not change what its title reads as; on a non-alias the title reads back as set |
| CollectionMetadataStore.SetLogoVisibility | src/main/java/com/chatbot/service/CollectionMetadataService.java:86-155 | the same for logos |
| CollectionMetadataStore.SetAliasThenRemove | src/main/java/com/chatbot/service/CollectionMetadataService.java:93-124 | a non-blank alias resolves to its target and removing it deletes the entry; a null or blank alias resolves to itself and cannot be removed |
| CollectionMetadataStore.SetterAfterFailedRead | src/main/java/com/chatbot/service/CollectionMetadataService.java:79-99 | after a failed read, each setter writes a map holding only its own entry, with the other fields null |
| CollectionMetadataStore.SetTitleLeavesOthers | src/main/java/com/chatbot/service/CollectionMetadataService.java:79-144 | setting one title changes neither the title nor the resolution of a name that resolves elsewhere |
| CollectionMetadataStore.CollectionMetadataService.constructor | src/main/java/com/chatbot/service/CollectionMetadataService.java:26-30 | the in-memory map starts empty |
| CollectionMetadataStore.CollectionMetadataService.Init | src/main/java/com/chatbot/service/CollectionMetadataService.java:74-77 | `init` merges the file's entries into the in-memory map |
| CollectionMetadataStore.CollectionMetadataService.LoadMetadataFromFile | src/main/java/com/chatbot/service/CollectionMetadataService.java:165-183 | returns the persisted map, or empty when the file is missing or unreadable |
| CollectionMetadataStore.CollectionMetadataService.SaveMetadataToFile | src/main/java/com/chatbot/service/CollectionMetadataService.java:201-215 | a completed write stores the data; one that cannot open the file leaves it as it was; one that breaks off after opening it leaves it unreadable |
| CollectionMetadataStore.ReadAfterWrite | src/main/java/com/chatbot/service/CollectionMetadataService.java:201-215 | the next read after a save sees the data, the old entries, or (after a broken-off write) no entry at all |
| CollectionMetadataStore.CollectionMetadataService.SetTitle | src/main/java/com/chatbot/service/CollectionMetadataService.java:79-84 | the file becomes WithTitle of what it read, as far as the write gets (AfterWrite) |
| CollectionMetadataStore.CollectionMetadataService.SetLogo | src/main/java/com/chatbot/service/CollectionMetadataService.java:86-91 | the file becomes WithLogo of what it read, as far as the write gets (AfterWrite) |
| CollectionMetadataStore.CollectionMetadataService.SetAlias | src/main/java/com/chatbot/service/CollectionMetadataService.java:93-99 | the file becomes WithAlias of what it read, as far as the write gets (AfterWrite) |
| CollectionMetadataStore.CollectionMetadataService.RemoveAlias | src/main/java/com/chatbot/service/CollectionMetadataService.java:101-109 | the entry is removed from the file, as far as the write gets, only when it is an alias; otherwise the file is not written |
| CollectionMetadataStore.CollectionMetadataService.ResolveCollection | src/main/java/com/chatbot/service/CollectionMetadataService.java:115-124 | Resolve of the persisted map |
| CollectionMetadataStore.CollectionMetadataService.GetAliasOf | src/main/java/com/chatbot/service/CollectionMetadataService.java:129-133 | AliasOf of the persisted map |
| CollectionMetadataStore.CollectionMetadataService.GetTitle | src/main/java/com/chatbot/service/CollectionMetadataService.java:135-144 | the alias-aware title from the persisted map |
| CollectionMetadataStore.CollectionMetadataService.GetLogo | src/main/java/com/chatbot/service/CollectionMetadataService.java:146-155 | the alias-aware logo from the persisted map |
| CollectionMetadataStore.CollectionMetadataService.GetMetadata | src/main/java/com/chatbot/service/CollectionMetadataService.java:157-159 | the persisted entry, or null |
| Chat.GetVectorStore | src/main/java/com/chatbot/service/ChatService.java:64-69 | the default store exactly for a null or blank name, and otherwise the factory store of that name |
| Chat.EffectiveCollection | src/main/java/com/chatbot/service/ChatService.java:90-92 | the request's collection when it is non-blank, otherwise "documents" |
| Chat.LinksNameSearchedStore | src/main/java/com/chatbot/service/ChatService.java:64-92 | the links name the collection whose store was searched, or "documents" for the default store |
| Chat.FullPromptShape | src/main/java/com/chatbot/service/ChatService.java:75-78 | the prompt starts with the custom prompt when it is non-blank, otherwise with the default, and ends with the filled context template |
| Chat.BlankPromptIsDefault | src/main/java/com/chatbot/service/ChatService.java:76 | a blank custom prompt behaves as none |
| Chat.RetrieveRelevantDocuments | src/main/java/com/chatbot/service/ChatService.java:175-189 | the search result of the chosen store, or no documents when the search throws |
| Chat.BlockShape | src/main/java/com/chatbot/service/ChatService.java:202-208 | a block starts with the numbered header naming the source (or "unknown") and ends with ") ---\n", the text and "\n" |
| Chat.ContextEmptyIff | src/main/java/com/chatbot/service/ChatService.java:191-211 | the context is "No relevant documents found." exactly when there are no documents, and otherwise the blocks in order |
| Chat.BlockOpensWithNewline | src/main/java/com/chatbot/service/ChatService.java:202 | each block opens with a line break, so a context of blocks never equals the no-documents text |
| Chat.BuildContext | src/main/java/com/chatbot/service/ChatService.java:191-212 | the StringBuilder loop equals Context |
| Chat.SourceNamesSpec | src/main/java/com/chatbot/service/ChatService.java:94-97 | a name is among the source names exactly when some document's source is it |
| Chat.DistinctElements | src/main/java/com/chatbot/service/ChatService.java:98 | `distinct()` keeps every element and repeats none |
| Chat.FirstAtSnoc | src/main/java/com/chatbot/service/ChatService.java:98 | a first occurrence in s + [x] is the one in s, or else x at the end |
| Chat.DistinctFirstSeenOrder | src/main/java/com/chatbot/service/ChatService.java:98 | `distinct()` keeps first-seen order |
| Chat.SourceUrlInjective | src/main/java/com/chatbot/service/ChatService.java:99 | different sources give different links |
| Chat.Sources | src/main/java/com/chatbot/service/ChatService.java:94-100 | there is one link per distinct source |
| Chat.SourcesSpec | src/main/java/com/chatbot/service/ChatService.java:90-100 | the links are pairwise distinct, and "/docs/" + effective + "/" + x is among them exactly when some document has source x |
| Chat.FlatMapAppend | src/main/java/com/chatbot/service/ChatService.java:108-116 | converting the history distributes over concatenation |
| Chat.HistoryDropsOtherRoles | src/main/java/com/chatbot/service/ChatService.java:109-115 | a turn whose role is neither user nor assistant, in any case, leaves no trace |
| Chat.HistoryMessagesShape | src/main/java/com/chatbot/service/ChatService.java:108-116 | the history gives at most one message per turn and never a system message |
| Chat.PromptMessages | src/main/java/com/chatbot/service/ChatService.java:103-119 | the system message comes first, the question last, and the converted history in between |
| Chat.BuildMessages | src/main/java/com/chatbot/service/ChatService.java:103-119 | the loop equals PromptMessages |
| Chat.RetrievalFailureProceeds | src/main/java/com/chatbot/service/ChatService.java:184-188 | a failing search still prompts the model, with "No relevant documents found." as context, and yields no links |
| Chat.ChatCall | src/main/java/com/chatbot/service/ChatService.java:80-138 | the answer is the model's reply to ChatPrompt and the links are Sources of the retrieved documents |
| Chat.ChatStream | src/main/java/com/chatbot/service/ChatService.java:140-173 | the stream is the model's reply to the same ChatPrompt as `chat` |
| ConversationEntity.Conversation.constructor | src/main/java/com/chatbot/model/Conversation.java:29-34 | a new conversation has title "New Chat", messages "[]", no id and no session |
| ConversationEntity.Conversation.ForSession | src/main/java/com/chatbot/model/Conversation.java:36-39 | the same defaults, with the session set |
| ConversationEntity.Conversation.FromRow | src/main/java/com/chatbot/model/Conversation.java:10-27 | the entity holds the stored row's fields |
| ConversationEntity.Conversation.SetId | src/main/java/com/chatbot/model/Conversation.java:46-48 | only the id changes |
| ConversationEntity.Conversation.SetSessionId | src/main/java/com/chatbot/model/Conversation.java:54-56 | only the session changes |
| ConversationEntity.Conversation.SetTitle | src/main/java/com/chatbot/model/Conversation.java:62-65 | only the title and updatedAt change |
| ConversationEntity.Conversation.SetMessagesJson | src/main/java/com/chatbot/model/Conversation.java:71-74 | only the messages and updatedAt change |
| ConversationEntity.Conversation.SetCreatedAt | src/main/java/com/chatbot/model/Conversation.java:80-82 | only createdAt changes |
| ConversationEntity.Conversation.SetUpdatedAt | src/main/java/com/chatbot/model/Conversation.java:88-90 | only updatedAt changes |
| Conversations.HttpResponse.constructor | src/main/java/com/chatbot/service/ConversationService.java:31 | a response starts without cookies |
| Conversations.HttpResponse.AddCookie | src/main/java/com/chatbot/service/ConversationService.java:47 | the cookie is appended |
| Conversations.SessionFromSpec | src/main/java/com/chatbot/service/ConversationService.java:33-39 | the session is the value of the first "chat_session" cookie, and there is none exactly when no cookie has that name |
| Conversations.GetOrCreateSessionId | src/main/java/com/chatbot/service/ConversationService.java:31-50 | an existing session cookie's value is returned and no cookie is added; otherwise the fresh id is returned and exactly one cookie (path "/", one year, HttpOnly) carrying it is added |
| Conversations.Truncate | src/main/java/com/chatbot/service/ConversationService.java:107-110 | content of at most 40 characters is kept verbatim; longer content becomes its first 40 characters and "..." |
| Conversations.TitleFromSpec | src/main/java/com/chatbot/service/ConversationService.java:104-116 | no user message gives no title; the first message whose role is exactly "user" gives its truncated content; a missing role or content before that throws |
| Conversations.GenerateTitleFromMessages | src/main/java/com/chatbot/service/ConversationService.java:101-117 | the loop equals GenerateTitle, with unparseable JSON giving no title |
| Conversations.UpdatedRowSpec | src/main/java/com/chatbot/service/ConversationService.java:72-88 | id, session and createdAt are kept; a given title replaces the title; given messages replace the messages and auto-title only when the title is then exactly "New Chat"; no title is produced when generation gives none; a throwing generation aborts; nothing given changes nothing |
| Conversations.Find | src/main/java/com/chatbot/service/ConversationService.java:56-58 | a conversation is found exactly when its id is stored and its session matches |
| Conversations.UpdateIsScoped | src/main/java/com/chatbot/service/ConversationService.java:65-89 | an update touches only that conversation; not found means nothing changes; an updated row is then found |
| Conversations.DeleteSpec | src/main/java/com/chatbot/service/ConversationService.java:91-99 | delete reports true exactly when the conversation is found in the session, and then removes exactly it; otherwise nothing changes |
| Conversations.ConversationService.constructor | src/main/java/com/chatbot/service/ConversationService.java:26-29 | the service holds the given rows |
| Conversations.ConversationService.GetConversation | src/main/java/com/chatbot/service/ConversationService.java:56-58 | equals Find |
| Conversations.ConversationService.CreateConversation | src/main/java/com/chatbot/service/ConversationService.java:60-63 | a new "New Chat" row with messages "[]" in the session is saved under the new id and returned |
| Conversations.ConversationService.UpdateConversation | src/main/java/com/chatbot/service/ConversationService.java:65-89 | the rows and the outcome equal Update's |
| Conversations.ConversationService.DeleteConversation | src/main/java/com/chatbot/service/ConversationService.java:91-99 | the rows and the result equal Delete's |
| ConversationsHook.ConversationTitleSpec | frontend/src/hooks/useConversations.js:9-15 | without a user message the title is "New Chat"; otherwise it is the first user message's content, cut to 40 characters plus "..." only when longer |
| ConversationsHook.FirstUserSpec | frontend/src/hooks/useConversations.js:11 | `find` gives the first message with role "user", or none |
| ConversationsHook.PageTitleMatchesServerTitle | frontend/src/hooks/useConversations.js:9-15 | the page's title agrees with the server's auto-title for the same messages |
| ConversationsHook.FindByIdSpec | frontend/src/hooks/useConversations.js:48-59 | `find` by id gives the first match, and none exactly when no entry has the id |
| ConversationsHook.Without | frontend/src/hooks/useConversations.js:79 | filtering never lengthens the list |
| ConversationsHook.WithoutCounts | frontend/src/hooks/useConversations.js:79 | every entry with another id is kept as often as it occurred |
| ConversationsHook.WithoutDrops | frontend/src/hooks/useConversations.js:79 | no entry with the id survives |
| ConversationsHook.WithoutKeepsClean | frontend/src/hooks/useConversations.js:79 | filtering a list without the id changes nothing |
| ConversationsHook.WithoutMembers | frontend/src/hooks/useConversations.js:79 | an entry survives exactly when it was there and has another id |
| ConversationsHook.WithoutIdempotent | frontend/src/hooks/useConversations.js:79 | filtering twice equals filtering once |
| ConversationsHook.AfterDelete | frontend/src/hooks/useConversations.js:78-90 | the list is never empty: the filtered list, or one fresh conversation when nothing remains |
| ConversationsHook.UpdateTouchesOnlyActive | frontend/src/hooks/useConversations.js:104-115 | only the active entry gets the messages and their title; ids and creation times stay and every other entry is identical |
| ConversationsHook.ClearEmptiesActive | frontend/src/hooks/useConversations.js:117-119 | clearing leaves the active entry with no messages titled "New Chat" and the others identical |
| ConversationsHook.InitialStateSpec | frontend/src/hooks/useConversations.js:38-52 | the stored list when non-empty, else one fresh conversation; the initial active id names an entry |
| ConversationsHook.ConversationList.constructor | frontend/src/hooks/useConversations.js:38-52 | the state starts from the stored state as InitialList and InitialActive say |
| ConversationsHook.ConversationList.ActiveConversation | frontend/src/hooks/useConversations.js:59 | an entry of the list, the first one when no entry has the active id, and otherwise one with that id |
| ConversationsHook.ConversationList.CreateConversation | frontend/src/hooks/useConversations.js:61-71 | a fresh conversation is prepended, made active and its id returned |
| ConversationsHook.ConversationList.SelectConversation | frontend/src/hooks/useConversations.js:73-75 | only the active id changes |
| ConversationsHook.ConversationList.DeleteConversation | frontend/src/hooks/useConversations.js:77-102 | the list becomes AfterDelete; when the deleted entry was active, the first entry of the new list becomes active; any other active id is kept; the list stays non-empty |
| ConversationsHook.ConversationList.UpdateMessages | frontend/src/hooks/useConversations.js:104-115 | the list becomes WithMessages for the active id |
| ConversationsHook.ConversationList.ClearCurrentChat | frontend/src/hooks/useConversations.js:117-119 | the list becomes WithMessages with no messages |
| ConversationsHook.FindByIdIn | frontend/src/hooks/useConversations.js:59 | a found entry is in the list and has the id |
| ConversationsHook.DeleteActiveMovesToFirst | frontend/src/hooks/useConversations.js:92-101 | after a delete, no entry has the deleted id, so the new first entry is a different conversation |
| Markdown.RawCells | frontend/src/utils/markdown.js:21-23 | splitting the inner row gives at least one cell |
| Markdown.Cells | frontend/src/utils/markdown.js:21-24 | one trimmed cell per raw cell |
| Markdown.CellsSpec | frontend/src/utils/markdown.js:21-24 | the raw cells joined with a vertical bar give back the row without its end characters, and every cell is trimmed and contains no vertical bar |
| Markdown.TrimmedPieceIsClean | frontend/src/utils/markdown.js:24 | trimming a piece without a vertical bar gives a trimmed piece without one |
| Markdown.TableShape | frontend/src/utils/markdown.js:8-37 | a single row is returned as it is; two or more rows are wrapped in the table tags |
| Markdown.RowShape | frontend/src/utils/markdown.js:16-33 | a separator row gives no markup; any other row is a `<tr>` with class "table-header" exactly for row 0 |
| Markdown.CellTags | frontend/src/utils/markdown.js:26-31 | row 0's cells are `<th>`, every other row's are `<td>` |
| Markdown.AppendCells | frontend/src/utils/markdown.js:30-32 | the cell loop appends every cell's markup in order |
| Markdown.RowToHtml | frontend/src/utils/markdown.js:29-33 | one row's markup is its open tag, its cells and `</tr>` |
| Markdown.ConvertTableToHtml | frontend/src/utils/markdown.js:7-38 | the loop equals TableHtml |
| Markdown.PiecesSnoc | frontend/src/utils/markdown.js:46-64 | grouping one more line is one more step of the scanner |
| Markdown.PiecesCover | frontend/src/utils/markdown.js:46-68 | the pieces hold every line in order, table rows trimmed and other lines untouched |
| Markdown.NormalizedSnoc | frontend/src/utils/markdown.js:47-62 | the lines as pushed, one line at a time |
| Markdown.StepCover | frontend/src/utils/markdown.js:50-63 | a step adds exactly its line to the covered lines |
| Markdown.StepKeeps | frontend/src/utils/markdown.js:50-63 | a step keeps the runs maximal, and the last piece is a table exactly when the line is a row |
| Markdown.PiecesShape | frontend/src/utils/markdown.js:46-68 | every run of consecutive rows is one table piece, and no two tables touch (maximal runs, including a run at the end) |
| Markdown.ClassifiedSpec | frontend/src/utils/markdown.js:47-48 | a line is a table row exactly when its trimmed form starts and ends with a vertical bar, and the classification keeps the line and its trim |
| Markdown.PiecesWithoutRows | frontend/src/utils/markdown.js:56-63 | without rows, every line is its own plain piece |
| Markdown.NoTablesUnchanged | frontend/src/utils/markdown.js:40-71 | text without table rows comes back unchanged |
| Markdown.RenderAllSnoc | frontend/src/utils/markdown.js:58-67 | rendering distributes over appended pieces |
| Markdown.ScanRow | frontend/src/utils/markdown.js:50-55 | a row extends the open table, or opens one |
| Markdown.ScanPlain | frontend/src/utils/markdown.js:56-63 | a plain line closes an open table and is pushed as it is |
| Markdown.ScanEnd | frontend/src/utils/markdown.js:66-68 | the final flush renders a table left open at the end |
| Markdown.ParseMarkdownTables | frontend/src/utils/markdown.js:40-71 | the scanner equals FormatTables: the rendered pieces joined with "\n" |
| Markdown.ParagraphsAndBreaksSpec | frontend/src/utils/markdown.js:93-94 | no line break survives, and text without line breaks becomes one paragraph |

## Left out

- Concurrency: `ConcurrentHashMap` and the reactive streams are modelled sequentially. Cancelling a stream is not modelled.
- Clocks and identifiers are explicit arguments: `Instant.now`, `LocalDateTime.now`, `Date.now`, `UUID.randomUUID` and `generateId`. The time in `processingTimeMs` is not modelled.
- Jsoup's parsing and its `text()` white-space handling are not modelled. A page is given as a DOM value, and its text is the concatenation of its text nodes.
- `Files.walk` is a list of entries or a failure. The `UncheckedIOException` that a walk can throw midway is not modelled.
- Logging is not modelled.
- Chroma, the vector-store factory, the chat model and Flux streaming are parameters or a log of calls, not implementations. The `topK` setting passed to the search is not modelled.
- Jackson is not modelled. Reading JSON is a decoding function that returns no value where it would throw. Writing the metadata file ends in one of three ways (WriteOutcome): written; not opened, so the old file stays; or broken off after Jackson opened the file for writing, which empties it, so it can no longer be read.
- JPA is a map from id to row. `@Transactional` rollback means a transaction that throws leaves the rows unchanged. `getConversations` (ConversationService.java:52-54) is a repository query ordered by update time, and is not part of this model.
- Strings are sequences of Dafny `char`s, which are Unicode scalar values, where Java and JavaScript strings are sequences of UTF-16 code units. The two agree on text inside the Basic Multilingual Plane; lengths and indices differ on text with characters outside it (see the lines on Truncate, ConversationTitle and ChunkText below). `toLowerCase` and `equalsIgnoreCase` are modelled for ASCII and for the few non-ASCII characters that fold onto "user" and "assistant". Other Unicode case mappings are not modelled.
- Null arguments are modelled only where the source checks for them. Optional values are `Option`; a null passed where the source does not check is not modelled.
- The `metadata` field that `init` fills (CollectionMetadataService.java:26, 185-199) is never read by any operation. `Init` models the filling and nothing else uses it.
- `Chat.BuildContext`: the StringBuilder appends of one document are gathered into one block, which is then appended.
- `Markdown.ConvertTableToHtml`: the per-cell appends of one row are gathered into one row. The cell loop is the helper method `AppendCells`.
- `escapeHtml` and the regular-expression replacements of `formatMessage` (markdown.js:1-5, 74-87) are not modelled: they rely on the DOM and on regular expressions. `parseMarkdownTables` is applied to the text it receives.
- `loadFromStorage` and `saveToStorage` use `localStorage` and are not modelled. The stored state is a constructor argument.
- A JavaScript message without `content` makes `getConversationTitle` throw a `TypeError`. This is not modelled: message contents are strings.
- React's scheduling is not modelled. The two state updaters of `deleteConversation` run in order, as React runs queued updaters. The callbacks see the current active id, not a stale closure.
- The copies of the markdown functions in `static/app.js` are not part of this model. Neither are the controllers, the CLI loader and the other hooks and components.
- TextChunker.ChunkText: requires `1 <= chunkSize` and `0 <= overlap <= chunkSize/2`, which RagConfig's defaults meet. Outside that range the Java loop behaves differently case by case, and none of these cases is modelled. A negative overlap skips text between chunks and still ends. An overlap above chunkSize can make `start` negative, so that the next `substring` throws, unless the break test ends the loop first. A chunkSize of 0, or an overlap in (chunkSize/2, chunkSize], can leave `start` where it was, so the loop can run forever (TextChunker.StallBeyondHalfOverlap shows one such input).
- TextChunker.ChunkText: window sizes and break positions count characters, not UTF-16 code units, so on text with characters outside the Basic Multilingual Plane the windows differ from Java's, and Java's can split a surrogate pair.
- Conversations.Truncate: counts characters, not UTF-16 code units. Content of 25 emoji is 50 code units, so the source cuts it to 40 units and can split a surrogate pair; the model keeps it whole.
- ConversationsHook.ConversationTitle and ConversationsHook.ConversationTitleSpec: JavaScript's `length` and `slice` count UTF-16 code units too, with the same difference on characters outside the Basic Multilingual Plane.
- Documents.SendFrom, Documents.SendOne and Documents.SendRegistry: the corrected batch loop named under Findings. No operation of the service runs it: the directory load and Documents.DocumentService.SendBatches run the rule as written (Documents.AsWrittenSendFrom), and Documents.AsWrittenAgrees shows that the two loops differ only in what they register.
- The store that `getVectorStore` (DocumentService.java:52) returns, and the factory behind it, are not modelled. The call is logged as a GetStore call after the delete, even when the path then turns out to be missing. The factory sets the collection up again, so such a load leaves an empty collection, not none.

## Findings

| source | as written | input that shows it | evidently intended | confidence | as-written member | corrected member |
|---|---|---|---|---|---|---|
| src/main/java/com/chatbot/service/DocumentService.java:150-155 | after each batch, `docInfoIndex` advances by the number of chunk documents in the batch, capped at the number of pages, and those pages are registered | two pages of 150 chunks each (300 documents), where the `add` of the second batch (documents 100-199) throws: the first batch registers both pages, but neither page had all its documents stored | register a page only once every one of its chunk documents has been added, as the comment on line 149 says | not executed | Documents.AsWrittenRegistersUnsentPages | Documents.CompleteDocsSpec |
