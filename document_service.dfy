/**
 * DocumentService: loading HTML pages into the vector store. A directory
 * load wipes the target collection, walks the directory for `.html` and
 * `.htm` files, parses and chunks each one, tags every chunk with its
 * metadata, sends the chunks to the collection's store in batches of 100
 * and registers a DocumentInfo per loaded page once all of its chunks
 * have been sent. Single pages go to the default store.
 *
 * The vector stores are modelled by the log of calls made on them
 * (`storeCalls`); the clock and the UUID generator by functions from the
 * number of pages ingested so far; a store `add` that throws by a predicate
 * on the batch's first record index.
 */
module Documents {
  import opened Wrappers
  import opened Strings
  import opened HtmlParsing
  import opened TextChunker

  /** DocumentInfo: what the registry keeps about a loaded page; `loadedAt` is the clock reading. */
  datatype DocumentInfo = DocumentInfo(id: string, filename: string, filePath: Option<string>, title: string,
    chunkCount: nat, loadedAt: int)

  /** LoadResult: the summary a directory load returns. */
  datatype LoadResult = LoadResult(filesProcessed: nat, chunksCreated: nat, errors: nat, message: string)

  /**
   * A Spring AI Document: one chunk and its metadata map, one field per key.
   * `collection` is None where the map has no "collection" key.
   */
  datatype ChunkRecord = ChunkRecord(content: string, source: string, filePath: Option<string>, title: string,
    chunk: nat, totalChunks: nat, docId: string, collection: Option<string>)

  /**
   * A call on the vector stores: dropping a collection, asking the factory
   * for a collection's store (which sets the collection up again), or adding
   * documents to a collection's store (None: the default store).
   */
  datatype StoreCall = DeleteCollection(name: string) | GetStore(name: string)
    | AddBatch(store: Option<string>, batch: seq<ChunkRecord>)

  /**
   * One path met by the directory walk: its path relative to the root as the
   * platform prints it, its file name, its absolute path, whether it is a
   * regular file, and what Jsoup makes of it (None: parsing throws).
   */
  datatype FileEntry = FileEntry(relativePath: string, name: string, absolutePath: string, regular: bool,
    doc: Option<HtmlDocument>)

  /** `Files.walk` either fails to open the tree or lists its paths. */
  datatype Walk = WalkFailed(reason: string) | Walked(entries: seq<FileEntry>)

  /** What `directoryPath` names. */
  datatype Directory = Missing | NotADirectory | Tree(walk: Walk)

  /** A directory load either returns its summary or throws (a store `add` failed). */
  datatype LoadOutcome = Returned(result: LoadResult) | Threw

  const BatchSize: nat := 100

  // ---------------------------------------------------------------------------
  // Selecting, parsing and tagging files
  // ---------------------------------------------------------------------------

  /** The name, lower-cased, ends with ".html" or ".htm". */
  predicate IsHtmlName(name: string) {
    var lower := AsciiLowerString(name);
    EndsWith(lower, ".html") || EndsWith(lower, ".htm")
  }

  predicate Selected(f: FileEntry) {
    f.regular && IsHtmlName(f.name)
  }

  /** The regular HTML files among the walked paths, in walk order. */
  function HtmlFiles(entries: seq<FileEntry>): (r: seq<FileEntry>)
    ensures forall f :: f in r <==> f in entries && Selected(f)
    decreases |entries|
  {
    if entries == [] then []
    else (if Selected(entries[0]) then [entries[0]] else []) + HtmlFiles(entries[1..])
  }

  /** The file name's case does not matter to the selection. */
  lemma HtmlNameIgnoresCase(name: string)
    ensures IsHtmlName(name) == IsHtmlName(AsciiLowerString(name))
  {
    var lower := AsciiLowerString(name);
    assert AsciiLowerString(lower) == lower;
  }

  /** What `parseHtmlFile` returns for the entry, or None when it throws. */
  function ParsedOf(f: FileEntry): Option<ParsedDocument> {
    match f.doc
    case None => None
    case Some(d) => Some(ParseHtmlFile(HtmlFile(f.name, f.absolutePath, d)))
  }

  /** The chunks of an entry's content; none when parsing throws. */
  function FileChunks(f: FileEntry, cfg: ChunkConfig): seq<string>
    requires ValidConfig(cfg)
  {
    match ParsedOf(f)
    case None => []
    case Some(p) => Chunks(p.content, cfg)
  }

  /** The "source" of a chunk loaded from a directory: the relative path with every '\' turned into '/'. */
  function SourcePath(relativePath: string): (r: string)
    ensures '\\' !in r
  {
    ReplaceCharRemovesIt(relativePath, '\\', "/");
    ReplaceAll(relativePath, "\\", "/")
  }

  /** The documents for one page's chunks: chunk i + 1 of |chunks|, all under one docId. */
  function RecordsFor(chunks: seq<string>, source: string, parsed: ParsedDocument, docId: string,
    collection: Option<string>): seq<ChunkRecord>
  {
    seq(|chunks|, i requires 0 <= i < |chunks| =>
      ChunkRecord(chunks[i], source, parsed.filePath, parsed.title, i + 1, |chunks|, docId, collection))
  }

  /** The documents of one page: chunk i + 1 of |chunks| holds the i-th chunk, all under the one source, id and collection key. */
  predicate Numbered(b: seq<ChunkRecord>, chunks: seq<string>, source: string, docId: string, collection: Option<string>) {
    |b| == |chunks|
    && forall i :: 0 <= i < |b| ==>
      b[i].content == chunks[i] && b[i].source == source && b[i].collection == collection
      && b[i].docId == docId && b[i].chunk == i + 1 && b[i].totalChunks == |b|
  }

  lemma RecordsForNumbered(chunks: seq<string>, source: string, parsed: ParsedDocument, docId: string,
    collection: Option<string>)
    ensures Numbered(RecordsFor(chunks, source, parsed, docId, collection), chunks, source, docId, collection)
  {
  }

  function InfoFor(parsed: ParsedDocument, docId: string, chunkCount: nat, loadedAt: int): DocumentInfo {
    DocumentInfo(docId, parsed.filename, parsed.filePath, parsed.title, chunkCount, loadedAt)
  }

  // ---------------------------------------------------------------------------
  // Ingesting the files of a directory
  // ---------------------------------------------------------------------------

  /** The locals of the per-file loop: `allDocuments`, `pendingDocInfos` and the three counters. */
  datatype Ingest = Ingest(records: seq<ChunkRecord>, infos: seq<DocumentInfo>, filesProcessed: nat,
    totalChunks: nat, errors: nat)

  const NoIngest: Ingest := Ingest([], [], 0, 0, 0)

  /**
   * One turn of the per-file loop: a parse failure adds an error, a page
   * without chunks is skipped, any other page draws the next UUID and clock
   * reading and adds its chunk documents, its DocumentInfo and its counts.
   */
  function IngestFile(st: Ingest, f: FileEntry, collection: string, cfg: ChunkConfig,
    ids: nat -> string, clock: nat -> int): Ingest
    requires ValidConfig(cfg)
  {
    match ParsedOf(f)
    case None => st.(errors := st.errors + 1)
    case Some(parsed) =>
      var chunks := Chunks(parsed.content, cfg);
      if chunks == [] then st
      else
        var docId := ids(st.filesProcessed);
        AddPage(st, RecordsFor(chunks, SourcePath(f.relativePath), parsed, docId, Some(collection)),
          InfoFor(parsed, docId, |chunks|, clock(st.filesProcessed)))
  }

  /** A processed page: its documents and its DocumentInfo are appended and both counters move on. */
  function AddPage(st: Ingest, rs: seq<ChunkRecord>, x: DocumentInfo): Ingest {
    Ingest(st.records + rs, st.infos + [x], st.filesProcessed + 1, st.totalChunks + |rs|, st.errors)
  }

  /** The per-file loop over `files`, from the state `st`. */
  function IngestAll(st: Ingest, files: seq<FileEntry>, collection: string, cfg: ChunkConfig,
    ids: nat -> string, clock: nat -> int): Ingest
    requires ValidConfig(cfg)
    decreases |files|
  {
    if files == [] then st
    else IngestAll(IngestFile(st, files[0], collection, cfg, ids, clock), files[1..], collection, cfg, ids, clock)
  }

  /** The number of files whose parsing throws. */
  function CountFailures(files: seq<FileEntry>): nat
    decreases |files|
  {
    if files == [] then 0 else (if files[0].doc.None? then 1 else 0) + CountFailures(files[1..])
  }

  /** The number of files that give at least one chunk. */
  function CountProductive(files: seq<FileEntry>, cfg: ChunkConfig): nat
    requires ValidConfig(cfg)
    decreases |files|
  {
    if files == [] then 0
    else (if FileChunks(files[0], cfg) != [] then 1 else 0) + CountProductive(files[1..], cfg)
  }

  /** The number of chunks of all files together. */
  function CountChunks(files: seq<FileEntry>, cfg: ChunkConfig): nat
    requires ValidConfig(cfg)
    decreases |files|
  {
    if files == [] then 0 else |FileChunks(files[0], cfg)| + CountChunks(files[1..], cfg)
  }

  /**
   * The counters: `errors` counts the files whose parsing throws,
   * `filesProcessed` the files that give chunks and `chunksCreated` their
   * chunks; a page without chunks is counted nowhere.
   */
  lemma {:induction false} IngestCounts(st: Ingest, files: seq<FileEntry>, collection: string, cfg: ChunkConfig,
    ids: nat -> string, clock: nat -> int)
    requires ValidConfig(cfg)
    ensures var r := IngestAll(st, files, collection, cfg, ids, clock);
      r.errors == st.errors + CountFailures(files)
      && r.filesProcessed == st.filesProcessed + CountProductive(files, cfg)
      && r.totalChunks == st.totalChunks + CountChunks(files, cfg)
    decreases |files|
  {
    if files != [] {
      IngestCounts(IngestFile(st, files[0], collection, cfg, ids, clock), files[1..], collection, cfg, ids, clock);
    }
  }

  /** The number of chunks of the first |infos| pages together. */
  function ChunkSum(infos: seq<DocumentInfo>): nat
    decreases |infos|
  {
    if infos == [] then 0 else ChunkSum(infos[..|infos| - 1]) + infos[|infos| - 1].chunkCount
  }

  /** The documents of page `j` are the next `chunkCount` records after those of the pages before it, numbered from 1. */
  predicate LaidOut(records: seq<ChunkRecord>, infos: seq<DocumentInfo>, j: nat)
    requires j < |infos|
  {
    var off := ChunkSum(infos[..j]);
    var n := infos[j].chunkCount;
    off + n <= |records|
    && forall i :: off <= i < off + n ==>
      records[i].docId == infos[j].id && records[i].chunk == i - off + 1 && records[i].totalChunks == n
  }

  /**
   * What the per-file loop keeps: one DocumentInfo per processed file, one
   * record per chunk, every page's records laid out in page order under its
   * own docId, and no '\' in any source.
   */
  predicate Consistent(st: Ingest) {
    |st.infos| == st.filesProcessed
    && |st.records| == st.totalChunks == ChunkSum(st.infos)
    && (forall j :: 0 <= j < |st.infos| ==> st.infos[j].chunkCount >= 1 && LaidOut(st.records, st.infos, j))
    && (forall i :: 0 <= i < |st.records| ==> '\\' !in st.records[i].source)
  }

  lemma ChunkSumSnoc(infos: seq<DocumentInfo>, x: DocumentInfo)
    ensures ChunkSum(infos + [x]) == ChunkSum(infos) + x.chunkCount
  {
    assert (infos + [x])[..|infos|] == infos;
  }

  /** Appending a page keeps the layout of the pages before it. */
  lemma LaidOutExtend(records: seq<ChunkRecord>, infos: seq<DocumentInfo>, more: seq<ChunkRecord>,
    x: DocumentInfo, j: nat)
    requires j < |infos| && LaidOut(records, infos, j)
    ensures LaidOut(records + more, infos + [x], j)
  {
    assert (infos + [x])[..j] == infos[..j];
  }

  /** The page just appended is laid out after all earlier records. */
  lemma LaidOutLast(st: Ingest, rs: seq<ChunkRecord>, x: DocumentInfo)
    requires |st.records| == ChunkSum(st.infos) && |rs| == x.chunkCount
    requires forall i :: 0 <= i < |rs| ==> rs[i].docId == x.id && rs[i].chunk == i + 1 && rs[i].totalChunks == |rs|
    ensures LaidOut(st.records + rs, st.infos + [x], |st.infos|)
  {
    assert (st.infos + [x])[..|st.infos|] == st.infos;
  }

  /** Appending a page's documents, numbered from 1 under its id, keeps the loop's invariant. */
  lemma AddPageKeeps(st: Ingest, rs: seq<ChunkRecord>, x: DocumentInfo)
    requires Consistent(st) && |rs| == x.chunkCount >= 1
    requires forall i :: 0 <= i < |rs| ==> rs[i].docId == x.id && rs[i].chunk == i + 1 && rs[i].totalChunks == |rs|
    requires forall i :: 0 <= i < |rs| ==> '\\' !in rs[i].source
    ensures Consistent(AddPage(st, rs, x))
  {
    var r := AddPage(st, rs, x);
    ChunkSumSnoc(st.infos, x);
    forall j | 0 <= j < |r.infos| ensures r.infos[j].chunkCount >= 1 && LaidOut(r.records, r.infos, j) {
      if j < |st.infos| {
        LaidOutExtend(st.records, st.infos, rs, x, j);
      } else {
        LaidOutLast(st, rs, x);
      }
    }
    assert forall i :: |st.records| <= i < |r.records| ==> r.records[i] == rs[i - |st.records|];
  }

  lemma IngestFileKeeps(st: Ingest, f: FileEntry, collection: string, cfg: ChunkConfig,
    ids: nat -> string, clock: nat -> int)
    requires ValidConfig(cfg) && Consistent(st)
    ensures Consistent(IngestFile(st, f, collection, cfg, ids, clock))
  {
    if ParsedOf(f).Some? {
      var parsed := ParsedOf(f).value;
      var chunks := Chunks(parsed.content, cfg);
      if chunks != [] {
        var docId := ids(st.filesProcessed);
        var rs := RecordsFor(chunks, SourcePath(f.relativePath), parsed, docId, Some(collection));
        AddPageKeeps(st, rs, InfoFor(parsed, docId, |chunks|, clock(st.filesProcessed)));
      }
    }
  }

  lemma {:induction false} IngestAllKeeps(st: Ingest, files: seq<FileEntry>, collection: string,
    cfg: ChunkConfig, ids: nat -> string, clock: nat -> int)
    requires ValidConfig(cfg) && Consistent(st)
    ensures Consistent(IngestAll(st, files, collection, cfg, ids, clock))
    decreases |files|
  {
    if files != [] {
      IngestFileKeeps(st, files[0], collection, cfg, ids, clock);
      IngestAllKeeps(IngestFile(st, files[0], collection, cfg, ids, clock), files[1..], collection, cfg, ids, clock);
    }
  }

  /** Each page has at least one chunk, so there are at least as many records as pages. */
  lemma {:induction false} PagesAtMostChunks(infos: seq<DocumentInfo>)
    requires forall j :: 0 <= j < |infos| ==> infos[j].chunkCount >= 1
    ensures |infos| <= ChunkSum(infos)
    decreases |infos|
  {
    if infos != [] {
      PagesAtMostChunks(infos[..|infos| - 1]);
    }
  }

  // ---------------------------------------------------------------------------
  // Sending batches and registering pages
  // ---------------------------------------------------------------------------

  /** The batches `rs` is sent in: runs of 100 documents, the last one shorter. */
  function Batches(rs: seq<ChunkRecord>): seq<seq<ChunkRecord>>
    decreases |rs|
  {
    if rs == [] then []
    else
      var n := Min(BatchSize, |rs|);
      [rs[..n]] + Batches(rs[n..])
  }

  function Flatten(bs: seq<seq<ChunkRecord>>): seq<ChunkRecord>
    decreases |bs|
  {
    if bs == [] then [] else bs[0] + Flatten(bs[1..])
  }

  /** The `add` calls for the batches `bs`, in order. */
  function Adds(store: Option<string>, bs: seq<seq<ChunkRecord>>): (calls: seq<StoreCall>)
    ensures |calls| == |bs|
    decreases |bs|
  {
    if bs == [] then [] else [AddBatch(store, bs[0])] + Adds(store, bs[1..])
  }

  /** The batches hold every document once, in order: ceil(n / 100) batches of 1 to 100 documents. */
  lemma {:induction false} BatchesPartition(rs: seq<ChunkRecord>)
    ensures Flatten(Batches(rs)) == rs
    ensures |Batches(rs)| == (|rs| + BatchSize - 1) / BatchSize
    ensures forall b :: b in Batches(rs) ==> 1 <= |b| <= BatchSize
    decreases |rs|
  {
    if rs != [] {
      var n := Min(BatchSize, |rs|);
      BatchesPartition(rs[n..]);
      assert rs[..n] + rs[n..] == rs;
    }
  }

  /** `loadedDocuments.put(id, info)` for the pending infos with index in [lo, hi), in order. */
  function RegisterRange(reg: map<string, DocumentInfo>, infos: seq<DocumentInfo>, lo: nat, hi: nat): map<string, DocumentInfo>
    requires lo <= hi <= |infos|
    decreases hi - lo
  {
    if lo == hi then reg else RegisterRange(reg[infos[lo].id := infos[lo]], infos, lo + 1, hi)
  }

  lemma {:induction false} RegisterRangeSplit(reg: map<string, DocumentInfo>, infos: seq<DocumentInfo>, lo: nat, mid: nat, hi: nat)
    requires lo <= mid <= hi <= |infos|
    ensures RegisterRange(RegisterRange(reg, infos, lo, mid), infos, mid, hi) == RegisterRange(reg, infos, lo, hi)
    decreases mid - lo
  {
    if lo < mid {
      RegisterRangeSplit(reg[infos[lo].id := infos[lo]], infos, lo + 1, mid, hi);
    }
  }

  /** Registering adds exactly the ids of the registered infos to the keys. */
  lemma {:induction false} RegisterRangeKeys(reg: map<string, DocumentInfo>, infos: seq<DocumentInfo>, lo: nat, hi: nat)
    requires lo <= hi <= |infos|
    ensures RegisterRange(reg, infos, lo, hi).Keys == reg.Keys + set j | lo <= j < hi :: infos[j].id
    decreases hi - lo
  {
    if lo < hi {
      RegisterRangeKeys(reg[infos[lo].id := infos[lo]], infos, lo + 1, hi);
      assert (set j | lo <= j < hi :: infos[j].id) == {infos[lo].id} + set j | lo + 1 <= j < hi :: infos[j].id;
    }
  }

  /** With distinct ids, each registered id maps to its own info. */
  lemma {:induction false} RegisterRangeValues(reg: map<string, DocumentInfo>, infos: seq<DocumentInfo>, lo: nat, hi: nat, j: nat)
    requires lo <= j < hi <= |infos|
    requires forall a, b :: lo <= a < b < hi ==> infos[a].id != infos[b].id
    ensures infos[j].id in RegisterRange(reg, infos, lo, hi)
    ensures RegisterRange(reg, infos, lo, hi)[infos[j].id] == infos[j]
    decreases hi - lo
  {
    var reg1 := reg[infos[lo].id := infos[lo]];
    if j == lo {
      RegisterRangeKeep(reg1, infos, lo + 1, hi, infos[lo].id);
    } else {
      RegisterRangeValues(reg1, infos, lo + 1, hi, j);
    }
  }

  /** An id that no registered info carries keeps its entry. */
  lemma {:induction false} RegisterRangeKeep(reg: map<string, DocumentInfo>, infos: seq<DocumentInfo>, lo: nat, hi: nat, id: string)
    requires lo <= hi <= |infos| && id in reg
    requires forall a :: lo <= a < hi ==> infos[a].id != id
    ensures id in RegisterRange(reg, infos, lo, hi) && RegisterRange(reg, infos, lo, hi)[id] == reg[id]
    decreases hi - lo
  {
    if lo < hi {
      RegisterRangeKeep(reg[infos[lo].id := infos[lo]], infos, lo + 1, hi, id);
    }
  }

  /** The state of the batch loop: the calls made so far, the registry, `docInfoIndex`, and whether an `add` threw. */
  datatype Sending = Sending(calls: seq<StoreCall>, registry: map<string, DocumentInfo>, docInfoIndex: nat, threw: bool)

  /**
   * The intended batch loop, the corrected companion of AsWrittenSendFrom:
   * send the batch, stop if `add` throws, else register the pending infos
   * from `docInfoIndex` up to the last page whose documents have now all
   * been sent.
   */
  function SendFrom(st: Sending, records: seq<ChunkRecord>, infos: seq<DocumentInfo>, collection: string,
    addFails: nat -> bool, start: nat): Sending
    requires st.docInfoIndex <= CompleteDocs(infos, start)
    decreases |records| - start
  {
    if start >= |records| then st
    else if addFails(start) then st.(calls := st.calls + [SendCall(records, collection, start)], threw := true)
    else SendFrom(SendOne(st, records, infos, collection, start), records, infos, collection, addFails, start + BatchSize)
  }

  /** The records of the batch that starts at `start`. */
  function BatchAt(records: seq<ChunkRecord>, start: nat): (b: seq<ChunkRecord>)
    requires start < |records|
    ensures 1 <= |b| <= BatchSize
  {
    records[start..Min(start + BatchSize, |records|)]
  }

  function SendCall(records: seq<ChunkRecord>, collection: string, start: nat): StoreCall
    requires start < |records|
  {
    AddBatch(Some(collection), BatchAt(records, start))
  }

  /** One successful turn of the batch loop: the pages complete after this batch are registered. */
  function SendOne(st: Sending, records: seq<ChunkRecord>, infos: seq<DocumentInfo>, collection: string, start: nat): (r: Sending)
    requires st.docInfoIndex <= CompleteDocs(infos, start) && start < |records|
    ensures r.docInfoIndex == CompleteDocs(infos, Min(start + BatchSize, |records|))
    ensures r.docInfoIndex <= CompleteDocs(infos, start + BatchSize)
    ensures r.calls == st.calls + [SendCall(records, collection, start)]
  {
    var end := Min(start + BatchSize, |records|);
    CompleteDocsMono(infos, start, end);
    CompleteDocsMono(infos, end, start + BatchSize);
    var batchDocInfoEnd := CompleteDocs(infos, end);
    Sending(st.calls + [SendCall(records, collection, start)],
      RegisterRange(st.registry, infos, st.docInfoIndex, batchDocInfoEnd), batchDocInfoEnd, false)
  }

  /**
   * The batch loop as written, and as the directory load runs it: send the
   * batch, stop if `add` throws, else register as many more pending infos
   * as the batch had documents (`docInfoIndex` advances by the batch's size,
   * capped at the number of infos).
   */
  function AsWrittenSendFrom(st: Sending, records: seq<ChunkRecord>, infos: seq<DocumentInfo>, collection: string,
    addFails: nat -> bool, start: nat): Sending
    requires st.docInfoIndex <= |infos|
    decreases |records| - start
  {
    if start >= |records| then st
    else if addFails(start) then st.(calls := st.calls + [SendCall(records, collection, start)], threw := true)
    else AsWrittenSendFrom(AsWrittenSendOne(st, records, infos, collection, start), records, infos, collection, addFails,
      start + BatchSize)
  }

  /** One successful turn of the loop as written: register as many infos as the batch had documents. */
  function AsWrittenSendOne(st: Sending, records: seq<ChunkRecord>, infos: seq<DocumentInfo>, collection: string,
    start: nat): (r: Sending)
    requires st.docInfoIndex <= |infos| && start < |records|
    ensures r.docInfoIndex <= |infos| && r.calls == st.calls + [SendCall(records, collection, start)]
  {
    var end := Min(start + BatchSize, |records|);
    var batchDocInfoEnd := Min(st.docInfoIndex + (end - start), |infos|);
    Sending(st.calls + [SendCall(records, collection, start)],
      RegisterRange(st.registry, infos, st.docInfoIndex, batchDocInfoEnd), batchDocInfoEnd, false)
  }

  /** The first record index at or after `start` whose batch's `add` throws, or |records| when none does. */
  function FirstFailure(records: seq<ChunkRecord>, addFails: nat -> bool, start: nat): (stop: nat)
    ensures start <= |records| ==> start <= stop <= |records|
    ensures start < stop ==> !addFails(start)
    decreases |records| - start
  {
    if start >= |records| then |records|
    else if addFails(start) then start
    else FirstFailure(records, addFails, start + BatchSize)
  }

  /** The batch loop throws exactly when some batch from `start` on fails. */
  lemma {:induction false} SendThrew(st: Sending, records: seq<ChunkRecord>, infos: seq<DocumentInfo>, collection: string,
    addFails: nat -> bool, start: nat)
    requires st.docInfoIndex <= CompleteDocs(infos, start) && !st.threw
    ensures SendFrom(st, records, infos, collection, addFails, start).threw
      == (FirstFailure(records, addFails, start) < |records|)
    decreases |records| - start
  {
    if start < |records| && !addFails(start) {
      SendThrew(SendOne(st, records, infos, collection, start), records, infos, collection, addFails, start + BatchSize);
    }
  }

  /**
   * The store receives the batches of the records from `start` up to the
   * end of the first failing batch (of all of them when none fails), in order.
   */
  lemma {:induction false} SendCalls(st: Sending, records: seq<ChunkRecord>, infos: seq<DocumentInfo>, collection: string,
    addFails: nat -> bool, start: nat)
    requires st.docInfoIndex <= CompleteDocs(infos, start) && start <= |records| && !st.threw
    ensures var stop := FirstFailure(records, addFails, start);
      SendFrom(st, records, infos, collection, addFails, start).calls
        == st.calls + Adds(Some(collection), Batches(records[start..Min(stop + BatchSize, |records|)]))
    decreases |records| - start
  {
    var stop := FirstFailure(records, addFails, start);
    if start == |records| {
      assert records[start..Min(stop + BatchSize, |records|)] == [];
      assert st.calls + [] == st.calls;
    } else if addFails(start) || start + BatchSize >= |records| {
      SendLastCall(st, records, infos, collection, addFails, start);
    } else {
      var next := SendOne(st, records, infos, collection, start);
      SendCalls(next, records, infos, collection, addFails, start + BatchSize);
      assert stop == FirstFailure(records, addFails, start + BatchSize);
      SendCallsStep(st, records, infos, collection, addFails, start, Min(stop + BatchSize, |records|));
    }
  }

  /** The inductive step of SendCalls: a batch that is sent and does not fail is the first of the calls. */
  lemma SendCallsStep(st: Sending, records: seq<ChunkRecord>, infos: seq<DocumentInfo>, collection: string,
    addFails: nat -> bool, start: nat, e: nat)
    requires st.docInfoIndex <= CompleteDocs(infos, start) && start + BatchSize < e <= |records| && !addFails(start)
    requires SendFrom(SendOne(st, records, infos, collection, start), records, infos, collection, addFails, start + BatchSize).calls
      == SendOne(st, records, infos, collection, start).calls + Adds(Some(collection), Batches(records[start + BatchSize..e]))
    ensures SendFrom(st, records, infos, collection, addFails, start).calls
      == st.calls + Adds(Some(collection), Batches(records[start..e]))
  {
    var call := SendCall(records, collection, start);
    var rest := Batches(records[start + BatchSize..e]);
    SendFromUnfold(st, records, infos, collection, addFails, start);
    BatchesOfLongSlice(records, start, e);
    AddsCons(Some(collection), BatchAt(records, start), rest);
    calc {
      SendFrom(st, records, infos, collection, addFails, start).calls;
      (st.calls + [call]) + Adds(Some(collection), rest);
      st.calls + ([call] + Adds(Some(collection), rest));
      st.calls + Adds(Some(collection), Batches(records[start..e]));
    }
  }

  lemma SendFromUnfold(st: Sending, records: seq<ChunkRecord>, infos: seq<DocumentInfo>, collection: string,
    addFails: nat -> bool, start: nat)
    requires st.docInfoIndex <= CompleteDocs(infos, start) && start < |records| && !addFails(start)
    ensures SendFrom(st, records, infos, collection, addFails, start)
      == SendFrom(SendOne(st, records, infos, collection, start), records, infos, collection, addFails, start + BatchSize)
  {
  }

  lemma AddsCons(store: Option<string>, b: seq<ChunkRecord>, bs: seq<seq<ChunkRecord>>)
    ensures Adds(store, [b] + bs) == [AddBatch(store, b)] + Adds(store, bs)
  {
    assert ([b] + bs)[1..] == bs;
  }

  /** The case of SendCalls where the batch at `start` is the last one sent. */
  lemma SendLastCall(st: Sending, records: seq<ChunkRecord>, infos: seq<DocumentInfo>, collection: string,
    addFails: nat -> bool, start: nat)
    requires st.docInfoIndex <= CompleteDocs(infos, start) && start < |records| && !st.threw
    requires addFails(start) || start + BatchSize >= |records|
    ensures var stop := FirstFailure(records, addFails, start);
      SendFrom(st, records, infos, collection, addFails, start).calls
        == st.calls + Adds(Some(collection), Batches(records[start..Min(stop + BatchSize, |records|)]))
  {
    if !addFails(start) {
      assert FirstFailure(records, addFails, start + BatchSize) == |records|;
    }
    BatchesOfShortSlice(BatchAt(records, start));
  }

  lemma BatchesOfShortSlice(b: seq<ChunkRecord>)
    requires 1 <= |b| <= BatchSize
    ensures Batches(b) == [b]
  {
    assert b[..|b|] == b && b[|b|..] == [];
  }

  lemma BatchesOfLongSlice(records: seq<ChunkRecord>, start: nat, e: nat)
    requires start + BatchSize < e <= |records|
    ensures Batches(records[start..e]) == [BatchAt(records, start)] + Batches(records[start + BatchSize..e])
  {
    var s := records[start..e];
    assert s[..BatchSize] == records[start..start + BatchSize];
    assert s[BatchSize..] == records[start + BatchSize..e];
  }

  /**
   * The registry ends up holding the pending infos up to the last page whose
   * documents all lie before the first failing batch (every page whose
   * documents were all sent).
   */
  lemma {:induction false} SendRegistry(st: Sending, records: seq<ChunkRecord>, infos: seq<DocumentInfo>, collection: string,
    addFails: nat -> bool, start: nat)
    requires st.docInfoIndex <= CompleteDocs(infos, start) && st.docInfoIndex == CompleteDocs(infos, Min(start, |records|))
    ensures var stop := FirstFailure(records, addFails, start);
      var r := SendFrom(st, records, infos, collection, addFails, start);
      Min(start, |records|) <= stop && st.docInfoIndex <= CompleteDocs(infos, stop)
      && r.registry == RegisterRange(st.registry, infos, st.docInfoIndex, CompleteDocs(infos, stop))
    decreases |records| - start
  {
    var stop := FirstFailure(records, addFails, start);
    if start < |records| && !addFails(start) {
      var next := SendOne(st, records, infos, collection, start);
      SendRegistry(next, records, infos, collection, addFails, start + BatchSize);
      CompleteDocsMono(infos, start, Min(start + BatchSize, |records|));
      RegisterRangeSplit(st.registry, infos, st.docInfoIndex, next.docInfoIndex, CompleteDocs(infos, stop));
    }
  }

  /**
   * As written, the registry ends up holding the pending infos up to the
   * number of documents sent before the first failing batch (all the
   * documents when none fails), capped at the number of infos.
   */
  lemma {:induction false} AsWrittenSendRegistry(st: Sending, records: seq<ChunkRecord>, infos: seq<DocumentInfo>,
    collection: string, addFails: nat -> bool, start: nat)
    requires st.docInfoIndex == Min(Min(start, |records|), |infos|)
    ensures var stop := FirstFailure(records, addFails, start);
      var r := AsWrittenSendFrom(st, records, infos, collection, addFails, start);
      Min(start, |records|) <= stop
      && r.registry == RegisterRange(st.registry, infos, st.docInfoIndex, Min(stop, |infos|))
    decreases |records| - start
  {
    if start < |records| && !addFails(start) {
      var next := AsWrittenSendOne(st, records, infos, collection, start);
      AsWrittenSendRegistry(next, records, infos, collection, addFails, start + BatchSize);
      RegisterRangeSplit(st.registry, infos, st.docInfoIndex, next.docInfoIndex,
        Min(FirstFailure(records, addFails, start), |infos|));
    }
  }

  /**
   * The two loops differ only in what they register: they make the same
   * store calls and throw in the same cases.
   */
  lemma {:induction false} AsWrittenAgrees(st: Sending, st': Sending, records: seq<ChunkRecord>, infos: seq<DocumentInfo>,
    collection: string, addFails: nat -> bool, start: nat)
    requires st.docInfoIndex <= CompleteDocs(infos, start) && st'.docInfoIndex <= |infos|
    requires st.calls == st'.calls && st.threw == st'.threw
    ensures var r := SendFrom(st, records, infos, collection, addFails, start);
      var r' := AsWrittenSendFrom(st', records, infos, collection, addFails, start);
      r.calls == r'.calls && r.threw == r'.threw
    decreases |records| - start
  {
    if start < |records| && !addFails(start) {
      AsWrittenAgrees(SendOne(st, records, infos, collection, start), AsWrittenSendOne(st', records, infos, collection, start),
        records, infos, collection, addFails, start + BatchSize);
    }
  }

  /**
   * The intended rule: the number of leading pending infos all of whose
   * documents are among the first `sent` records, the records of each page
   * following those of the pages before it.
   */
  function CompleteDocs(infos: seq<DocumentInfo>, sent: nat): (k: nat)
    ensures k <= |infos|
    decreases |infos|
  {
    if ChunkSum(infos) <= sent then |infos| else CompleteDocs(infos[..|infos| - 1], sent)
  }

  lemma {:induction false} ChunkSumPrefix(infos: seq<DocumentInfo>, i: nat)
    requires i <= |infos|
    ensures ChunkSum(infos[..i]) <= ChunkSum(infos)
    decreases |infos|
  {
    if i < |infos| {
      var p := infos[..|infos| - 1];
      assert p[..i] == infos[..i];
      ChunkSumPrefix(p, i);
    } else {
      assert infos[..i] == infos;
    }
  }

  /** Page j counts as complete exactly when its documents all lie among the first `sent` records. */
  lemma {:induction false} CompleteDocsSpec(infos: seq<DocumentInfo>, sent: nat, j: nat)
    requires j < |infos|
    ensures j < CompleteDocs(infos, sent) <==> ChunkSum(infos[..j]) + infos[j].chunkCount <= sent
    decreases |infos|
  {
    assert infos[..j + 1][..j] == infos[..j];
    var n := |infos|;
    if ChunkSum(infos) <= sent {
      ChunkSumPrefix(infos, j + 1);
    } else {
      var p := infos[..n - 1];
      if j < n - 1 {
        CompleteDocsSpec(p, sent, j);
        assert p[..j] == infos[..j] && p[j] == infos[j];
      } else {
        assert infos[..j + 1] == infos;
      }
    }
  }

  /** Once every document has been sent, every page is complete: the two rules then agree. */
  lemma AllSentAllComplete(infos: seq<DocumentInfo>)
    ensures CompleteDocs(infos, ChunkSum(infos)) == |infos|
  {
  }

  /** More documents sent never makes fewer pages complete. */
  lemma {:induction false} CompleteDocsMono(infos: seq<DocumentInfo>, a: nat, b: nat)
    requires a <= b
    ensures CompleteDocs(infos, a) <= CompleteDocs(infos, b)
    decreases |infos|
  {
    if ChunkSum(infos) > a {
      CompleteDocsMono(infos[..|infos| - 1], a, b);
    }
  }

  /** Before any document is sent no page is complete, since every page has a document. */
  lemma CompleteDocsNone(infos: seq<DocumentInfo>)
    requires forall j :: 0 <= j < |infos| ==> infos[j].chunkCount >= 1
    ensures CompleteDocs(infos, 0) == 0
  {
    if infos != [] {
      CompleteDocsSpec(infos, 0, 0);
      assert infos[..0] == [];
    }
  }

  /**
   * The as-written rule can register a page before its documents are sent:
   * two pages of 150 chunks each and an `add` that throws on the second
   * batch leave both registered, where no page had all its documents sent
   * and the intended rule registers neither.
   */
  lemma AsWrittenRegistersUnsentPages(records: seq<ChunkRecord>, a: DocumentInfo, b: DocumentInfo, collection: string)
    requires |records| == 300 && a.chunkCount == 150 && b.chunkCount == 150
    ensures var r := AsWrittenSendFrom(Sending([], map[], 0, false), records, [a, b], collection, s => s == 100, 0);
      r.threw && a.id in r.registry && b.id in r.registry
    ensures CompleteDocs([a, b], 100) == 0
    ensures var r := SendFrom(Sending([], map[], 0, false), records, [a, b], collection, s => s == 100, 0);
      r.threw && r.registry == map[]
  {
    var infos := [a, b];
    assert infos[..1] == [a] && infos[..1][..0] == [];
    var reg := RegisterRange(map[], infos, 0, 2);
    assert reg == map[][a.id := a][b.id := b];
    var first := AsWrittenSendOne(Sending([], map[], 0, false), records, infos, collection, 0);
    assert first.registry == reg;
    assert CompleteDocs(infos, 100) == 0;
  }

  /** Each page has a document, so no more pages are complete than documents were sent. */
  lemma {:induction false} CompleteDocsAtMostSent(infos: seq<DocumentInfo>, sent: nat)
    requires forall j :: 0 <= j < |infos| ==> infos[j].chunkCount >= 1
    ensures CompleteDocs(infos, sent) <= sent
    decreases |infos|
  {
    if ChunkSum(infos) <= sent {
      PagesAtMostChunks(infos);
    } else {
      CompleteDocsAtMostSent(infos[..|infos| - 1], sent);
    }
  }

  /**
   * The as-written rule never registers fewer pages than the intended one:
   * it registers every complete page, and possibly pages whose documents
   * were not all sent (AsWrittenRegistersUnsentPages).
   */
  lemma AsWrittenCoversComplete(reg: map<string, DocumentInfo>, infos: seq<DocumentInfo>, sent: nat)
    requires forall j :: 0 <= j < |infos| ==> infos[j].chunkCount >= 1
    ensures CompleteDocs(infos, sent) <= Min(sent, |infos|)
    ensures RegisterRange(reg, infos, 0, CompleteDocs(infos, sent)).Keys <= RegisterRange(reg, infos, 0, Min(sent, |infos|)).Keys
  {
    CompleteDocsAtMostSent(infos, sent);
    RegisterRangeKeys(reg, infos, 0, CompleteDocs(infos, sent));
    RegisterRangeKeys(reg, infos, 0, Min(sent, |infos|));
  }

  // ---------------------------------------------------------------------------
  // Whole operations on values
  // ---------------------------------------------------------------------------

  /** What an operation leaves behind: the store calls, the registry, and what it returns. */
  datatype Effect<T> = Effect(calls: seq<StoreCall>, registry: map<string, DocumentInfo>, outcome: T)

  /** The summary message of a successful directory load. */
  function LoadedMessage(filesProcessed: nat, totalChunks: nat, collection: string, errors: nat): string {
    "Loaded " + NatToString(filesProcessed) + " files with " + NatToString(totalChunks)
      + " chunks into collection '" + collection + "' (" + NatToString(errors) + " errors)"
  }

  /**
   * `loadDocumentsFromDirectory`: wipe the collection and ask the factory
   * for its store, which sets it up again; give up with one error
   * when the path is not a directory or cannot be walked; otherwise ingest
   * the HTML files, send the documents in batches and return the counters.
   */
  function DirectoryLoad(calls: seq<StoreCall>, registry: map<string, DocumentInfo>, path: string, dir: Directory,
    collection: string, cfg: ChunkConfig, ids: nat -> string, clock: nat -> int, addFails: nat -> bool): Effect<LoadOutcome>
    requires ValidConfig(cfg)
  {
    var wiped := calls + [DeleteCollection(collection), GetStore(collection)];
    match dir
    case Missing => Effect(wiped, registry, Returned(LoadResult(0, 0, 1, "Directory does not exist: " + path)))
    case NotADirectory => Effect(wiped, registry, Returned(LoadResult(0, 0, 1, "Directory does not exist: " + path)))
    case Tree(WalkFailed(reason)) => Effect(wiped, registry, Returned(LoadResult(0, 0, 1, "Error walking directory: " + reason)))
    case Tree(Walked(entries)) =>
      WalkedLoad(wiped, registry, IngestAll(NoIngest, HtmlFiles(entries), collection, cfg, ids, clock), collection, addFails)
  }

  /** The part of a directory load after the walk: the batch loop, then the summary unless an `add` threw. */
  function WalkedLoad(wiped: seq<StoreCall>, registry: map<string, DocumentInfo>, ing: Ingest, collection: string,
    addFails: nat -> bool): Effect<LoadOutcome>
  {
    var sent := AsWrittenSendFrom(Sending(wiped, registry, 0, false), ing.records, ing.infos, collection, addFails, 0);
    Effect(sent.calls, sent.registry,
      if sent.threw then Threw
      else Returned(LoadResult(ing.filesProcessed, ing.totalChunks, ing.errors,
        LoadedMessage(ing.filesProcessed, ing.totalChunks, collection, ing.errors))))
  }

  lemma WalkedLoadCalls(wiped: seq<StoreCall>, registry: map<string, DocumentInfo>, ing: Ingest, collection: string,
    addFails: nat -> bool)
    ensures var stop := FirstFailure(ing.records, addFails, 0);
      var eff := WalkedLoad(wiped, registry, ing, collection, addFails);
      eff.calls == wiped + Adds(Some(collection), Batches(ing.records[..Min(stop + BatchSize, |ing.records|)]))
      && (eff.outcome == Threw <==> stop < |ing.records|)
      && (eff.outcome.Returned? ==> (eff.outcome.result.errors == ing.errors
        && eff.outcome.result.filesProcessed == ing.filesProcessed && eff.outcome.result.chunksCreated == ing.totalChunks))
  {
    var st := Sending(wiped, registry, 0, false);
    SendCalls(st, ing.records, ing.infos, collection, addFails, 0);
    SendThrew(st, ing.records, ing.infos, collection, addFails, 0);
    AsWrittenAgrees(st, st, ing.records, ing.infos, collection, addFails, 0);
    assert ing.records[0..] == ing.records;
  }

  /** A path that is missing or not a directory: the collection is still wiped and set up again, and one error is reported. */
  lemma NoDirectoryResult(calls: seq<StoreCall>, registry: map<string, DocumentInfo>, path: string, dir: Directory,
    collection: string, cfg: ChunkConfig, ids: nat -> string, clock: nat -> int, addFails: nat -> bool)
    requires ValidConfig(cfg) && !dir.Tree?
    ensures DirectoryLoad(calls, registry, path, dir, collection, cfg, ids, clock, addFails)
      == Effect(calls + [DeleteCollection(collection), GetStore(collection)], registry,
        Returned(LoadResult(0, 0, 1, "Directory does not exist: " + path)))
  {
  }

  /** A walked directory: the wipe, then the per-file loop and the batch loop over its documents. */
  lemma DirectoryLoadWalked(calls: seq<StoreCall>, registry: map<string, DocumentInfo>, path: string,
    entries: seq<FileEntry>, collection: string, cfg: ChunkConfig, ids: nat -> string, clock: nat -> int,
    addFails: nat -> bool)
    requires ValidConfig(cfg)
    ensures DirectoryLoad(calls, registry, path, Tree(Walked(entries)), collection, cfg, ids, clock, addFails)
      == WalkedLoad(calls + [DeleteCollection(collection), GetStore(collection)], registry,
        IngestAll(NoIngest, HtmlFiles(entries), collection, cfg, ids, clock), collection, addFails)
  {
  }

  /**
   * A walked directory: the wipe comes first, then the batches of all the
   * documents up to the first failing one; the load throws exactly when some
   * batch fails.
   */
  lemma DirectoryLoadCalls(calls: seq<StoreCall>, registry: map<string, DocumentInfo>, path: string,
    entries: seq<FileEntry>, collection: string, cfg: ChunkConfig, ids: nat -> string, clock: nat -> int,
    addFails: nat -> bool)
    requires ValidConfig(cfg)
    ensures var ing := IngestAll(NoIngest, HtmlFiles(entries), collection, cfg, ids, clock);
      var stop := FirstFailure(ing.records, addFails, 0);
      var eff := DirectoryLoad(calls, registry, path, Tree(Walked(entries)), collection, cfg, ids, clock, addFails);
      eff.calls == calls + [DeleteCollection(collection), GetStore(collection)]
        + Adds(Some(collection), Batches(ing.records[..Min(stop + BatchSize, |ing.records|)]))
      && (eff.outcome == Threw <==> stop < |ing.records|)
  {
    var ing := IngestAll(NoIngest, HtmlFiles(entries), collection, cfg, ids, clock);
    DirectoryLoadWalked(calls, registry, path, entries, collection, cfg, ids, clock, addFails);
    WalkedLoadCalls(calls + [DeleteCollection(collection), GetStore(collection)], registry, ing, collection, addFails);
  }

  /**
   * The counters of a walked directory that returns: the failed parses, the
   * files that gave chunks, and their chunks, which are all the records made.
   */
  lemma DirectoryLoadCounters(calls: seq<StoreCall>, registry: map<string, DocumentInfo>, path: string,
    entries: seq<FileEntry>, collection: string, cfg: ChunkConfig, ids: nat -> string, clock: nat -> int,
    addFails: nat -> bool)
    requires ValidConfig(cfg)
    ensures var files := HtmlFiles(entries);
      var ing := IngestAll(NoIngest, files, collection, cfg, ids, clock);
      var eff := DirectoryLoad(calls, registry, path, Tree(Walked(entries)), collection, cfg, ids, clock, addFails);
      eff.outcome.Returned? ==>
        eff.outcome.result.errors == CountFailures(files)
        && eff.outcome.result.filesProcessed == CountProductive(files, cfg)
        && eff.outcome.result.chunksCreated == CountChunks(files, cfg) == |ing.records|
  {
    var files := HtmlFiles(entries);
    var ing := IngestAll(NoIngest, files, collection, cfg, ids, clock);
    IngestCounts(NoIngest, files, collection, cfg, ids, clock);
    IngestAllRecords(files, collection, cfg, ids, clock);
    DirectoryLoadWalked(calls, registry, path, entries, collection, cfg, ids, clock, addFails);
    WalkedLoadCalls(calls + [DeleteCollection(collection), GetStore(collection)], registry, ing, collection, addFails);
  }

  /** The per-file loop makes one record per chunk it counts. */
  lemma IngestAllRecords(files: seq<FileEntry>, collection: string, cfg: ChunkConfig,
    ids: nat -> string, clock: nat -> int)
    requires ValidConfig(cfg)
    ensures var ing := IngestAll(NoIngest, files, collection, cfg, ids, clock);
      |ing.records| == ing.totalChunks && |ing.infos| <= |ing.records|
  {
    var ing := IngestAll(NoIngest, files, collection, cfg, ids, clock);
    IngestAllKeeps(NoIngest, files, collection, cfg, ids, clock);
    PagesAtMostChunks(ing.infos);
  }

  /**
   * A walked directory: the registry gains the first k pending infos, k
   * being the number of documents sent before the first failing batch,
   * capped at the number of pages; when no batch fails, that is every page
   * that gave chunks.
   */
  lemma DirectoryLoadRegistry(calls: seq<StoreCall>, registry: map<string, DocumentInfo>, path: string,
    entries: seq<FileEntry>, collection: string, cfg: ChunkConfig, ids: nat -> string, clock: nat -> int,
    addFails: nat -> bool)
    requires ValidConfig(cfg)
    ensures var ing := IngestAll(NoIngest, HtmlFiles(entries), collection, cfg, ids, clock);
      var stop := FirstFailure(ing.records, addFails, 0);
      var eff := DirectoryLoad(calls, registry, path, Tree(Walked(entries)), collection, cfg, ids, clock, addFails);
      eff.registry == RegisterRange(registry, ing.infos, 0, Min(stop, |ing.infos|))
      && (eff.outcome.Returned? ==> eff.registry.Keys == registry.Keys + set j | 0 <= j < |ing.infos| :: ing.infos[j].id)
  {
    var ing := IngestAll(NoIngest, HtmlFiles(entries), collection, cfg, ids, clock);
    IngestAllKeeps(NoIngest, HtmlFiles(entries), collection, cfg, ids, clock);
    DirectoryLoadWalked(calls, registry, path, entries, collection, cfg, ids, clock, addFails);
    WalkedLoadRegistry(calls + [DeleteCollection(collection), GetStore(collection)], registry, ing, collection, addFails);
  }

  lemma WalkedLoadRegistry(wiped: seq<StoreCall>, registry: map<string, DocumentInfo>, ing: Ingest, collection: string,
    addFails: nat -> bool)
    requires Consistent(ing)
    ensures var stop := FirstFailure(ing.records, addFails, 0);
      var eff := WalkedLoad(wiped, registry, ing, collection, addFails);
      eff.registry == RegisterRange(registry, ing.infos, 0, Min(stop, |ing.infos|))
      && (eff.outcome.Returned? ==> eff.registry.Keys == registry.Keys + set j | 0 <= j < |ing.infos| :: ing.infos[j].id)
  {
    var st := Sending(wiped, registry, 0, false);
    AsWrittenSendRegistry(st, ing.records, ing.infos, collection, addFails, 0);
    SendThrew(st, ing.records, ing.infos, collection, addFails, 0);
    AsWrittenAgrees(st, st, ing.records, ing.infos, collection, addFails, 0);
    PagesAtMostChunks(ing.infos);
    RegisterRangeKeys(registry, ing.infos, 0, |ing.infos|);
  }

  /**
   * `loadParsedDocument`: no chunks gives 0 and changes nothing; otherwise
   * one `add` of all the chunk documents to the default store, then (unless
   * it throws, None) the page is registered and its chunk count returned.
   */
  function SingleLoad(calls: seq<StoreCall>, registry: map<string, DocumentInfo>, parsed: ParsedDocument,
    cfg: ChunkConfig, docId: string, now: int, addFails: bool): Effect<Option<nat>>
    requires ValidConfig(cfg)
  {
    var chunks := Chunks(parsed.content, cfg);
    if chunks == [] then Effect(calls, registry, Some(0))
    else
      var sent := calls + [AddBatch(None, RecordsFor(chunks, parsed.filename, parsed, docId, None))];
      if addFails then Effect(sent, registry, None)
      else Effect(sent, registry[docId := InfoFor(parsed, docId, |chunks|, now)], Some(|chunks|))
  }

  /**
   * A single load returns the number of chunks of the content; the documents
   * sent use the file name as source, have no collection key and are
   * numbered 1 to n under the page's id, which the registry then holds.
   */
  lemma SingleLoadFacts(calls: seq<StoreCall>, registry: map<string, DocumentInfo>, parsed: ParsedDocument,
    cfg: ChunkConfig, docId: string, now: int, addFails: bool)
    requires ValidConfig(cfg)
    ensures var eff := SingleLoad(calls, registry, parsed, cfg, docId, now, addFails);
      var chunks := Chunks(parsed.content, cfg);
      (eff.outcome.Some? ==> eff.outcome.value == |chunks|)
      && (eff.outcome.None? <==> chunks != [] && addFails)
      && (chunks == [] ==> eff.calls == calls && eff.registry == registry)
      && (chunks != [] ==>
        |eff.calls| == |calls| + 1 && eff.calls[..|calls|] == calls
        && eff.calls[|calls|].AddBatch? && eff.calls[|calls|].store == None
        && Numbered(eff.calls[|calls|].batch, chunks, parsed.filename, docId, None))
      && (eff.outcome.Some? && eff.outcome.value > 0 ==>
        eff.registry == registry[docId := DocumentInfo(docId, parsed.filename, parsed.filePath, parsed.title, |chunks|, now)])
      && (eff.outcome.None? ==> eff.registry == registry)
  {
    var chunks := Chunks(parsed.content, cfg);
    if chunks != [] {
      var b := RecordsFor(chunks, parsed.filename, parsed, docId, None);
      assert SingleLoad(calls, registry, parsed, cfg, docId, now, addFails).calls == calls + [AddBatch(None, b)];
      RecordsForNumbered(chunks, parsed.filename, parsed, docId, None);
    }
  }

  // ---------------------------------------------------------------------------
  // The service
  // ---------------------------------------------------------------------------

  /** DocumentService with its registry `loadedDocuments` and the log of what it asked of the vector stores. */
  class DocumentService {
    const cfg: ChunkConfig
    var loadedDocuments: map<string, DocumentInfo>
    var storeCalls: seq<StoreCall>

    constructor(cfg: ChunkConfig)
      requires ValidConfig(cfg)
      ensures this.cfg == cfg && loadedDocuments == map[] && storeCalls == []
    {
      this.cfg := cfg;
      loadedDocuments := map[];
      storeCalls := [];
    }

    /** `wipeChromaCollection`. */
    method WipeChromaCollection(collectionName: string)
      modifies this
      ensures storeCalls == old(storeCalls) + [DeleteCollection(collectionName)]
      ensures loadedDocuments == old(loadedDocuments)
    {
      storeCalls := storeCalls + [DeleteCollection(collectionName)];
    }

    /** The metadata loop: one document per chunk, appended to `acc`. */
    static method BuildRecords(chunks: seq<string>, source: string, parsed: ParsedDocument, docId: string,
      collection: Option<string>, acc: seq<ChunkRecord>) returns (out: seq<ChunkRecord>)
      ensures out == acc + RecordsFor(chunks, source, parsed, docId, collection)
    {
      ghost var all := RecordsFor(chunks, source, parsed, docId, collection);
      out := acc;
      var i := 0;
      while i < |chunks|
        invariant 0 <= i <= |chunks|
        invariant out == acc + all[..i]
      {
        out := out + [ChunkRecord(chunks[i], source, parsed.filePath, parsed.title, i + 1, |chunks|, docId, collection)];
        assert all[..i + 1] == all[..i] + [all[i]];
        i := i + 1;
      }
      assert all[..|chunks|] == all;
    }

    /** The body of the per-file loop, for one file. */
    method IngestOne(st: Ingest, f: FileEntry, collection: string, ids: nat -> string, clock: nat -> int)
      returns (r: Ingest)
      requires ValidConfig(cfg)
      ensures r == IngestFile(st, f, collection, cfg, ids, clock)
    {
      if f.doc.None? {
        return st.(errors := st.errors + 1);
      }
      var parsed := ParseHtmlFile(HtmlFile(f.name, f.absolutePath, f.doc.value));
      var chunks := ChunkText(parsed.content, cfg);
      if chunks == [] {
        return st;
      }
      var relativePath := SourcePath(f.relativePath);
      var docId := ids(st.filesProcessed);
      var records := BuildRecords(chunks, relativePath, parsed, docId, Some(collection), st.records);
      var info := InfoFor(parsed, docId, |chunks|, clock(st.filesProcessed));
      r := Ingest(records, st.infos + [info], st.filesProcessed + 1, st.totalChunks + |chunks|, st.errors);
    }

    /** The per-file loop. */
    method IngestFiles(files: seq<FileEntry>, collection: string, ids: nat -> string, clock: nat -> int)
      returns (st: Ingest)
      requires ValidConfig(cfg)
      ensures st == IngestAll(NoIngest, files, collection, cfg, ids, clock)
    {
      st := NoIngest;
      var i := 0;
      while i < |files|
        invariant 0 <= i <= |files|
        invariant IngestAll(st, files[i..], collection, cfg, ids, clock) == IngestAll(NoIngest, files, collection, cfg, ids, clock)
      {
        assert files[i..][0] == files[i] && files[i..][1..] == files[i + 1..];
        st := IngestOne(st, files[i], collection, ids, clock);
        i := i + 1;
      }
    }

    /** Registering the pending infos with index in [lo, hi). */
    method RegisterPending(infos: seq<DocumentInfo>, lo: nat, hi: nat)
      requires lo <= hi <= |infos|
      modifies this
      ensures loadedDocuments == RegisterRange(old(loadedDocuments), infos, lo, hi)
      ensures storeCalls == old(storeCalls)
    {
      var i := lo;
      while i < hi
        invariant lo <= i <= hi
        invariant RegisterRange(loadedDocuments, infos, i, hi) == RegisterRange(old(loadedDocuments), infos, lo, hi)
        invariant storeCalls == old(storeCalls)
      {
        loadedDocuments := loadedDocuments[infos[i].id := infos[i]];
        i := i + 1;
      }
    }

    /** The batch loop: send, then register as many more pending infos as the batch had documents. */
    method SendBatches(records: seq<ChunkRecord>, infos: seq<DocumentInfo>, collection: string, addFails: nat -> bool)
      returns (threw: bool)
      modifies this
      ensures var r := AsWrittenSendFrom(Sending(old(storeCalls), old(loadedDocuments), 0, false), records, infos, collection, addFails, 0);
        storeCalls == r.calls && loadedDocuments == r.registry && threw == r.threw
    {
      ghost var total := AsWrittenSendFrom(Sending(storeCalls, loadedDocuments, 0, false), records, infos, collection, addFails, 0);
      var docInfoIndex: nat := 0;
      var start: nat := 0;
      while start < |records|
        invariant docInfoIndex <= |infos|
        invariant AsWrittenSendFrom(Sending(storeCalls, loadedDocuments, docInfoIndex, false), records, infos, collection, addFails, start) == total
        decreases |records| - start
      {
        var end := Min(start + BatchSize, |records|);
        storeCalls := storeCalls + [AddBatch(Some(collection), records[start..end])];
        if addFails(start) {
          return true;
        }
        var batchDocInfoEnd := Min(docInfoIndex + (end - start), |infos|);
        RegisterPending(infos, docInfoIndex, batchDocInfoEnd);
        docInfoIndex := batchDocInfoEnd;
        start := start + BatchSize;
      }
      return false;
    }

    /** `loadDocumentsFromDirectory`. */
    method LoadDocumentsFromDirectory(path: string, dir: Directory, collection: string,
      ids: nat -> string, clock: nat -> int, addFails: nat -> bool) returns (outcome: LoadOutcome)
      requires ValidConfig(cfg)
      modifies this
      ensures Effect(storeCalls, loadedDocuments, outcome)
        == DirectoryLoad(old(storeCalls), old(loadedDocuments), path, dir, collection, cfg, ids, clock, addFails)
    {
      WipeChromaCollection(collection);
      storeCalls := storeCalls + [GetStore(collection)];
      assert storeCalls == old(storeCalls) + [DeleteCollection(collection), GetStore(collection)];
      if !dir.Tree? {
        return Returned(LoadResult(0, 0, 1, "Directory does not exist: " + path));
      }
      if dir.walk.WalkFailed? {
        return Returned(LoadResult(0, 0, 1, "Error walking directory: " + dir.walk.reason));
      }
      var htmlFiles := HtmlFiles(dir.walk.entries);
      var ing := IngestFiles(htmlFiles, collection, ids, clock);
      var threw := false;
      if |ing.records| > 0 {
        threw := SendBatches(ing.records, ing.infos, collection, addFails);
      }
      if threw {
        return Threw;
      }
      outcome := Returned(LoadResult(ing.filesProcessed, ing.totalChunks, ing.errors,
        LoadedMessage(ing.filesProcessed, ing.totalChunks, collection, ing.errors)));
    }

    /** `loadParsedDocument`; None when the store's `add` throws. */
    method LoadParsedDocument(parsed: ParsedDocument, docId: string, now: int, addFails: bool)
      returns (n: Option<nat>)
      requires ValidConfig(cfg)
      modifies this
      ensures Effect(storeCalls, loadedDocuments, n)
        == SingleLoad(old(storeCalls), old(loadedDocuments), parsed, cfg, docId, now, addFails)
    {
      var chunks := ChunkText(parsed.content, cfg);
      if chunks == [] {
        return Some(0);
      }
      var documents := BuildRecords(chunks, parsed.filename, parsed, docId, None, []);
      assert documents == RecordsFor(chunks, parsed.filename, parsed, docId, None);
      storeCalls := storeCalls + [AddBatch(None, documents)];
      if addFails {
        return None;
      }
      loadedDocuments := loadedDocuments[docId := InfoFor(parsed, docId, |chunks|, now)];
      n := Some(|chunks|);
    }

    /** `loadDocument`: None when Jsoup cannot read the file (nothing changes) or the store's `add` throws. */
    method LoadDocument(name: string, absolutePath: string, doc: Option<HtmlDocument>, docId: string, now: int,
      addFails: bool) returns (n: Option<nat>)
      requires ValidConfig(cfg)
      modifies this
      ensures doc.None? ==> n.None? && storeCalls == old(storeCalls) && loadedDocuments == old(loadedDocuments)
      ensures doc.Some? ==> (Effect(storeCalls, loadedDocuments, n)
        == SingleLoad(old(storeCalls), old(loadedDocuments), ParseHtmlFile(HtmlFile(name, absolutePath, doc.value)),
          cfg, docId, now, addFails))
    {
      if doc.None? {
        return None;
      }
      n := LoadParsedDocument(ParseHtmlFile(HtmlFile(name, absolutePath, doc.value)), docId, now, addFails);
    }

    /** `loadDocumentFromString`. */
    method LoadDocumentFromString(doc: HtmlDocument, filename: string, docId: string, now: int, addFails: bool)
      returns (n: Option<nat>)
      requires ValidConfig(cfg)
      modifies this
      ensures Effect(storeCalls, loadedDocuments, n)
        == SingleLoad(old(storeCalls), old(loadedDocuments), ParseHtmlString(doc, filename), cfg, docId, now, addFails)
    {
      n := LoadParsedDocument(ParseHtmlString(doc, filename), docId, now, addFails);
    }

    /** `getLoadedDocuments`: the registered infos, in no particular order. */
    method GetLoadedDocuments() returns (docs: set<DocumentInfo>)
      ensures forall d :: d in docs <==> exists id :: id in loadedDocuments && loadedDocuments[id] == d
    {
      docs := loadedDocuments.Values;
    }

    /** `getDocumentByFilename`: some registered info with that file name, or None when there is none. */
    method GetDocumentByFilename(filename: string) returns (r: Option<DocumentInfo>)
      ensures r.Some? ==> r.value in loadedDocuments.Values && r.value.filename == filename
      ensures r.None? <==> forall d :: d in loadedDocuments.Values ==> d.filename != filename
    {
      if d :| d in loadedDocuments.Values && d.filename == filename {
        r := Some(d);
      } else {
        r := None;
      }
    }

    /** `clearDocuments`: the registry is emptied; the stores keep their documents. */
    method ClearDocuments()
      modifies this
      ensures loadedDocuments == map[] && storeCalls == old(storeCalls)
    {
      loadedDocuments := map[];
    }
  }
}
