/**
 * The sliding-window splitter of DocumentService.chunkText: windows of
 * `chunkSize` characters that overlap by `overlap` characters, each window
 * pulled back to a ". " or a space when one lies past the window's middle,
 * every window trimmed and empty windows dropped.
 */
module TextChunker {
  import opened Strings

  /** The two settings of RagConfig that the splitter reads. */
  datatype ChunkConfig = ChunkConfig(chunkSize: int, overlap: int)

  /** RagConfig's defaults: chunkSize 1000, chunkOverlap 200. */
  const DefaultConfig: ChunkConfig := ChunkConfig(1000, 200)

  /**
   * The settings under which the loop makes progress. A window that snaps
   * to a boundary ends just past its middle, so the next window starts
   * later only when the overlap is at most half the chunk size.
   */
  predicate ValidConfig(cfg: ChunkConfig) {
    1 <= cfg.chunkSize && 0 <= cfg.overlap <= cfg.chunkSize / 2
  }

  lemma DefaultConfigIsValid()
    ensures ValidConfig(DefaultConfig)
  {
  }

  /** A half-open range [lo, hi) of character positions. */
  datatype Span = Span(lo: nat, hi: nat)

  /**
   * Where the window that starts at `start` ends: `start + chunkSize` (or the
   * end of the text), pulled back to just after the last ". " or onto the
   * last space at or before that point when it lies past the middle.
   */
  function WindowEnd(text: string, cfg: ChunkConfig, start: nat): (end: nat)
    requires start < |text| && 1 <= cfg.chunkSize
    ensures start < end <= |text|
    ensures end <= start + cfg.chunkSize + 1
    ensures end == start + cfg.chunkSize + 1 ==> OccursAt(text, ". ", start + cfg.chunkSize)
    ensures end < |text| ==> start + cfg.chunkSize / 2 < end
  {
    var end0 := Min(start + cfg.chunkSize, |text|);
    if end0 < |text| then
      var lastPeriod := LastIndexOf(text, ". ", end0);
      var lastSpace := LastIndexOf(text, " ", end0);
      if lastPeriod > start + cfg.chunkSize / 2 then lastPeriod + 1
      else if lastSpace > start + cfg.chunkSize / 2 then lastSpace
      else end0
    else end0
  }

  /** The ends of the windows that start at positions `k`, `k + 1`, ... of `text`. */
  function EndsFrom(text: string, cfg: ChunkConfig, k: nat): (t: seq<nat>)
    requires 1 <= cfg.chunkSize && k <= |text|
    ensures |t| == |text| - k
    decreases |text| - k
  {
    if k == |text| then [] else [WindowEnd(text, cfg, k)] + EndsFrom(text, cfg, k + 1)
  }

  lemma {:induction false} EndsFromAt(text: string, cfg: ChunkConfig, k: nat, s: nat)
    requires 1 <= cfg.chunkSize && k <= s < |text|
    ensures EndsFrom(text, cfg, k)[s - k] == WindowEnd(text, cfg, s)
    decreases s - k
  {
    if s > k {
      EndsFromAt(text, cfg, k + 1, s);
      ConsIndex(WindowEnd(text, cfg, k), EndsFrom(text, cfg, k + 1), s - k);
    }
  }

  /** The end of the window that starts at each position of `text`. */
  function EndTable(text: string, cfg: ChunkConfig): (t: seq<nat>)
    requires 1 <= cfg.chunkSize
    ensures |t| == |text|
  {
    EndsFrom(text, cfg, 0)
  }

  lemma EndTableAt(text: string, cfg: ChunkConfig, s: nat)
    requires 1 <= cfg.chunkSize && s < |text|
    ensures EndTable(text, cfg)[s] == WindowEnd(text, cfg, s)
  {
    EndsFromAt(text, cfg, 0, s);
  }

  /** A table of window ends with the guarantees WindowEnd gives. */
  predicate ValidEnds(ends: seq<nat>, cfg: ChunkConfig) {
    forall s :: 0 <= s < |ends| ==>
      s < ends[s] <= |ends| && ends[s] <= s + cfg.chunkSize + 1
      && (ends[s] < |ends| ==> s + cfg.chunkSize / 2 < ends[s])
  }

  lemma EndTableValid(text: string, cfg: ChunkConfig)
    requires 1 <= cfg.chunkSize
    ensures ValidEnds(EndTable(text, cfg), cfg)
  {
    var ends := EndTable(text, cfg);
    forall s | 0 <= s < |ends|
      ensures s < ends[s] <= |ends| && ends[s] <= s + cfg.chunkSize + 1
        && (ends[s] < |ends| ==> s + cfg.chunkSize / 2 < ends[s])
    {
      EndTableAt(text, cfg, s);
    }
  }

  // ---------------------------------------------------------------------------
  // The windows the loop visits
  // ---------------------------------------------------------------------------

  /** The windows the loop visits from `start` on, in order, given the end of each window. */
  function Windows(ends: seq<nat>, cfg: ChunkConfig, start: nat): (ws: seq<Span>)
    requires ValidConfig(cfg) && ValidEnds(ends, cfg) && start < |ends|
    ensures |ws| >= 1 && ws[0].lo == start && ws[|ws| - 1].hi == |ends|
    decreases |ends| - start
  {
    var end := ends[start];
    var next := end - cfg.overlap;
    if next >= |ends| - cfg.overlap then [Span(start, end)]
    else [Span(start, end)] + Windows(ends, cfg, next)
  }

  /**
   * The loop stops exactly when a window reaches the end of the text;
   * otherwise the next window starts `overlap` before this one's end.
   */
  lemma WindowsStep(ends: seq<nat>, cfg: ChunkConfig, start: nat)
    requires ValidConfig(cfg) && ValidEnds(ends, cfg) && start < |ends|
    ensures var end := ends[start];
      if end == |ends| then Windows(ends, cfg, start) == [Span(start, end)]
      else (start < end - cfg.overlap < |ends|
        && Windows(ends, cfg, start) == [Span(start, end)] + Windows(ends, cfg, end - cfg.overlap))
  {
  }

  /** Every window is non-empty, lies inside the text from `start` on, and is at most chunkSize + 1 long. */
  lemma {:induction false} WindowsBounded(ends: seq<nat>, cfg: ChunkConfig, start: nat)
    requires ValidConfig(cfg) && ValidEnds(ends, cfg) && start < |ends|
    ensures var ws := Windows(ends, cfg, start);
      forall i :: 0 <= i < |ws| ==>
        start <= ws[i].lo < ws[i].hi <= |ends| && ws[i].hi <= ws[i].lo + cfg.chunkSize + 1
        && ws[i].hi == ends[ws[i].lo]
    decreases |ends| - start
  {
    var ws := Windows(ends, cfg, start);
    var end := ends[start];
    WindowsStep(ends, cfg, start);
    if end < |ends| {
      var next := end - cfg.overlap;
      WindowsBounded(ends, cfg, next);
      var rest := Windows(ends, cfg, next);
      forall i | 0 <= i < |ws|
        ensures start <= ws[i].lo < ws[i].hi <= |ends| && ws[i].hi <= ws[i].lo + cfg.chunkSize + 1
          && ws[i].hi == ends[ws[i].lo]
      {
        if i > 0 {
          assert ws[i] == rest[i - 1];
        }
      }
    }
  }

  /** Consecutive windows: each starts `overlap` before the previous one's end, strictly later than it. */
  lemma {:induction false} WindowsProgress(ends: seq<nat>, cfg: ChunkConfig, start: nat)
    requires ValidConfig(cfg) && ValidEnds(ends, cfg) && start < |ends|
    ensures var ws := Windows(ends, cfg, start);
      forall i :: 0 <= i < |ws| - 1 ==>
        ws[i + 1].lo == ws[i].hi - cfg.overlap && ws[i].lo < ws[i + 1].lo && ws[i].hi < |ends|
    decreases |ends| - start
  {
    var ws := Windows(ends, cfg, start);
    var end := ends[start];
    WindowsStep(ends, cfg, start);
    if end < |ends| {
      var next := end - cfg.overlap;
      WindowsProgress(ends, cfg, next);
      var rest := Windows(ends, cfg, next);
      forall i | 0 <= i < |ws| - 1
        ensures ws[i + 1].lo == ws[i].hi - cfg.overlap && ws[i].lo < ws[i + 1].lo && ws[i].hi < |ends|
      {
        if i == 0 {
          assert ws[0] == Span(start, end) && ws[1] == rest[0];
        } else {
          assert ws[i] == rest[i - 1] && ws[i + 1] == rest[i];
        }
      }
    }
  }

  /** Every position from `start` on lies in some window that the loop visits. */
  lemma {:induction false} WindowsCover(ends: seq<nat>, cfg: ChunkConfig, start: nat, k: nat) returns (i: nat)
    requires ValidConfig(cfg) && ValidEnds(ends, cfg) && start <= k < |ends|
    ensures i < |Windows(ends, cfg, start)|
    ensures Windows(ends, cfg, start)[i].lo <= k < Windows(ends, cfg, start)[i].hi
    decreases |ends| - start
  {
    var end := ends[start];
    WindowsStep(ends, cfg, start);
    if k < end {
      i := 0;
    } else {
      var next := end - cfg.overlap;
      var j := WindowsCover(ends, cfg, next, k);
      i := j + 1;
    }
  }

  // ---------------------------------------------------------------------------
  // The chunks
  // ---------------------------------------------------------------------------

  /** The trimmed text of one window. */
  function WindowText(text: string, sp: Span): string
    requires sp.lo <= sp.hi <= |text|
  {
    JavaTrim(text[sp.lo..sp.hi])
  }

  /** The trimmed text of a window is the piece of `text` between its first and last kept characters. */
  lemma WindowTextIsSlice(text: string, sp: Span) returns (a: nat)
    requires sp.lo <= sp.hi <= |text|
    ensures a == sp.lo + LeadingCount(text[sp.lo..sp.hi], JavaSpace)
    ensures sp.lo <= a && a + |WindowText(text, sp)| <= sp.hi
    ensures WindowText(text, sp) == text[a..a + |WindowText(text, sp)|]
  {
    var w := text[sp.lo..sp.hi];
    var c := JavaTrim(w);
    var l := LeadingCount(w, JavaSpace);
    a := sp.lo + l;
    SliceOfSlice(text, sp.lo, sp.hi, l, l + |c|);
  }

  /** The trimmed texts of the windows that start at positions `k`, `k + 1`, ... of `text`. */
  function TextsFrom(text: string, ends: seq<nat>, cfg: ChunkConfig, k: nat): (t: seq<string>)
    requires ValidEnds(ends, cfg) && |ends| == |text| && k <= |text|
    ensures |t| == |text| - k
    decreases |text| - k
  {
    if k == |text| then [] else [WindowText(text, Span(k, ends[k]))] + TextsFrom(text, ends, cfg, k + 1)
  }

  lemma ConsIndex<T>(x: T, rest: seq<T>, i: nat)
    requires 0 < i <= |rest|
    ensures ([x] + rest)[i] == rest[i - 1]
  {
  }

  lemma {:induction false} TextsFromAt(text: string, ends: seq<nat>, cfg: ChunkConfig, k: nat, s: nat)
    requires ValidEnds(ends, cfg) && |ends| == |text| && k <= s < |text|
    ensures TextsFrom(text, ends, cfg, k)[s - k] == WindowText(text, Span(s, ends[s]))
    decreases s - k
  {
    if s > k {
      TextsFromAt(text, ends, cfg, k + 1, s);
      ConsIndex(WindowText(text, Span(k, ends[k])), TextsFrom(text, ends, cfg, k + 1), s - k);
    }
  }

  /** The trimmed text of the window that starts at each position of `text`. */
  function TextTable(text: string, ends: seq<nat>, cfg: ChunkConfig): (t: seq<string>)
    requires ValidEnds(ends, cfg) && |ends| == |text|
    ensures |t| == |text|
  {
    TextsFrom(text, ends, cfg, 0)
  }

  lemma TextTableAt(text: string, ends: seq<nat>, cfg: ChunkConfig, s: nat)
    requires ValidEnds(ends, cfg) && |ends| == |text| && s < |text|
    ensures TextTable(text, ends, cfg)[s] == WindowText(text, Span(s, ends[s]))
  {
    TextsFromAt(text, ends, cfg, 0, s);
  }

  /** The non-empty window texts of the windows from `start` on, in order. */
  function ChunksFrom(ends: seq<nat>, texts: seq<string>, cfg: ChunkConfig, start: nat): (r: seq<string>)
    requires ValidConfig(cfg) && ValidEnds(ends, cfg) && |texts| == |ends| && start < |ends|
    decreases |ends| - start
  {
    var end := ends[start];
    var head := if texts[start] == [] then [] else [texts[start]];
    if end - cfg.overlap >= |ends| - cfg.overlap then head
    else head + ChunksFrom(ends, texts, cfg, end - cfg.overlap)
  }

  /** The chunks of the windows of a non-empty text, from position 0. */
  function WindowChunks(text: string, cfg: ChunkConfig): seq<string>
    requires ValidConfig(cfg) && |text| > 0
  {
    EndTableValid(text, cfg);
    var ends := EndTable(text, cfg);
    ChunksFrom(ends, TextTable(text, ends, cfg), cfg, 0)
  }

  /** The chunks of `text`: none for a blank text, else those of its windows. */
  function Chunks(text: string, cfg: ChunkConfig): seq<string>
    requires ValidConfig(cfg)
  {
    if IsBlank(text) then [] else WindowChunks(text, cfg)
  }

  /** The windows of a non-empty text, from position 0. */
  function TextWindows(text: string, cfg: ChunkConfig): seq<Span>
    requires ValidConfig(cfg) && |text| > 0
  {
    EndTableValid(text, cfg);
    Windows(EndTable(text, cfg), cfg, 0)
  }

  /** Each chunk is the text of one of the windows the loop visits. */
  lemma {:induction false} ChunkFromWindow(ends: seq<nat>, texts: seq<string>, cfg: ChunkConfig, start: nat, c: string)
    returns (i: nat)
    requires ValidConfig(cfg) && ValidEnds(ends, cfg) && |texts| == |ends| && start < |ends|
    requires c in ChunksFrom(ends, texts, cfg, start)
    ensures i < |Windows(ends, cfg, start)| && Windows(ends, cfg, start)[i].lo < |ends|
    ensures c != [] && c == texts[Windows(ends, cfg, start)[i].lo]
    decreases |ends| - start
  {
    var end := ends[start];
    WindowsStep(ends, cfg, start);
    if texts[start] != [] && c == texts[start] {
      i := 0;
    } else {
      var next := end - cfg.overlap;
      assert c in ChunksFrom(ends, texts, cfg, next);
      var j := ChunkFromWindow(ends, texts, cfg, next, c);
      i := j + 1;
      assert Windows(ends, cfg, start)[i] == Windows(ends, cfg, next)[j];
    }
  }

  /** The non-empty text of any window the loop visits is one of the chunks. */
  lemma {:induction false} WindowChunkHolds(ends: seq<nat>, texts: seq<string>, cfg: ChunkConfig, start: nat, i: nat)
    requires ValidConfig(cfg) && ValidEnds(ends, cfg) && |texts| == |ends| && start < |ends|
    requires i < |Windows(ends, cfg, start)| && Windows(ends, cfg, start)[i].lo < |ends|
    requires texts[Windows(ends, cfg, start)[i].lo] != []
    ensures texts[Windows(ends, cfg, start)[i].lo] in ChunksFrom(ends, texts, cfg, start)
    decreases |ends| - start
  {
    var end := ends[start];
    var head := if texts[start] == [] then [] else [texts[start]];
    WindowsStep(ends, cfg, start);
    if i > 0 {
      var next := end - cfg.overlap;
      assert Windows(ends, cfg, start)[i] == Windows(ends, cfg, next)[i - 1];
      WindowChunkHolds(ends, texts, cfg, next, i - 1);
      assert ChunksFrom(ends, texts, cfg, start) == head + ChunksFrom(ends, texts, cfg, next);
    }
  }

  // ---------------------------------------------------------------------------
  // The loop
  // ---------------------------------------------------------------------------

  /** The loop's own view of the chunks: `acc` followed by the chunks of the windows from `start` on. */
  function ChunksAfter(ends: seq<nat>, texts: seq<string>, cfg: ChunkConfig, start: nat, acc: seq<string>): (r: seq<string>)
    requires ValidConfig(cfg) && ValidEnds(ends, cfg) && |texts| == |ends| && start < |ends|
    decreases |ends| - start
  {
    var end := ends[start];
    var acc' := if texts[start] == [] then acc else acc + [texts[start]];
    if end - cfg.overlap >= |ends| - cfg.overlap then acc'
    else ChunksAfter(ends, texts, cfg, end - cfg.overlap, acc')
  }

  /** The loop's accumulated view agrees with ChunksFrom. */
  lemma {:induction false} ChunksAfterIsAppend(ends: seq<nat>, texts: seq<string>, cfg: ChunkConfig, start: nat, acc: seq<string>)
    requires ValidConfig(cfg) && ValidEnds(ends, cfg) && |texts| == |ends| && start < |ends|
    ensures ChunksAfter(ends, texts, cfg, start, acc) == acc + ChunksFrom(ends, texts, cfg, start)
    decreases |ends| - start
  {
    var end := ends[start];
    var head := if texts[start] == [] then [] else [texts[start]];
    assert (if texts[start] == [] then acc else acc + [texts[start]]) == acc + head;
    if end - cfg.overlap < |ends| - cfg.overlap {
      var next := end - cfg.overlap;
      ChunksAfterIsAppend(ends, texts, cfg, next, acc + head);
      AppendAssoc(acc, head, ChunksFrom(ends, texts, cfg, next));
    }
  }

  /** The statements of the loop of DocumentService.chunkText that place the end of the current window. */
  method SnapWindowEnd(text: string, cfg: ChunkConfig, start: nat) returns (end: nat)
    requires 1 <= cfg.chunkSize && start < |text|
    ensures end == WindowEnd(text, cfg, start)
  {
    var chunkSize := cfg.chunkSize;
    end := Min(start + chunkSize, |text|);
    if end < |text| {
      var lastPeriod := LastIndexOf(text, ". ", end);
      var lastSpace := LastIndexOf(text, " ", end);
      if lastPeriod > start + chunkSize / 2 {
        end := lastPeriod + 1;
      } else if lastSpace > start + chunkSize / 2 {
        end := lastSpace;
      }
    }
  }

  /**
   * The while loop of DocumentService.chunkText over a non-empty text: it
   * collects the non-empty trimmed window texts in the order the loop visits
   * the windows.
   */
  method SlideWindows(text: string, cfg: ChunkConfig) returns (chunks: seq<string>)
    requires ValidConfig(cfg) && |text| > 0
    ensures chunks == WindowChunks(text, cfg)
  {
    chunks := [];
    EndTableValid(text, cfg);
    ghost var ends := EndTable(text, cfg);
    ghost var texts := TextTable(text, ends, cfg);
    ghost var total := ChunksFrom(ends, texts, cfg, 0);
    ChunksAfterIsAppend(ends, texts, cfg, 0, chunks);
    var overlap := cfg.overlap;
    var start := 0;
    while start < |text|
      invariant 0 <= start < |text|
      invariant ChunksAfter(ends, texts, cfg, start, chunks) == total
      decreases |text| - start
    {
      var end := SnapWindowEnd(text, cfg, start);
      var chunk := JavaTrim(text[start..end]);
      EndTableAt(text, cfg, start);
      TextTableAt(text, ends, cfg, start);
      if chunk != [] {
        chunks := chunks + [chunk];
      }
      start := end - overlap;
      if start >= |text| - overlap {
        break;
      }
    }
  }

  /** DocumentService.chunkText: no chunks for a blank text, else the chunks of its windows. */
  method ChunkText(text: string, cfg: ChunkConfig) returns (chunks: seq<string>)
    requires ValidConfig(cfg)
    ensures chunks == Chunks(text, cfg)
    ensures IsBlank(text) ==> chunks == []
  {
    if IsBlank(text) {
      return [];
    }
    chunks := SlideWindows(text, cfg);
  }

  // ---------------------------------------------------------------------------
  // Properties of the chunks
  // ---------------------------------------------------------------------------

  /** Each chunk is the trimmed text of a window of at most chunkSize + 1 characters. */
  lemma ChunkIsWindowText(text: string, cfg: ChunkConfig, c: string) returns (sp: Span)
    requires ValidConfig(cfg) && c in Chunks(text, cfg)
    ensures sp.lo < sp.hi <= |text| && sp.hi <= sp.lo + cfg.chunkSize + 1
    ensures c != [] && c == WindowText(text, sp)
  {
    EndTableValid(text, cfg);
    var ends := EndTable(text, cfg);
    var texts := TextTable(text, ends, cfg);
    assert Chunks(text, cfg) == ChunksFrom(ends, texts, cfg, 0);
    var i := ChunkFromWindow(ends, texts, cfg, 0, c);
    WindowsBounded(ends, cfg, 0);
    sp := Windows(ends, cfg, 0)[i];
    TextTableAt(text, ends, cfg, sp.lo);
  }

  /** Every chunk is non-empty, equal to its own trim, and at most chunkSize + 1 long. */
  lemma ChunksAreTrimmedAndBounded(text: string, cfg: ChunkConfig, c: string)
    requires ValidConfig(cfg) && c in Chunks(text, cfg)
    ensures c != [] && JavaTrim(c) == c && |c| <= cfg.chunkSize + 1
  {
    var sp := ChunkIsWindowText(text, cfg, c);
    TrimOfTrimmed(text[sp.lo..sp.hi], JavaSpace);
  }

  /** A chunk longer than chunkSize arises only where ". " starts right at the window's limit. */
  lemma LongWindowOnlyAtPeriod(text: string, cfg: ChunkConfig, start: nat)
    requires ValidConfig(cfg) && start < |text|
    ensures WindowEnd(text, cfg, start) - start == cfg.chunkSize + 1 ==>
      OccursAt(text, ". ", start + cfg.chunkSize)
  {
  }

  /**
   * The windows of a non-empty text run from position 0 to its end; each
   * next window starts `overlap` before the previous one's end and strictly
   * after the previous one's start, and no window but the last reaches the end.
   */
  lemma TextWindowsProgress(text: string, cfg: ChunkConfig)
    requires ValidConfig(cfg) && |text| > 0
    ensures var ws := TextWindows(text, cfg);
      ws[0].lo == 0 && ws[|ws| - 1].hi == |text|
      && forall i :: 0 <= i < |ws| - 1 ==>
        ws[i + 1].lo == ws[i].hi - cfg.overlap && ws[i].lo < ws[i + 1].lo && ws[i].hi < |text|
  {
    EndTableValid(text, cfg);
    var ends := EndTable(text, cfg);
    WindowsProgress(ends, cfg, 0);
    assert TextWindows(text, cfg) == Windows(ends, cfg, 0);
  }

  /** A non-blank text no longer than chunkSize gives its trim as the one chunk (none if that is empty). */
  lemma ShortTextIsOneChunk(text: string, cfg: ChunkConfig)
    requires ValidConfig(cfg) && !IsBlank(text) && |text| <= cfg.chunkSize
    ensures Chunks(text, cfg) == if JavaTrim(text) == [] then [] else [JavaTrim(text)]
  {
    EndTableValid(text, cfg);
    var ends := EndTable(text, cfg);
    var texts := TextTable(text, ends, cfg);
    assert ends[0] == WindowEnd(text, cfg, 0) == |text|;
    assert text[0..|text|] == text;
    assert texts[0] == JavaTrim(text);
    assert Chunks(text, cfg) == ChunksFrom(ends, texts, cfg, 0);
  }

  /** Every position lies in a window the loop visits, whose text, when non-empty, is a chunk. */
  lemma WindowAt(text: string, cfg: ChunkConfig, k: nat) returns (sp: Span)
    requires ValidConfig(cfg) && k < |text| && !IsJavaWhitespace(text[k])
    ensures sp.lo <= k < sp.hi <= |text|
    ensures WindowText(text, sp) != [] ==> WindowText(text, sp) in Chunks(text, cfg)
  {
    NotBlankAt(text, k);
    EndTableValid(text, cfg);
    var ends := EndTable(text, cfg);
    var texts := TextTable(text, ends, cfg);
    assert Chunks(text, cfg) == ChunksFrom(ends, texts, cfg, 0);
    var i := WindowsCover(ends, cfg, 0, k);
    WindowsBounded(ends, cfg, 0);
    sp := Windows(ends, cfg, 0)[i];
    TextTableAt(text, ends, cfg, sp.lo);
    if texts[sp.lo] != [] {
      WindowChunkHolds(ends, texts, cfg, 0, i);
    }
  }

  /** A character that trimming keeps lies inside the trimmed text of its window. */
  lemma KeptInWindowText(text: string, sp: Span, k: nat) returns (a: nat, b: nat)
    requires sp.lo <= k < sp.hi <= |text| && !IsJavaTrimmable(text[k])
    ensures a <= k < b <= |text| && text[a..b] == WindowText(text, sp)
    ensures WindowText(text, sp) != []
  {
    var w := text[sp.lo..sp.hi];
    assert w[k - sp.lo] == text[k];
    TrimKeeps(w, JavaSpace, k - sp.lo);
    a := WindowTextIsSlice(text, sp);
    b := a + |WindowText(text, sp)|;
  }

  /** No visible character is lost: each one lies, at its own position, inside some chunk. */
  lemma EveryVisibleCharIsChunked(text: string, cfg: ChunkConfig, k: nat) returns (a: nat, b: nat)
    requires ValidConfig(cfg) && k < |text|
    requires !IsJavaTrimmable(text[k]) && !IsJavaWhitespace(text[k])
    ensures a <= k < b <= |text| && text[a..b] in Chunks(text, cfg)
  {
    var sp := WindowAt(text, cfg, k);
    a, b := KeptInWindowText(text, sp, k);
  }

  /** Every chunk is a contiguous piece of the text. */
  lemma ChunksAreSlices(text: string, cfg: ChunkConfig, c: string)
    requires ValidConfig(cfg) && c in Chunks(text, cfg)
    ensures exists a, b :: 0 <= a <= b <= |text| && text[a..b] == c
  {
    var sp := ChunkIsWindowText(text, cfg, c);
    var a := WindowTextIsSlice(text, sp);
    assert text[a..a + |c|] == c;
  }

  /**
   * Outside ValidConfig the loop can stall: with chunkSize 10 and overlap 6,
   * the first window of "aaaaaa bbbbbbbbbbbbb" snaps to the space at 6, and
   * the next window starts at 6 - 6 = 0 again.
   */
  lemma StallBeyondHalfOverlap()
    ensures var text := "aaaaaa bbbbbbbbbbbbb";
      WindowEnd(text, ChunkConfig(10, 6), 0) == 6 && WindowEnd(text, ChunkConfig(10, 6), 0) - 6 == 0
  {
    var text := "aaaaaa bbbbbbbbbbbbb";
    forall j: int | 0 <= j ensures !OccursAt(text, ". ", j) {
      if j + 2 <= |text| {
        assert text[j..j + 2][0] == text[j];
      }
    }
    forall j: int | 0 <= j && j != 6 ensures !OccursAt(text, " ", j) {
      if j + 1 <= |text| {
        assert text[j..j + 1][0] == text[j];
      }
    }
    assert text[6..7] == " ";
    assert OccursAt(text, " ", 6);
    if LastIndexOf(text, " ", 10) < 6 {
      LastIndexOfIsLast(text, " ", 10, 6);
    }
  }
}
