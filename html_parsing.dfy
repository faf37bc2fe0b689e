/**
 * HtmlParserService: the title fallback, the removal of non-content
 * elements, and the white-space normalisation of the extracted text. The
 * parsed DOM is given as a value; parsing itself belongs to Jsoup.
 */
module HtmlParsing {
  import opened Wrappers
  import opened Strings

  /** A DOM node with its tag name as Jsoup normalises it (lower case). */
  datatype Node = Text(text: string) | Element(tag: string, children: seq<Node>)

  /**
   * A parsed page: the text of its `<title>` element ("" when it has none),
   * the nodes outside `<body>`, and the children of `<body>` when there is one.
   */
  datatype HtmlDocument = HtmlDocument(title: string, outside: seq<Node>, body: Option<seq<Node>>)

  /** HtmlParserService.ParsedDocument; `filePath` is null for a page parsed from a string. */
  datatype ParsedDocument = ParsedDocument(title: string, content: string, filename: string, filePath: Option<string>)

  /** A file handed to parseHtmlFile: its name, its absolute path and its parsed content. */
  datatype HtmlFile = HtmlFile(name: string, absolutePath: string, doc: HtmlDocument)

  /** The selector "script, style, nav, header, footer, aside". */
  const RemovedTags: set<string> := {"script", "style", "nav", "header", "footer", "aside"}

  predicate IsRemoved(n: Node) {
    n.Element? && n.tag in RemovedTags
  }

  // ---------------------------------------------------------------------------
  // Removing the non-content elements
  // ---------------------------------------------------------------------------

  /** `select(...).remove()`: every matching element is dropped together with its subtree. */
  function Strip(ns: seq<Node>): seq<Node>
    decreases ns, 1
  {
    if ns == [] then []
    else (if IsRemoved(ns[0]) then [] else [StripNode(ns[0])]) + Strip(ns[1..])
  }

  function StripNode(n: Node): Node
    decreases n, 0
  {
    match n
    case Text(_) => n
    case Element(t, cs) => Element(t, Strip(cs))
  }

  /** No node of the forest, at any depth, matches the selector. */
  predicate NoRemoved(ns: seq<Node>)
    decreases ns
  {
    forall i :: 0 <= i < |ns| ==> !IsRemoved(ns[i]) && (ns[i].Element? ==> NoRemoved(ns[i].children))
  }

  lemma NoRemovedCons(n: Node, ns: seq<Node>)
    requires !IsRemoved(n) && (n.Element? ==> NoRemoved(n.children)) && NoRemoved(ns)
    ensures NoRemoved([n] + ns)
  {
    var s := [n] + ns;
    forall i | 0 <= i < |s|
      ensures !IsRemoved(s[i]) && (s[i].Element? ==> NoRemoved(s[i].children))
    {
      if i > 0 {
        assert s[i] == ns[i - 1];
      }
    }
  }

  /** After the removal no matching element is left anywhere. */
  lemma {:induction false} StripRemovesAll(ns: seq<Node>)
    ensures NoRemoved(Strip(ns))
    decreases ns, 1
  {
    if ns != [] {
      StripRemovesAll(ns[1..]);
      if !IsRemoved(ns[0]) {
        StripNodeRemovesAll(ns[0]);
        NoRemovedCons(StripNode(ns[0]), Strip(ns[1..]));
      }
    }
  }

  lemma {:induction false} StripNodeRemovesAll(n: Node)
    ensures n.Element? ==> NoRemoved(StripNode(n).children)
    ensures StripNode(n).Element? == n.Element? && (n.Element? ==> StripNode(n).tag == n.tag)
    decreases n, 0
  {
    if n.Element? {
      StripRemovesAll(n.children);
    }
  }

  /** A forest without matching elements is left as it is. */
  lemma {:induction false} StripKeepsClean(ns: seq<Node>)
    requires NoRemoved(ns)
    ensures Strip(ns) == ns
    decreases ns, 1
  {
    if ns != [] {
      assert !IsRemoved(ns[0]);
      var t := ns[1..];
      forall i | 0 <= i < |t| ensures !IsRemoved(t[i]) && (t[i].Element? ==> NoRemoved(t[i].children)) {
        assert t[i] == ns[i + 1];
      }
      StripKeepsClean(t);
      StripNodeKeepsClean(ns[0]);
      assert ns == [ns[0]] + t;
    }
  }

  lemma {:induction false} StripNodeKeepsClean(n: Node)
    requires n.Element? ==> NoRemoved(n.children)
    ensures StripNode(n) == n
    decreases n, 0
  {
    if n.Element? {
      StripKeepsClean(n.children);
    }
  }

  // ---------------------------------------------------------------------------
  // Text extraction
  // ---------------------------------------------------------------------------

  /** The text nodes of a forest, concatenated in document order. */
  function TextOf(ns: seq<Node>): string
    decreases ns, 1
  {
    if ns == [] then [] else NodeText(ns[0]) + TextOf(ns[1..])
  }

  function NodeText(n: Node): string
    decreases n, 0
  {
    match n
    case Text(s) => s
    case Element(_, cs) => TextOf(cs)
  }

  /** `doc.body() != null ? doc.body().text() : doc.text()`, after the removal. */
  function ExtractText(doc: HtmlDocument): string {
    match doc.body
    case Some(b) => TextOf(Strip(b))
    case None => TextOf(Strip(doc.outside))
  }

  // ---------------------------------------------------------------------------
  // White-space normalisation
  // ---------------------------------------------------------------------------

  /** `s` without its leading regular-expression white space. */
  function DropSpaces(s: string): (r: string)
    ensures |r| <= |s|
    ensures r != [] ==> !IsRegexSpace(r[0])
  {
    if s != [] && IsRegexSpace(s[0]) then DropSpaces(s[1..]) else s
  }

  /** `s.replaceAll("\\s+", " ")`: every maximal run of `\s` characters becomes one space. */
  function CollapseSpaces(s: string): (r: string)
    ensures s != [] && !IsRegexSpace(s[0]) ==> r != [] && r[0] == s[0]
    decreases |s|
  {
    if s == [] then []
    else if IsRegexSpace(s[0]) then " " + CollapseSpaces(DropSpaces(s[1..]))
    else [s[0]] + CollapseSpaces(s[1..])
  }

  /** No two neighbouring `\s` characters, and every `\s` character is a plain space. */
  predicate SingleSpaced(s: string) {
    (forall i :: 0 <= i < |s| && IsRegexSpace(s[i]) ==> s[i] == ' ')
    && forall i :: 0 <= i < |s| - 1 ==> !(IsRegexSpace(s[i]) && IsRegexSpace(s[i + 1]))
  }

  lemma SingleSpacedCons(c: char, t: string)
    requires SingleSpaced(t)
    requires IsRegexSpace(c) ==> c == ' ' && (t != [] ==> !IsRegexSpace(t[0]))
    ensures SingleSpaced([c] + t)
  {
    var s := [c] + t;
    forall i | 0 <= i < |s| - 1 ensures !(IsRegexSpace(s[i]) && IsRegexSpace(s[i + 1])) {
      if i > 0 {
        assert s[i] == t[i - 1] && s[i + 1] == t[i];
      }
    }
    forall i | 0 <= i < |s| && IsRegexSpace(s[i]) ensures s[i] == ' ' {
      if i > 0 {
        assert s[i] == t[i - 1];
      }
    }
  }

  /** The collapse leaves no run of two or more white-space characters. */
  lemma {:induction false} CollapseSingleSpaced(s: string)
    ensures SingleSpaced(CollapseSpaces(s))
    decreases |s|
  {
    if s != [] {
      if IsRegexSpace(s[0]) {
        var t := DropSpaces(s[1..]);
        CollapseSingleSpaced(t);
        SingleSpacedCons(' ', CollapseSpaces(t));
      } else {
        CollapseSingleSpaced(s[1..]);
        SingleSpacedCons(s[0], CollapseSpaces(s[1..]));
      }
    }
  }

  lemma SingleSpacedSlice(s: string, a: nat, b: nat)
    requires SingleSpaced(s) && a <= b <= |s|
    ensures SingleSpaced(s[a..b])
  {
    var t := s[a..b];
    forall i | 0 <= i < |t| - 1 ensures !(IsRegexSpace(t[i]) && IsRegexSpace(t[i + 1])) {
      assert t[i] == s[a + i] && t[i + 1] == s[a + i + 1];
    }
    forall i | 0 <= i < |t| && IsRegexSpace(t[i]) ensures t[i] == ' ' {
      assert t[i] == s[a + i];
    }
  }

  /** `content.replaceAll("\\s+", " ").trim()`. */
  function NormalizeSpace(s: string): string {
    JavaTrim(CollapseSpaces(s))
  }

  /** The normalised text is single-spaced and has no white space (nor any control character) at either end. */
  lemma NormalizedIsClean(s: string)
    ensures SingleSpaced(NormalizeSpace(s)) && IsTrimmed(NormalizeSpace(s), JavaSpace)
  {
    var c := CollapseSpaces(s);
    CollapseSingleSpaced(s);
    var a := LeadingCount(c, JavaSpace);
    SingleSpacedSlice(c, a, a + |JavaTrim(c)|);
    TrimOfTrimmed(c, JavaSpace);
  }

  /** The characters above U+0020 of `s`, in order. */
  function Visible(s: string): (r: string)
    ensures |r| <= |s|
  {
    if s == [] then [] else (if s[0] > ' ' then [s[0]] else []) + Visible(s[1..])
  }

  lemma {:induction false} VisibleAppend(s: string, t: string)
    ensures Visible(s + t) == Visible(s) + Visible(t)
    decreases |s|
  {
    if s != [] {
      assert (s + t)[0] == s[0] && (s + t)[1..] == s[1..] + t;
      VisibleAppend(s[1..], t);
      var h := if s[0] > ' ' then [s[0]] else [];
      assert Visible(s) == h + Visible(s[1..]);
      assert Visible(s + t) == h + Visible(s[1..] + t);
      assert h + (Visible(s[1..]) + Visible(t)) == (h + Visible(s[1..])) + Visible(t);
    } else {
      assert s + t == t;
    }
  }

  lemma {:induction false} VisibleOfInvisible(s: string)
    requires forall i :: 0 <= i < |s| ==> s[i] <= ' '
    ensures Visible(s) == []
    decreases |s|
  {
    if s != [] {
      assert forall i :: 0 <= i < |s| - 1 ==> s[1..][i] == s[i + 1];
      VisibleOfInvisible(s[1..]);
    }
  }

  lemma {:induction false} VisibleDropSpaces(s: string)
    ensures Visible(DropSpaces(s)) == Visible(s)
    decreases |s|
  {
    if s != [] && IsRegexSpace(s[0]) {
      VisibleDropSpaces(s[1..]);
    }
  }

  /** The collapse keeps every visible character, in order. */
  lemma {:induction false} CollapseKeepsVisible(s: string)
    ensures Visible(CollapseSpaces(s)) == Visible(s)
    decreases |s|
  {
    if s != [] {
      if IsRegexSpace(s[0]) {
        var t := DropSpaces(s[1..]);
        CollapseKeepsVisible(t);
        VisibleDropSpaces(s[1..]);
        VisibleAppend(" ", CollapseSpaces(t));
      } else {
        CollapseKeepsVisible(s[1..]);
        VisibleAppend([s[0]], CollapseSpaces(s[1..]));
      }
    }
  }

  /** Java's trim keeps every visible character, in order. */
  lemma TrimKeepsVisible(s: string)
    ensures Visible(JavaTrim(s)) == Visible(s)
  {
    var a := LeadingCount(s, JavaSpace);
    var r := JavaTrim(s);
    var b := a + |r|;
    TrimDropsOnly(s, JavaSpace);
    SliceAround(s, a, |r|);
    assert s[a..b] == r;
    VisibleOfInvisible(s[..a]);
    VisibleOfInvisible(s[b..]);
    VisibleAppend(s[..a] + s[a..b], s[b..]);
    VisibleAppend(s[..a], s[a..b]);
  }

  /** Normalisation only removes or rewrites white space and control characters: the visible text is unchanged. */
  lemma NormalizeKeepsVisible(s: string)
    ensures Visible(NormalizeSpace(s)) == Visible(s)
  {
    CollapseKeepsVisible(s);
    TrimKeepsVisible(CollapseSpaces(s));
  }

  // ---------------------------------------------------------------------------
  // Title
  // ---------------------------------------------------------------------------

  /** `name.replace(".html", "").replace(".htm", "")`. */
  function FallbackTitle(name: string): string {
    ReplaceAll(ReplaceAll(name, ".html", ""), ".htm", "")
  }

  /** The page's title when it is not blank, else the fallback built from the file name. */
  function ChooseTitle(docTitle: string, name: string): string {
    if IsBlank(docTitle) then FallbackTitle(name) else docTitle
  }

  /** HtmlParserService.parseHtmlFile on a file that Jsoup could read. */
  function ParseHtmlFile(file: HtmlFile): (r: ParsedDocument)
    ensures r.filename == file.name && r.filePath == Some(file.absolutePath)
  {
    ParsedDocument(ChooseTitle(file.doc.title, file.name), NormalizeSpace(ExtractText(file.doc)),
      file.name, Some(file.absolutePath))
  }

  /** HtmlParserService.parseHtmlString. */
  function ParseHtmlString(doc: HtmlDocument, filename: string): (r: ParsedDocument)
    ensures r.filename == filename && r.filePath == None
  {
    ParsedDocument(ChooseTitle(doc.title, filename), NormalizeSpace(ExtractText(doc)), filename, None)
  }

  /** The title is the page's own when it is not blank, and otherwise derived from the file name alone. */
  lemma TitleChoice(doc: HtmlDocument, filename: string)
    ensures !IsBlank(doc.title) ==> ParseHtmlString(doc, filename).title == doc.title
    ensures IsBlank(doc.title) ==> ParseHtmlString(doc, filename).title == FallbackTitle(filename)
  {
  }

  /** A name with no ".htm" in it is its own fallback title. */
  lemma FallbackOfPlainName(name: string)
    requires Avoids(name, ".htm")
    ensures FallbackTitle(name) == name
  {
    forall k | 0 <= k <= |name| ensures !OccursAt(name, ".html", k) {
      assert !OccursAt(name, ".htm", k);
      if k + 5 <= |name| {
        assert name[k..k + 5][..4] == name[k..k + 4];
        assert ".html"[..4] == ".htm";
      }
    }
    ReplaceAbsent(name, ".html", "");
    ReplaceAbsent(name, ".htm", "");
  }

  /** For a stem without a dot, the fallback title of `stem + ".html"` is the stem. */
  lemma FallbackDropsHtml(stem: string)
    requires forall k :: 0 <= k < |stem| ==> stem[k] != '.'
    ensures FallbackTitle(stem + ".html") == stem
  {
    RemoveTrailing(stem, ".html");
    AvoidsByFirstChar(stem, ".htm", |stem|);
    ReplaceAbsent(stem, ".htm", "");
  }

  /** For a stem without a dot, the fallback title of `stem + ".htm"` is the stem. */
  lemma FallbackDropsHtm(stem: string)
    requires forall k :: 0 <= k < |stem| ==> stem[k] != '.'
    ensures FallbackTitle(stem + ".htm") == stem
  {
    var h := stem + ".htm";
    assert forall k :: 0 <= k < |stem| ==> h[k] == stem[k];
    AvoidsByFirstChar(h, ".html", |stem|);
    ReplaceAbsent(h, ".html", "");
    RemoveTrailing(stem, ".htm");
  }

  /** The fallback is case-sensitive: "X.HTML" stays as it is. */
  lemma FallbackIsCaseSensitive()
    ensures FallbackTitle("X.HTML") == "X.HTML"
  {
    var x := "X.HTML";
    forall k | 0 <= k <= |x| ensures !OccursAt(x, ".htm", k) {
      if k + 4 <= |x| {
        assert x[k..k + 4][0] == x[k] && x[k..k + 4][1] == x[k + 1];
      }
    }
    FallbackOfPlainName(x);
  }

  /** The content of a parsed page is single-spaced, trimmed, and keeps every visible character of the extracted text. */
  lemma ParsedContentIsNormalized(doc: HtmlDocument, filename: string)
    ensures var c := ParseHtmlString(doc, filename).content;
      SingleSpaced(c) && IsTrimmed(c, JavaSpace) && Visible(c) == Visible(ExtractText(doc))
  {
    NormalizedIsClean(ExtractText(doc));
    NormalizeKeepsVisible(ExtractText(doc));
  }

  /**
   * A parsed file gets the same title and content rules as a parsed string,
   * the fallback title coming from the file's name.
   */
  lemma ParsedFileTitleAndContent(file: HtmlFile)
    ensures !IsBlank(file.doc.title) ==> ParseHtmlFile(file).title == file.doc.title
    ensures IsBlank(file.doc.title) ==> ParseHtmlFile(file).title == FallbackTitle(file.name)
    ensures var c := ParseHtmlFile(file).content;
      SingleSpaced(c) && IsTrimmed(c, JavaSpace) && Visible(c) == Visible(ExtractText(file.doc))
  {
    ParsedContentIsNormalized(file.doc, file.name);
  }
}
