/**
 * String operations of the Java and JavaScript standard libraries that the
 * services rely on, with the exact character classes each one uses.
 * Strings are sequences of `char`.
 */
module Strings {

  // ---------------------------------------------------------------------------
  // Character classes
  // ---------------------------------------------------------------------------

  /** Characters that Java's `String.trim()` removes: every code point up to U+0020. */
  predicate IsJavaTrimmable(c: char) {
    c <= ' '
  }

  /** Java's `Character.isWhitespace`, which `String.isBlank()` uses. */
  predicate IsJavaWhitespace(c: char) {
    c == ' ' || ('\t' <= c <= '\r') || ('\U{1C}' <= c <= '\U{1F}')
    || c == '\U{1680}' || ('\U{2000}' <= c <= '\U{2006}') || ('\U{2008}' <= c <= '\U{200A}')
    || c == '\U{2028}' || c == '\U{2029}' || c == '\U{205F}' || c == '\U{3000}'
  }

  /** The class `\s` of a Java regular expression (no UNICODE_CHARACTER_CLASS flag). */
  predicate IsRegexSpace(c: char) {
    c == ' ' || ('\t' <= c <= '\r')
  }

  /** JavaScript white space and line terminators, removed by `String.prototype.trim`. */
  predicate IsJsWhitespace(c: char) {
    c == ' ' || ('\t' <= c <= '\r') || c == '\U{A0}' || c == '\U{1680}'
    || ('\U{2000}' <= c <= '\U{200A}') || c == '\U{2028}' || c == '\U{2029}'
    || c == '\U{202F}' || c == '\U{205F}' || c == '\U{3000}' || c == '\U{FEFF}'
  }

  lemma RegexSpaceIsTrimmable(c: char)
    ensures IsRegexSpace(c) ==> IsJavaTrimmable(c)
  {
  }

  // ---------------------------------------------------------------------------
  // Blank and trim
  // ---------------------------------------------------------------------------

  /** Java's `String.isBlank()`: empty or only white space. */
  predicate IsBlank(s: string)
    decreases |s|
  {
    s == [] || (IsJavaWhitespace(s[0]) && IsBlank(s[1..]))
  }

  /** A string is blank exactly when every one of its characters is white space. */
  lemma {:induction false} BlankIffAllWhitespace(s: string)
    ensures IsBlank(s) <==> forall i :: 0 <= i < |s| ==> IsJavaWhitespace(s[i])
    decreases |s|
  {
    if s != [] {
      BlankIffAllWhitespace(s[1..]);
      assert forall i :: 1 <= i < |s| ==> s[i] == s[1..][i - 1];
    }
  }

  /** A string with a character that is not white space is not blank. */
  lemma NotBlankAt(s: string, k: nat)
    requires k < |s| && !IsJavaWhitespace(s[k])
    ensures !IsBlank(s)
  {
    BlankIffAllWhitespace(s);
  }

  /** The two character classes that trimming removes. */
  datatype TrimClass = JavaSpace | JsSpace

  /** `c` is removed by trimming with class `cls`: Java's `trim()` or JavaScript's `trim()`. */
  predicate Removable(cls: TrimClass, c: char) {
    match cls
    case JavaSpace => IsJavaTrimmable(c)
    case JsSpace => IsJsWhitespace(c)
  }

  /** Number of leading characters of `s` in the class `cls`. */
  function LeadingCount(s: string, cls: TrimClass): (n: nat)
    ensures n <= |s|
    ensures forall i :: 0 <= i < n ==> Removable(cls, s[i])
    ensures n < |s| ==> !Removable(cls, s[n])
  {
    if |s| > 0 && Removable(cls, s[0]) then 1 + LeadingCount(s[1..], cls) else 0
  }

  /** Number of trailing characters of `s` in the class `cls`. */
  function TrailingCount(s: string, cls: TrimClass): (n: nat)
    ensures n <= |s|
    ensures forall i :: |s| - n <= i < |s| ==> Removable(cls, s[i])
    ensures n < |s| ==> !Removable(cls, s[|s| - 1 - n])
  {
    if |s| > 0 && Removable(cls, s[|s| - 1]) then 1 + TrailingCount(s[..|s| - 1], cls) else 0
  }

  /**
   * `s` without its leading and trailing characters of class `cls`.
   * The result is the slice of `s` that starts after the leading run.
   */
  function Trim(s: string, cls: TrimClass): (r: string)
    ensures |r| <= |s|
    ensures LeadingCount(s, cls) + |r| <= |s|
    ensures r == s[LeadingCount(s, cls)..LeadingCount(s, cls) + |r|]
    ensures r != [] ==> !Removable(cls, r[0]) && !Removable(cls, r[|r| - 1])
  {
    var a := LeadingCount(s, cls);
    var t := s[a..];
    t[..|t| - TrailingCount(t, cls)]
  }

  /** Trimming removes only characters of class `cls`, from both ends. */
  lemma TrimDropsOnly(s: string, cls: TrimClass)
    ensures forall i :: 0 <= i < LeadingCount(s, cls) ==> Removable(cls, s[i])
    ensures forall i :: LeadingCount(s, cls) + |Trim(s, cls)| <= i < |s| ==> Removable(cls, s[i])
  {
    var a := LeadingCount(s, cls);
    var t := s[a..];
    var n := TrailingCount(t, cls);
    forall i | a + |Trim(s, cls)| <= i < |s| ensures Removable(cls, s[i]) {
      assert s[i] == t[i - a];
    }
  }

  /** A string with no removable character at either end. */
  predicate IsTrimmed(s: string, cls: TrimClass) {
    s == [] || (!Removable(cls, s[0]) && !Removable(cls, s[|s| - 1]))
  }

  /** Java's `String.trim()`. */
  function JavaTrim(s: string): string {
    Trim(s, JavaSpace)
  }

  /** JavaScript's `String.prototype.trim()`. */
  function JsTrim(s: string): string {
    Trim(s, JsSpace)
  }

  /** Trimming gives the empty string exactly when every character is removable. */
  lemma TrimEmptyIff(s: string, cls: TrimClass)
    ensures Trim(s, cls) == [] <==> forall i :: 0 <= i < |s| ==> Removable(cls, s[i])
  {
    var r := Trim(s, cls);
    var a := LeadingCount(s, cls);
    if r != [] {
      assert !Removable(cls, s[a]);
    }
  }

  /** A trimmed string is its own trim, and a trim is trimmed. */
  lemma TrimOfTrimmed(s: string, cls: TrimClass)
    ensures IsTrimmed(Trim(s, cls), cls)
    ensures IsTrimmed(s, cls) <==> Trim(s, cls) == s
  {
    var r := Trim(s, cls);
    if IsTrimmed(s, cls) && s != [] {
      assert LeadingCount(s, cls) == 0;
      assert !Removable(cls, s[|s| - 1]);
    }
  }

  /** A character outside `cls` lies at or after the leading run. */
  lemma LeadingBefore(s: string, cls: TrimClass, k: nat)
    requires k < |s| && !Removable(cls, s[k])
    ensures LeadingCount(s, cls) <= k
  {
  }

  /** A character outside `cls` lies before the trailing run. */
  lemma TrailingAfter(s: string, cls: TrimClass, k: nat)
    requires k < |s| && !Removable(cls, s[k])
    ensures k < LeadingCount(s, cls) + |Trim(s, cls)|
  {
    TrimDropsOnly(s, cls);
  }

  /** A character of class other than `cls` survives trimming, at a shifted position. */
  lemma TrimKeeps(s: string, cls: TrimClass, k: nat)
    requires k < |s| && !Removable(cls, s[k])
    ensures LeadingCount(s, cls) <= k < LeadingCount(s, cls) + |Trim(s, cls)|
    ensures Trim(s, cls)[k - LeadingCount(s, cls)] == s[k]
  {
    LeadingBefore(s, cls, k);
    TrailingAfter(s, cls, k);
  }

  // ---------------------------------------------------------------------------
  // Searching
  // ---------------------------------------------------------------------------

  /** `pat` occurs in `s` starting at index `k`. */
  predicate OccursAt(s: string, pat: string, k: int) {
    0 <= k && k + |pat| <= |s| && s[k..k + |pat|] == pat
  }

  /** The last occurrence of `pat` at an index in [0, j], or -1. */
  function LastAtOrBefore(s: string, pat: string, j: int): (k: int)
    ensures k == -1 || 0 <= k <= j
    ensures k >= 0 ==> OccursAt(s, pat, k)
    decreases j + 1
  {
    if j < 0 then -1
    else if OccursAt(s, pat, j) then j
    else LastAtOrBefore(s, pat, j - 1)
  }

  /** No occurrence lies after the one LastAtOrBefore finds. */
  lemma {:induction false} LastAtOrBeforeIsLast(s: string, pat: string, j: int, i: int)
    requires LastAtOrBefore(s, pat, j) < i <= j
    ensures !OccursAt(s, pat, i)
    decreases j + 1
  {
    if !OccursAt(s, pat, j) && i < j {
      LastAtOrBeforeIsLast(s, pat, j - 1, i);
    }
  }

  /** Java's `String.lastIndexOf(str, fromIndex)`: the largest k <= fromIndex where `pat` occurs, or -1. */
  function LastIndexOf(s: string, pat: string, fromIndex: int): (k: int)
    ensures k == -1 || (0 <= k <= fromIndex && OccursAt(s, pat, k))
  {
    var top := if fromIndex < |s| - |pat| then fromIndex else |s| - |pat|;
    LastAtOrBefore(s, pat, top)
  }

  /** LastIndexOf finds the last occurrence: none lies between it and `fromIndex`. */
  lemma LastIndexOfIsLast(s: string, pat: string, fromIndex: int, i: int)
    requires LastIndexOf(s, pat, fromIndex) < i <= fromIndex
    ensures !OccursAt(s, pat, i)
  {
    var top := if fromIndex < |s| - |pat| then fromIndex else |s| - |pat|;
    if i <= top {
      LastAtOrBeforeIsLast(s, pat, top, i);
    }
  }

  /** The first occurrence of `pat` at an index >= `from`, or -1. */
  function IndexOfFrom(s: string, pat: string, from: nat): (k: int)
    ensures k == -1 || (from <= k && OccursAt(s, pat, k))
    ensures forall i :: from <= i && (k == -1 || i < k) ==> !OccursAt(s, pat, i)
    decreases |s| - from
  {
    if from + |pat| > |s| then -1
    else if OccursAt(s, pat, from) then from
    else IndexOfFrom(s, pat, from + 1)
  }

  /** The first occurrence of `pat` in `s`, or -1 (`indexOf` in both languages). */
  function IndexOf(s: string, pat: string): int {
    IndexOfFrom(s, pat, 0)
  }

  /** No occurrence of `pat` anywhere in `s`. */
  predicate Avoids(s: string, pat: string) {
    forall k :: 0 <= k <= |s| ==> !OccursAt(s, pat, k)
  }

  // ---------------------------------------------------------------------------
  // Replacing, splitting, joining
  // ---------------------------------------------------------------------------

  /**
   * Java's `String.replace(target, replacement)` and JavaScript's
   * `replace(/pat/g, rep)` for a literal pattern: every leftmost
   * non-overlapping occurrence of `pat`, scanning left to right, becomes `rep`.
   */
  function ReplaceAll(s: string, pat: string, rep: string): string
    requires |pat| > 0
    decreases |s|
  {
    if s == [] then []
    else if OccursAt(s, pat, 0) then rep + ReplaceAll(s[|pat|..], pat, rep)
    else [s[0]] + ReplaceAll(s[1..], pat, rep)
  }

  /** Replacing a pattern that never occurs changes nothing. */
  lemma {:induction false} ReplaceAbsent(s: string, pat: string, rep: string)
    requires |pat| > 0 && Avoids(s, pat)
    ensures ReplaceAll(s, pat, rep) == s
    decreases |s|
  {
    if s != [] {
      assert !OccursAt(s, pat, 0);
      var t := s[1..];
      forall k | 0 <= k <= |t| ensures !OccursAt(t, pat, k) {
        assert !OccursAt(s, pat, k + 1);
      }
      ReplaceAbsent(t, pat, rep);
    }
  }

  /** A string none of whose characters starts `pat` contains no occurrence of it. */
  lemma AvoidsByFirstChar(s: string, pat: string, n: nat)
    requires |pat| > 0 && n <= |s| < n + |pat|
    requires forall k :: 0 <= k < n ==> s[k] != pat[0]
    ensures Avoids(s, pat)
  {
    forall k | 0 <= k <= |s| ensures !OccursAt(s, pat, k) {
      if k + |pat| <= |s| {
        assert k < n;
        assert s[k..k + |pat|][0] == s[k];
      }
    }
  }

  /** Removing `pat` from `u + pat`, where no character of `u` starts `pat`, leaves `u`. */
  lemma {:induction false} RemoveTrailing(u: string, pat: string)
    requires |pat| > 0 && forall k :: 0 <= k < |u| ==> u[k] != pat[0]
    ensures ReplaceAll(u + pat, pat, "") == u
    decreases |u|
  {
    var s := u + pat;
    if u == [] {
      assert s == pat && OccursAt(s, pat, 0);
      assert s[|pat|..] == [];
    } else {
      assert s[0] == u[0];
      assert s[1..] == u[1..] + pat;
      RemoveTrailing(u[1..], pat);
    }
  }

  /** Replacing a single character by text without it leaves no such character. */
  lemma {:induction false} ReplaceCharRemovesIt(s: string, c: char, rep: string)
    requires c !in rep
    ensures c !in ReplaceAll(s, [c], rep)
    decreases |s|
  {
    if s != [] {
      if OccursAt(s, [c], 0) {
        ReplaceCharRemovesIt(s[1..], c, rep);
      } else {
        assert s[0..1] == [s[0]];
        ReplaceCharRemovesIt(s[1..], c, rep);
      }
    }
  }

  /**
   * JavaScript's `String.prototype.split(sep)` for a non-empty string
   * separator (Java's `split` is not used): the pieces between the
   * leftmost non-overlapping occurrences of `sep`.
   */
  function SplitOn(s: string, sep: string): (parts: seq<string>)
    requires |sep| > 0
    ensures |parts| >= 1
    decreases |s|
  {
    var k := IndexOf(s, sep);
    if k < 0 then [s] else [s[..k]] + SplitOn(s[k + |sep|..], sep)
  }

  /** `Array.prototype.join(sep)` and `String.join(sep, parts)`. */
  function Join(parts: seq<string>, sep: string): string
    decreases |parts|
  {
    if parts == [] then []
    else if |parts| == 1 then parts[0]
    else parts[0] + sep + Join(parts[1..], sep)
  }

  lemma JoinCons(p: string, parts: seq<string>, sep: string)
    requires |parts| >= 1
    ensures Join([p] + parts, sep) == p + sep + Join(parts, sep)
  {
    var ps := [p] + parts;
    assert ps[0] == p && ps[1..] == parts;
  }

  lemma SliceOfSlice(s: string, lo: nat, hi: nat, i: nat, j: nat)
    requires lo <= hi <= |s| && i <= j <= hi - lo
    ensures s[lo..hi][i..j] == s[lo + i..lo + j]
  {
    var u := s[lo..hi][i..j];
    var v := s[lo + i..lo + j];
    assert |u| == |v|;
    forall t | 0 <= t < |u| ensures u[t] == v[t] {
      assert u[t] == s[lo..hi][i + t] == s[lo + i + t];
    }
  }

  lemma SliceAround(s: string, k: nat, n: nat)
    requires k + n <= |s|
    ensures s == s[..k] + s[k..k + n] + s[k + n..]
  {
  }

  /** Joining the pieces of a split with the same separator gives the text back. */
  lemma {:induction false} JoinSplit(s: string, sep: string)
    requires |sep| > 0
    ensures Join(SplitOn(s, sep), sep) == s
    decreases |s|
  {
    var k := IndexOf(s, sep);
    if k >= 0 {
      var rest := s[k + |sep|..];
      JoinSplit(rest, sep);
      var parts := SplitOn(rest, sep);
      JoinCons(s[..k], parts, sep);
      SliceAround(s, k, |sep|);
    }
  }

  /** No piece of a split contains the separator. */
  lemma {:induction false} SplitPiecesAvoidSep(s: string, sep: string)
    requires |sep| > 0
    ensures forall p :: p in SplitOn(s, sep) ==> Avoids(p, sep)
    decreases |s|
  {
    var k := IndexOf(s, sep);
    if k < 0 {
      assert SplitOn(s, sep) == [s];
    } else {
      var head := s[..k];
      forall j | 0 <= j <= |head| ensures !OccursAt(head, sep, j) {
        if OccursAt(head, sep, j) {
          assert s[j..j + |sep|] == head[j..j + |sep|];
          assert OccursAt(s, sep, j);
        }
      }
      SplitPiecesAvoidSep(s[k + |sep|..], sep);
    }
  }

  /** Appending is associative; stated on plain variables so that long literals stay folded. */
  lemma AppendAssoc<T>(a: seq<T>, b: seq<T>, c: seq<T>)
    ensures (a + b) + c == a + (b + c)
  {
  }

  /** The strings of `parts` one after the other (as a loop appends them). */
  function Concat(parts: seq<string>): string
    decreases |parts|
  {
    if parts == [] then "" else Concat(parts[..|parts| - 1]) + parts[|parts| - 1]
  }

  /** The strings of `parts` from index `i` on: an independent, front-to-back reading. */
  function ConcatFrom(parts: seq<string>, i: nat): string
    requires i <= |parts|
    decreases |parts| - i
  {
    if i == |parts| then "" else parts[i] + ConcatFrom(parts, i + 1)
  }

  /** The first `k` strings followed by the rest are all of them. */
  lemma {:induction false} ConcatSplit(parts: seq<string>, k: nat)
    requires k <= |parts|
    ensures Concat(parts[..k]) + ConcatFrom(parts, k) == ConcatFrom(parts, 0)
    decreases k
  {
    if k > 0 {
      ConcatSplit(parts, k - 1);
      assert parts[..k][..k - 1] == parts[..k - 1];
      calc {
        Concat(parts[..k]) + ConcatFrom(parts, k);
        (Concat(parts[..k - 1]) + parts[k - 1]) + ConcatFrom(parts, k);
        Concat(parts[..k - 1]) + (parts[k - 1] + ConcatFrom(parts, k));
        Concat(parts[..k - 1]) + ConcatFrom(parts, k - 1);
      }
    }
  }

  /** Both readings agree. */
  lemma ConcatInOrder(parts: seq<string>)
    ensures Concat(parts) == ConcatFrom(parts, 0)
  {
    ConcatSplit(parts, |parts|);
    assert parts[..|parts|] == parts;
  }

  // ---------------------------------------------------------------------------
  // Numbers and case
  // ---------------------------------------------------------------------------

  /** `Math.min` on integers. */
  function Min(a: int, b: int): int {
    if a < b then a else b
  }

  predicate IsDigit(c: char) {
    '0' <= c <= '9'
  }

  /** The decimal digits of `n` with no leading zero (Java's `%d`, JavaScript's `String(n)`). */
  function NatToString(n: nat): (r: string)
    ensures |r| >= 1
    ensures forall i :: 0 <= i < |r| ==> IsDigit(r[i])
    ensures r[0] == '0' ==> n == 0
  {
    var d := ['0' + (n % 10) as char];
    if n < 10 then d else NatToString(n / 10) + d
  }

  /** Lower-casing of the ASCII letters, other characters unchanged. */
  function AsciiLower(c: char): char {
    if 'A' <= c <= 'Z' then (c as int + 32) as char else c
  }

  function AsciiLowerString(s: string): (r: string)
    ensures |r| == |s|
    ensures forall i :: 0 <= i < |s| ==> r[i] == AsciiLower(s[i])
  {
    seq(|s|, i requires 0 <= i < |s| => AsciiLower(s[i]))
  }

  /** `s.endsWith(suffix)` in both languages. */
  predicate EndsWith(s: string, suffix: string) {
    |suffix| <= |s| && s[|s| - |suffix|..] == suffix
  }

  /** `s.startsWith(prefix)` in both languages. */
  predicate StartsWith(s: string, prefix: string) {
    |prefix| <= |s| && s[..|prefix|] == prefix
  }

  /**
   * Java's `Character` case-insensitive comparison of `c` against a
   * lower-case ASCII letter `x`: `c` is `x`, its upper case, or one of the
   * four characters whose case mapping meets an ASCII letter (long s,
   * dotless i, dotted capital I, Kelvin sign).
   */
  predicate CharMatchesLower(c: char, x: char) {
    c == x
    || ('a' <= x <= 'z' && c as int == x as int - 32)
    || (x == 's' && c == '\U{17F}')
    || (x == 'i' && (c == '\U{130}' || c == '\U{131}'))
    || (x == 'k' && c == '\U{212A}')
  }

  /** Java's `word.equalsIgnoreCase(s)` for a lower-case ASCII `word`. */
  predicate EqualsIgnoreCaseLower(s: string, word: string) {
    |s| == |word| && forall i :: 0 <= i < |s| ==> CharMatchesLower(s[i], word[i])
  }
}
