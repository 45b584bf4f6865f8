/**
  Character classes and string operations that the app borrows from
  Foundation: splitting on `CharacterSet.newlines`, trimming a character set,
  substring containment (literal and case-folded) and the ordering of strings.
  A Swift `String` is modelled as a sequence of `char`, one position per
  character.
 */
module Text {

  type String = seq<char>

  // ---------------------------------------------------------------------
  // Character classes
  // ---------------------------------------------------------------------

  /** `CharacterSet.newlines`: U+000A through U+000D, U+0085, U+2028 and U+2029. */
  predicate IsNewline(c: char) {
    ('\U{000A}' <= c <= '\U{000D}') || c == '\U{0085}' || c == '\U{2028}' || c == '\U{2029}'
  }

  /** The characters that end a line for `enumerateSubstrings(options: .byLines)`:
      LF, CR, NEL, LINE SEPARATOR and PARAGRAPH SEPARATOR (a CR LF pair is one
      terminator). Vertical tab and form feed are newlines but end no line. */
  predicate IsLineTerminator(c: char) {
    c == '\n' || c == '\r' || c == '\U{0085}' || c == '\U{2028}' || c == '\U{2029}'
  }

  /** `CharacterSet.whitespaces`: the space separators (category Zs) and TAB. */
  predicate IsWhitespace(c: char) {
    c == ' ' || c == '\t' || c == '\U{00A0}' || c == '\U{1680}'
    || ('\U{2000}' <= c <= '\U{200A}') || c == '\U{202F}' || c == '\U{205F}' || c == '\U{3000}'
  }

  /** `CharacterSet.alphanumerics`, restricted to ASCII letters and digits. */
  predicate IsAlphanumeric(c: char) {
    ('0' <= c <= '9') || ('a' <= c <= 'z') || ('A' <= c <= 'Z')
  }

  lemma LineTerminatorIsNewline(c: char)
    requires IsLineTerminator(c)
    ensures IsNewline(c)
  {
  }

  /** The text uses only LF as line break. */
  predicate LfOnly(t: String) {
    forall k :: 0 <= k < |t| && IsNewline(t[k]) ==> t[k] == '\n'
  }

  predicate NewlineFree(s: String) {
    forall k :: 0 <= k < |s| ==> !IsNewline(s[k])
  }

  // ---------------------------------------------------------------------
  // Counting newlines
  // ---------------------------------------------------------------------

  /** The number of `CharacterSet.newlines` characters in `s`. */
  function CountNewlines(s: String): nat {
    if |s| == 0 then 0
    else (if IsNewline(s[0]) then 1 else 0) + CountNewlines(s[1..])
  }

  lemma {:induction false} CountNewlinesAppend(a: String, b: String)
    ensures CountNewlines(a + b) == CountNewlines(a) + CountNewlines(b)
  {
    if |a| == 0 {
      assert a + b == b;
    } else {
      assert (a + b)[1..] == a[1..] + b;
      CountNewlinesAppend(a[1..], b);
    }
  }

  lemma {:induction false} CountNewlinesFree(s: String)
    requires NewlineFree(s)
    ensures CountNewlines(s) == 0
  {
    if |s| > 0 {
      CountNewlinesFree(s[1..]);
    }
  }

  /** The number of LF characters in `s`. */
  function CountLf(s: String): nat {
    if |s| == 0 then 0
    else (if s[0] == '\n' then 1 else 0) + CountLf(s[1..])
  }

  /** On LF-only text every newline is an LF. */
  lemma {:induction false} CountNewlinesLfOnly(s: String)
    requires LfOnly(s)
    ensures CountNewlines(s) == CountLf(s)
  {
    if |s| > 0 {
      assert LfOnly(s[1..]) by {
        forall k | 0 <= k < |s[1..]| && IsNewline(s[1..][k]) ensures s[1..][k] == '\n' {
          assert s[1..][k] == s[k + 1];
        }
      }
      CountNewlinesLfOnly(s[1..]);
    }
  }

  /** Cutting `t` at `i` and `j` adds up the newlines of the three pieces. */
  lemma CountNewlinesSplit3(t: String, i: nat, j: nat)
    requires i <= j <= |t|
    ensures CountNewlines(t[..j]) == CountNewlines(t[..i]) + CountNewlines(t[i..j])
    ensures CountNewlines(t) == CountNewlines(t[..j]) + CountNewlines(t[j..])
  {
    assert t[..j] == t[..i] + t[i..j];
    CountNewlinesAppend(t[..i], t[i..j]);
    assert t == t[..j] + t[j..];
    CountNewlinesAppend(t[..j], t[j..]);
  }

  /** Positions right after a newline have strictly more newlines before them
      than any earlier position. */
  lemma CountNewlinesGrowsPastNewline(t: String, i: nat, j: nat)
    requires i < j <= |t| && IsNewline(t[j - 1])
    ensures CountNewlines(t[..i]) < CountNewlines(t[..j])
  {
    CountNewlinesSplit3(t, i, j - 1);
    CountNewlinesSplit3(t, j - 1, j);
    assert t[j - 1..j] == [t[j - 1]];
  }

  /** A line start is position 0 or a position just after a newline. */
  predicate IsLineStart(t: String, p: nat) {
    p <= |t| && (p == 0 || IsNewline(t[p - 1]))
  }

  /** Two line starts with the same number of newlines before them coincide. */
  lemma LineStartUnique(t: String, p: nat, q: nat)
    requires IsLineStart(t, p) && IsLineStart(t, q)
    requires CountNewlines(t[..p]) == CountNewlines(t[..q])
    ensures p == q
  {
    if p < q {
      CountNewlinesGrowsPastNewline(t, p, q);
    } else if q < p {
      CountNewlinesGrowsPastNewline(t, q, p);
    }
  }

  // ---------------------------------------------------------------------
  // components(separatedBy: .newlines)
  // ---------------------------------------------------------------------

  /** The first newline at or after `i`, or `|t|` when there is none. */
  function NextNewline(t: String, i: nat): (e: nat)
    requires i <= |t|
    ensures i <= e <= |t|
    ensures e < |t| ==> IsNewline(t[e])
    ensures forall k :: i <= k < e ==> !IsNewline(t[k])
    decreases |t| - i
  {
    if i == |t| || IsNewline(t[i]) then i else NextNewline(t, i + 1)
  }

  /** The components of `t[i..]`, cut at every newline character. */
  function SplitFrom(t: String, i: nat): (ls: seq<String>)
    requires i <= |t|
    ensures |ls| > 0
    decreases |t| - i
  {
    var e := NextNewline(t, i);
    if e == |t| then [t[i..]] else [t[i..e]] + SplitFrom(t, e + 1)
  }

  /** The text from `i` up to the next newline holds no newline. */
  lemma NewlineFreeBeforeNext(t: String, i: nat)
    requires i <= |t|
    ensures NewlineFree(t[i..NextNewline(t, i)])
  {
    var e := NextNewline(t, i);
    assert forall k :: 0 <= k < e - i ==> t[i..e][k] == t[i + k];
  }

  /** There is one more component than there are newlines. */
  lemma {:induction false} SplitFromCount(t: String, i: nat)
    requires i <= |t|
    ensures |SplitFrom(t, i)| == 1 + CountNewlines(t[i..])
    decreases |t| - i
  {
    var e := NextNewline(t, i);
    NewlineFreeBeforeNext(t, i);
    if e == |t| {
      assert t[i..] == t[i..e];
      CountNewlinesFree(t[i..]);
    } else {
      CountNewlinesAround(t, i, e);
      SplitFromCount(t, e + 1);
      SplitFromStep(t, i, e);
    }
  }

  /** Past the first newline `e`, the components are those after `e`, one more. */
  lemma SplitFromStep(t: String, i: nat, e: nat)
    requires i <= e < |t| && e == NextNewline(t, i)
    ensures SplitFrom(t, i) == [t[i..e]] + SplitFrom(t, e + 1)
  {
  }

  /** No component holds a newline. */
  lemma {:induction false} SplitFromNewlineFree(t: String, i: nat)
    requires i <= |t|
    ensures forall k :: 0 <= k < |SplitFrom(t, i)| ==> NewlineFree(SplitFrom(t, i)[k])
    decreases |t| - i
  {
    var e := NextNewline(t, i);
    NewlineFreeBeforeNext(t, i);
    if e < |t| {
      SplitFromNewlineFree(t, e + 1);
      var zs := SplitFrom(t, e + 1);
      assert SplitFrom(t, i) == [t[i..e]] + zs;
    }
  }

  /** The newlines of `t[i..]` when `t[e]` is its first one. */
  lemma CountNewlinesAround(t: String, i: nat, e: nat)
    requires i <= e < |t|
    requires NewlineFree(t[i..e]) && IsNewline(t[e])
    ensures CountNewlines(t[i..]) == 1 + CountNewlines(t[e + 1..])
  {
    assert t[i..] == t[i..e] + ([t[e]] + t[e + 1..]);
    CountNewlinesAppend(t[i..e], [t[e]] + t[e + 1..]);
    CountNewlinesFree(t[i..e]);
    assert ([t[e]] + t[e + 1..])[1..] == t[e + 1..];
  }

  /** `components(separatedBy: .newlines)`: every newline character separates
      two components, so a CR LF pair yields an empty component between them. */
  function Split(t: String): (ls: seq<String>)
    ensures |ls| == 1 + CountNewlines(t)
    ensures forall k :: 0 <= k < |ls| ==> NewlineFree(ls[k])
  {
    assert t[0..] == t;
    SplitFromCount(t, 0);
    SplitFromNewlineFree(t, 0);
    SplitFrom(t, 0)
  }

  /** `joined(separator:)`. */
  function Join(ls: seq<String>, sep: String): String
    decreases |ls|
  {
    if |ls| == 0 then []
    else if |ls| == 1 then ls[0]
    else ls[0] + sep + Join(ls[1..], sep)
  }

  /** In `a + LF + b` with `a` newline-free, the first newline ends `a`. */
  lemma FirstNewlineOf(t: String, i: nat, a: String, b: String)
    requires i <= |t| && t[i..] == a + "\n" + b && NewlineFree(a)
    ensures i + |a| < |t| && NextNewline(t, i) == i + |a|
    ensures t[i..i + |a|] == a && t[i + |a| + 1..] == b
  {
    var e := i + |a|;
    assert forall k :: i <= k < e ==> t[k] == t[i..][k - i] == a[k - i];
    assert t[e] == t[i..][|a|];
    assert t[i..e] == t[i..][..|a|];
    assert t[e + 1..] == t[i..][|a| + 1..];
  }

  /** A newline-free tail has no next newline. */
  lemma NoNewlineFrom(t: String, i: nat)
    requires i <= |t| && NewlineFree(t[i..])
    ensures NextNewline(t, i) == |t|
  {
    assert forall k :: i <= k < |t| ==> t[k] == t[i..][k - i];
  }

  lemma {:induction false} SplitFromJoin(t: String, i: nat, ls: seq<String>)
    requires i <= |t| && |ls| > 0
    requires forall k :: 0 <= k < |ls| ==> NewlineFree(ls[k])
    requires t[i..] == Join(ls, "\n")
    ensures SplitFrom(t, i) == ls
    decreases |ls|
  {
    if |ls| == 1 {
      NoNewlineFrom(t, i);
    } else {
      var e, rest := i + |ls[0]|, Join(ls[1..], "\n");
      assert Join(ls, "\n") == ls[0] + "\n" + rest;
      FirstNewlineOf(t, i, ls[0], rest);
      SplitFromJoin(t, e + 1, ls[1..]);
      SplitFromStep(t, i, e);
      assert ls == [ls[0]] + ls[1..];
    }
  }

  /** Splitting a text joined with LF gives back the newline-free pieces. */
  lemma SplitJoin(ls: seq<String>)
    requires |ls| > 0
    requires forall k :: 0 <= k < |ls| ==> NewlineFree(ls[k])
    ensures Split(Join(ls, "\n")) == ls
  {
    var t := Join(ls, "\n");
    assert t[0..] == t;
    SplitFromJoin(t, 0, ls);
  }

  lemma {:induction false} JoinSplitFrom(t: String, i: nat)
    requires i <= |t| && LfOnly(t)
    ensures Join(SplitFrom(t, i), "\n") == t[i..]
    decreases |t| - i
  {
    var e := NextNewline(t, i);
    if e < |t| {
      JoinSplitFrom(t, e + 1);
      var zs := SplitFrom(t, e + 1);
      SplitFromStep(t, i, e);
      assert t[i..] == t[i..e] + "\n" + t[e + 1..];
    }
  }

  /** On LF-only text, joining the components with LF restores the text. */
  lemma JoinSplit(t: String)
    requires LfOnly(t)
    ensures Join(Split(t), "\n") == t
  {
    JoinSplitFrom(t, 0);
    assert t[0..] == t;
  }

  // ---------------------------------------------------------------------
  // trimmingCharacters(in:)
  // ---------------------------------------------------------------------

  /** The index of the first character of `s` at or after `i` not in `p`. */
  function SkipFront(s: String, p: char -> bool, i: nat): (r: nat)
    requires i <= |s|
    ensures i <= r <= |s|
    ensures forall k :: i <= k < r ==> p(s[k])
    ensures r < |s| ==> !p(s[r])
    decreases |s| - i
  {
    if i == |s| || !p(s[i]) then i else SkipFront(s, p, i + 1)
  }

  /** The end of `s[..j]` once trailing characters in `p` (down to `lo`) are dropped. */
  function SkipBack(s: String, p: char -> bool, lo: nat, j: nat): (r: nat)
    requires lo <= j <= |s|
    ensures lo <= r <= j
    ensures forall k :: r <= k < j ==> p(s[k])
    ensures lo < r ==> !p(s[r - 1])
    decreases j
  {
    if j == lo || !p(s[j - 1]) then j else SkipBack(s, p, lo, j - 1)
  }

  /** `trimmingCharacters(in: set)`: drops the leading and trailing characters in
      the set `p`; what is left is a contiguous slice with no such ends. */
  function TrimBy(s: String, p: char -> bool): (r: String)
    ensures exists i, j ::
              && 0 <= i <= j <= |s| && r == s[i..j]
              && (forall k :: 0 <= k < i ==> p(s[k]))
              && (forall k :: j <= k < |s| ==> p(s[k]))
    ensures |r| > 0 ==> !p(r[0]) && !p(r[|r| - 1])
  {
    var i := SkipFront(s, p, 0);
    var j := SkipBack(s, p, i, |s|);
    s[i..j]
  }

  /** A slice with no set characters at its ends, framed by set characters,
      is what trimming returns. */
  lemma TrimByFramed(s: String, p: char -> bool, i: nat, j: nat)
    requires i <= j <= |s|
    requires forall k :: 0 <= k < i ==> p(s[k])
    requires forall k :: j <= k < |s| ==> p(s[k])
    requires i < j ==> !p(s[i]) && !p(s[j - 1])
    ensures TrimBy(s, p) == s[i..j]
  {
    var i' := SkipFront(s, p, 0);
    if i < j {
      assert i' == i;
      var j' := SkipBack(s, p, i', |s|);
      assert j' == j;
    } else {
      assert forall k :: 0 <= k < |s| ==> p(s[k]);
      assert i' == |s|;
    }
  }

  /** `trimmingCharacters(in: .whitespaces)`. */
  function Trim(s: String): String {
    TrimBy(s, IsWhitespace)
  }

  /** Trimming ignores any whitespace put in front of an already trimmed line. */
  lemma TrimAfterPadding(pad: String, u: String)
    requires forall k :: 0 <= k < |pad| ==> IsWhitespace(pad[k])
    requires |u| > 0 ==> !IsWhitespace(u[0]) && !IsWhitespace(u[|u| - 1])
    ensures Trim(pad + u) == u
  {
    var s := pad + u;
    if |u| > 0 {
      TrimByFramed(s, IsWhitespace, |pad|, |s|);
    } else {
      TrimByFramed(s, IsWhitespace, |s|, |s|);
    }
    assert s[|pad|..|s|] == u;
  }

  lemma TrimIsNewlineFree(s: String)
    requires NewlineFree(s)
    ensures NewlineFree(Trim(s))
  {
  }

  // ---------------------------------------------------------------------
  // Repetition
  // ---------------------------------------------------------------------

  /** `String(repeating: unit, count: n)`. */
  function Repeat(unit: String, n: nat): (r: String)
    ensures |r| == |unit| * n
    ensures forall k :: 0 <= k < |r| ==> r[k] in unit
  {
    if n == 0 then [] else unit + Repeat(unit, n - 1)
  }

  /** `String(repeating: " ", count: n)`. */
  function Spaces(n: nat): (r: String)
    ensures |r| == n && forall k :: 0 <= k < n ==> r[k] == ' '
  {
    seq(n, _ => ' ')
  }

  // ---------------------------------------------------------------------
  // Containment
  // ---------------------------------------------------------------------

  predicate OccursAt(h: String, n: String, i: nat) {
    i + |n| <= |h| && h[i..i + |n|] == n
  }

  /** Literal substring containment. */
  predicate Contains(h: String, n: String) {
    exists i: nat :: i <= |h| && OccursAt(h, n, i)
  }

  /** The case fold used for case-insensitive comparison: ASCII upper-case
      letters map to lower case, every other character to itself. */
  function Fold(c: char): (d: char)
    ensures 'A' <= c <= 'Z' ==> d != c && 'a' <= d <= 'z'
    ensures !('A' <= c <= 'Z') ==> d == c
  {
    if 'A' <= c <= 'Z' then (c as int + 32) as char else c
  }

  function FoldAll(s: String): (r: String)
    ensures |r| == |s| && forall k :: 0 <= k < |s| ==> r[k] == Fold(s[k])
  {
    seq(|s|, k requires 0 <= k < |s| => Fold(s[k]))
  }

  /** `localizedCaseInsensitiveContains`, with `Fold` in place of the locale's case map. */
  predicate ContainsIgnoringCase(h: String, n: String) {
    Contains(FoldAll(h), FoldAll(n))
  }

  /** A literal occurrence is also a case-insensitive one. */
  lemma ContainsThenIgnoringCase(h: String, n: String)
    requires Contains(h, n)
    ensures ContainsIgnoringCase(h, n)
  {
    var i: nat :| i <= |h| && OccursAt(h, n, i);
    assert FoldAll(h)[i..i + |n|] == FoldAll(n);
    assert OccursAt(FoldAll(h), FoldAll(n), i);
  }

  /** A case-insensitive occurrence inside a slice is one in the whole text. */
  lemma ContainsIgnoringCaseSlice(h: String, a: nat, b: nat, n: String)
    requires a <= b <= |h| && ContainsIgnoringCase(h[a..b], n)
    ensures ContainsIgnoringCase(h, n)
  {
    var s := FoldAll(h[a..b]);
    var i: nat :| i <= |s| && OccursAt(s, FoldAll(n), i);
    assert FoldAll(h)[a + i..a + i + |n|] == s[i..i + |n|];
    assert OccursAt(FoldAll(h), FoldAll(n), a + i);
  }

  // ---------------------------------------------------------------------
  // Ordering (`String.<`)
  // ---------------------------------------------------------------------

  /** Lexicographic order on character codes. */
  predicate Less(a: String, b: String)
    decreases |a|
  {
    if |a| == 0 then |b| > 0
    else if |b| == 0 then false
    else a[0] < b[0] || (a[0] == b[0] && Less(a[1..], b[1..]))
  }

  lemma {:induction false} LessIrreflexive(a: String)
    ensures !Less(a, a)
    decreases |a|
  {
    if |a| > 0 {
      LessIrreflexive(a[1..]);
    }
  }

  lemma {:induction false} LessTransitive(a: String, b: String, c: String)
    requires Less(a, b) && Less(b, c)
    ensures Less(a, c)
    decreases |a|
  {
    if |a| > 0 && a[0] == b[0] && b[0] == c[0] {
      LessTransitive(a[1..], b[1..], c[1..]);
    }
  }

  lemma {:induction false} LessTotal(a: String, b: String)
    requires a != b
    ensures Less(a, b) || Less(b, a)
    decreases |a|
  {
    if |a| > 0 && |b| > 0 && a[0] == b[0] {
      assert a == [a[0]] + a[1..] && b == [b[0]] + b[1..];
      LessTotal(a[1..], b[1..]);
    }
  }

  /** Ascending without repeats. */
  predicate StrictlyAscending(s: seq<String>) {
    forall i, j :: 0 <= i < j < |s| ==> Less(s[i], s[j])
  }
}
