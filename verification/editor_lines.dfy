/**
  The editor's line arithmetic: the derived line-number list, caret-clamped
  insertion, and the caret offset `goToLine` computes. Lines here are the
  components of `components(separatedBy: .newlines)`, so every newline
  character (a CR LF pair counts twice) starts a new line.
 */
module LineIndex {
  import opened Text

  /** `NSRange`: a caret position and a selection length. */
  datatype NSRange = NSRange(location: nat, length: nat)

  function Max(a: int, b: int): int {
    if a < b then b else a
  }

  function Min(a: int, b: int): int {
    if a < b then a else b
  }

  /** `updateLineNumbers`: `Array(1...max(1, components.count))`. The list is
      1, 2, ... up to one more than the number of newline characters. */
  function LineNumbers(t: String): (ln: seq<int>)
    ensures |ln| == 1 + CountNewlines(t)
    ensures forall i :: 0 <= i < |ln| ==> ln[i] == i + 1
  {
    var count := Max(1, |Split(t)|);
    seq(count, i => i + 1)
  }

  /** On LF-only text there is one line number per LF, plus one. */
  lemma LineNumbersLfOnly(t: String)
    requires LfOnly(t)
    ensures |LineNumbers(t)| == 1 + CountLf(t)
    ensures LineNumbers(t)[|LineNumbers(t)| - 1] == 1 + CountLf(t)
  {
    CountNewlinesLfOnly(t);
  }

  /** `insertText(_:at:)` on the text alone: `s` goes in at the position, clamped
      to the end of `t`; the text before and after the caret is kept. */
  function Insert(t: String, s: String, position: nat): (r: String)
    ensures |r| == |t| + |s|
    ensures var k := Min(position, |t|);
      && r[..k] == t[..k]
      && r[k..k + |s|] == s
      && r[k + |s|..] == t[k..]
  {
    var k := Min(position, |t|);
    t[..k] + s + t[k..]
  }

  /** Inserting nothing leaves the text as it was, wherever the caret is. */
  lemma InsertNothing(t: String, position: nat)
    ensures Insert(t, "", position) == t
  {
    var r := Insert(t, "", position);
    var k := Min(position, |t|);
    assert r == r[..k] + r[k..];
  }

  /** A caret at or past the end appends. */
  lemma InsertPastEnd(t: String, s: String, position: nat)
    requires |t| <= position
    ensures Insert(t, s, position) == t + s
  {
    var r := Insert(t, s, position);
    assert r == r[..|t|] + r[|t|..|t| + |s|];
  }

  /** The width of a run of lines, each followed by one separator. */
  function Widths(lines: seq<String>): nat {
    if |lines| == 0 then 0 else |lines[0]| + 1 + Widths(lines[1..])
  }

  /** The caret offset `goToLine(n)` computes: the widths of the lines before line `n`. */
  function LineOffset(t: String, n: int): nat
    requires 1 <= n <= |Split(t)|
  {
    Widths(Split(t)[..n - 1])
  }

  lemma WidthsCons(x: String, zs: seq<String>, m: nat)
    requires m <= |zs|
    ensures ([x] + zs)[..m + 1] == [x] + zs[..m]
    ensures Widths([x] + zs[..m]) == |x| + 1 + Widths(zs[..m])
  {
    assert ([x] + zs[..m])[1..] == zs[..m];
  }

  /** Position `i + Widths(lines before m)` in terms of the components of `t[i..]`. */
  function OffsetFrom(t: String, i: nat, m: nat): nat
    requires i <= |t| && m < |SplitFrom(t, i)|
  {
    i + Widths(SplitFrom(t, i)[..m])
  }

  /** Component `m + 1` of `t[i..]` is component `m` of the text after the first
      newline `e`, and sits at the same offset. */
  lemma OffsetFromStep(t: String, i: nat, e: nat, m: nat)
    requires i <= |t| && 0 < m < |SplitFrom(t, i)| && e == NextNewline(t, i)
    ensures e < |t| && m - 1 < |SplitFrom(t, e + 1)|
    ensures OffsetFrom(t, i, m) == OffsetFrom(t, e + 1, m - 1)
    ensures SplitFrom(t, i)[m] == SplitFrom(t, e + 1)[m - 1]
  {
    var zs := SplitFrom(t, e + 1);
    assert SplitFrom(t, i) == [t[i..e]] + zs;
    WidthsCons(t[i..e], zs, m - 1);
  }

  /** Component 0 of `t[i..]` starts at `i` and runs to the next newline. */
  lemma OffsetFromFirst(t: String, i: nat)
    requires i <= |t|
    ensures OffsetFrom(t, i, 0) == i
    ensures SplitFrom(t, i)[0] == t[i..NextNewline(t, i)]
  {
    assert SplitFrom(t, i)[..0] == [];
  }

  /** The start of the `m`-th line after position `i`: walk on until `m`
      newlines have been passed, or to the end. */
  function StartOf(t: String, i: nat, m: nat): (p: nat)
    requires i <= |t|
    ensures i <= p <= |t|
    decreases |t| - i
  {
    if m == 0 || i == |t| then i
    else StartOf(t, i + 1, if IsNewline(t[i]) then m - 1 else m)
  }

  /** The newlines of `t[i..p]` are those of its first character and of the rest. */
  lemma CountNewlinesCons(t: String, i: nat, p: nat)
    requires i < p <= |t|
    ensures CountNewlines(t[i..p]) == (if IsNewline(t[i]) then 1 else 0) + CountNewlines(t[i + 1..p])
  {
    assert t[i..p][0] == t[i] && t[i..p][1..] == t[i + 1..p];
  }

  lemma CountNewlinesSuffix(t: String, i: nat)
    requires i < |t|
    ensures CountNewlines(t[i..]) == (if IsNewline(t[i]) then 1 else 0) + CountNewlines(t[i + 1..])
  {
    assert t[i..][0] == t[i] && t[i..][1..] == t[i + 1..];
  }

  /** Skipping `m` newlines from `i` lands right after the m-th newline of `t[i..]`. */
  lemma {:induction false} StartOfCounts(t: String, i: nat, m: nat)
    requires i <= |t| && m <= CountNewlines(t[i..])
    ensures m > 0 ==> IsNewline(t[StartOf(t, i, m) - 1])
    ensures CountNewlines(t[i..StartOf(t, i, m)]) == m
    decreases |t| - i
  {
    if m == 0 {
      assert t[i..i] == [];
      CountNewlinesFree([]);
    } else {
      if i == |t| {
        assert false;
      }
      var m' := if IsNewline(t[i]) then m - 1 else m;
      CountNewlinesSuffix(t, i);
      StartOfCounts(t, i + 1, m');
      var p := StartOf(t, i + 1, m');
      assert StartOf(t, i, m) == p;
      if m' == 0 {
        assert p == i + 1;
      }
      CountsStep(t, i, m, m', p);
    }
  }

  /** The walk's step at `i`: `m'` newlines from `i + 1` up to `p` make `m` from `i`. */
  lemma CountsStep(t: String, i: nat, m: nat, m': nat, p: nat)
    requires i < p <= |t| && 0 < m && m' == (if IsNewline(t[i]) then m - 1 else m)
    requires CountNewlines(t[i + 1..p]) == m'
    requires m' > 0 ==> IsNewline(t[p - 1])
    requires m' == 0 ==> p == i + 1
    ensures IsNewline(t[p - 1]) && CountNewlines(t[i..p]) == m
  {
    CountNewlinesCons(t, i, p);
  }

  /** Past the first newline `e` at or after `i`, one newline fewer is left to skip. */
  lemma {:induction false} StartOfSkip(t: String, i: nat, e: nat, m: nat)
    requires i <= e < |t| && e == NextNewline(t, i) && 0 < m
    ensures StartOf(t, i, m) == StartOf(t, e + 1, m - 1)
    decreases e - i
  {
    if i < e {
      assert !IsNewline(t[i]) && NextNewline(t, i + 1) == e;
      StartOfSkip(t, i + 1, e, m);
    }
  }

  /** Component `m` of `t[i..]` starts at `StartOf(t, i, m)`, which is the offset
      the widths of the components before it add up to, and runs to the next newline. */
  lemma {:induction false} OffsetFromStart(t: String, i: nat, m: nat)
    requires i <= |t| && m < |SplitFrom(t, i)|
    ensures OffsetFrom(t, i, m) == StartOf(t, i, m)
    ensures SplitFrom(t, i)[m] == t[StartOf(t, i, m)..NextNewline(t, StartOf(t, i, m))]
    decreases m
  {
    if m == 0 {
      OffsetFromFirst(t, i);
    } else {
      var e := NextNewline(t, i);
      OffsetFromStep(t, i, e, m);
      OffsetFromStart(t, e + 1, m - 1);
      StartOfSkip(t, i, e, m);
    }
  }

  /** Line `n` (1-based) starts right after the (n-1)-th newline: the offset is a
      line start with exactly n - 1 newlines before it, and the line's text runs
      from there to the next newline. */
  lemma LineOffsetIsLineStart(t: String, n: int)
    requires 1 <= n <= |Split(t)|
    ensures IsLineStart(t, LineOffset(t, n))
    ensures CountNewlines(t[..LineOffset(t, n)]) == n - 1
    ensures Split(t)[n - 1] == t[LineOffset(t, n)..NextNewline(t, LineOffset(t, n))]
  {
    assert t[0..] == t;
    OffsetFromStart(t, 0, n - 1);
    StartOfCounts(t, 0, n - 1);
    assert LineOffset(t, n) == OffsetFrom(t, 0, n - 1);
  }

  /** `goToLine` is onto the line starts: every line start `p` is the offset of
      line `1 + (newlines before p)`. */
  lemma LineOffsetOfLineStart(t: String, p: nat)
    requires IsLineStart(t, p)
    ensures 1 <= 1 + CountNewlines(t[..p]) <= |Split(t)|
    ensures LineOffset(t, 1 + CountNewlines(t[..p])) == p
  {
    var n := 1 + CountNewlines(t[..p]);
    CountNewlinesSplit3(t, p, p);
    LineOffsetIsLineStart(t, n);
    LineStartUnique(t, p, LineOffset(t, n));
  }
}
