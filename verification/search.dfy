/**
  `findInCode`: the lines of the editor text that contain the query, ignoring
  case. Lines are walked the way `enumerateSubstrings(options: .byLines)` walks
  them: a line ends at LF, CR, NEL, LS or PS, a CR LF pair ends one line, and a
  terminator at the very end starts no further line. Each hit reports the line's
  text, its range (without the terminator) and a line number taken as the count
  of `components(separatedBy: .newlines)` of the text before the line.
 */
module Search {
  import opened Text
  import opened LineIndex

  /** `SearchResult` without its `id`, a fresh UUID with no bearing on the search. */
  datatype SearchResult = SearchResult(lineNumber: int, text: String, range: NSRange)

  /** The first line terminator at or after `i`, or `|t|` when there is none. */
  function NextTerminator(t: String, i: nat): (e: nat)
    requires i <= |t|
    ensures i <= e <= |t|
    ensures e < |t| ==> IsLineTerminator(t[e])
    ensures forall k :: i <= k < e ==> !IsLineTerminator(t[k])
    decreases |t| - i
  {
    if i == |t| || IsLineTerminator(t[i]) then i else NextTerminator(t, i + 1)
  }

  /** Position `e` holds the CR of a CR LF pair. */
  predicate IsCrLf(t: String, e: nat) {
    e + 1 < |t| && t[e] == '\r' && t[e + 1] == '\n'
  }

  /** Where the next line begins once the terminator at `e` is passed. */
  function AfterTerminator(t: String, e: nat): (p: nat)
    requires e < |t|
    ensures e < p <= |t|
  {
    if IsCrLf(t, e) then e + 2 else e + 1
  }

  /** The positions where a line of the enumeration begins: not at the end of
      the text, and either at 0 or right after a terminator that is not the CR
      of a CR LF pair. */
  predicate IsEnumLineStart(t: String, p: nat) {
    p < |t| && (p == 0 || (IsLineTerminator(t[p - 1]) && !IsCrLf(t, p - 1)))
  }

  /** The line that begins at `p` contains the query, ignoring case. */
  predicate LineMatches(t: String, q: String, p: nat)
    requires p <= |t|
  {
    ContainsIgnoringCase(t[p..NextTerminator(t, p)], q)
  }

  /** The result reported for the line beginning at `p`. */
  function ResultAt(t: String, p: nat): (r: SearchResult)
    requires p <= |t|
    ensures r.range.location == p && p + r.range.length <= |t|
    ensures r.text == t[p..p + r.range.length]
    ensures r.lineNumber == 1 + CountNewlines(t[..p])
  {
    var e := NextTerminator(t, p);
    SearchResult(|Split(t[..p])|, t[p..e], NSRange(p, e - p))
  }

  /** The enumeration from the line beginning at `p` to the end of the text. */
  function FindFrom(t: String, q: String, p: nat): seq<SearchResult>
    requires p <= |t|
    decreases |t| - p
  {
    if p == |t| then []
    else
      var e := NextTerminator(t, p);
      var rest := if e == |t| then [] else FindFrom(t, q, AfterTerminator(t, e));
      if LineMatches(t, q, p) then [ResultAt(t, p)] + rest else rest
  }

  /** `findInCode(q)` on text `t`: no results for an empty query. */
  function Find(t: String, q: String): (rs: seq<SearchResult>)
    ensures q == [] ==> rs == []
  {
    if q == [] then [] else FindFrom(t, q, 0)
  }

  /** Only the terminator's successor can start a line before the enumeration's next stop. */
  lemma NoLineStartBefore(t: String, p: nat, s: nat)
    requires p < s <= |t| && IsEnumLineStart(t, s)
    ensures NextTerminator(t, p) < |t|
    ensures AfterTerminator(t, NextTerminator(t, p)) <= s
  {
    assert IsLineTerminator(t[s - 1]);
  }

  /** Where the enumeration stops next is a line start, unless it is the end. */
  lemma AfterTerminatorStarts(t: String, e: nat)
    requires e < |t| && IsLineTerminator(t[e])
    ensures AfterTerminator(t, e) == |t| || IsEnumLineStart(t, AfterTerminator(t, e))
  {
  }

  /** Every reported line starts at or after `p` at a line start, matches the
      query, and is reported as `ResultAt` that position. */
  lemma {:induction false} FindFromSound(t: String, q: String, p: nat)
    requires p == |t| || IsEnumLineStart(t, p)
    ensures forall r :: r in FindFrom(t, q, p) ==>
      && p <= r.range.location < |t|
      && IsEnumLineStart(t, r.range.location)
      && LineMatches(t, q, r.range.location)
      && r == ResultAt(t, r.range.location)
    decreases |t| - p
  {
    if p < |t| {
      var e := NextTerminator(t, p);
      if e < |t| {
        AfterTerminatorStarts(t, e);
        FindFromSound(t, q, AfterTerminator(t, e));
      }
    }
  }

  /** Every matching line at or after `p` is reported. */
  lemma {:induction false} FindFromComplete(t: String, q: String, p: nat, s: nat)
    requires p == |t| || IsEnumLineStart(t, p)
    requires p <= s && IsEnumLineStart(t, s) && LineMatches(t, q, s)
    ensures exists r :: r in FindFrom(t, q, p) && r.range.location == s
    decreases |t| - p
  {
    var e := NextTerminator(t, p);
    if s == p {
      assert ResultAt(t, p) in FindFrom(t, q, p);
    } else {
      NoLineStartBefore(t, p, s);
      AfterTerminatorStarts(t, e);
      FindFromComplete(t, q, AfterTerminator(t, e), s);
    }
  }

  /** The reports come in strictly increasing position order. */
  lemma {:induction false} FindFromAscending(t: String, q: String, p: nat)
    requires p == |t| || IsEnumLineStart(t, p)
    ensures forall i, j :: 0 <= i < j < |FindFrom(t, q, p)| ==>
      FindFrom(t, q, p)[i].range.location < FindFrom(t, q, p)[j].range.location
    decreases |t| - p
  {
    if p < |t| {
      var e := NextTerminator(t, p);
      if e < |t| {
        var a := AfterTerminator(t, e);
        AfterTerminatorStarts(t, e);
        FindFromAscending(t, q, a);
        FindFromSound(t, q, a);
        assert forall r :: r in FindFrom(t, q, a) ==> p < r.range.location;
      }
    }
  }

  /** A later line start has more newlines before it. */
  lemma LineNumbersGrow(t: String, a: nat, b: nat)
    requires a < b && IsEnumLineStart(t, b)
    ensures CountNewlines(t[..a]) < CountNewlines(t[..b])
  {
    LineTerminatorIsNewline(t[b - 1]);
    CountNewlinesGrowsPastNewline(t, a, b);
  }

  /** What `findInCode` promises: nothing for an empty query; otherwise exactly
      the lines that contain the query (ignoring case), each reported with its
      text, a range inside the text and the number of newline-separated
      components before it, in ascending order of position and line number. */
  lemma FindSpec(t: String, q: String)
    ensures q == [] ==> Find(t, q) == []
    ensures forall r :: r in Find(t, q) ==>
      && IsEnumLineStart(t, r.range.location)
      && r.range.location + r.range.length == NextTerminator(t, r.range.location)
      && r.text == t[r.range.location..r.range.location + r.range.length]
      && ContainsIgnoringCase(r.text, q)
      && r.lineNumber == 1 + CountNewlines(t[..r.range.location])
    ensures forall s :: IsEnumLineStart(t, s) && LineMatches(t, q, s) && q != [] ==>
      exists r :: r in Find(t, q) && r.range.location == s
    ensures forall i, j :: 0 <= i < j < |Find(t, q)| ==>
      && Find(t, q)[i].range.location < Find(t, q)[j].range.location
      && Find(t, q)[i].lineNumber < Find(t, q)[j].lineNumber
  {
    if q != [] {
      var rs := Find(t, q);
      assert 0 == |t| || IsEnumLineStart(t, 0);
      FindFromSound(t, q, 0);
      FindFromAscending(t, q, 0);
      forall s | IsEnumLineStart(t, s) && LineMatches(t, q, s)
        ensures exists r :: r in rs && r.range.location == s
      {
        FindFromComplete(t, q, 0, s);
      }
      forall i, j | 0 <= i < j < |rs|
        ensures rs[i].lineNumber < rs[j].lineNumber
      {
        assert rs[j] in rs;
        LineNumbersGrow(t, rs[i].range.location, rs[j].range.location);
      }
    }
  }

  /** A text that does not contain the query anywhere, ignoring case, yields no results. */
  lemma FindOnlyWhenContained(t: String, q: String)
    requires !ContainsIgnoringCase(t, q)
    ensures Find(t, q) == []
  {
    FindSpec(t, q);
    if Find(t, q) != [] {
      var r := Find(t, q)[0];
      assert r in Find(t, q);
      ContainsIgnoringCaseSlice(t, r.range.location, r.range.location + r.range.length, q);
    }
  }

  /** On LF-only text a hit's line number is one more than the LFs before it, and
      its text is that component of the split text. */
  lemma FindLfOnly(t: String, q: String, r: SearchResult)
    requires LfOnly(t) && r in Find(t, q)
    ensures r.range.location <= |t| && r.lineNumber == 1 + CountLf(t[..r.range.location])
    ensures 1 <= r.lineNumber <= |Split(t)| && r.text == Split(t)[r.lineNumber - 1]
  {
    FindSpec(t, q);
    var p := r.range.location;
    assert LfOnly(t[..p]);
    CountNewlinesLfOnly(t[..p]);
    LineTerminatorIsNewline(if p == 0 then '\n' else t[p - 1]);
    LineOffsetOfLineStart(t, p);
    LineOffsetIsLineStart(t, r.lineNumber);
    TerminatorIsNewlineOnLfOnly(t, p);
  }

  /** On LF-only text the next terminator is the next newline. */
  lemma TerminatorIsNewlineOnLfOnly(t: String, p: nat)
    requires LfOnly(t) && p <= |t|
    ensures NextTerminator(t, p) == NextNewline(t, p)
  {
    var e, n := NextTerminator(t, p), NextNewline(t, p);
    if e < n {
      LineTerminatorIsNewline(t[e]);
    }
  }

  /** Jumping to a hit's line number lands on the hit, with both positions
      counted in Unicode scalars: both count the same newline-separated
      components before the line. */
  lemma GoToResultLine(t: String, q: String, r: SearchResult)
    requires r in Find(t, q)
    ensures 1 <= r.lineNumber <= |Split(t)|
    ensures LineOffset(t, r.lineNumber) == r.range.location
  {
    FindSpec(t, q);
    var p := r.range.location;
    LineTerminatorIsNewline(if p == 0 then '\n' else t[p - 1]);
    LineOffsetOfLineStart(t, p);
  }

  /** The example of two hits on lines 1 and 3. */
  lemma FindTwoLines()
    ensures Find("a\nb\na\n", "a") ==
      [SearchResult(1, "a", NSRange(0, 1)), SearchResult(3, "a", NSRange(4, 1))]
  {
    var t, q := "a\nb\na\n", "a";
    FindTwoLinesFirst(t, q);
    FindTwoLinesRest(t, q);
  }

  /** The first line of the example matches; the walk goes on at line 2. */
  lemma FindTwoLinesFirst(t: String, q: String)
    requires t == "a\nb\na\n" && q == "a"
    ensures FindFrom(t, q, 0) == [SearchResult(1, "a", NSRange(0, 1))] + FindFrom(t, q, 2)
  {
    assert FoldAll(q) == "a";
    assert NextTerminator(t, 0) == 1;
    assert t[0..1] == "a" && t[..0] == [];
    assert FoldAll("a") == "a" && OccursAt("a", "a", 0);
  }

  /** Lines 2 to 4 of the example: only line 3 matches. */
  lemma FindTwoLinesRest(t: String, q: String)
    requires t == "a\nb\na\n" && q == "a"
    ensures FindFrom(t, q, 2) == [SearchResult(3, "a", NSRange(4, 1))]
  {
    FindTwoLinesThird(t, q);
    assert FoldAll(q) == "a";
    assert NextTerminator(t, 2) == 3;
    assert t[2..3] == "b" && FoldAll("b") == "b";
    assert !OccursAt("b", "a", 0);
  }

  /** Lines 3 and 4 of the example: line 3 matches. */
  lemma FindTwoLinesThird(t: String, q: String)
    requires t == "a\nb\na\n" && q == "a"
    ensures FindFrom(t, q, 4) == [SearchResult(3, "a", NSRange(4, 1))]
  {
    assert FoldAll(q) == "a";
    assert NextTerminator(t, 4) == 5;
    assert t[4..5] == "a" && FoldAll("a") == "a" && OccursAt("a", "a", 0);
    assert t[..4] == "a\nb\n" && CountNewlines("a\nb\n") == 2;
    assert FindFrom(t, q, 6) == [];
  }

  /** A CR LF pair is one line break for the walk but two for the line number:
      the second line of "a\r\nb" is reported as line 3. */
  lemma FindCountsCrLfTwice()
    ensures Find("a\r\nb", "b") == [SearchResult(3, "b", NSRange(3, 1))]
  {
    var t, q := "a\r\nb", "b";
    FindCrLfFirst(t, q);
    FindCrLfSecond(t, q);
  }

  /** The first line of the example does not match; the walk goes on after the CR LF pair. */
  lemma FindCrLfFirst(t: String, q: String)
    requires t == "a\r\nb" && q == "b"
    ensures FindFrom(t, q, 0) == FindFrom(t, q, 3)
  {
    assert FoldAll(q) == "b";
    assert NextTerminator(t, 0) == 1 && AfterTerminator(t, 1) == 3;
    assert t[0..1] == "a" && FoldAll("a") == "a";
    assert !OccursAt("a", "b", 0);
  }

  /** The second line of the example matches, after two newline characters. */
  lemma FindCrLfSecond(t: String, q: String)
    requires t == "a\r\nb" && q == "b"
    ensures FindFrom(t, q, 3) == [SearchResult(3, "b", NSRange(3, 1))]
  {
    assert FoldAll(q) == "b";
    assert NextTerminator(t, 3) == 4;
    assert t[3..4] == "b" && FoldAll("b") == "b" && OccursAt("b", "b", 0);
    assert t[..3] == "a\r\n" && CountNewlines("a\r\n") == 2;
  }
}
