/**
  `EditorViewModel`: one document's text, the caret, the derived line-number
  list and the find/replace results. Each operation is a function from the
  editor before to the editor after.

  The only effect the editor has outside itself is `fileService.updateFile`,
  which `updateText` calls while a file is open; every such call is appended
  to `writes`. The tab size `formatCode` reads from the settings service is a
  parameter.
 */
module EditorViewModel {
  import opened Wrappers
  import opened Text
  import opened AppModels
  import opened LineIndex
  import opened Search
  import opened Format
  import opened Replace

  /** One `fileService.updateFile(file, content:)` call. */
  datatype Write = Write(file: CodeFile, content: String)

  datatype Editor = Editor(
    currentFile: Option<CodeFile>,
    editorText: String,
    selectedRange: NSRange,
    lineNumbers: seq<int>,
    showFindReplace: bool,
    findText: String,
    replaceText: String,
    searchResults: seq<SearchResult>,
    writes: seq<Write>)

  /** The gutter shows 1, 2, ... up to the number of lines of the text, where
      every newline character starts a new line. */
  predicate NumbersLines(e: Editor) {
    && |e.lineNumbers| == 1 + CountNewlines(e.editorText)
    && forall i :: 0 <= i < |e.lineNumbers| ==> e.lineNumbers[i] == i + 1
  }

  /** Everything but the text, the line numbers and the write log is as it was. */
  predicate SameExceptText(a: Editor, b: Editor) {
    && a.currentFile == b.currentFile
    && a.selectedRange == b.selectedRange
    && a.showFindReplace == b.showFindReplace
    && a.findText == b.findText
    && a.replaceText == b.replaceText
    && a.searchResults == b.searchResults
  }

  /** `updateText` records a write of `text` exactly when a file is open. */
  predicate WroteThrough(a: Editor, b: Editor, text: String) {
    if a.currentFile.Some? then b.writes == a.writes + [Write(a.currentFile.value, text)]
    else b.writes == a.writes
  }

  /** `init(fileService:userSettingsService:)`: an empty document with one line. */
  function Init(): (e: Editor)
    ensures NumbersLines(e) && e.lineNumbers == [1]
    ensures e.currentFile.None? && e.editorText == [] && e.selectedRange == NSRange(0, 0)
    ensures e.searchResults == [] && e.findText == [] && e.writes == []
  {
    var e := Editor(None, "", NSRange(0, 0), [], false, "", "", [], []);
    e.(lineNumbers := LineNumbers(e.editorText))
  }

  /** `setCurrentFile`: shows the file's content. The caret, the search text and
      the search results are kept, and nothing is written. */
  function SetCurrentFile(e: Editor, f: CodeFile): (e': Editor)
    ensures e'.currentFile == Some(f) && e'.editorText == f.content && NumbersLines(e')
    ensures e'.selectedRange == e.selectedRange && e'.searchResults == e.searchResults
    ensures e'.findText == e.findText && e'.showFindReplace == e.showFindReplace
    ensures e'.replaceText == e.replaceText && e'.writes == e.writes
  {
    e.(currentFile := Some(f), editorText := f.content, lineNumbers := LineNumbers(f.content))
  }

  /** `updateText`: replaces the text, renumbers, and writes the text through to
      the open file, if any; nothing else changes. */
  function UpdateText(e: Editor, text: String): (e': Editor)
    ensures e'.editorText == text && NumbersLines(e')
    ensures SameExceptText(e, e') && WroteThrough(e, e', text)
    ensures |e'.writes| == |e.writes| + (if e.currentFile.Some? then 1 else 0)
  {
    var w := if e.currentFile.Some? then [Write(e.currentFile.value, text)] else [];
    e.(editorText := text, lineNumbers := LineNumbers(text), writes := e.writes + w)
  }

  /** `insertText(_:at:)`: `s` goes in at the caret position, clamped to the end
      of the text. A negative position makes the source's index computation
      trap, so it is excluded. */
  function InsertText(e: Editor, s: String, position: int): (e': Editor)
    requires position >= 0
    ensures var t, k := e.editorText, Min(position, |e.editorText|);
      && |e'.editorText| == |t| + |s|
      && e'.editorText[..k] == t[..k]
      && e'.editorText[k..k + |s|] == s
      && e'.editorText[k + |s|..] == t[k..]
    ensures NumbersLines(e') && SameExceptText(e, e') && WroteThrough(e, e', e'.editorText)
  {
    UpdateText(e, Insert(e.editorText, s, position))
  }

  /** A position at or past the end appends. */
  lemma InsertTextPastEnd(e: Editor, s: String, position: int)
    requires |e.editorText| <= position
    ensures InsertText(e, s, position).editorText == e.editorText + s
  {
    InsertPastEnd(e.editorText, s, position);
  }

  /** Inserting nothing keeps the text, although the write still happens. */
  lemma InsertTextNothing(e: Editor, position: int)
    requires position >= 0
    ensures InsertText(e, "", position).editorText == e.editorText
    ensures WroteThrough(e, InsertText(e, "", position), e.editorText)
  {
    InsertNothing(e.editorText, position);
  }

  /** `insertSnippet`: the snippet's code goes in at the caret. */
  function InsertSnippet(e: Editor, sn: CodeSnippet): (e': Editor)
    ensures var t, k := e.editorText, Min(e.selectedRange.location, |e.editorText|);
      && |e'.editorText| == |t| + |sn.code|
      && e'.editorText[..k] == t[..k]
      && e'.editorText[k..k + |sn.code|] == sn.code
      && e'.editorText[k + |sn.code|..] == t[k..]
    ensures NumbersLines(e') && SameExceptText(e, e') && WroteThrough(e, e', e'.editorText)
  {
    InsertText(e, sn.code, e.selectedRange.location)
  }

  /** `formatCode` with the settings' tab size. The output has one line per line
      of the text; line `k` is the tab string repeated to that line's depth,
      followed by the line with its spaces and tabs trimmed. A negative tab
      size makes `String(repeating:count:)` trap, so it is excluded. */
  function FormatCode(e: Editor, tabSize: int): (e': Editor)
    requires tabSize >= 0
    ensures |Split(e'.editorText)| == |Split(e.editorText)|
    ensures forall k :: 0 <= k < |Split(e.editorText)| ==>
      Split(e'.editorText)[k] ==
        Repeat(Spaces(tabSize), Levels(TrimAll(Split(e.editorText)), 0)[k]) + Trim(Split(e.editorText)[k])
    ensures NumbersLines(e') && SameExceptText(e, e') && WroteThrough(e, e', e'.editorText)
  {
    FormatLines(e.editorText, tabSize);
    UpdateText(e, Format.Format(e.editorText, tabSize))
  }

  /** Formatting formatted text leaves the text as it is. */
  lemma FormatCodeIdempotent(e: Editor, tabSize: int)
    requires tabSize >= 0
    ensures FormatCode(FormatCode(e, tabSize), tabSize).editorText == FormatCode(e, tabSize).editorText
  {
    FormatIdempotent(e.editorText, tabSize);
  }

  /** `findInCode`: records the query and lists, in ascending order, every line
      that contains it ignoring case; an empty query lists nothing. The text,
      the caret and the write log are untouched. */
  function FindInCode(e: Editor, q: String): (e': Editor)
    ensures e'.findText == q && e'.editorText == e.editorText && e'.lineNumbers == e.lineNumbers
    ensures e'.currentFile == e.currentFile && e'.selectedRange == e.selectedRange && e'.writes == e.writes
    ensures e'.showFindReplace == e.showFindReplace && e'.replaceText == e.replaceText
    ensures q == [] ==> e'.searchResults == []
    ensures forall r :: r in e'.searchResults ==>
      && IsEnumLineStart(e.editorText, r.range.location)
      && r.range.location + r.range.length == NextTerminator(e.editorText, r.range.location)
      && r.text == e.editorText[r.range.location..r.range.location + r.range.length]
      && ContainsIgnoringCase(r.text, q)
      && r.lineNumber == 1 + CountNewlines(e.editorText[..r.range.location])
    ensures forall s :: IsEnumLineStart(e.editorText, s) && LineMatches(e.editorText, q, s) && q != [] ==>
      exists r :: r in e'.searchResults && r.range.location == s
    ensures forall i, j :: 0 <= i < j < |e'.searchResults| ==>
      && e'.searchResults[i].range.location < e'.searchResults[j].range.location
      && e'.searchResults[i].lineNumber < e'.searchResults[j].lineNumber
  {
    FindSpec(e.editorText, q);
    e.(findText := q, searchResults := Find(e.editorText, q))
  }

  /** On LF-only text a result's line number is one more than the LFs before it,
      and its text is that line of the gutter's numbering. */
  lemma FindInCodeLfOnly(e: Editor, q: String, r: SearchResult)
    requires LfOnly(e.editorText) && r in FindInCode(e, q).searchResults
    ensures r.range.location <= |e.editorText|
    ensures r.lineNumber == 1 + CountLf(e.editorText[..r.range.location])
    ensures 1 <= r.lineNumber <= |Split(e.editorText)| && r.text == Split(e.editorText)[r.lineNumber - 1]
  {
    FindLfOnly(e.editorText, q, r);
  }

  /** `replaceInCode`: replaces every occurrence, writes the new text through,
      then searches the new text for the original query. */
  function ReplaceInCode(e: Editor, q: String, r: String): (e': Editor)
    ensures e'.editorText == ReplaceAll(e.editorText, q, r)
    ensures e'.findText == q && e'.searchResults == Find(e'.editorText, q)
    ensures NumbersLines(e') && WroteThrough(e, e', e'.editorText)
    ensures e'.currentFile == e.currentFile && e'.selectedRange == e.selectedRange
    ensures e'.showFindReplace == e.showFindReplace && e'.replaceText == e.replaceText
  {
    FindInCode(UpdateText(e, ReplaceAll(e.editorText, q, r)), q)
  }

  /** Without an occurrence the text stays as it was. */
  lemma ReplaceInCodeAbsent(e: Editor, q: String, r: String)
    requires !Contains(e.editorText, q)
    ensures ReplaceInCode(e, q, r).editorText == e.editorText
  {
    ReplaceAllAbsent(e.editorText, q, r);
  }

  /** Replacing "foo" by "baz" in "foo bar foo" replaces both and leaves no result. */
  lemma ReplaceInCodeFooBar(e: Editor)
    requires e.editorText == "foo bar foo"
    ensures ReplaceInCode(e, "foo", "baz").editorText == "baz bar baz"
    ensures ReplaceInCode(e, "foo", "baz").searchResults == []
  {
    var t := "baz bar baz";
    ReplaceTwoOccurrences(e.editorText, "foo", "baz");
    NoFoo(t, "foo");
    FindOnlyWhenContained(t, "foo");
  }

  /** The results are those of the new text: removing "ab" from "aabb" leaves
      "ab", and the re-search finds it again. */
  lemma ReplaceInCodeSearchesNewText(e: Editor)
    requires e.editorText == "aabb"
    ensures ReplaceInCode(e, "ab", "").editorText == "ab"
    ensures ReplaceInCode(e, "ab", "").searchResults != []
  {
    var t, q := "ab", "ab";
    ReplaceJoinsNewOccurrence(e.editorText, q);
    FindSpec(t, q);
    assert IsEnumLineStart(t, 0);
    assert NextTerminator(t, 0) == 2;
    assert t[0..2] == t && OccursAt(FoldAll(t), FoldAll(q), 0);
    assert LineMatches(t, q, 0);
  }

  /** "baz bar baz" has no "f", so it cannot contain "foo" in any case. */
  lemma NoFoo(t: String, q: String)
    requires t == "baz bar baz" && q == "foo"
    ensures !ContainsIgnoringCase(t, q)
  {
    var h, n := FoldAll(t), FoldAll(q);
    assert n[0] == 'f';
    forall i: nat | i <= |h| ensures !OccursAt(h, n, i) {
      if i < |h| {
        assert h[i] == Fold(t[i]) && t[i] != 'f' && t[i] != 'F';
      }
    }
  }

  /** `goToLine(n)`: for a line that exists, the caret moves to the start of
      that line (the position with exactly n - 1 newlines before it) with an
      empty selection; any other `n` leaves the editor as it was. */
  function GoToLine(e: Editor, n: int): (e': Editor)
    ensures 0 < n <= 1 + CountNewlines(e.editorText) ==>
      && e'.selectedRange.length == 0
      && IsLineStart(e.editorText, e'.selectedRange.location)
      && CountNewlines(e.editorText[..e'.selectedRange.location]) == n - 1
      && e' == e.(selectedRange := e'.selectedRange)
    ensures !(0 < n <= 1 + CountNewlines(e.editorText)) ==> e' == e
  {
    var lines := Split(e.editorText);
    if n > 0 && n <= |lines| then
      LineOffsetIsLineStart(e.editorText, n);
      e.(selectedRange := NSRange(LineOffset(e.editorText, n), 0))
    else e
  }

  /** `goToLine(1)` puts the caret at the start of the text. */
  lemma GoToFirstLine(e: Editor)
    ensures GoToLine(e, 1).selectedRange == NSRange(0, 0)
  {
  }

  /** Going to a search result's line puts the caret at the start of that
      result, with both positions counted in Unicode scalars. */
  lemma GoToSearchResult(e: Editor, q: String, r: SearchResult)
    requires r in FindInCode(e, q).searchResults
    ensures GoToLine(e, r.lineNumber).selectedRange == NSRange(r.range.location, 0)
  {
    GoToResultLine(e.editorText, q, r);
  }
}
