/**
  `SnippetManager` (the snippet list and its defaults) and the pure parts of
  `SnippetManagerView`: the category and search filter, the category list,
  the create sheet's guard and the card's code preview.

  Every `saveSnippets()` call is counted in `saves`; what it stores in the
  user defaults is not modelled.
 */
module Snippets {
  import opened Wrappers
  import opened Text
  import opened AppModels
  import opened Seqs

  datatype SnippetManager = SnippetManager(snippets: seq<CodeSnippet>, saves: nat)

  /** `createSnippet`: one new snippet at the end, then one save. */
  function CreateSnippet(m: SnippetManager, id: Id, title: String, code: String,
                         language: ProgrammingLanguage, category: String, now: Time): (m': SnippetManager)
    ensures |m'.snippets| == |m.snippets| + 1 && m'.snippets[..|m.snippets|] == m.snippets
    ensures var s := m'.snippets[|m.snippets|];
      s.id == id && s.title == title && s.code == code && s.language == language
      && s.category == category && s.createdDate == now
    ensures m'.saves == m.saves + 1
  {
    var s := NewCodeSnippet(id, title, code, language, Some(category), now);
    SnippetManager(m.snippets + [s], m.saves + 1)
  }

  /** `deleteSnippet`: every snippet with that id goes, the rest keep their
      order; then one save. */
  function DeleteSnippet(m: SnippetManager, sn: CodeSnippet): (m': SnippetManager)
    ensures forall x :: x in m'.snippets <==> x in m.snippets && x.id != sn.id
    ensures Subseq(m'.snippets, m.snippets)
    ensures forall x :: Count(m'.snippets, x) == if x.id != sn.id then Count(m.snippets, x) else 0
    ensures m'.saves == m.saves + 1
  {
    var keep := (x: CodeSnippet) => x.id != sn.id;
    FilterMembers(m.snippets, keep);
    FilterSubseq(m.snippets, keep);
    FilterCount(m.snippets, keep);
    SnippetManager(Filter(m.snippets, keep), m.saves + 1)
  }

  /** Deleting a snippet right after creating it with a new id restores the list. */
  lemma CreateThenDelete(m: SnippetManager, id: Id, title: String, code: String,
                         language: ProgrammingLanguage, category: String, now: Time)
    requires forall k :: 0 <= k < |m.snippets| ==> m.snippets[k].id != id
    ensures var m1 := CreateSnippet(m, id, title, code, language, category, now);
      DeleteSnippet(m1, m1.snippets[|m.snippets|]).snippets == m.snippets
  {
    var m1 := CreateSnippet(m, id, title, code, language, category, now);
    var s := m1.snippets[|m.snippets|];
    var keep := (x: CodeSnippet) => x.id != s.id;
    FilterAll(m.snippets, keep);
    FilterAppend(m.snippets, [s], keep);
    assert m1.snippets == m.snippets + [s];
    assert Filter([s], keep) == [] by {
      assert [s][1..] == [];
    }
  }

  const SwiftViewTemplate: String :=
    "import SwiftUI\n\nstruct ContentView: View {\n    var body: some View {\n        VStack {\n"
    + "            Text(\"Hello, World!\")\n                .padding()\n        }\n    }\n}\n\n"
    + "#Preview {\n    ContentView()\n}"
  const ForLoop: String := "for i in 0..<10 {\n    print(i)\n}"
  const FunctionTemplate: String :=
    "func functionName(parameter: Type) -> ReturnType {\n    // Implementation\n    return value\n}"
  const JavaScriptFunction: String :=
    "function functionName(param) {\n    // Implementation\n    return result;\n}"
  const PythonClass: String :=
    "class ClassName:\n    def __init__(self, param):\n        self.param = param\n    \n"
    + "    def method(self):\n        pass"
  const HtmlTemplate: String :=
    "<!DOCTYPE html>\n<html lang=\"en\">\n<head>\n    <meta charset=\"UTF-8\">\n"
    + "    <meta name=\"viewport\" content=\"width=device-width, initial-scale=1.0\">\n"
    + "    <title>Document</title>\n</head>\n<body>\n    \n</body>\n</html>"

  /** One default snippet: the template with its title, language and category. */
  function Template(id: Id, title: String, code: String, language: ProgrammingLanguage,
                    category: String, now: Time): (s: CodeSnippet)
    ensures s.id == id && s.title == title && s.code == code && s.language == language
    ensures s.category == category && s.createdDate == now
  {
    NewCodeSnippet(id, title, code, language, Some(category), now)
  }

  /** `createDefaultSnippets`' list; the six fresh ids are `firstId` onwards. */
  function DefaultSnippets(firstId: Id, now: Time): (ss: seq<CodeSnippet>)
    ensures |ss| == 6
    ensures forall k :: 0 <= k < 6 ==> ss[k].id == firstId + k && ss[k].createdDate == now
    ensures ss[0].title == "SwiftUI View Template" && ss[0].language == Swift && ss[0].category == "Templates"
    ensures ss[1].title == "For Loop" && ss[1].language == Swift && ss[1].category == "Loops"
    ensures ss[2].title == "Function Template" && ss[2].language == Swift && ss[2].category == "Functions"
    ensures ss[3].title == "JavaScript Function" && ss[3].language == JavaScript && ss[3].category == "Functions"
    ensures ss[4].title == "Python Class" && ss[4].language == Python && ss[4].category == "Classes"
    ensures ss[5].title == "HTML Template" && ss[5].language == Html && ss[5].category == "Templates"
  {
    var swift := SwiftDefaults(firstId, now);
    var others := OtherDefaults(firstId + 3, now);
    swift + others
  }

  /** The three Swift snippets of `createDefaultSnippets`. */
  function SwiftDefaults(firstId: Id, now: Time): (ss: seq<CodeSnippet>)
    ensures |ss| == 3
    ensures forall k :: 0 <= k < 3 ==> ss[k].id == firstId + k && ss[k].createdDate == now && ss[k].language == Swift
    ensures ss[0].title == "SwiftUI View Template" && ss[0].category == "Templates"
    ensures ss[1].title == "For Loop" && ss[1].category == "Loops"
    ensures ss[2].title == "Function Template" && ss[2].category == "Functions"
  {
    [ Template(firstId, "SwiftUI View Template", SwiftViewTemplate, Swift, "Templates", now),
      Template(firstId + 1, "For Loop", ForLoop, Swift, "Loops", now),
      Template(firstId + 2, "Function Template", FunctionTemplate, Swift, "Functions", now) ]
  }

  /** The JavaScript, Python and HTML snippets of `createDefaultSnippets`. */
  function OtherDefaults(firstId: Id, now: Time): (ss: seq<CodeSnippet>)
    ensures |ss| == 3
    ensures forall k :: 0 <= k < 3 ==> ss[k].id == firstId + k && ss[k].createdDate == now
    ensures ss[0].title == "JavaScript Function" && ss[0].language == JavaScript && ss[0].category == "Functions"
    ensures ss[1].title == "Python Class" && ss[1].language == Python && ss[1].category == "Classes"
    ensures ss[2].title == "HTML Template" && ss[2].language == Html && ss[2].category == "Templates"
  {
    [ Template(firstId, "JavaScript Function", JavaScriptFunction, JavaScript, "Functions", now),
      Template(firstId + 1, "Python Class", PythonClass, Python, "Classes", now),
      Template(firstId + 2, "HTML Template", HtmlTemplate, Html, "Templates", now) ]
  }

  /** `init()`: `loaded` is what `loadSnippets` decoded (`None` when nothing is
      stored or it does not decode). A non-empty list is kept without saving;
      otherwise the six defaults are installed and saved once. */
  function Init(loaded: Option<seq<CodeSnippet>>, firstId: Id, now: Time): (m: SnippetManager)
    ensures loaded.Some? && |loaded.value| > 0 ==> m.snippets == loaded.value && m.saves == 0
    ensures !(loaded.Some? && |loaded.value| > 0) ==>
      m.snippets == DefaultSnippets(firstId, now) && |m.snippets| == 6 && m.saves == 1
  {
    var ss := loaded.GetOr([]);
    if |ss| > 0 then SnippetManager(ss, 0) else SnippetManager(DefaultSnippets(firstId, now), 1)
  }

  /** The search part of `filteredSnippets`: the title or the code contains the
      search text, ignoring case. */
  predicate MatchesSearch(s: CodeSnippet, q: String) {
    ContainsIgnoringCase(s.title, q) || ContainsIgnoringCase(s.code, q)
  }

  /** The category part of `filteredSnippets`. */
  predicate InCategory(s: CodeSnippet, category: String) {
    category == "All" || s.category == category
  }

  /** `filteredSnippets` for the selected category and search text. */
  function Filtered(ss: seq<CodeSnippet>, category: String, q: String): (r: seq<CodeSnippet>)
    ensures Subseq(r, ss)
    ensures forall x :: x in r <==> x in ss && InCategory(x, category) && (q == [] || MatchesSearch(x, q))
    ensures forall x :: Count(r, x) == (if InCategory(x, category) && (q == [] || MatchesSearch(x, q))
                                        then Count(ss, x) else 0)
    ensures category == "All" && q == [] ==> r == ss
  {
    var byCategory := (x: CodeSnippet) => x.category == category;
    var bySearch := (x: CodeSnippet) => MatchesSearch(x, q);
    var cf := if category == "All" then ss else Filter(ss, byCategory);
    SubseqRefl(ss);
    FilterSubseq(ss, byCategory);
    FilterMembers(ss, byCategory);
    FilterSubseq(cf, bySearch);
    FilterMembers(cf, bySearch);
    SubseqTrans(Filter(cf, bySearch), cf, ss);
    FilterCount(ss, byCategory);
    FilterCount(cf, bySearch);
    if q == [] then cf else Filter(cf, bySearch)
  }

  /** A search only narrows the category's list, keeping its order. */
  lemma SearchNarrows(ss: seq<CodeSnippet>, category: String, q: String)
    ensures Subseq(Filtered(ss, category, q), Filtered(ss, category, ""))
  {
    var cf := Filtered(ss, category, "");
    if q != [] {
      var byCategory := (x: CodeSnippet) => x.category == category;
      assert cf == (if category == "All" then ss else Filter(ss, byCategory));
      FilterSubseq(cf, (x: CodeSnippet) => MatchesSearch(x, q));
    } else {
      SubseqRefl(cf);
    }
  }

  /** `InsertSorted` into an ascending list without repeats. */
  function InsertSorted(x: String, s: seq<String>): (r: seq<String>)
    requires StrictlyAscending(s)
    ensures forall y :: y in r <==> y == x || y in s
    ensures |r| > 0 && (r[0] == x || (|s| > 0 && r[0] == s[0]))
    ensures StrictlyAscending(r)
    decreases |s|
  {
    if |s| == 0 then [x]
    else if x == s[0] then s
    else if Less(x, s[0]) then
      AscendingCons(x, s);
      [x] + s
    else
      LessTotal(x, s[0]);
      var t := InsertSorted(x, s[1..]);
      AscendingCons(s[0], t);
      [s[0]] + t
  }

  /** Prepending an element below the head keeps a list strictly ascending. */
  lemma AscendingCons(x: String, s: seq<String>)
    requires StrictlyAscending(s) && (|s| > 0 ==> Less(x, s[0]))
    ensures StrictlyAscending([x] + s)
  {
    forall i, j | 0 <= i < j < |[x] + s| ensures Less(([x] + s)[i], ([x] + s)[j]) {
      if i == 0 && j > 1 {
        LessTransitive(x, s[0], s[j - 1]);
      }
    }
  }

  /** The distinct categories of the snippets, ascending. */
  function SortedCategories(ss: seq<CodeSnippet>): (r: seq<String>)
    ensures StrictlyAscending(r)
    ensures forall c :: c in r <==> exists k :: 0 <= k < |ss| && ss[k].category == c
  {
    if |ss| == 0 then []
    else
      var init := ss[..|ss| - 1];
      var r := InsertSorted(ss[|ss| - 1].category, SortedCategories(init));
      assert forall k :: 0 <= k < |init| ==> init[k] == ss[k];
      r
  }

  /** `categories`: "All", then each category once, in ascending order. */
  function Categories(ss: seq<CodeSnippet>): (r: seq<String>)
    ensures |r| > 0 && r[0] == "All"
    ensures StrictlyAscending(r[1..])
    ensures forall c :: c in r[1..] <==> exists k :: 0 <= k < |ss| && ss[k].category == c
  {
    var cs := SortedCategories(ss);
    assert (["All"] + cs)[1..] == cs;
    ["All"] + cs
  }

  /** The snippet passed to `onCreate` by `CreateSnippetSheet`. */
  datatype SnippetRequest = SnippetRequest(title: String, code: String, language: ProgrammingLanguage, category: String)

  /** The create button: the category is the custom one when the toggle is on,
      the picked one otherwise, and `onCreate` fires only when the title, the
      code and that category are all non-empty. */
  function CreateRequest(title: String, code: String, language: ProgrammingLanguage,
                         category: String, customCategory: String, useCustomCategory: bool): (r: Option<SnippetRequest>)
    ensures r.Some? <==> title != [] && code != [] && (if useCustomCategory then customCategory else category) != []
    ensures r.Some? ==> r.value.title == title && r.value.code == code && r.value.language == language
    ensures r.Some? ==> (r.value.category == customCategory <== useCustomCategory)
    ensures r.Some? ==> (r.value.category == category <== !useCustomCategory)
  {
    var finalCategory := if useCustomCategory then customCategory else category;
    if title != [] && code != [] && finalCategory != [] then
      Some(SnippetRequest(title, code, language, finalCategory))
    else None
  }

  /** `SnippetCard`'s code preview: the first 80 characters, then "..." when the
      code is longer. */
  function Preview(code: String): (r: String)
    ensures |code| <= 80 ==> r == code
    ensures |code| > 80 ==> |r| == 83 && r[..80] == code[..80] && r[80..] == "..."
  {
    if |code| > 80 then code[..80] + "..." else code
  }
}
