# NeoCoder Road editor core, in Dafny

A model of the logic of the NeoCoder Road iOS code editor. It covers:

- the editor view model: its text, gutter line numbers, caret, find, replace, formatting, go-to-line and write-through to the file service;
- the project and file store;
- the snippet library and the pure parts of the snippet screen (filtering, categories, the create guard, the card preview);
- the user settings service with its clamps and toggles;
- the app's record types and their initialisers;
- the integer part of `Color(hex:)`;
- the rules of the code editor's sheets: file naming, the empty-name guards, and the line-count label.

Each stateful class becomes an immutable datatype. Each mutator becomes a function from the old state to the new one. Persistence is left out and only counted: every `save…()` call adds one to `saves`, and every `fileService.updateFile` issued by the editor is appended to `writes`.

Fresh UUIDs and `Date()` are parameters (`Id`, `Time`). Swift default arguments are `Option` parameters.

Modules, one per source component:

| module | file | models |
|---|---|---|
| `Wrappers` | wrappers.dfy | `Option`, `first` |
| `Text` | text.dfy | character classes, `components(separatedBy: .newlines)`, `joined`, trimming, `String(repeating:)`, substring search, case folding, ordering of strings |
| `AppModels` | app_models.dfy | AppModels.swift |
| `LineIndex` | editor_lines.dfy | line numbers, insertion and line offsets of EditorViewModel.swift |
| `Search` | search.dfy | `findInCode`'s line enumeration |
| `Format` | format.dfy | `formatCode` |
| `Replace` | replace.dfy | `replacingOccurrences(of:with:)` |
| `EditorViewModel` | editor.dfy | EditorViewModel.swift |
| `Seqs` | seqs.dfy | `removeAll(where:)`/`filter`, `firstIndex(where:)` |
| `ProjectFiles` | file_service.dfy | FileService.swift |
| `Snippets` | snippets.dfy | `SnippetManager` and the pure parts of SnippetManagerView.swift |
| `SettingsService` | settings.dfy | UserSettingsService.swift |
| `HexColor` | hex_color.dfy | `Color(hex:)` and the three app colours |
| `CodeEditorSheets` | code_editor_view.dfy | the rules in CodeEditorView.swift |

Where the app's stated behaviour and its code differ, the model follows the code:

- **CRLF line numbers.** A search hit's line number is the number of `components(separatedBy: .newlines)` of the text before the line. A CR LF pair counts as two separators there, while the line walk (`.byLines`) treats it as one terminator. Line numbers therefore over-count after CR LF (`Search.FindCountsCrLfTwice`). The gutter and `goToLine` count the same way, so on text whose characters are each one UTF-16 unit and one `Character`, jumping to a hit still lands on it (`Search.GoToResultLine`).
- **Negative insert positions.** `insertText` with a negative position is not clamped. `index(_:offsetBy:)` traps, so the model requires `position >= 0`.
- **Negative tab sizes.** `String(repeating:count:)` traps on a negative tab size, so `formatCode` requires `tabSize >= 0`.
- **Formatting idempotence** holds for every text, not only for balanced braces (`Format.FormatIdempotent`).
- **`setCurrentFile`** keeps the selection and the search results of the previous file.
- **Replacing with an empty query** changes nothing (`Replace.ReplaceAll`).
- **`createSampleProject`** builds one `CodeProject` only to read its name. The stored project is a second one with a fresh id, which is the `pid` of `ProjectFiles.SampleProject`.

## Model

| member | source | states |
|---|---|---|
| AppModels.FileExtension | dafoma_24/Models/AppModels.swift:57-70 | every extension starts with its only '.', followed by at least one character |
| AppModels.FileExtensionInjective | dafoma_24/Models/AppModels.swift:57-70 | two different languages never share an extension |
| AppModels.NewCodeFile | dafoma_24/Models/AppModels.swift:36-42 | a new file has empty content and the Swift language unless given, no breakpoints, and is stamped with the creation time |
| AppModels.NewCodeProject | dafoma_24/Models/AppModels.swift:20-25 | a new project has no files unless given, and both dates are the creation time |
| AppModels.NewCodeSnippet | dafoma_24/Models/AppModels.swift:96-102 | a snippet's category is "General" unless given |
| AppModels.DefaultSettings | dafoma_24/Models/AppModels.swift:122-133 | the defaults: dark theme, size 14, line numbers and auto-indent on, no word wrap, tab size 4, collaboration on, onboarding not completed |
| AppModels.NewParticipant | dafoma_24/Models/AppModels.swift:158-164 | a participant starts online, with the caret at 0 and no file selected |
| AppModels.NewCollaborationSession | dafoma_24/Models/AppModels.swift:151-155 | a session starts with no participants, no shared project, inactive, and is a host only when told so |
| LineIndex.LineNumbers | dafoma_24/ViewModels/EditorViewModel.swift:114-117 | the gutter is 1, 2, … up to one more than the number of newline characters, so never empty |
| LineIndex.LineNumbersLfOnly | dafoma_24/ViewModels/EditorViewModel.swift:114-117 | on LF-only text the last line number is one more than the number of LFs |
| LineIndex.Insert | dafoma_24/ViewModels/EditorViewModel.swift:46-48 | the inserted text sits at the position clamped to the text's length, with the text before and after it unchanged |
| LineIndex.InsertNothing | dafoma_24/ViewModels/EditorViewModel.swift:46-48 | inserting nothing anywhere leaves the text unchanged |
| LineIndex.InsertPastEnd | dafoma_24/ViewModels/EditorViewModel.swift:46-48 | a position at or past the end appends |
| LineIndex.StartOfCounts | dafoma_24/ViewModels/EditorViewModel.swift:106-110 | walking over m newlines ends just after the m-th newline |
| LineIndex.OffsetFromStart | dafoma_24/ViewModels/EditorViewModel.swift:106-110 | the sum of component lengths plus one is the position found by walking over newlines, and the component there is the line from that position |
| LineIndex.LineOffsetIsLineStart | dafoma_24/ViewModels/EditorViewModel.swift:106-110 | the offset `goToLine(n)` computes, counted in Unicode scalars, is the start of a line, with exactly n-1 newlines before it, and the n-th component begins there |
| LineIndex.LineOffsetOfLineStart | dafoma_24/ViewModels/EditorViewModel.swift:106-110 | every line start, counted in Unicode scalars, is the offset `goToLine` computes for the line number counted by newlines before it |
| Search.Find | dafoma_24/ViewModels/EditorViewModel.swift:82-98 | an empty query gives no results |
| Search.FindFromSound | dafoma_24/ViewModels/EditorViewModel.swift:91-96 | every reported line starts a line of the walk, contains the query ignoring case, and carries its line number and text |
| Search.FindFromComplete | dafoma_24/ViewModels/EditorViewModel.swift:91-96 | every line of the walk that contains the query is reported |
| Search.FindFromAscending | dafoma_24/ViewModels/EditorViewModel.swift:91-96 | reports come in strictly increasing position order |
| Search.FindSpec | dafoma_24/ViewModels/EditorViewModel.swift:82-98 | the results are exactly the matching lines, in order, for a non-empty query |
| Search.FindOnlyWhenContained | dafoma_24/ViewModels/EditorViewModel.swift:93 | a text that nowhere contains the query, ignoring case, yields no results |
| Search.FindLfOnly | dafoma_24/ViewModels/EditorViewModel.swift:94 | on LF-only text a hit's line number is one more than the LFs before it, and its text is that component of the text |
| Search.GoToResultLine | dafoma_24/ViewModels/EditorViewModel.swift:94 | jumping to a hit's line number lands on the hit's position, both counted in Unicode scalars; this matches the app on text whose characters are each one UTF-16 unit and one `Character` |
| Search.FindTwoLines | dafoma_24/ViewModels/EditorViewModel.swift:82-98 | "a\nb\na\n" searched for "a" gives hits on lines 1 and 3 |
| Search.FindCountsCrLfTwice | dafoma_24/ViewModels/EditorViewModel.swift:94 | "a\r\nb" searched for "b" reports its second line as line 3 |
| Format.FormatLoop | dafoma_24/ViewModels/EditorViewModel.swift:57-80 | the loop of `formatCode`, with its indent counter, computes the functional definition |
| Format.DepthMove | dafoma_24/ViewModels/EditorViewModel.swift:67-76 | the indent moves by at most one per line: up only after an opening line, down only on a closing line |
| Format.LevelsStep | dafoma_24/ViewModels/EditorViewModel.swift:64-77 | the first line is at the entry depth less a closing brace; each later line is at the previous line's depth, raised after an opening brace and lowered on a closing brace, so the depth moves by at most one per line, up only after an opening line and down only at a closing one |
| Format.EmitAt | dafoma_24/ViewModels/EditorViewModel.swift:71-72 | each output line is the tab string repeated to its depth, then the trimmed line |
| Format.EmittedLine | dafoma_24/ViewModels/EditorViewModel.swift:65-71 | an emitted line holds no newline, and trimming it gives back the trimmed input line |
| Format.FormatLines | dafoma_24/ViewModels/EditorViewModel.swift:57-80 | the output has as many components as the input, and component k is the indent of line k followed by line k trimmed |
| Format.FormatIdempotent | dafoma_24/ViewModels/EditorViewModel.swift:57-80 | formatting formatted text changes nothing |
| Format.EmitBlock | dafoma_24/ViewModels/EditorViewModel.swift:64-77 | an opening line, a plain line and a closing line come out at depths 0, 1 and 0 |
| Format.FormatFunctionBody | dafoma_24/ViewModels/EditorViewModel.swift:57-80 | "func f() {\nprint(1)\n}" at tab size 4 becomes "func f() {\n    print(1)\n}" |
| Replace.ReplaceAll | dafoma_24/ViewModels/EditorViewModel.swift:101 | an empty query changes nothing |
| Replace.ReplaceFromAbsent | dafoma_24/ViewModels/EditorViewModel.swift:101 | without an occurrence the rest of the text is copied |
| Replace.ReplaceFromLeftmost | dafoma_24/ViewModels/EditorViewModel.swift:101 | the leftmost occurrence is replaced next: the text before it is kept, and the scan resumes after it |
| Replace.ReplaceAllAbsent | dafoma_24/ViewModels/EditorViewModel.swift:101 | a text without the query is returned unchanged |
| Replace.ReplaceAllSelf | dafoma_24/ViewModels/EditorViewModel.swift:101 | replacing the query by itself changes nothing |
| Replace.ReplaceAllWhole | dafoma_24/ViewModels/EditorViewModel.swift:101 | a text that is exactly the query becomes the replacement |
| Replace.ReplaceTwoOccurrences | dafoma_24/ViewModels/EditorViewModel.swift:101 | "foo bar foo" with "foo" replaced by "baz" is "baz bar baz" |
| Replace.ReplaceCaseSensitive | dafoma_24/ViewModels/EditorViewModel.swift:101 | replacement is case-sensitive: "Foo foo" becomes "Foo x" |
| Replace.ReplaceJoinsNewOccurrence | dafoma_24/ViewModels/EditorViewModel.swift:101 | replacement does not rescan its output: removing "ab" from "aabb" leaves a new "ab" |
| EditorViewModel.Init | dafoma_24/ViewModels/EditorViewModel.swift:13-28 | a new editor has no file, empty text, the caret at 0, the gutter [1], and no results |
| EditorViewModel.SetCurrentFile | dafoma_24/ViewModels/EditorViewModel.swift:31-35 | the file and its content are shown and numbered; the selection, search state and writes are kept |
| EditorViewModel.UpdateText | dafoma_24/ViewModels/EditorViewModel.swift:37-44 | the text is set and renumbered; it is written through exactly once when a file is open and never otherwise; nothing else changes |
| EditorViewModel.InsertText | dafoma_24/ViewModels/EditorViewModel.swift:46-50 | the text gets the insertion at the clamped position, is renumbered and written through |
| EditorViewModel.InsertTextPastEnd | dafoma_24/ViewModels/EditorViewModel.swift:46-50 | a position at or past the end appends |
| EditorViewModel.InsertTextNothing | dafoma_24/ViewModels/EditorViewModel.swift:46-50 | inserting nothing keeps the text but still writes it through |
| EditorViewModel.InsertSnippet | dafoma_24/ViewModels/EditorViewModel.swift:52-55 | the snippet's code goes in at the selection's location |
| EditorViewModel.FormatCode | dafoma_24/ViewModels/EditorViewModel.swift:57-80 | the formatted text has as many lines as before, each the indented trimmed line; it is renumbered and written through |
| EditorViewModel.FormatCodeIdempotent | dafoma_24/ViewModels/EditorViewModel.swift:57-80 | formatting twice gives the same text as formatting once |
| EditorViewModel.FindInCode | dafoma_24/ViewModels/EditorViewModel.swift:82-98 | the query is recorded; each result is a whole line of the `.byLines` walk, from a line start to its terminator, that contains the query ignoring case, numbered one more than the newline characters before it; every such line is reported, in ascending location and line number; none for an empty query; the text, gutter, file, selection, find panel flag, replacement text and writes are untouched |
| EditorViewModel.FindInCodeLfOnly | dafoma_24/ViewModels/EditorViewModel.swift:94-95 | on LF-only text each hit names its line by number and text |
| EditorViewModel.ReplaceInCode | dafoma_24/ViewModels/EditorViewModel.swift:100-104 | the text is replaced and written through, then searched again for the old query; the file, selection, find panel flag and replacement text are untouched |
| EditorViewModel.ReplaceInCodeAbsent | dafoma_24/ViewModels/EditorViewModel.swift:100-104 | a text without the query keeps its content |
| EditorViewModel.ReplaceInCodeFooBar | dafoma_24/ViewModels/EditorViewModel.swift:100-104 | "foo bar foo" becomes "baz bar baz" and the search for "foo" then finds nothing |
| EditorViewModel.ReplaceInCodeSearchesNewText | dafoma_24/ViewModels/EditorViewModel.swift:100-104 | the search after a replacement can find hits: "aabb" without "ab" is "ab", and "ab" is found again |
| EditorViewModel.GoToLine | dafoma_24/ViewModels/EditorViewModel.swift:106-112 | for a line number in range the caret moves to the start of that line, counted in Unicode scalars, with n-1 newlines before it; otherwise nothing changes |
| EditorViewModel.GoToFirstLine | dafoma_24/ViewModels/EditorViewModel.swift:106-112 | line 1 is at offset 0 |
| EditorViewModel.GoToSearchResult | dafoma_24/ViewModels/EditorViewModel.swift:94-110 | jumping to a hit's line puts the caret at the hit, both counted in Unicode scalars |
| Seqs.FilterMembers | dafoma_24/Services/FileService.swift:57 | `removeAll(where:)` keeps exactly the elements that do not match |
| Seqs.FilterSubseq | dafoma_24/Services/FileService.swift:57 | `removeAll(where:)` keeps the survivors in order |
| Seqs.FilterCount | dafoma_24/Services/FileService.swift:57 | `removeAll(where:)` keeps every copy of a surviving element and none of a removed one |
| Seqs.FirstIndex | dafoma_24/Services/FileService.swift:67 | `firstIndex(where:)` finds a match with none before it, or reports that there is none |
| ProjectFiles.CreateProject | dafoma_24/Services/FileService.swift:49-54 | one empty project is appended and returned; the current project is kept; one save |
| ProjectFiles.DeleteProject | dafoma_24/Services/FileService.swift:56-62 | exactly the projects with another id remain, in order, each as many times as it was stored; a deleted current project is replaced by the first remaining one; one save |
| ProjectFiles.DeleteProjectAbsent | dafoma_24/Services/FileService.swift:56-62 | deleting an id that is not stored keeps the list |
| ProjectFiles.CreateFile | dafoma_24/Services/FileService.swift:64-79 | the new file is appended to the first project with the id, which is touched and refreshed if current, and the others are unchanged; an unknown project changes nothing and saves nothing |
| ProjectFiles.UpdateFile | dafoma_24/Services/FileService.swift:81-98 | the first file with the id, in the first project holding it, gets the content and the time; the project is touched and refreshed if current; otherwise nothing changes |
| ProjectFiles.DeleteFile | dafoma_24/Services/FileService.swift:100-111 | every file with the id leaves the first project with the project's id, and every copy of each other file stays, in order; the project is touched and refreshed if current; an unknown project changes nothing |
| ProjectFiles.SetCurrentProject | dafoma_24/Services/FileService.swift:113-115 | any project becomes current; the list is kept and nothing is saved |
| ProjectFiles.SampleProject | dafoma_24/Services/FileService.swift:117-166 | the sample project "Welcome to NeoCoder" holds "Welcome.swift" (Swift) and "example.js" (JavaScript) |
| ProjectFiles.Init | dafoma_24/Services/FileService.swift:18-40 | stored projects are used with the first one current and no save; otherwise the sample project is created, made current and saved once; the current project is stored either way |
| ProjectFiles.ProjectsKeepCurrentStored | dafoma_24/Services/FileService.swift:49-62 | creating and deleting projects keep the current project among the stored ones |
| ProjectFiles.StoredAfterEdit | dafoma_24/Services/FileService.swift:67-107 | rewriting one project and refreshing it when current keeps the current project stored |
| ProjectFiles.FilesKeepCurrentStored | dafoma_24/Services/FileService.swift:64-111 | creating, updating and deleting files keep the current project among the stored ones |
| Snippets.CreateSnippet | dafoma_24/Views/Features/SnippetManagerView.swift:128-132 | one snippet with the given fields is appended; the rest are kept; one save |
| Snippets.DeleteSnippet | dafoma_24/Views/Features/SnippetManagerView.swift:134-137 | exactly the snippets with another id remain, in order, each as many times as it was stored; one save |
| Snippets.CreateThenDelete | dafoma_24/Views/Features/SnippetManagerView.swift:128-137 | deleting a snippet just created with a fresh id restores the list |
| Snippets.DefaultSnippets | dafoma_24/Views/Features/SnippetManagerView.swift:139-228 | the six default snippets, their titles, languages and categories, with fresh ids |
| Snippets.Init | dafoma_24/Views/Features/SnippetManagerView.swift:107-120 | a non-empty stored list is kept unsaved; otherwise the six defaults are installed and saved once |
| Snippets.Filtered | dafoma_24/Views/Features/SnippetManagerView.swift:18-31 | the shown snippets are, in order, exactly those in the category (any for "All") whose title or code contains the search text ignoring case, each as many times as it is stored; no filter shows everything |
| Snippets.SearchNarrows | dafoma_24/Views/Features/SnippetManagerView.swift:18-31 | a search only removes snippets from the category's list |
| Snippets.InsertSorted | dafoma_24/Views/Features/SnippetManagerView.swift:34 | inserting into an ascending list without repeats keeps it so, adding exactly the element |
| Snippets.SortedCategories | dafoma_24/Views/Features/SnippetManagerView.swift:34 | each category that occurs appears exactly once, in strictly ascending order |
| Snippets.Categories | dafoma_24/Views/Features/SnippetManagerView.swift:33-35 | "All" first, then the distinct categories ascending |
| Snippets.CreateRequest | dafoma_24/Views/Features/SnippetManagerView.swift:792-795 | creation fires exactly when title, code and the chosen category are non-empty, with the custom category when its toggle is on |
| Snippets.Preview | dafoma_24/Views/Features/SnippetManagerView.swift:517 | a code of up to 80 characters is shown whole; a longer one as its first 80 characters and "..." |
| SettingsService.Init | dafoma_24/Services/UserSettingsService.swift:17-25 | stored settings are used unsaved; otherwise the defaults, saved once |
| SettingsService.UpdateTheme | dafoma_24/Services/UserSettingsService.swift:33-36 | only the theme changes; one save |
| SettingsService.UpdateFontSize | dafoma_24/Services/UserSettingsService.swift:38-41 | the font size is clamped into [10, 24], kept when inside; nothing else changes |
| SettingsService.ToggleLineNumbers | dafoma_24/Services/UserSettingsService.swift:43-46 | only the flag flips; one save |
| SettingsService.ToggleAutoIndent | dafoma_24/Services/UserSettingsService.swift:48-51 | only the flag flips; one save |
| SettingsService.ToggleWordWrap | dafoma_24/Services/UserSettingsService.swift:53-56 | only the flag flips; one save |
| SettingsService.UpdateTabSize | dafoma_24/Services/UserSettingsService.swift:58-61 | the tab size is clamped into [2, 8], kept when inside; nothing else changes |
| SettingsService.ToggleCollaboration | dafoma_24/Services/UserSettingsService.swift:63-66 | only the flag flips; one save |
| SettingsService.CompleteOnboarding | dafoma_24/Services/UserSettingsService.swift:68-71 | onboarding is marked complete; nothing else changes |
| SettingsService.ResetSettings | dafoma_24/Services/UserSettingsService.swift:73-76 | every field is back at its default; one save |
| SettingsService.UpdateTabSizeIdempotent | dafoma_24/Services/UserSettingsService.swift:58-61 | asking twice for the same tab size stores what asking once stores |
| SettingsService.UpdateTabSizeStable | dafoma_24/Services/UserSettingsService.swift:58-61 | a clamped tab size is a fixed point of the clamp |
| SettingsService.TogglesUndo | dafoma_24/Services/UserSettingsService.swift:43-66 | each toggle undoes itself, at the cost of two saves |
| SettingsService.CompleteOnboardingIdempotent | dafoma_24/Services/UserSettingsService.swift:68-71 | completing onboarding twice is completing it once |
| SettingsService.ResetIsInit | dafoma_24/Services/UserSettingsService.swift:17-25 | resetting gives the settings a service starts with when nothing is stored |
| HexColor.HexValue | dafoma_24/Utils/NeumorphismStyle.swift:22 | n hex digits spell a value below 16^n |
| HexColor.ScanHex | dafoma_24/Utils/NeumorphismStyle.swift:22 | the scanned value has no more digits than the string has characters |
| HexColor.ParseHex | dafoma_24/Utils/NeumorphismStyle.swift:19-33 | every channel is at most 255 for any input; a trimmed length other than 3, 6 or 8 gives (1, 1, 1, 0) |
| HexColor.ParseFramed | dafoma_24/Utils/NeumorphismStyle.swift:20-24 | hex digits framed by non-alphanumerics parse as the digits alone |
| HexColor.Hex2Value | dafoma_24/Utils/NeumorphismStyle.swift:22 | the two digits of a byte spell that byte |
| HexColor.HexValueAppendByte | dafoma_24/Utils/NeumorphismStyle.swift:22 | two more digits shift the value left by one byte |
| HexColor.RgbRoundTrip | dafoma_24/Utils/NeumorphismStyle.swift:27-28 | "#" and six digits spelling (r, g, b) parse back to opaque (r, g, b) |
| HexColor.ArgbRoundTrip | dafoma_24/Utils/NeumorphismStyle.swift:29-30 | "#" and eight digits spelling (a, r, g, b) parse back to (a, r, g, b) |
| HexColor.ShortRoundTrip | dafoma_24/Utils/NeumorphismStyle.swift:25-26 | three digits parse to opaque channels of 17 times each digit |
| HexColor.NeoBackground | dafoma_24/Utils/NeumorphismStyle.swift:12 | "#3e4464" is opaque (62, 68, 100) |
| HexColor.NeoYellow | dafoma_24/Utils/NeumorphismStyle.swift:13 | "#fcc418" is opaque (252, 196, 24) |
| HexColor.NeoGreen | dafoma_24/Utils/NeumorphismStyle.swift:14 | "#3cc45b" is opaque (60, 196, 91) |
| CodeEditorSheets.FullFileName | dafoma_24/Views/Core/CodeEditorView.swift:489 | the full name always contains '.'; a name with '.' is kept verbatim; any other name is followed by the language's extension |
| CodeEditorSheets.FullFileNameIdempotent | dafoma_24/Views/Core/CodeEditorView.swift:489 | a full name stays as it is, whatever language is picked next |
| CodeEditorSheets.FullFileNameNamesLanguage | dafoma_24/Views/Core/CodeEditorView.swift:489 | for a name without '.', the first '.' follows the typed name, and two languages give the same full name only if they are the same |
| CodeEditorSheets.CreateFileRequest | dafoma_24/Views/Core/CodeEditorView.swift:487-491 | `onCreate` fires exactly for a non-empty name, with a name containing '.' and the picked language |
| CodeEditorSheets.CreateProjectRequest | dafoma_24/Views/Core/CodeEditorView.swift:423-426 | `onCreate` fires exactly for a non-empty name, with that name |
| CodeEditorSheets.SubmitProject | dafoma_24/Views/Core/CodeEditorView.swift:385-390 | an empty project name changes nothing; any other appends one empty project with that name |
| CodeEditorSheets.SubmitFile | dafoma_24/Views/Core/CodeEditorView.swift:391-401 | an empty file name changes nothing; any other adds an empty file whose name has a '.' to the project, the other projects unchanged |
| CodeEditorSheets.LineCountLabel | dafoma_24/Views/Core/CodeEditorView.swift:324 | the label is one more than the number of newline characters |
| CodeEditorSheets.LineCountMatchesGutter | dafoma_24/Views/Core/CodeEditorView.swift:324 | the label equals the number of line numbers the editor shows once the file is opened |

## Left out

- Persistence: the JSON and `UserDefaults` encoding, decoding and file I/O of `loadProjects`, `saveProjects`, `loadSnippets`, `saveSnippets` and `saveSettings`. Loading is a parameter (`Option`, `None` when nothing decodes). Saving is counted in `saves`.
- `NetworkService`, `CollaborationView` and collaboration sessions beyond their initialiser: simulated networking with timers, sleeps and random codes.
- SwiftUI layout, styling, sheets' presentation state, `MainViewModel`, the onboarding and customisation views: declarative UI with no logic.
- `CodeEditorView.setupEditor`: it builds a view model that is thrown away.
- `showFindReplace` and `replaceText` of the editor are carried along but no operation sets them; only the views do.
- The division by 255 into `Double` colour components, and `Double` font sizes (an exact `real` here, so NaN is not modelled).
- `Text.IsAlphanumeric` and `Text.Fold`: Unicode letters and digits and locale-aware case folding are reduced to ASCII.
- Positions are indices into a sequence of Unicode scalars. The app counts positions two other ways. `insertText`, `goToLine` and the snippet preview count `Character`s (grapheme clusters), so a CR LF pair, a letter with a combining mark, an emoji sequence or a flag is one position there and several here. `findInCode`'s `range` and the text view's `selectedRange` count UTF-16 units, so a character outside the Basic Multilingual Plane (such as "😀") is two positions there and one here. The members below therefore differ from the app on text containing multi-scalar `Character`s, and, where UTF-16 offsets are involved, on text containing non-BMP characters:
- EditorViewModel.GoToLine: the caret offset sums scalar counts of the earlier lines, while `goToLine` sums their `Character` counts. On "e\u{301}\nab", line 2 is at 3 here and at 2 in the app.
- Search.GoToResultLine: proved only with both positions in scalars. In the app the hit's location counts UTF-16 units while `goToLine` counts `Character`s, so after a non-BMP character or a multi-scalar `Character` the caret misses the hit. On "😀\nab" with query "ab" the app reports the hit at 3 and `goToLine(2)` puts the caret at 2.
- EditorViewModel.GoToSearchResult: the same; in the app the caret misses the hit after a non-BMP character or a multi-scalar `Character`.
- EditorViewModel.FindInCode: a hit's `range.location` counts scalars, while the app's `NSRange` counts UTF-16 units. On "😀\nab" the hit is at 2 here and at 3 in the app.
- EditorViewModel.InsertText: clamps and offsets by scalars, while `insertText` clamps to `editorText.count` and offsets by `Character`s. On "a\r\nb" at position 3 the app inserts after the `b` and the model before it.
- EditorViewModel.InsertSnippet: passes the caret location straight on as the model's scalar offset. The app passes the UTF-16 `selectedRange.location` to `insertText` as a `Character` offset.
- LineIndex.Insert: the clamp and the offset count scalars, not `Character`s.
- Snippets.Preview: `prefix(80)` and `count > 80` count scalars here. The app counts `Character`s, so a CR LF pair, a combining sequence or an emoji sequence is one.
- Strings are compared literally, scalar by scalar. Swift's `String` equality, `Set<String>` and `sorted()`, and `replacingOccurrences(of:with:)` called without `.literal`, all use Unicode canonical equivalence, so "Caf\u{E9}" and "Cafe\u{301}" are one string in the app and two here. The model and the app agree on text in Normalization Form C (all ASCII text included). The members below are literal where the app is canonical:
- Snippets.Filtered: the category test is literal equality. In the app, filtering by "Caf\u{E9}" also keeps snippets whose category is "Cafe\u{301}".
- Snippets.SortedCategories: distinctness and order are on scalar sequences, so two canonically equivalent categories stay two entries.
- Snippets.Categories: "All" followed by categories deduplicated literally; the app shows one entry per equivalence class.
- Replace.ReplaceAll: matches the query literally. The app also replaces canonically equivalent text, such as "e\u{301}" for the query "\u{E9}".
- Replace.ReplaceFromAbsent: "no occurrence" means no literal occurrence; in the app an equivalent occurrence is still replaced.
- Replace.ReplaceFromLeftmost: the leftmost literal occurrence; the app takes the leftmost canonically equivalent one.
- Replace.ReplaceAllAbsent: holds in the app only when the text also holds no equivalent of the query.
- Replace.ReplaceAllSelf: in the app, replacing the query by itself rewrites an equivalent, differently composed occurrence into the query's form.
- EditorViewModel.ReplaceInCode: inherits the literal matching of `Replace.ReplaceAll`; `EditorViewModel.ReplaceInCodeAbsent` holds in the app only on text with no equivalent of the query.
- One `now` parameter stands for every `Date()` call of an operation. `CreateFile`, `UpdateFile` and `DeleteFile` give the project and the file the same time, and `NewCodeProject` has equal `createdDate` and `lastModified`. In the app these are separate clock readings that may differ by the time between the calls.
- HexColor.ScanHex: does not model `scanHexInt64`'s overflow past 16 digits, because the app only parses its three short literals.
- UUIDs and `Date()` are parameters, so freshness of ids is an assumption of the callers (`Snippets.CreateThenDelete` states it).
