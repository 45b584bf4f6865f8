/**
  The app's records (`CodeProject`, `CodeFile`, `CodeSnippet`, `UserSettings`,
  `CollaborationSession`, `Participant`) and their initialisers.

  A fresh `UUID()` is an `Id` handed in by the caller and a `Date()` is a
  `Time` handed in the same way. A Swift default argument is an
  `Option` parameter: `None` means the caller left the argument out.
 */
module AppModels {
  import opened Wrappers
  import opened Text

  type Id = nat
  type Time = int

  datatype ProgrammingLanguage =
    | Swift | JavaScript | Python | Java | Cpp | Html | Css | Json | Xml | Markdown

  /** `ProgrammingLanguage.fileExtension`. */
  function FileExtension(l: ProgrammingLanguage): (ext: String)
    ensures 2 <= |ext| && ext[0] == '.'
    ensures forall k :: 1 <= k < |ext| ==> ext[k] != '.'
  {
    match l
    case Swift => ".swift"
    case JavaScript => ".js"
    case Python => ".py"
    case Java => ".java"
    case Cpp => ".cpp"
    case Html => ".html"
    case Css => ".css"
    case Json => ".json"
    case Xml => ".xml"
    case Markdown => ".md"
  }

  /** No two languages share an extension, so the extension names the language. */
  lemma FileExtensionInjective(l1: ProgrammingLanguage, l2: ProgrammingLanguage)
    requires l1 != l2
    ensures FileExtension(l1) != FileExtension(l2)
  {
    var e1, e2 := FileExtension(l1), FileExtension(l2);
    assert |e1| != |e2| || e1[1] != e2[1] || e1[2] != e2[2] || e1[|e1| - 1] != e2[|e2| - 1];
  }

  datatype CodeFile = CodeFile(
    id: Id,
    name: String,
    content: String,
    language: ProgrammingLanguage,
    lastModified: Time,
    breakpoints: seq<int>)

  /** `CodeFile.init(name:content:language:)`; content defaults to the empty
      text and language to Swift, and a new file has no breakpoints. */
  function NewCodeFile(id: Id, name: String, content: Option<String>,
                       language: Option<ProgrammingLanguage>, now: Time): (f: CodeFile)
    ensures f.id == id && f.name == name && f.lastModified == now
    ensures f.content == (if content.Some? then content.value else "")
    ensures f.language == (if language.Some? then language.value else Swift)
    ensures f.breakpoints == []
  {
    CodeFile(id, name, content.GetOr(""), language.GetOr(Swift), now, [])
  }

  datatype CodeProject = CodeProject(
    id: Id,
    name: String,
    files: seq<CodeFile>,
    createdDate: Time,
    lastModified: Time)

  /** `CodeProject.init(name:files:)`; files default to none, and both dates are
      the creation time. */
  function NewCodeProject(id: Id, name: String, files: Option<seq<CodeFile>>, now: Time): (p: CodeProject)
    ensures p.id == id && p.name == name
    ensures p.files == (if files.Some? then files.value else [])
    ensures p.createdDate == now && p.lastModified == now
  {
    CodeProject(id, name, files.GetOr([]), now, now)
  }

  datatype CodeSnippet = CodeSnippet(
    id: Id,
    title: String,
    code: String,
    language: ProgrammingLanguage,
    category: String,
    createdDate: Time)

  /** `CodeSnippet.init(title:code:language:category:)`; category defaults to "General". */
  function NewCodeSnippet(id: Id, title: String, code: String, language: ProgrammingLanguage,
                          category: Option<String>, now: Time): (s: CodeSnippet)
    ensures s.id == id && s.title == title && s.code == code && s.language == language
    ensures s.category == (if category.Some? then category.value else "General")
    ensures s.createdDate == now
  {
    CodeSnippet(id, title, code, language, category.GetOr("General"), now)
  }

  datatype AppTheme = Light | Dark | System

  /** `UserSettings`; `fontSize` is a `Double` in the app and an exact real here. */
  datatype UserSettings = UserSettings(
    theme: AppTheme,
    fontSize: real,
    showLineNumbers: bool,
    autoIndent: bool,
    wordWrap: bool,
    tabSize: int,
    enableCollaboration: bool,
    hasCompletedOnboarding: bool)

  /** `UserSettings.default`. */
  function DefaultSettings(): (s: UserSettings)
    ensures s.theme == Dark && s.fontSize == 14.0
    ensures s.showLineNumbers && s.autoIndent && !s.wordWrap
    ensures s.tabSize == 4 && s.enableCollaboration && !s.hasCompletedOnboarding
  {
    UserSettings(Dark, 14.0, true, true, false, 4, true, false)
  }

  datatype Participant = Participant(
    id: Id,
    name: String,
    isOnline: bool,
    cursorPosition: int,
    selectedFile: Option<String>)

  /** A `Participant` built from its name alone: online, caret at 0, no file selected. */
  function NewParticipant(id: Id, name: String): (p: Participant)
    ensures p.id == id && p.name == name
    ensures p.isOnline && p.cursorPosition == 0 && p.selectedFile.None?
  {
    Participant(id, name, true, 0, None)
  }

  datatype CollaborationSession = CollaborationSession(
    id: Id,
    sessionCode: String,
    participants: seq<Participant>,
    sharedProject: Option<CodeProject>,
    isHost: bool,
    isActive: bool)

  /** `CollaborationSession.init(sessionCode:isHost:)`: no participants, no shared
      project, inactive; `isHost` defaults to false. */
  function NewCollaborationSession(id: Id, sessionCode: String, isHost: Option<bool>): (c: CollaborationSession)
    ensures c.id == id && c.sessionCode == sessionCode
    ensures c.participants == [] && c.sharedProject.None? && !c.isActive
    ensures c.isHost == (isHost.Some? && isHost.value)
  {
    CollaborationSession(id, sessionCode, [], None, isHost.GetOr(false), false)
  }
}
