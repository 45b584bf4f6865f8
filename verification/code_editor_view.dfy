/**
  The rules inside `CodeEditorView`'s sheets and file list: the name a new
  file gets, the empty-name guards of the create buttons, and the line count
  shown beside each file. The sheets' layout is not modelled.
 */
module CodeEditorSheets {
  import opened Wrappers
  import opened Text
  import opened AppModels
  import opened LineIndex
  import opened ProjectFiles
  import opened EditorViewModel

  /** `fullFileName`: a name that already has a '.' is kept; any other name gets
      the language's extension. */
  function FullFileName(name: String, language: ProgrammingLanguage): (r: String)
    ensures '.' in r
    ensures '.' in name ==> r == name
    ensures '.' !in name ==> |r| > |name| && r[..|name|] == name && r[|name|..] == FileExtension(language)
  {
    if '.' in name then name else name + FileExtension(language)
  }

  /** The name is never changed twice: a full name is already full, whatever
      language is picked the second time. */
  lemma FullFileNameIdempotent(name: String, l1: ProgrammingLanguage, l2: ProgrammingLanguage)
    ensures FullFileName(FullFileName(name, l1), l2) == FullFileName(name, l1)
  {
  }

  /** For a name without a '.', the first '.' of the full name sits right after
      the typed name, and what follows it names the language. */
  lemma FullFileNameNamesLanguage(name: String, l1: ProgrammingLanguage, l2: ProgrammingLanguage)
    requires '.' !in name
    ensures FullFileName(name, l1)[|name|] == '.'
    ensures forall k :: 0 <= k < |name| ==> FullFileName(name, l1)[k] != '.'
    ensures FullFileName(name, l1) == FullFileName(name, l2) <==> l1 == l2
  {
    var r1, r2 := FullFileName(name, l1), FullFileName(name, l2);
    assert r1[..|name|] == name;
    if l1 != l2 {
      FileExtensionInjective(l1, l2);
      assert r1[|name|..] != r2[|name|..];
    }
  }

  /** The `Create` button of `CreateFileSheet`: `onCreate` is called with the full
      name and the language exactly when the typed name is non-empty. */
  function CreateFileRequest(fileName: String, language: ProgrammingLanguage): (r: Option<(String, ProgrammingLanguage)>)
    ensures r.Some? <==> fileName != []
    ensures r.Some? ==> '.' in r.value.0 && r.value.1 == language
    ensures r.Some? && '.' in fileName ==> r.value.0 == fileName
  {
    if fileName != [] then Some((FullFileName(fileName, language), language)) else None
  }

  /** The `Create` button of `CreateProjectSheet`: `onCreate` gets the name
      exactly when it is non-empty. */
  function CreateProjectRequest(projectName: String): (r: Option<String>)
    ensures r.Some? <==> projectName != []
    ensures r.Some? ==> r.value == projectName
  {
    if projectName != [] then Some(projectName) else None
  }

  /** `FileSelector`'s create-project sheet driving the file service: an empty
      name changes nothing; any other name appends one empty project. */
  function SubmitProject(s: FileService, projectName: String, id: Id, now: Time): (s': FileService)
    ensures projectName == [] ==> s' == s
    ensures projectName != [] ==>
      && |s'.projects| == |s.projects| + 1 && s'.projects[..|s.projects|] == s.projects
      && s'.projects[|s.projects|].name == projectName && s'.projects[|s.projects|].files == []
      && s'.saves == s.saves + 1
  {
    match CreateProjectRequest(projectName)
    case None => s
    case Some(name) =>
      var s1 := CreateProject(s, id, name, now).0;
      assert s1.projects[..|s.projects|] == s.projects;
      s1
  }

  /** `FileSelector`'s create-file sheet driving the file service: an empty name
      changes nothing; any other name adds a file whose name has a '.' at the end
      of the first stored project with the project's id. */
  function SubmitFile(s: FileService, p: CodeProject, fileName: String, language: ProgrammingLanguage,
                      fid: Id, now: Time): (s': FileService)
    ensures fileName == [] ==> s' == s
    ensures forall i: nat :: fileName != [] && FirstWithId(s.projects, p.id, i) ==>
      && OthersUnchanged(s.projects, s'.projects, i)
      && |s'.projects[i].files| == |s.projects[i].files| + 1
      && var f := s'.projects[i].files[|s.projects[i].files|];
         f.id == fid && f.content == [] && f.language == language && '.' in f.name
         && ('.' in fileName ==> f.name == fileName)
  {
    match CreateFileRequest(fileName, language)
    case None => s
    case Some((name, l)) => CreateFile(s, p, fid, name, l, now).0
  }

  /** The "N lines" label of a file in `FileSelector`. */
  function LineCountLabel(content: String): (n: nat)
    ensures n == 1 + CountNewlines(content)
  {
    |Split(content)|
  }

  /** The label counts the lines the editor numbers once the file is open. */
  lemma LineCountMatchesGutter(e: Editor, f: CodeFile)
    ensures LineCountLabel(f.content) == |SetCurrentFile(e, f).lineNumbers|
    ensures LineCountLabel(f.content) == |LineNumbers(f.content)|
  {
  }
}
