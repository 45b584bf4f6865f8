/**
  `FileService`: the in-memory list of projects and the current project.

  Every `saveProjects()` call is counted in `saves`; what it writes to disk is
  not modelled. Fresh `UUID()`s and `Date()`s are parameters.
 */
module ProjectFiles {
  import opened Wrappers
  import opened Text
  import opened AppModels
  import opened Seqs

  datatype FileService = FileService(
    projects: seq<CodeProject>,
    currentProject: Option<CodeProject>,
    saves: nat)

  /** `currentProject?.id == id`. */
  predicate IsCurrent(s: FileService, id: Id) {
    s.currentProject.Some? && s.currentProject.value.id == id
  }

  /** `i` is the first project with id `id`. */
  predicate FirstWithId(ps: seq<CodeProject>, id: Id, i: nat) {
    i < |ps| && ps[i].id == id && forall k :: 0 <= k < i ==> ps[k].id != id
  }

  /** The project holds a file with id `fid`. */
  predicate HasFile(p: CodeProject, fid: Id) {
    exists j :: 0 <= j < |p.files| && p.files[j].id == fid
  }

  /** `i` is the first project holding a file with id `fid`. */
  predicate FirstHolding(ps: seq<CodeProject>, fid: Id, i: nat) {
    i < |ps| && HasFile(ps[i], fid) && forall k :: 0 <= k < i ==> !HasFile(ps[k], fid)
  }

  /** `j` is the first file with id `fid`. */
  predicate FirstFile(fs: seq<CodeFile>, fid: Id, j: nat) {
    j < |fs| && fs[j].id == fid && forall k :: 0 <= k < j ==> fs[k].id != fid
  }

  /** The current project, when there is one, is one of the stored projects. */
  predicate CurrentStored(s: FileService) {
    s.currentProject.Some? ==> s.currentProject.value in s.projects
  }

  /** Only project `i` differs between `ps` and `ps'`. */
  predicate OthersUnchanged(ps: seq<CodeProject>, ps': seq<CodeProject>, i: nat) {
    |ps'| == |ps| && forall k :: 0 <= k < |ps| && k != i ==> ps'[k] == ps[k]
  }

  /** `createProject(name:)`: appends a new empty project and returns it. */
  function CreateProject(s: FileService, id: Id, name: String, now: Time): (res: (FileService, CodeProject))
    ensures res.1.id == id && res.1.name == name && res.1.files == []
    ensures res.1.createdDate == now && res.1.lastModified == now
    ensures res.0.projects == s.projects + [res.1]
    ensures res.0.currentProject == s.currentProject && res.0.saves == s.saves + 1
  {
    var p := NewCodeProject(id, name, None, now);
    (s.(projects := s.projects + [p], saves := s.saves + 1), p)
  }

  /** `deleteProject`: removes every project with the given id, keeping the rest
      in order. If the current project had that id, the first remaining project
      (if any) becomes current. */
  function DeleteProject(s: FileService, p: CodeProject): (s': FileService)
    ensures forall x :: x in s'.projects <==> x in s.projects && x.id != p.id
    ensures Subseq(s'.projects, s.projects)
    ensures forall x :: Count(s'.projects, x) == if x.id != p.id then Count(s.projects, x) else 0
    ensures IsCurrent(s, p.id) ==>
      s'.currentProject == (if |s'.projects| == 0 then None else Some(s'.projects[0]))
    ensures !IsCurrent(s, p.id) ==> s'.currentProject == s.currentProject
    ensures s'.saves == s.saves + 1
  {
    var keep := (x: CodeProject) => x.id != p.id;
    FilterMembers(s.projects, keep);
    FilterSubseq(s.projects, keep);
    FilterCount(s.projects, keep);
    var ps := Filter(s.projects, keep);
    FileService(ps, if IsCurrent(s, p.id) then First(ps) else s.currentProject, s.saves + 1)
  }

  /** Deleting a project id that is not stored keeps the list as it was. */
  lemma DeleteProjectAbsent(s: FileService, p: CodeProject)
    requires forall k :: 0 <= k < |s.projects| ==> s.projects[k].id != p.id
    ensures DeleteProject(s, p).projects == s.projects
  {
    FilterAll(s.projects, (x: CodeProject) => x.id != p.id);
  }

  /** `createFile(in:name:language:)`: a new empty file is appended to the first
      project with the given id, which is touched, and refreshed as current if
      it is current. The file is returned whether or not the project exists;
      without the project nothing changes and nothing is saved. */
  function CreateFile(s: FileService, p: CodeProject, fid: Id, name: String,
                      language: ProgrammingLanguage, now: Time): (res: (FileService, CodeFile))
    ensures var f := res.1;
      f.id == fid && f.name == name && f.content == [] && f.language == language && f.breakpoints == []
    ensures (forall k :: 0 <= k < |s.projects| ==> s.projects[k].id != p.id) ==> res.0 == s
    ensures forall i: nat :: FirstWithId(s.projects, p.id, i) ==>
      && OthersUnchanged(s.projects, res.0.projects, i)
      && res.0.projects[i] == s.projects[i].(files := s.projects[i].files + [res.1], lastModified := now)
      && (IsCurrent(s, p.id) ==> res.0.currentProject == Some(res.0.projects[i]))
      && (!IsCurrent(s, p.id) ==> res.0.currentProject == s.currentProject)
      && res.0.saves == s.saves + 1
  {
    var f := NewCodeFile(fid, name, None, Some(language), now);
    match FirstIndex(s.projects, (x: CodeProject) => x.id == p.id)
    case None => (s, f)
    case Some(i) =>
      var q := s.projects[i].(files := s.projects[i].files + [f], lastModified := now);
      (FileService(s.projects[i := q], if IsCurrent(s, p.id) then Some(q) else s.currentProject, s.saves + 1), f)
  }

  /** The file with its new content and modification time. */
  function Edited(f: CodeFile, content: String, now: Time): CodeFile {
    f.(content := content, lastModified := now)
  }

  /** `updateFile(_:content:)`: in the first project holding a file with that
      id, the first such file gets the new content; the project is touched and
      refreshed as current if the current project has its id. An unknown file
      changes nothing. */
  function UpdateFile(s: FileService, f: CodeFile, content: String, now: Time): (s': FileService)
    ensures (forall k :: 0 <= k < |s.projects| ==> !HasFile(s.projects[k], f.id)) ==> s' == s
    ensures forall i: nat, j: nat :: FirstHolding(s.projects, f.id, i) && FirstFile(s.projects[i].files, f.id, j) ==>
      && OthersUnchanged(s.projects, s'.projects, i)
      && var old_p, new_p := s.projects[i], s'.projects[i];
      && new_p == old_p.(files := old_p.files[j := Edited(old_p.files[j], content, now)], lastModified := now)
      && (IsCurrent(s, old_p.id) ==> s'.currentProject == Some(new_p))
      && (!IsCurrent(s, old_p.id) ==> s'.currentProject == s.currentProject)
      && s'.saves == s.saves + 1
  {
    match FirstIndex(s.projects, (x: CodeProject) => HasFile(x, f.id))
    case None => s
    case Some(i) =>
      var p := s.projects[i];
      match FirstIndex(p.files, (y: CodeFile) => y.id == f.id)
      case None => s
      case Some(j) =>
        var q := p.(files := p.files[j := Edited(p.files[j], content, now)], lastModified := now);
        FileService(s.projects[i := q], if IsCurrent(s, p.id) then Some(q) else s.currentProject, s.saves + 1)
  }

  /** `deleteFile(_:from:)`: every file with that id leaves the first project
      with the given id, which is touched and refreshed as current if it is
      current. An unknown project changes nothing. */
  function DeleteFile(s: FileService, f: CodeFile, p: CodeProject, now: Time): (s': FileService)
    ensures (forall k :: 0 <= k < |s.projects| ==> s.projects[k].id != p.id) ==> s' == s
    ensures forall i: nat :: FirstWithId(s.projects, p.id, i) ==>
      && OthersUnchanged(s.projects, s'.projects, i)
      && var old_p, new_p := s.projects[i], s'.projects[i];
      && new_p.id == old_p.id && new_p.name == old_p.name && new_p.createdDate == old_p.createdDate
      && new_p.lastModified == now
      && (forall x :: x in new_p.files <==> x in old_p.files && x.id != f.id)
      && Subseq(new_p.files, old_p.files)
      && (forall x :: Count(new_p.files, x) == if x.id != f.id then Count(old_p.files, x) else 0)
      && (IsCurrent(s, p.id) ==> s'.currentProject == Some(new_p))
      && (!IsCurrent(s, p.id) ==> s'.currentProject == s.currentProject)
      && s'.saves == s.saves + 1
  {
    match FirstIndex(s.projects, (x: CodeProject) => x.id == p.id)
    case None => s
    case Some(i) =>
      var keep := (y: CodeFile) => y.id != f.id;
      FilterMembers(s.projects[i].files, keep);
      FilterSubseq(s.projects[i].files, keep);
      FilterCount(s.projects[i].files, keep);
      var q := s.projects[i].(files := Filter(s.projects[i].files, keep), lastModified := now);
      FileService(s.projects[i := q], if IsCurrent(s, p.id) then Some(q) else s.currentProject, s.saves + 1)
  }

  /** `setCurrentProject`: any project may be made current; nothing is saved. */
  function SetCurrentProject(s: FileService, p: CodeProject): (s': FileService)
    ensures s'.currentProject == Some(p) && s'.projects == s.projects && s'.saves == s.saves
  {
    s.(currentProject := Some(p))
  }

  const WelcomeSource: String :=
    "import SwiftUI\n\nstruct WelcomeView: View {\n    var body: some View {\n"
    + "        VStack(spacing: 20) {\n            Text(\"Welcome to NeoCoder Road!\")\n"
    + "                .font(.largeTitle)\n                .fontWeight(.bold)\n            \n"
    + "            Text(\"Your powerful code editor and debugger\")\n"
    + "                .font(.title2)\n                .foregroundColor(.secondary)\n            \n"
    + "            Button(\"Start Coding\") {\n                // Your code here\n"
    + "                print(\"Ready to code!\")\n            }\n"
    + "            .buttonStyle(.borderedProminent)\n        }\n        .padding()\n    }\n}"

  const ExampleJsSource: String :=
    "// JavaScript Example\nfunction fibonacci(n) {\n    if (n <= 1) return n;\n"
    + "    return fibonacci(n - 1) + fibonacci(n - 2);\n}\n\n"
    + "console.log(\"Fibonacci sequence:\");\nfor (let i = 0; i < 10; i++) {\n"
    + "    console.log(`F(${i}) = ${fibonacci(i)}`);\n}"

  /** `createSampleProject`'s project, with its two files. */
  function SampleProject(pid: Id, welcomeId: Id, jsId: Id, now: Time): (p: CodeProject)
    ensures p.id == pid && p.name == "Welcome to NeoCoder" && |p.files| == 2
    ensures p.files[0].name == "Welcome.swift" && p.files[0].language == Swift
    ensures p.files[1].name == "example.js" && p.files[1].language == JavaScript
  {
    var welcome := NewCodeFile(welcomeId, "Welcome.swift", Some(WelcomeSource), Some(Swift), now);
    var js := NewCodeFile(jsId, "example.js", Some(ExampleJsSource), Some(JavaScript), now);
    NewCodeProject(pid, "Welcome to NeoCoder", Some([welcome, js]), now)
  }

  /** `init()`: `loaded` is what `loadProjects` decoded (`None` when there is no
      file or it does not decode). A non-empty list is kept, its first project
      current, and nothing is saved. Otherwise the sample project is the only
      project, it is current, and it is saved once. */
  function Init(loaded: Option<seq<CodeProject>>, pid: Id, welcomeId: Id, jsId: Id, now: Time): (s: FileService)
    ensures loaded.Some? && |loaded.value| > 0 ==>
      s.projects == loaded.value && s.currentProject == Some(loaded.value[0]) && s.saves == 0
    ensures !(loaded.Some? && |loaded.value| > 0) ==>
      && s.projects == [SampleProject(pid, welcomeId, jsId, now)]
      && s.currentProject == Some(s.projects[0]) && s.saves == 1
    ensures CurrentStored(s)
  {
    var ps := loaded.GetOr([]);
    var s := FileService(ps, First(ps), 0);
    if |s.projects| > 0 then s
    else
      var sample := [SampleProject(pid, welcomeId, jsId, now)];
      FileService(sample, First(sample), 1)
  }

  /** Creating and deleting projects keeps the current project among the
      stored ones. */
  lemma ProjectsKeepCurrentStored(s: FileService, p: CodeProject, id: Id, name: String, now: Time)
    requires CurrentStored(s)
    ensures CurrentStored(CreateProject(s, id, name, now).0)
    ensures CurrentStored(DeleteProject(s, p))
  {
  }

  /** An operation that rewrites only project `i`, and refreshes the current
      project exactly when it has that project's id, keeps the current project
      stored. */
  lemma StoredAfterEdit(s: FileService, s': FileService, i: nat)
    requires CurrentStored(s) && i < |s.projects|
    requires OthersUnchanged(s.projects, s'.projects, i)
    requires IsCurrent(s, s.projects[i].id) ==> s'.currentProject == Some(s'.projects[i])
    requires !IsCurrent(s, s.projects[i].id) ==> s'.currentProject == s.currentProject
    ensures CurrentStored(s')
  {
    if s.currentProject.Some? {
      var k :| 0 <= k < |s.projects| && s.projects[k] == s.currentProject.value;
      if IsCurrent(s, s.projects[i].id) {
        assert s'.projects[i] in s'.projects;
      } else {
        assert k != i && s'.projects[k] == s.projects[k];
      }
    }
  }

  /** Creating, updating and deleting files keeps the current project among the
      stored ones. */
  lemma FilesKeepCurrentStored(s: FileService, p: CodeProject, f: CodeFile, fid: Id, name: String,
                               language: ProgrammingLanguage, content: String, now: Time)
    requires CurrentStored(s)
    ensures CurrentStored(CreateFile(s, p, fid, name, language, now).0)
    ensures CurrentStored(UpdateFile(s, f, content, now))
    ensures CurrentStored(DeleteFile(s, f, p, now))
  {
    match FirstIndex(s.projects, (x: CodeProject) => x.id == p.id)
    case None =>
    case Some(i) =>
      assert FirstWithId(s.projects, p.id, i);
      StoredAfterEdit(s, CreateFile(s, p, fid, name, language, now).0, i);
      StoredAfterEdit(s, DeleteFile(s, f, p, now), i);
    match FirstIndex(s.projects, (x: CodeProject) => HasFile(x, f.id))
    case None =>
    case Some(i) =>
      var fs := s.projects[i].files;
      match FirstIndex(fs, (y: CodeFile) => y.id == f.id)
      case None =>
      case Some(j) =>
        assert FirstHolding(s.projects, f.id, i) && FirstFile(fs, f.id, j);
        StoredAfterEdit(s, UpdateFile(s, f, content, now), i);
  }
}
