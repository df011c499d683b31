/** What a command or a file of the repository refers to, as far as it can be told statically. The file
    system, the word splitter and the reference patterns are parameters. */
module Reachability {
  import opened Results
  import opened PolicyMatrix
  import opened ShellSegments
  import opened CommandParser

  type Path = string

  const ROOT: Path := "."

  /** What `root / dir / target` is: a file, a symbolic link, and where it resolves inside the repository. */
  datatype Place = Place(isFile: bool, isLink: bool, relative: Option<Path>)

  datatype Script = Script(name: string, command: string)

  datatype Package = Unreadable | NotJson | Scripts(scripts: seq<Script>)

  /** What the parser finds in a command besides nested commands. */
  datatype Targets = Targets(
    scripts: seq<string>, modules: seq<string>, paths: seq<Path>, uncertain: seq<ReviewRule>,
    dynamic: bool, unknownLocal: bool)

  /** What a readable file refers to: its Node.js modules, if it is a Node.js file, and its lines. */
  datatype Content = Content(dynamicModules: bool, modules: seq<Path>, lines: seq<Path>)

  datatype Repo = Repo(
    words: Words,
    targets: string -> Targets,
    place: (Path, Path) -> Place,
    isAbsolute: Path -> bool,
    parent: Path -> Path,
    packageIn: Path -> Option<Path>,     // the package.json of a directory
    packages: seq<Path>,                 // every package.json of the walk, in order
    package: Path -> Package,
    read: Path -> Option<Content>,       // `None` when it is too large, binary or unreadable
    moduleFiles: string -> seq<Path>,    // where a Python module may be
    nodeFiles: Path -> seq<Path>,        // where a Node.js module may be
    commandFile: Path -> Option<Path>)   // the file of the repository that a command line names, if it is one

  /** The words of a command are disjoint parts of it. */
  ghost predicate FaithfulSplitter(repo: Repo) {
    forall text :: FitsIn(repo.words.split(text), text)
  }

  predicate FitsIn(tokens: seq<string>, text: string) {
    |Join(tokens)| <= |text| && forall i :: 0 <= i < |tokens| ==> tokens[i] != ""
  }

  function Nested(repo: Repo, text: string): seq<string> {
    NestedCommands(repo.words.split(text), repo.words)
  }

  lemma NestedSegmentsAreShorter(repo: Repo, text: string)
    requires FaithfulSplitter(repo)
    ensures forall i, j :: 0 <= i < |Nested(repo, text)| && 0 <= j < |Split(Nested(repo, text)[i])| ==>
              |Split(Nested(repo, text)[i])[j]| < |text|
  {
    assert FitsIn(repo.words.split(text), text);
    NestedIsShorter(repo.words.split(text), repo.words);
    forall i | 0 <= i < |Nested(repo, text)|
      ensures forall j :: 0 <= j < |Split(Nested(repo, text)[i])| ==> |Split(Nested(repo, text)[i])[j]| < |text|
    {
      assert Nested(repo, text)[i] in Nested(repo, text);
      SegmentsAreNoLonger(Nested(repo, text)[i]);
    }
  }

  // ---------- where references go ----------

  datatype Target = Goes(file: Path) | Unresolved(rule: ReviewRule)

  /** `_resolve_candidate`. */
  function Candidate(repo: Repo, dir: Path, target: Path, fallback: Option<Path>): Place {
    var first := repo.place(dir, target);
    if first.isFile || fallback == None then first
    else
      var second := repo.place(fallback.value, target);
      if second.isFile then second else first
  }

  function TargetOf(repo: Repo, target: Path, dir: Path, fallback: Option<Path>): Target {
    if repo.isAbsolute(target) then Unresolved(ScriptTargetOutsideRepo)
    else
      var place := Candidate(repo, dir, target, fallback);
      if place.isLink then Unresolved(ScriptParseUncertain)
      else if place.relative == None then Unresolved(ScriptTargetOutsideRepo)
      else if !place.isFile then Unresolved(ScriptTargetMissing)
      else Goes(place.relative.value)
  }

  /** The first of the places that is a file. */
  function ModuleAmong(repo: Repo, files: seq<Path>, dir: Path): Target {
    if files == [] then Unresolved(ScriptTargetMissing)
    else if repo.place(dir, files[0]).isFile then TargetOf(repo, files[0], dir, None)
    else ModuleAmong(repo, files[1..], dir)
  }

  function ModuleTarget(repo: Repo, name: string, dir: Path): Target {
    ModuleAmong(repo, repo.moduleFiles(name), dir)
  }

  /** The first of the places that is a file, unless one before it leaves the repository. */
  function NodeAmong(repo: Repo, files: seq<Path>, dir: Path): Target {
    if files == [] then Unresolved(ScriptTargetMissing)
    else if repo.place(dir, files[0]).relative == None then Unresolved(ScriptTargetOutsideRepo)
    else if repo.place(dir, files[0]).isFile then TargetOf(repo, files[0], dir, None)
    else NodeAmong(repo, files[1..], dir)
  }

  function NodeTarget(repo: Repo, target: Path, dir: Path): Target {
    if repo.isAbsolute(target) then Unresolved(ScriptTargetOutsideRepo)
    else NodeAmong(repo, repo.nodeFiles(target), dir)
  }

  function Others(packages: seq<Path>, own: Option<Path>): seq<Path> {
    if packages == [] then []
    else (if own == Some(packages[0]) then [] else [packages[0]]) + Others(packages[1..], own)
  }

  /** The package files to search for a script, the one in the directory first. */
  function PackageFiles(repo: Repo, dir: Path): seq<Path> {
    var own := repo.packageIn(dir);
    (if own.Some? then [own.value] else []) + Others(repo.packages, own)
  }

  function Named(scripts: seq<Script>, names: set<string>): seq<Script> {
    if scripts == [] then []
    else (if scripts[0].name in names then [scripts[0]] else []) + Named(scripts[1..], names)
  }

  function ScriptsOf(repo: Repo, package: Path, names: set<string>): seq<Script> {
    match repo.package(package)
    case Scripts(scripts) => Named(scripts, names)
    case _ => []
  }

  /** The package file can be read and has no script of these names. */
  predicate Undeclared(repo: Repo, package: Path, names: set<string>) {
    repo.package(package).Scripts? && ScriptsOf(repo, package, names) == []
  }

  /** Nothing comes of looking for the scripts in these package files. `spent` says that the node budget is used up
      and that this was reported. */
  predicate ScriptsVanish(repo: Repo, files: seq<Path>, names: set<string>, spent: bool) {
    files == [] || (repo.package(files[0]).Scripts?
                    && if Undeclared(repo, files[0], names) then ScriptsVanish(repo, files[1..], names, spent) else spent)
  }

  /** All package files can be read, and none declares such a script, unless the budget was spent before the first that
      does. */
  lemma {:induction false} WhenScriptsVanish(repo: Repo, files: seq<Path>, names: set<string>, spent: bool)
    ensures ScriptsVanish(repo, files, names, spent) <==>
              || (forall i :: 0 <= i < |files| ==> Undeclared(repo, files[i], names))
              || (spent && exists k :: 0 <= k < |files| && FirstToDeclare(repo, files, names, k))
  {
    if files != [] {
      var rest := files[1..];
      WhenScriptsVanish(repo, rest, names, spent);
      assert forall i :: 0 <= i < |rest| ==> rest[i] == files[i + 1];
      if Undeclared(repo, files[0], names) {
        forall k | 0 < k < |files|
          ensures FirstToDeclare(repo, files, names, k) <==> FirstToDeclare(repo, rest, names, k - 1)
        {
          assert rest[k - 1] == files[k];
          assert forall i :: 0 < i < k ==> rest[i - 1] == files[i];
        }
        assert forall k :: 0 <= k < |rest| && FirstToDeclare(repo, rest, names, k) ==>
                             FirstToDeclare(repo, files, names, k + 1);
      } else {
        assert FirstToDeclare(repo, files, names, 0) <==> ScriptsOf(repo, files[0], names) != [];
      }
    }
  }

  /** The package files before this one can be read and declare none of the names, and this one declares one. */
  predicate FirstToDeclare(repo: Repo, files: seq<Path>, names: set<string>, k: nat)
    requires k < |files|
  {
    && ScriptsOf(repo, files[k], names) != []
    && forall i :: 0 <= i < k ==> Undeclared(repo, files[i], names)
  }

  /** The files of the repository that a command line names. What is no file is left out. */
  function Located(repo: Repo, targets: seq<Path>): (files: seq<Path>)
    ensures forall file :: file in files <==> exists i :: 0 <= i < |targets| && repo.commandFile(targets[i]) == Some(file)
  {
    if targets == [] then []
    else
      var init, last := Located(repo, targets[..|targets| - 1]), repo.commandFile(targets[|targets| - 1]);
      if last.Some? && last.value !in init then init + [last.value] else init
  }

  // ---------- the reference relation ----------

  datatype Item = Command(text: string, dir: Path) | File(path: Path)

  ghost predicate LeadsToNested(repo: Repo, text: string, dir: Path, to: Item) {
    exists i, j :: 0 <= i < |Nested(repo, text)| && 0 <= j < |Split(Nested(repo, text)[i])|
                   && to == Command(Split(Nested(repo, text)[i])[j], dir)
  }

  ghost predicate LeadsToScript(repo: Repo, name: string, dir: Path, to: Item) {
    exists i, j :: 0 <= i < |PackageFiles(repo, dir)| && 0 <= j < |ScriptsOf(repo, PackageFiles(repo, dir)[i], {name})|
                   && to == Command(ScriptsOf(repo, PackageFiles(repo, dir)[i], {name})[j].command,
                                    repo.parent(PackageFiles(repo, dir)[i]))
  }

  predicate LeadsTo(target: Target, to: Item) {
    target.Goes? && to == File(target.file)
  }

  /** `from` runs, loads or mentions `to`. */
  ghost predicate Leads(repo: Repo, from: Item, to: Item) {
    match from
    case Command(text, dir) =>
      var targets := repo.targets(text);
      || LeadsToNested(repo, text, dir, to)
      || (exists i :: 0 <= i < |targets.scripts| && LeadsToScript(repo, targets.scripts[i], dir, to))
      || (exists i :: 0 <= i < |targets.modules| && LeadsTo(ModuleTarget(repo, targets.modules[i], dir), to))
      || (exists i :: 0 <= i < |targets.paths| && LeadsTo(TargetOf(repo, targets.paths[i], dir, None), to))
    case File(path) =>
      && repo.read(path).Some?
      && var content := repo.read(path).value;
      || (exists i :: 0 <= i < |content.modules| && LeadsTo(NodeTarget(repo, content.modules[i], repo.parent(path)), to))
      || (exists i :: 0 <= i < |content.lines| &&
            LeadsTo(TargetOf(repo, content.lines[i], ROOT, Some(repo.parent(path))), to))
  }

  // ---------- settled items ----------

  /** The reference resolves, and to something seen. */
  predicate TargetSettled(target: Target, seen: set<Item>) {
    target.Goes? && File(target.file) in seen
  }

  predicate NestedSettled(nested: string, dir: Path, seen: set<Item>) {
    forall j :: 0 <= j < |Split(nested)| ==> Command(Split(nested)[j], dir) in seen
  }

  predicate PackageSettled(repo: Repo, package: Path, names: set<string>, seen: set<Item>) {
    && repo.package(package).Scripts?
    && forall j :: 0 <= j < |ScriptsOf(repo, package, names)| ==>
         Command(ScriptsOf(repo, package, names)[j].command, repo.parent(package)) in seen
  }

  predicate ScriptSettled(repo: Repo, name: string, dir: Path, seen: set<Item>) {
    forall i :: 0 <= i < |PackageFiles(repo, dir)| ==> PackageSettled(repo, PackageFiles(repo, dir)[i], {name}, seen)
  }

  predicate HasStaticReference(repo: Repo, text: string) {
    var targets := repo.targets(text);
    targets.paths != [] || Nested(repo, text) != [] || targets.scripts != [] || targets.modules != []
  }

  /** The command alone gives no reason for doubt. */
  predicate ClearCommand(repo: Repo, text: string) {
    var targets := repo.targets(text);
    targets.uncertain == [] && (HasStaticReference(repo, text) || !(targets.dynamic || targets.unknownLocal))
  }

  predicate ReferencesSettled(repo: Repo, text: string, dir: Path, seen: set<Item>) {
    var targets := repo.targets(text);
    && (forall i :: 0 <= i < |Nested(repo, text)| ==> NestedSettled(Nested(repo, text)[i], dir, seen))
    && (forall i :: 0 <= i < |targets.scripts| ==> ScriptSettled(repo, targets.scripts[i], dir, seen))
    && (forall i :: 0 <= i < |targets.modules| ==> TargetSettled(ModuleTarget(repo, targets.modules[i], dir), seen))
    && (forall i :: 0 <= i < |targets.paths| ==> TargetSettled(TargetOf(repo, targets.paths[i], dir, None), seen))
  }

  predicate CommandSettled(repo: Repo, text: string, dir: Path, seen: set<Item>) {
    ClearCommand(repo, text) && ReferencesSettled(repo, text, dir, seen)
  }

  predicate FileSettled(repo: Repo, path: Path, seen: set<Item>) {
    && repo.read(path).Some?
    && var content := repo.read(path).value;
    && !content.dynamicModules
    && (forall i :: 0 <= i < |content.modules| ==>
          TargetSettled(NodeTarget(repo, content.modules[i], repo.parent(path)), seen))
    && (forall i :: 0 <= i < |content.lines| ==>
          TargetSettled(TargetOf(repo, content.lines[i], ROOT, Some(repo.parent(path))), seen))
  }

  /** Everything the item refers to resolves, and was seen. */
  predicate Settled(repo: Repo, item: Item, seen: set<Item>) {
    match item
    case Command(text, dir) => CommandSettled(repo, text, dir, seen)
    case File(path) => FileSettled(repo, path, seen)
  }

  lemma ScriptStaysSettled(repo: Repo, name: string, dir: Path, seen: set<Item>, more: set<Item>)
    requires seen <= more && ScriptSettled(repo, name, dir, seen)
    ensures ScriptSettled(repo, name, dir, more)
  {
    forall i | 0 <= i < |PackageFiles(repo, dir)|
      ensures PackageSettled(repo, PackageFiles(repo, dir)[i], {name}, more)
    {
      assert PackageSettled(repo, PackageFiles(repo, dir)[i], {name}, seen);
    }
  }

  lemma StaysSettled(repo: Repo, item: Item, seen: set<Item>, more: set<Item>)
    requires seen <= more && Settled(repo, item, seen)
    ensures Settled(repo, item, more)
  {
    match item {
      case Command(text, dir) =>
        forall i | 0 <= i < |repo.targets(text).scripts|
          ensures ScriptSettled(repo, repo.targets(text).scripts[i], dir, more)
        {
          ScriptStaysSettled(repo, repo.targets(text).scripts[i], dir, seen, more);
        }
        forall i | 0 <= i < |Nested(repo, text)|
          ensures NestedSettled(Nested(repo, text)[i], dir, more)
        {
          assert NestedSettled(Nested(repo, text)[i], dir, seen);
        }
      case File(_) =>
    }
  }

  lemma SettledLeadsToSeen(repo: Repo, item: Item, to: Item, seen: set<Item>)
    requires Settled(repo, item, seen) && Leads(repo, item, to)
    ensures to in seen
  {
    match item {
      case Command(text, dir) =>
        var targets := repo.targets(text);
        if LeadsToNested(repo, text, dir, to) {
          var i, j :| 0 <= i < |Nested(repo, text)| && 0 <= j < |Split(Nested(repo, text)[i])|
                      && to == Command(Split(Nested(repo, text)[i])[j], dir);
          assert NestedSettled(Nested(repo, text)[i], dir, seen);
        } else if k :| 0 <= k < |targets.scripts| && LeadsToScript(repo, targets.scripts[k], dir, to) {
          var files := PackageFiles(repo, dir);
          var i, j :| 0 <= i < |files| && 0 <= j < |ScriptsOf(repo, files[i], {targets.scripts[k]})|
                      && to == Command(ScriptsOf(repo, files[i], {targets.scripts[k]})[j].command, repo.parent(files[i]));
          assert ScriptSettled(repo, targets.scripts[k], dir, seen);
          assert PackageSettled(repo, files[i], {targets.scripts[k]}, seen);
        }
      case File(_) =>
    }
  }

  // ---------- completeness ----------

  predicate AllSettled(repo: Repo, seen: set<Item>) {
    forall item :: item in seen ==> Settled(repo, item, seen)
  }

  ghost predicate IsChain(repo: Repo, chain: seq<Item>) {
    chain != [] && forall i :: 0 <= i < |chain| - 1 ==> Leads(repo, chain[i], chain[i + 1])
  }

  /** When everything seen is settled, whatever a seen item reaches, over any number of references, was
      seen too. */
  lemma {:induction false} ChainStaysSeen(repo: Repo, seen: set<Item>, chain: seq<Item>)
    requires AllSettled(repo, seen) && IsChain(repo, chain) && chain[0] in seen
    ensures chain[|chain| - 1] in seen
  {
    if |chain| > 1 {
      var init := chain[..|chain| - 1];
      forall i | 0 <= i < |init| - 1
        ensures Leads(repo, init[i], init[i + 1])
      {
        assert Leads(repo, chain[i], chain[i + 1]);
      }
      ChainStaysSeen(repo, seen, init);
      var last := |chain| - 2;
      assert Leads(repo, chain[last], chain[last + 1]);
      SettledLeadsToSeen(repo, chain[last], chain[last + 1], seen);
    }
  }
}
