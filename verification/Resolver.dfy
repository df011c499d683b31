/** `ReachabilityResolver`: the depth-first explorer that builds the execution graph under a node budget
    and a depth limit. */
module Resolver {
  import opened Results
  import opened PolicyMatrix
  import opened ShellSegments
  import opened CommandParser
  import opened Reachability

  const MAX_CHAIN_DEPTH := 5
  const MAX_NODES := 100
  const LIFECYCLE_SCRIPTS := {"preinstall", "install", "postinstall", "prepare", "prepack", "postpack"}

  datatype Kind = CommandNode | PackageScriptNode | FileNode | MakefileNode

  datatype Node = Node(id: nat, kind: Kind, title: string, file: Option<Path>)

  datatype Edge = Edge(source: nat, target: nat)

  datatype Uncertainty = Uncertainty(rule: ReviewRule, file: Option<Path>, about: string)

  /** What a planned command starts from; which files a build tool reads is a parameter. */
  datatype Start =
    | Install(rubyFiles: seq<Path>)
    | RunCommand
    | Containers(files: seq<ContainerFile>)
    | RunBuild(steps: seq<BuildStep>)
    | NothingToFollow

  datatype ContainerFile = Dockerfile(path: Path) | ComposeFile(path: Path, references: Option<seq<Path>>)

  /** What one segment of a build command reads. `NamedFiles` are those that the command line names, as with `mvn -f`;
      `ProjectDirectory` is `None` when the directory that it names, as with `gradle -p`, cannot be used. */
  datatype BuildStep =
    | RubyFiles(files: seq<Path>)
    | RunScript(name: string)
    | MakeFiles(files: seq<Path>)
    | ProjectFiles(files: seq<Path>)
    | NamedFiles(targets: seq<Path>)
    | ProjectDirectory(directory: Option<seq<Path>>)

  /** The graph and the explorer's memory. `seen` lists what it has begun to follow. */
  datatype Progress = Progress(
    nodes: seq<Node>, edges: seq<Edge>, uncertainties: seq<Uncertainty>, visited: set<Path>, exhausted: bool,
    seen: set<Item>)

  function BudgetReports(uncertainties: seq<Uncertainty>): nat {
    if uncertainties == [] then 0
    else
      BudgetReports(uncertainties[..|uncertainties| - 1])
      + if uncertainties[|uncertainties| - 1].rule == ScriptNodeBudgetExceeded then 1 else 0
  }

  /** Node ids count from one in order; each node but the first has exactly one incoming edge, and it comes
      from an earlier node. */
  predicate IsTree(nodes: seq<Node>, edges: seq<Edge>) {
    && |nodes| == |edges| + 1
    && (forall i :: 0 <= i < |nodes| ==> nodes[i].id == i + 1)
    && (forall i :: 0 <= i < |edges| ==> edges[i].target == i + 2 && 1 <= edges[i].source <= i + 1)
  }

  predicate HasNode(nodes: seq<Node>, path: Path) {
    exists i :: 0 <= i < |nodes| && nodes[i].file == Some(path)
  }

  predicate OnlyUncertainties(uncertainties: seq<Uncertainty>) {
    forall i :: 0 <= i < |uncertainties| ==> uncertainties[i].rule in UNCERTAINTY_RULES
  }

  ghost predicate Sound(p: Progress) {
    && IsTree(p.nodes, p.edges)
    && |p.nodes| <= MAX_NODES
    && BudgetReports(p.uncertainties) == (if p.exhausted then 1 else 0)
    && OnlyUncertainties(p.uncertainties)
    && (forall path :: path in p.visited ==> HasNode(p.nodes, path))
    && (forall path :: File(path) in p.seen <==> path in p.visited)
  }

  predicate SettledSince(repo: Repo, before: set<Item>, after: set<Item>) {
    forall item :: item in after && item !in before ==> Settled(repo, item, after)
  }

  /** Nothing is taken back, and unless something is uncertain, whatever was begun since is settled. */
  ghost predicate Grew(repo: Repo, p: Progress, p': Progress) {
    && p.nodes <= p'.nodes && p.edges <= p'.edges && p.uncertainties <= p'.uncertainties
    && p.visited <= p'.visited && p.seen <= p'.seen
    && (p.exhausted ==> p'.exhausted)
    && (p'.uncertainties == [] ==> SettledSince(repo, p.seen, p'.seen))
  }

  lemma GrewAgain(repo: Repo, p: Progress, p': Progress, p'': Progress)
    requires Grew(repo, p, p') && Grew(repo, p', p'')
    ensures Grew(repo, p, p'')
  {
    if p''.uncertainties == [] {
      forall item | item in p''.seen && item !in p.seen
        ensures Settled(repo, item, p''.seen)
      {
        if item in p'.seen {
          StaysSettled(repo, item, p'.seen, p''.seen);
        }
      }
    }
  }

  lemma MoreNodesStillHave(nodes: seq<Node>, more: seq<Node>, path: Path)
    requires nodes <= more && HasNode(nodes, path)
    ensures HasNode(more, path)
  {
    var i :| 0 <= i < |nodes| && nodes[i].file == Some(path);
    assert more[i] == nodes[i];
  }

  /** What became of one reference: a node with its edge from the parent, or an uncertainty, the one about
      the budget included. */
  ghost predicate Followed(p: Progress, p': Progress, parent: nat, target: Target) {
    || (&& target.Goes?
        && |p.nodes| < |p'.nodes| && |p.edges| < |p'.edges|
        && p'.nodes[|p.nodes|].file == Some(target.file)
        && p'.edges[|p.edges|] == Edge(parent, p'.nodes[|p.nodes|].id))
    || |p'.uncertainties| > |p.uncertainties|
    || p'.exhausted
  }

  function Reported(p: Progress, uncertainty: Uncertainty): Progress {
    p.(uncertainties := p.uncertainties + [uncertainty])
  }

  /** The budget is reported the first time it is missing. */
  function OutOfBudget(p: Progress, file: Option<Path>, pending: string): Progress {
    if p.exhausted then p
    else p.(exhausted := true,
            uncertainties := p.uncertainties + [Uncertainty(ScriptNodeBudgetExceeded, file, pending)])
  }

  /** What following one target adds first: the uncertainty that names the first failing check, or a file
      node with its edge from the parent. */
  ghost predicate FollowedTarget(p: Progress, p': Progress, parent: Node, depth: nat, target: Target, about: string) {
    if depth >= MAX_CHAIN_DEPTH then
      p' == Reported(p, Uncertainty(ScriptChainDepthExceeded, parent.file, about))
    else if |p.nodes| >= MAX_NODES then
      p' == OutOfBudget(p, parent.file, about)
    else
      match target
      case Unresolved(rule) => p' == Reported(p, Uncertainty(rule, parent.file, about))
      case Goes(file) => AddedFirst(p, p', parent, FileNode, file, file)
  }

  /** One more node, with its edge from the parent. */
  function WithChild(p: Progress, parent: Node, kind: Kind, title: string, file: Path): Progress {
    p.(nodes := p.nodes + [Node(|p.nodes| + 1, kind, title, Some(file))],
       edges := p.edges + [Edge(parent.id, |p.nodes| + 1)])
  }

  /** The budget is used up, and that was reported: from now on nothing can be added. */
  predicate Spent(p: Progress) {
    |p.nodes| >= MAX_NODES && p.exhausted
  }

  /** There is such a node with an edge from the parent. */
  ghost predicate HasChild(nodes: seq<Node>, edges: seq<Edge>, parent: nat, kind: Kind, title: string, file: Path) {
    exists k :: 0 < k < |nodes| && IsChildAt(nodes, edges, parent, kind, title, file, k)
  }

  predicate IsChildAt(nodes: seq<Node>, edges: seq<Edge>, parent: nat, kind: Kind, title: string, file: Path, k: nat)
    requires 0 < k < |nodes|
  {
    k <= |edges| && nodes[k] == Node(k + 1, kind, title, Some(file)) && edges[k - 1] == Edge(parent, k + 1)
  }

  ghost predicate HaveChildren(nodes: seq<Node>, edges: seq<Edge>, parent: nat, scripts: seq<Script>, package: Path) {
    forall j :: 0 <= j < |scripts| ==> HasChild(nodes, edges, parent, PackageScriptNode, scripts[j].name, package)
  }

  lemma ChildStays(
    nodes: seq<Node>, edges: seq<Edge>, nodes': seq<Node>, edges': seq<Edge>, parent: nat, kind: Kind, title: string,
    file: Path)
    requires nodes <= nodes' && edges <= edges' && HasChild(nodes, edges, parent, kind, title, file)
    ensures HasChild(nodes', edges', parent, kind, title, file)
  {
    var k :| 0 < k < |nodes| && IsChildAt(nodes, edges, parent, kind, title, file, k);
    assert IsChildAt(nodes', edges', parent, kind, title, file, k);
  }

  lemma ChildrenStay(
    nodes: seq<Node>, edges: seq<Edge>, nodes': seq<Node>, edges': seq<Edge>, parent: nat, scripts: seq<Script>,
    package: Path)
    requires nodes <= nodes' && edges <= edges' && HaveChildren(nodes, edges, parent, scripts, package)
    ensures HaveChildren(nodes', edges', parent, scripts, package)
  {
    forall j | 0 <= j < |scripts|
      ensures HasChild(nodes', edges', parent, PackageScriptNode, scripts[j].name, package)
    {
      ChildStays(nodes, edges, nodes', edges', parent, PackageScriptNode, scripts[j].name, package);
    }
  }

  /** What running scripts one after the other does. Unless the budget runs out each gets its node, and unless there
      are none, or the budget was spent before, something is added. */
  ghost predicate RanScripts(
    repo: Repo, p: Progress, p': Progress, parent: Node, scripts: seq<Script>, package: Path, more: bool)
  {
    && Grew(repo, p, p')
    && (p'.uncertainties == [] ==>
          more && forall i :: 0 <= i < |scripts| ==> Command(scripts[i].command, repo.parent(package)) in p'.seen)
    && (!p'.exhausted ==> more && HaveChildren(p'.nodes, p'.edges, parent.id, scripts, package))
    && (p' == p <==> scripts == [] || Spent(p))
    && (p' == p ==> (more <==> scripts == []))
  }

  lemma OneMoreRan(
    repo: Repo, p: Progress, p': Progress, p'': Progress, parent: Node, scripts: seq<Script>, i: nat, package: Path)
    requires i < |scripts| && IsTree(p'.nodes, p'.edges) && |p'.nodes| < MAX_NODES
    requires RanScripts(repo, p, p', parent, scripts[..i], package, true) && Grew(repo, p', p'')
    requires p''.uncertainties == [] ==> Command(scripts[i].command, repo.parent(package)) in p''.seen
    requires AddedFirst(p', p'', parent, PackageScriptNode, scripts[i].name, package)
    ensures RanScripts(repo, p, p'', parent, scripts[..i + 1], package, true)
  {
    GrewAgain(repo, p, p', p'');
    OneMoreScript(p', p'', parent, scripts, i, package);
  }

  lemma BudgetEndsRun(
    repo: Repo, p: Progress, p': Progress, p'': Progress, parent: Node, scripts: seq<Script>, i: nat, package: Path)
    requires i < |scripts| && |p'.nodes| >= MAX_NODES
    requires RanScripts(repo, p, p', parent, scripts[..i], package, true) && Grew(repo, p', p'')
    requires p''.uncertainties != [] && p'' == OutOfBudget(p', Some(package), scripts[i].name)
    ensures RanScripts(repo, p, p'', parent, scripts, package, false)
  {
    GrewAgain(repo, p, p', p'');
    GrowthStays(repo, p, p', p'');
  }

  lemma OneMoreScript(
    before: Progress, after: Progress, parent: Node, scripts: seq<Script>, i: nat, package: Path)
    requires i < |scripts| && IsTree(before.nodes, before.edges)
    requires AddedFirst(before, after, parent, PackageScriptNode, scripts[i].name, package)
    ensures HaveChildren(before.nodes, before.edges, parent.id, scripts[..i], package) ==>
              HaveChildren(after.nodes, after.edges, parent.id, scripts[..i + 1], package)
    ensures |before.nodes| < |after.nodes|
  {
    FirstAddedIsChild(before, after, parent, PackageScriptNode, scripts[i].name, package);
    if HaveChildren(before.nodes, before.edges, parent.id, scripts[..i], package) {
      ChildrenStay(before.nodes, before.edges, after.nodes, after.edges, parent.id, scripts[..i], package);
      assert forall j :: 0 <= j < i ==> scripts[..i + 1][j] == scripts[..i][j];
    }
  }

  /** What running the scripts of the first `i` package files does, as long as the budget is not used up. */
  ghost predicate RanPackages(
    repo: Repo, p: Progress, p': Progress, parent: nat, files: seq<Path>, i: nat, names: set<string>)
    requires i <= |files|
  {
    && Grew(repo, p, p')
    && (p'.uncertainties == [] ==> forall k :: 0 <= k < i ==> PackageSettled(repo, files[k], names, p'.seen))
    && (!p'.exhausted ==>
          forall k :: 0 <= k < i ==> HaveChildren(p'.nodes, p'.edges, parent, ScriptsOf(repo, files[k], names), files[k]))
    && (ScriptsVanish(repo, files, names, Spent(p)) <==> p' == p && ScriptsVanish(repo, files[i..], names, Spent(p)))
  }

  /** One package file more. If the budget is used up there, that is the end. */
  lemma OneMorePackage(
    repo: Repo, p: Progress, p': Progress, p'': Progress, parent: nat, files: seq<Path>, i: nat, names: set<string>,
    more: bool)
    requires i < |files| && RanPackages(repo, p, p', parent, files, i, names)
    requires Grew(repo, p', p'') && Grew(repo, p, p'')
    requires p''.uncertainties == [] ==> more && PackageSettled(repo, files[i], names, p''.seen)
    requires var scripts := ScriptsOf(repo, files[i], names);
             && (!p''.exhausted ==> more && HaveChildren(p''.nodes, p''.edges, parent, scripts, files[i]))
             && (p'' == p' <==> repo.package(files[i]).Scripts? && (scripts == [] || Spent(p')))
             && (p'' == p' ==> (more <==> scripts == []))
    ensures if more then RanPackages(repo, p, p'', parent, files, i + 1, names)
            else p'' == p <==> ScriptsVanish(repo, files, names, Spent(p))
  {
    GrowthStays(repo, p, p', p'');
    assert files[i..][1..] == files[i + 1..];
    if more && !p''.exhausted {
      forall k | 0 <= k < i
        ensures HaveChildren(p''.nodes, p''.edges, parent, ScriptsOf(repo, files[k], names), files[k])
      {
        ChildrenStay(p'.nodes, p'.edges, p''.nodes, p''.edges, parent, ScriptsOf(repo, files[k], names), files[k]);
      }
    }
  }

  lemma FirstAddedIsChild(p: Progress, p': Progress, parent: Node, kind: Kind, title: string, file: Path)
    requires IsTree(p.nodes, p.edges) && AddedFirst(p, p', parent, kind, title, file)
    ensures HasChild(p'.nodes, p'.edges, parent.id, kind, title, file)
  {
    var k := |p.nodes|;
    assert (p.nodes + [Node(k + 1, kind, title, Some(file))])[k] == p'.nodes[k];
    assert (p.edges + [Edge(parent.id, k + 1)])[k - 1] == p'.edges[k - 1];
    assert IsChildAt(p'.nodes, p'.edges, parent.id, kind, title, file, k);
  }

  /** What is added stays added. */
  lemma GrowthStays(repo: Repo, p: Progress, p': Progress, p'': Progress)
    requires Grew(repo, p, p') && Grew(repo, p', p'')
    ensures p'' == p ==> p' == p
  {}

  ghost predicate AddedFirst(p: Progress, p': Progress, parent: Node, kind: Kind, title: string, file: Path) {
    && p.nodes + [Node(|p.nodes| + 1, kind, title, Some(file))] <= p'.nodes
    && p.edges + [Edge(parent.id, |p.nodes| + 1)] <= p'.edges
  }

  lemma StaysFirst(
    repo: Repo, p: Progress, added: Progress, p': Progress, parent: Node, kind: Kind, title: string, file: Path)
    requires AddedFirst(p, added, parent, kind, title, file) && Grew(repo, added, p')
    ensures AddedFirst(p, p', parent, kind, title, file)
  {}

  lemma TargetWasFollowed(p: Progress, p': Progress, parent: Node, depth: nat, target: Target, about: string)
    requires FollowedTarget(p, p', parent, depth, target, about)
    ensures Followed(p, p', parent.id, target)
  {
    if target.Goes? && AddedFirst(p, p', parent, FileNode, target.file, target.file) {
      var grown := p.nodes + [Node(|p.nodes| + 1, FileNode, target.file, Some(target.file))];
      assert p'.nodes[|p.nodes|] == grown[|p.nodes|];
      assert p'.edges[|p.edges|] == (p.edges + [Edge(parent.id, |p.nodes| + 1)])[|p.edges|];
    }
  }

  lemma OneMoreUncertainty(p: Progress, uncertainty: Uncertainty)
    requires Sound(p) && uncertainty.rule in UNCERTAINTY_RULES && uncertainty.rule != ScriptNodeBudgetExceeded
    ensures Sound(p.(uncertainties := p.uncertainties + [uncertainty]))
  {
    var more := p.uncertainties + [uncertainty];
    assert more[..|more| - 1] == p.uncertainties;
  }

  lemma OneBudgetReport(p: Progress, uncertainty: Uncertainty)
    requires Sound(p) && !p.exhausted && uncertainty.rule == ScriptNodeBudgetExceeded
    ensures Sound(p.(uncertainties := p.uncertainties + [uncertainty], exhausted := true))
  {
    var more := p.uncertainties + [uncertainty];
    assert more[..|more| - 1] == p.uncertainties;
  }

  lemma EnteringFileIsSound(p: Progress, path: Path)
    requires Sound(p) && HasNode(p.nodes, path)
    ensures Sound(p.(visited := p.visited + {path}, seen := p.seen + {File(path)}))
  {}

  lemma OneMoreChild(p: Progress, node: Node, edge: Edge)
    requires Sound(p) && |p.nodes| < MAX_NODES
    requires node.id == |p.nodes| + 1 && edge.target == node.id && 1 <= edge.source <= |p.nodes|
    ensures Sound(p.(nodes := p.nodes + [node], edges := p.edges + [edge]))
  {
    forall path | path in p.visited
      ensures HasNode(p.nodes + [node], path)
    {
      MoreNodesStillHave(p.nodes, p.nodes + [node], path);
    }
  }

  /** `_parsed_uncertainty`. */
  function ParsedRule(rule: ReviewRule): (parsed: ReviewRule)
    ensures parsed in UNCERTAINTY_RULES && parsed != ScriptNodeBudgetExceeded
  {
    if rule in {ScriptTargetOutsideRepo, ScriptExternalPackageExecution, ScriptTaskRunnerUnresolved} then rule
    else ScriptParseUncertain
  }

  function ParsedReports(rules: seq<ReviewRule>, file: Option<Path>): (reports: seq<Uncertainty>)
    ensures |reports| == |rules|
  {
    if rules == [] then []
    else
      ParsedReports(rules[..|rules| - 1], file) + [Uncertainty(ParsedRule(rules[|rules| - 1]), file, "")]
  }

  function WithReports(p: Progress, reports: seq<Uncertainty>): Progress {
    p.(uncertainties := p.uncertainties + reports)
  }

  lemma OneMoreParsedReport(p: Progress, rules: seq<ReviewRule>, i: nat, file: Option<Path>)
    requires i < |rules|
    ensures Reported(WithReports(p, ParsedReports(rules[..i], file)), Uncertainty(ParsedRule(rules[i]), file, ""))
         == WithReports(p, ParsedReports(rules[..i + 1], file))
  {
    assert rules[..i + 1][..i] == rules[..i];
  }

  /** The doubt about a command in which nothing is found: it is put together at run time, or its
      interpreter is not known. */
  function Doubt(repo: Repo, text: string): Option<ReviewRule> {
    var targets := repo.targets(text);
    if HasStaticReference(repo, text) || targets.uncertain != [] then None
    else if targets.dynamic then Some(ScriptDynamicCommandConstruction)
    else if targets.unknownLocal then Some(ScriptUnknownInterpreter)
    else None
  }

  function Complaint(repo: Repo, package: Path): string {
    if repo.package(package).Unreadable? then "Could not read package.json." else "Could not parse package.json."
  }

  class ReachabilityResolver {
    const repo: Repo
    var nodes: seq<Node>
    var edges: seq<Edge>
    var uncertainties: seq<Uncertainty>
    var visited: set<Path>
    var exhausted: bool
    ghost var seen: set<Item>

    ghost function Now(): Progress
      reads this
    {
      Progress(nodes, edges, uncertainties, visited, exhausted, seen)
    }

    ghost predicate Valid()
      reads this
    {
      FaithfulSplitter(repo) && Sound(Now())
    }

    predicate IsNode(node: Node)
      reads this
    {
      1 <= node.id <= |nodes|
    }

    constructor (repo: Repo, command: string)
      requires FaithfulSplitter(repo)
      ensures Valid() && this.repo == repo
      ensures nodes == [Node(1, CommandNode, command, None)]
      ensures edges == [] && uncertainties == [] && visited == {} && seen == {} && !exhausted
    {
      this.repo := repo;
      nodes := [Node(1, CommandNode, command, None)];
      edges, uncertainties, visited, exhausted := [], [], {}, false;
      seen := {};
    }

    method AddUncertainty(rule: ReviewRule, file: Option<Path>, about: string)
      requires Valid() && rule in UNCERTAINTY_RULES && rule != ScriptNodeBudgetExceeded
      modifies this`uncertainties
      ensures Valid() && Grew(repo, old(Now()), Now())
      ensures Now() == Reported(old(Now()), Uncertainty(rule, file, about))
    {
      OneMoreUncertainty(Now(), Uncertainty(rule, file, about));
      uncertainties := uncertainties + [Uncertainty(rule, file, about)];
    }

    /** `_has_node_budget`. */
    method HasNodeBudget(file: Option<Path>, pending: string) returns (ok: bool)
      requires Valid()
      modifies this`uncertainties, this`exhausted
      ensures Valid() && Grew(repo, old(Now()), Now())
      ensures ok <==> |nodes| < MAX_NODES
      ensures ok ==> Now() == old(Now())
      ensures !ok ==> exhausted && uncertainties != []
      ensures !ok ==> Now() == OutOfBudget(old(Now()), file, pending)
    {
      if |nodes| < MAX_NODES {
        return true;
      }
      if !exhausted {
        OneBudgetReport(Now(), Uncertainty(ScriptNodeBudgetExceeded, file, pending));
        exhausted := true;
        uncertainties := uncertainties + [Uncertainty(ScriptNodeBudgetExceeded, file, pending)];
      }
      return false;
    }

    /** `_add_node` and `_add_edge`. */
    method AddChild(parent: Node, kind: Kind, title: string, file: Option<Path>) returns (node: Node)
      requires Valid() && IsNode(parent) && |nodes| < MAX_NODES
      modifies this`nodes, this`edges
      ensures Valid() && Grew(repo, old(Now()), Now()) && IsNode(node)
      ensures node == Node(|old(nodes)| + 1, kind, title, file)
      ensures nodes == old(nodes) + [node]
      ensures edges == old(edges) + [Edge(parent.id, node.id)]
    {
      node := Node(|nodes| + 1, kind, title, file);
      OneMoreChild(Now(), node, Edge(parent.id, node.id));
      nodes := nodes + [node];
      edges := edges + [Edge(parent.id, node.id)];
    }

    /** `_follow_target`. */
    method FollowTarget(target: Path, parent: Node, dir: Path, depth: nat, fallback: Option<Path>)
      requires Valid() && IsNode(parent)
      modifies this
      ensures Valid() && Grew(repo, old(Now()), Now())
      ensures uncertainties == [] ==> TargetSettled(TargetOf(repo, target, dir, fallback), seen)
      ensures FollowedTarget(old(Now()), Now(), parent, depth, TargetOf(repo, target, dir, fallback), target)
      decreases MAX_NODES - |nodes|, 0, 1
    {
      if depth >= MAX_CHAIN_DEPTH {
        AddUncertainty(ScriptChainDepthExceeded, parent.file, target);
        return;
      }
      var enough := HasNodeBudget(parent.file, target);
      if !enough {
        return;
      }
      match TargetOf(repo, target, dir, fallback) {
        case Unresolved(rule) => AddUncertainty(rule, parent.file, target);
        case Goes(relative) => FollowFile(relative, parent, depth);
      }
    }

    /** A node for a file that was reached, and then its contents. */
    method FollowFile(relative: Path, parent: Node, depth: nat)
      requires Valid() && IsNode(parent) && |nodes| < MAX_NODES
      modifies this
      ensures Valid() && Grew(repo, old(Now()), Now())
      ensures uncertainties == [] ==> File(relative) in seen
      ensures AddedFirst(old(Now()), Now(), parent, FileNode, relative, relative)
      decreases MAX_NODES - |nodes|, 0, 0
    {
      var node := AddChild(parent, FileNode, relative, Some(relative));
      ghost var added := Now();
      assert nodes[|nodes| - 1].file == Some(relative);
      ScanFile(relative, node, depth + 1);
      GrewAgain(repo, old(Now()), added, Now());
      StaysFirst(repo, old(Now()), added, Now(), parent, FileNode, relative, relative);
    }

    /** `_scan_file`. */
    method ScanFile(relative: Path, node: Node, depth: nat)
      requires Valid() && IsNode(node) && HasNode(nodes, relative)
      modifies this
      ensures Valid() && Grew(repo, old(Now()), Now())
      ensures uncertainties == [] ==> File(relative) in seen
      decreases MAX_NODES - |nodes|, 0, 5
    {
      if relative in visited {
        return;
      }
      EnteringFileIsSound(Now(), relative);
      visited := visited + {relative};
      seen := seen + {File(relative)};
      ghost var entered := Now();
      match repo.read(relative) {
        case None =>
          AddUncertainty(ScriptParseUncertain, Some(relative), "Could not read reachable file.");
        case Some(content) =>
          FollowContent(content, relative, node, depth);
      }
      FileIsSettled(relative, old(Now()), entered, Now());
    }

    method FollowContent(content: Content, relative: Path, node: Node, depth: nat)
      requires Valid() && IsNode(node) && repo.read(relative) == Some(content)
      modifies this
      ensures Valid() && Grew(repo, old(Now()), Now())
      ensures uncertainties == [] ==> FileSettled(repo, relative, seen)
      decreases MAX_NODES - |nodes|, 0, 4
    {
      if content.dynamicModules {
        AddUncertainty(ScriptDynamicModuleReference, Some(relative), "");
      }
      ghost var checked := Now();
      FollowNodeModules(content.modules, node, repo.parent(relative), depth);
      GrewAgain(repo, old(Now()), checked, Now());
      ghost var followed := Now();
      FollowLines(content.lines, node, repo.parent(relative), depth);
      GrewAgain(repo, old(Now()), followed, Now());
    }

    lemma FileIsSettled(relative: Path, before: Progress, entered: Progress, after: Progress)
      requires entered.seen == before.seen + {File(relative)}
      requires entered == before.(visited := before.visited + {relative}, seen := entered.seen)
      requires Grew(repo, entered, after)
      requires after.uncertainties == [] ==> FileSettled(repo, relative, after.seen)
      ensures Grew(repo, before, after)
    {
      if after.uncertainties == [] {
        forall item | item in after.seen && item !in before.seen
          ensures Settled(repo, item, after.seen)
        {
          if item in entered.seen {
            assert item == File(relative);
          }
        }
      }
    }

    method FollowNodeModules(modules: seq<Path>, node: Node, dir: Path, depth: nat)
      requires Valid() && IsNode(node)
      modifies this
      ensures Valid() && Grew(repo, old(Now()), Now())
      ensures uncertainties == [] ==>
                forall i :: 0 <= i < |modules| ==> TargetSettled(NodeTarget(repo, modules[i], dir), seen)
      decreases MAX_NODES - |nodes|, 0, 3
    {
      for i := 0 to |modules|
        invariant Valid() && Grew(repo, old(Now()), Now()) && IsNode(node)
        invariant uncertainties == [] ==>
                    forall k :: 0 <= k < i ==> TargetSettled(NodeTarget(repo, modules[k], dir), seen)
      {
        ghost var before := Now();
        FollowNodeModuleTarget(modules[i], node, dir, depth);
        GrewAgain(repo, old(Now()), before, Now());
      }
    }

    method FollowLines(lines: seq<Path>, node: Node, dir: Path, depth: nat)
      requires Valid() && IsNode(node)
      modifies this
      ensures Valid() && Grew(repo, old(Now()), Now())
      ensures uncertainties == [] ==>
                forall i :: 0 <= i < |lines| ==> TargetSettled(TargetOf(repo, lines[i], ROOT, Some(dir)), seen)
      decreases MAX_NODES - |nodes|, 0, 3
    {
      for i := 0 to |lines|
        invariant Valid() && Grew(repo, old(Now()), Now()) && IsNode(node)
        invariant uncertainties == [] ==>
                    forall k :: 0 <= k < i ==> TargetSettled(TargetOf(repo, lines[k], ROOT, Some(dir)), seen)
      {
        ghost var before := Now();
        FollowTarget(lines[i], node, ROOT, depth, Some(dir));
        GrewAgain(repo, old(Now()), before, Now());
      }
    }

    /** `_follow_node_module_target`. */
    method FollowNodeModuleTarget(target: Path, parent: Node, dir: Path, depth: nat)
      requires Valid() && IsNode(parent)
      modifies this
      ensures Valid() && Grew(repo, old(Now()), Now())
      ensures uncertainties == [] ==> TargetSettled(NodeTarget(repo, target, dir), seen)
      ensures Followed(old(Now()), Now(), parent.id, NodeTarget(repo, target, dir))
      decreases MAX_NODES - |nodes|, 0, 2
    {
      if repo.isAbsolute(target) {
        AddUncertainty(ScriptTargetOutsideRepo, parent.file, target);
        return;
      }
      var files := repo.nodeFiles(target);
      for i := 0 to |files|
        invariant Now() == old(Now())
        invariant NodeTarget(repo, target, dir) == NodeAmong(repo, files[i..], dir)
      {
        var place := repo.place(dir, files[i]);
        if place.relative == None {
          AddUncertainty(ScriptTargetOutsideRepo, parent.file, target);
          return;
        }
        if place.isFile {
          FollowTarget(files[i], parent, dir, depth, None);
          TargetWasFollowed(old(Now()), Now(), parent, depth, TargetOf(repo, files[i], dir, None), files[i]);
          return;
        }
        assert files[i..][1..] == files[i + 1..];
      }
      AddUncertainty(ScriptTargetMissing, parent.file, target);
    }

    /** `_follow_python_module`. */
    method FollowPythonModule(name: string, parent: Node, dir: Path, depth: nat)
      requires Valid() && IsNode(parent)
      modifies this
      ensures Valid() && Grew(repo, old(Now()), Now())
      ensures uncertainties == [] ==> TargetSettled(ModuleTarget(repo, name, dir), seen)
      ensures Followed(old(Now()), Now(), parent.id, ModuleTarget(repo, name, dir))
      decreases MAX_NODES - |nodes|, 0, 2
    {
      var files := repo.moduleFiles(name);
      for i := 0 to |files|
        invariant Now() == old(Now())
        invariant ModuleTarget(repo, name, dir) == ModuleAmong(repo, files[i..], dir)
      {
        if repo.place(dir, files[i]).isFile {
          FollowTarget(files[i], parent, dir, depth, None);
          TargetWasFollowed(old(Now()), Now(), parent, depth, TargetOf(repo, files[i], dir, None), files[i]);
          return;
        }
        assert files[i..][1..] == files[i + 1..];
      }
      AddUncertainty(ScriptTargetMissing, parent.file, name);
    }

    /** `_package_scripts`. */
    method PackageScripts(package: Path, names: set<string>) returns (scripts: seq<Script>)
      requires Valid()
      modifies this`uncertainties
      ensures Valid() && Grew(repo, old(Now()), Now())
      ensures scripts == ScriptsOf(repo, package, names)
      ensures Now() == if repo.package(package).Scripts? then old(Now())
                       else Reported(old(Now()), Uncertainty(ScriptParseUncertain, Some(package), Complaint(repo, package)))
    {
      if !repo.package(package).Scripts? {
        AddUncertainty(ScriptParseUncertain, Some(package), Complaint(repo, package));
      }
      scripts := ScriptsOf(repo, package, names);
    }

    /** The node of a script, and then its command. */
    method RunScriptCommand(script: Script, package: Path, parent: Node, depth: nat)
      requires Valid() && IsNode(parent) && |nodes| < MAX_NODES
      modifies this
      ensures Valid() && Grew(repo, old(Now()), Now())
      ensures uncertainties == [] ==> Command(script.command, repo.parent(package)) in seen
      ensures AddedFirst(old(Now()), Now(), parent, PackageScriptNode, script.name, package)
      decreases MAX_NODES - |nodes|, 0, 0
    {
      var node := AddChild(parent, PackageScriptNode, script.name, Some(package));
      ghost var added := Now();
      ResolveCommandReferences(script.command, node, repo.parent(package), depth);
      GrewAgain(repo, old(Now()), added, Now());
      StaysFirst(repo, old(Now()), added, Now(), parent, PackageScriptNode, script.name, package);
    }

    /** One script of a package file. */
    method RunPackageScript(script: Script, package: Path, parent: Node, depth: nat) returns (more: bool)
      requires Valid() && IsNode(parent)
      modifies this
      ensures Valid() && Grew(repo, old(Now()), Now())
      ensures uncertainties == [] ==> more && Command(script.command, repo.parent(package)) in seen
      ensures more == (|old(nodes)| < MAX_NODES)
      ensures if more then AddedFirst(old(Now()), Now(), parent, PackageScriptNode, script.name, package)
              else Now() == OutOfBudget(old(Now()), Some(package), script.name)
      decreases MAX_NODES - |nodes|, 0, 1
    {
      more := HasNodeBudget(Some(package), script.name);
      if more {
        RunScriptCommand(script, package, parent, depth);
      }
    }

    /** Scripts one after the other, until the budget is used up. */
    method RunScripts(scripts: seq<Script>, package: Path, parent: Node, depth: nat) returns (more: bool)
      requires Valid() && IsNode(parent)
      modifies this
      ensures Valid() && RanScripts(repo, old(Now()), Now(), parent, scripts, package, more)
      decreases MAX_NODES - |nodes|, 0, 2
    {
      for i := 0 to |scripts|
        invariant Valid() && IsNode(parent) && RanScripts(repo, old(Now()), Now(), parent, scripts[..i], package, true)
      {
        ghost var before := Now();
        more := RunPackageScript(scripts[i], package, parent, depth);
        if !more {
          BudgetEndsRun(repo, old(Now()), before, Now(), parent, scripts, i, package);
          return;
        }
        OneMoreRan(repo, old(Now()), before, Now(), parent, scripts, i, package);
      }
      assert scripts[..|scripts|] == scripts;
      return true;
    }

    /** The scripts of one package file that have one of the names. */
    method RunPackageScripts(package: Path, names: set<string>, parent: Node, depth: nat) returns (more: bool)
      requires Valid() && IsNode(parent)
      modifies this
      ensures Valid() && Grew(repo, old(Now()), Now())
      ensures uncertainties == [] ==> more && PackageSettled(repo, package, names, seen)
      ensures !exhausted ==> more && HaveChildren(nodes, edges, parent.id, ScriptsOf(repo, package, names), package)
      ensures Now() == old(Now()) <==>
                repo.package(package).Scripts? && (ScriptsOf(repo, package, names) == [] || Spent(old(Now())))
      ensures Now() == old(Now()) ==> (more <==> ScriptsOf(repo, package, names) == [])
      decreases MAX_NODES - |nodes|, 0, 3
    {
      var scripts := PackageScripts(package, names);
      ghost var listed := Now();
      more := RunScripts(scripts, package, parent, depth);
      GrewAgain(repo, old(Now()), listed, Now());
      GrowthStays(repo, old(Now()), listed, Now());
    }

    /** The scripts of one of the names in a list of package files, until the budget is used up. Each script that they
        declare gets its node with an edge from the parent, unless the budget runs out. Nothing at all is added if and
        only if the scripts vanish. */
    method RunDeclaredScripts(files: seq<Path>, names: set<string>, parent: Node, depth: nat) returns (more: bool)
      requires Valid() && IsNode(parent)
      modifies this
      ensures Valid() && Grew(repo, old(Now()), Now())
      ensures uncertainties == [] ==>
                more && forall i :: 0 <= i < |files| ==> PackageSettled(repo, files[i], names, seen)
      ensures !exhausted ==>
                forall i :: 0 <= i < |files| ==>
                  HaveChildren(nodes, edges, parent.id, ScriptsOf(repo, files[i], names), files[i])
      ensures Now() == old(Now()) <==> ScriptsVanish(repo, files, names, Spent(old(Now())))
      decreases MAX_NODES - |nodes|, 0, 4
    {
      more := true;
      assert files[0..] == files;
      for i := 0 to |files|
        invariant Valid() && IsNode(parent) && more
        invariant RanPackages(repo, old(Now()), Now(), parent.id, files, i, names)
      {
        ghost var before := Now();
        more := RunPackageScripts(files[i], names, parent, depth);
        GrewAgain(repo, old(Now()), before, Now());
        OneMorePackage(repo, old(Now()), before, Now(), parent.id, files, i, names, more);
        if !more {
          return;
        }
      }
    }

    /** `_resolve_package_script`. */
    method ResolvePackageScript(name: string, parent: Node, dir: Path, depth: nat)
      requires Valid() && IsNode(parent)
      modifies this
      ensures Valid() && Grew(repo, old(Now()), Now())
      ensures uncertainties == [] ==> ScriptSettled(repo, name, dir, seen)
      ensures !exhausted ==>
                forall i :: 0 <= i < |PackageFiles(repo, dir)| ==>
                  HaveChildren(nodes, edges, parent.id, ScriptsOf(repo, PackageFiles(repo, dir)[i], {name}),
                               PackageFiles(repo, dir)[i])
      ensures Now() == old(Now()) <==> ScriptsVanish(repo, PackageFiles(repo, dir), {name}, Spent(old(Now())))
      decreases MAX_NODES - |nodes|, 0, 5
    {
      var _ := RunDeclaredScripts(PackageFiles(repo, dir), {name}, parent, depth);
    }

    // ---------- one command ----------

    /** The segments of one nested command, each shorter than the command it comes from. */
    method FollowSegments(nested: string, ghost text: string, parent: Node, dir: Path, depth: nat)
      requires Valid() && IsNode(parent)
      requires forall j :: 0 <= j < |Split(nested)| ==> |Split(nested)[j]| < |text|
      modifies this
      ensures Valid() && Grew(repo, old(Now()), Now())
      ensures uncertainties == [] ==> NestedSettled(nested, dir, seen)
      decreases MAX_NODES - |nodes|, |text|, 2
    {
      var segments := SplitShellSegments(nested);
      for j := 0 to |segments|
        invariant Valid() && Grew(repo, old(Now()), Now()) && IsNode(parent)
        invariant uncertainties == [] ==> forall k :: 0 <= k < j ==> Command(segments[k], dir) in seen
      {
        ghost var before := Now();
        ResolveCommandReferences(segments[j], parent, dir, depth);
        GrewAgain(repo, old(Now()), before, Now());
      }
    }

    method FollowNested(text: string, parent: Node, dir: Path, depth: nat)
      requires Valid() && IsNode(parent)
      modifies this
      ensures Valid() && Grew(repo, old(Now()), Now())
      ensures uncertainties == [] ==>
                forall i :: 0 <= i < |Nested(repo, text)| ==> NestedSettled(Nested(repo, text)[i], dir, seen)
      decreases MAX_NODES - |nodes|, |text|, 3
    {
      var nested := Nested(repo, text);
      NestedSegmentsAreShorter(repo, text);
      for i := 0 to |nested|
        invariant Valid() && Grew(repo, old(Now()), Now()) && IsNode(parent)
        invariant uncertainties == [] ==> forall k :: 0 <= k < i ==> NestedSettled(nested[k], dir, seen)
      {
        ghost var before := Now();
        FollowSegments(nested[i], text, parent, dir, depth);
        GrewAgain(repo, old(Now()), before, Now());
      }
    }

    /** One script that a command runs. */
    method FollowScript(name: string, parent: Node, dir: Path, depth: nat)
      requires Valid() && IsNode(parent)
      modifies this
      ensures Valid() && Grew(repo, old(Now()), Now())
      ensures uncertainties == [] ==> ScriptSettled(repo, name, dir, seen)
      decreases MAX_NODES - |nodes|, 0, 6
    {
      ResolvePackageScript(name, parent, dir, depth);
    }

    method FollowScripts(scripts: seq<string>, parent: Node, dir: Path, depth: nat)
      requires Valid() && IsNode(parent)
      modifies this
      ensures Valid() && Grew(repo, old(Now()), Now())
      ensures uncertainties == [] ==> forall i :: 0 <= i < |scripts| ==> ScriptSettled(repo, scripts[i], dir, seen)
      decreases MAX_NODES - |nodes|, 0, 7
    {
      for i := 0 to |scripts|
        invariant Valid() && Grew(repo, old(Now()), Now()) && IsNode(parent)
        invariant uncertainties == [] ==> forall k :: 0 <= k < i ==> ScriptSettled(repo, scripts[k], dir, seen)
      {
        ghost var before := Now();
        FollowScript(scripts[i], parent, dir, depth);
        GrewAgain(repo, old(Now()), before, Now());
        if uncertainties == [] {
          forall k | 0 <= k < i
            ensures ScriptSettled(repo, scripts[k], dir, seen)
          {
            ScriptStaysSettled(repo, scripts[k], dir, before.seen, seen);
          }
        }
      }
    }

    method FollowModules(modules: seq<string>, parent: Node, dir: Path, depth: nat)
      requires Valid() && IsNode(parent)
      modifies this
      ensures Valid() && Grew(repo, old(Now()), Now())
      ensures uncertainties == [] ==>
                forall i :: 0 <= i < |modules| ==> TargetSettled(ModuleTarget(repo, modules[i], dir), seen)
      decreases MAX_NODES - |nodes|, 0, 3
    {
      for i := 0 to |modules|
        invariant Valid() && Grew(repo, old(Now()), Now()) && IsNode(parent)
        invariant uncertainties == [] ==>
                    forall k :: 0 <= k < i ==> TargetSettled(ModuleTarget(repo, modules[k], dir), seen)
      {
        ghost var before := Now();
        FollowPythonModule(modules[i], parent, dir, depth);
        GrewAgain(repo, old(Now()), before, Now());
      }
    }

    method FollowPaths(paths: seq<Path>, parent: Node, dir: Path, depth: nat)
      requires Valid() && IsNode(parent)
      modifies this
      ensures Valid() && Grew(repo, old(Now()), Now())
      ensures uncertainties == [] ==>
                forall i :: 0 <= i < |paths| ==> TargetSettled(TargetOf(repo, paths[i], dir, None), seen)
      ensures paths == [] ==> Now() == old(Now())
      decreases MAX_NODES - |nodes|, 0, 3
    {
      for i := 0 to |paths|
        invariant Valid() && Grew(repo, old(Now()), Now()) && IsNode(parent)
        invariant i == 0 ==> Now() == old(Now())
        invariant uncertainties == [] ==>
                    forall k :: 0 <= k < i ==> TargetSettled(TargetOf(repo, paths[k], dir, None), seen)
      {
        ghost var before := Now();
        FollowTarget(paths[i], parent, dir, depth, None);
        GrewAgain(repo, old(Now()), before, Now());
      }
    }

    method ReportParsed(rules: seq<ReviewRule>, file: Option<Path>)
      requires Valid()
      modifies this`uncertainties
      ensures Valid() && Grew(repo, old(Now()), Now())
      ensures Now() == WithReports(old(Now()), ParsedReports(rules, file))
    {
      for i := 0 to |rules|
        invariant Valid()
        invariant Now() == WithReports(old(Now()), ParsedReports(rules[..i], file))
      {
        OneMoreParsedReport(old(Now()), rules, i, file);
        AddUncertainty(ParsedRule(rules[i]), file, "");
      }
      assert rules[..|rules|] == rules;
    }

    /** The end of `_resolve_command_references`: a command in which nothing was found. */
    method ReportDoubt(text: string, file: Option<Path>)
      requires Valid()
      modifies this`uncertainties
      ensures Valid() && Grew(repo, old(Now()), Now())
      ensures Now() == match Doubt(repo, text)
                       case None => old(Now())
                       case Some(rule) => Reported(old(Now()), Uncertainty(rule, file, text))
    {
      var targets := repo.targets(text);
      if !HasStaticReference(repo, text) && targets.uncertain == [] {
        if targets.dynamic {
          AddUncertainty(ScriptDynamicCommandConstruction, file, text);
        } else if targets.unknownLocal {
          AddUncertainty(ScriptUnknownInterpreter, file, text);
        }
      }
    }

    /** The reports and the four loops over what the parser found. */
    method FollowParsed(text: string, parent: Node, dir: Path, depth: nat)
      requires Valid() && IsNode(parent)
      modifies this
      ensures Valid() && Grew(repo, old(Now()), Now())
      ensures uncertainties == [] ==> repo.targets(text).uncertain == [] && ReferencesSettled(repo, text, dir, seen)
      decreases MAX_NODES - |nodes|, |text|, 8
    {
      var targets := repo.targets(text);
      ReportParsed(targets.uncertain, parent.file);
      ghost var reported := Now();
      FollowNested(text, parent, dir, depth);
      GrewAgain(repo, old(Now()), reported, Now());
      ghost var nested := Now();
      FollowScripts(targets.scripts, parent, dir, depth);
      GrewAgain(repo, old(Now()), nested, Now());
      ghost var scripted := Now();
      FollowModules(targets.modules, parent, dir, depth);
      GrewAgain(repo, old(Now()), scripted, Now());
      ghost var imported := Now();
      FollowPaths(targets.paths, parent, dir, depth);
      GrewAgain(repo, old(Now()), imported, Now());
      if uncertainties == [] {
        ReferencesAreSettled(text, dir, nested.seen, scripted.seen, imported.seen, seen);
      }
    }

    /** What each loop settled is still settled at the end. */
    lemma ReferencesAreSettled(
      text: string, dir: Path, nested: set<Item>, scripted: set<Item>, imported: set<Item>, followed: set<Item>)
      requires nested <= scripted <= imported <= followed
      requires forall i :: 0 <= i < |Nested(repo, text)| ==> NestedSettled(Nested(repo, text)[i], dir, nested)
      requires forall i :: 0 <= i < |repo.targets(text).scripts| ==>
                 ScriptSettled(repo, repo.targets(text).scripts[i], dir, scripted)
      requires forall i :: 0 <= i < |repo.targets(text).modules| ==>
                 TargetSettled(ModuleTarget(repo, repo.targets(text).modules[i], dir), imported)
      requires forall i :: 0 <= i < |repo.targets(text).paths| ==>
                 TargetSettled(TargetOf(repo, repo.targets(text).paths[i], dir, None), followed)
      ensures ReferencesSettled(repo, text, dir, followed)
    {
      forall i | 0 <= i < |Nested(repo, text)|
        ensures NestedSettled(Nested(repo, text)[i], dir, followed)
      {
        assert NestedSettled(Nested(repo, text)[i], dir, nested);
      }
      forall i | 0 <= i < |repo.targets(text).scripts|
        ensures ScriptSettled(repo, repo.targets(text).scripts[i], dir, followed)
      {
        ScriptStaysSettled(repo, repo.targets(text).scripts[i], dir, scripted, followed);
      }
    }

    /** `_resolve_command_references`. */
    method ResolveCommandReferences(text: string, parent: Node, dir: Path, depth: nat)
      requires Valid() && IsNode(parent)
      modifies this
      ensures Valid() && Grew(repo, old(Now()), Now())
      ensures uncertainties == [] ==> Command(text, dir) in seen
      ensures Doubt(repo, text).Some? ==>
                uncertainties != [] && uncertainties[|uncertainties| - 1] == Uncertainty(Doubt(repo, text).value, parent.file, text)
      decreases MAX_NODES - |nodes|, |text|, 9
    {
      seen := seen + {Command(text, dir)};
      ghost var entered := Now();
      FollowParsed(text, parent, dir, depth);
      ghost var followed := Now();
      ReportDoubt(text, parent.file);
      GrewAgain(repo, entered, followed, Now());
      CommandWasEntered(Command(text, dir), old(Now()), entered, Now());
    }

    lemma CommandWasEntered(item: Item, before: Progress, entered: Progress, after: Progress)
      requires entered == before.(seen := before.seen + {item})
      requires Grew(repo, entered, after)
      requires after.uncertainties == [] ==> Settled(repo, item, after.seen)
      ensures Grew(repo, before, after)
    {
      if after.uncertainties == [] {
        forall other | other in after.seen && other !in before.seen
          ensures Settled(repo, other, after.seen)
        {
          if other in entered.seen {
            assert other == item;
          }
        }
      }
    }

    // ---------- what a planned command starts from ----------

    /** Files that a build tool reads: a node each, and an uncertainty for each that cannot be read. */
    method ReadProjectFiles(files: seq<Path>, entry: Node)
      requires Valid() && IsNode(entry)
      modifies this`nodes, this`edges, this`uncertainties, this`exhausted
      ensures Valid() && Grew(repo, old(Now()), Now())
      ensures uncertainties == [] ==>
                forall i :: 0 <= i < |files| ==> HasNode(nodes, files[i]) && repo.read(files[i]).Some?
      ensures Now() == old(Now()) <==> files == [] || Spent(old(Now()))
    {
      for i := 0 to |files|
        invariant Valid() && Grew(repo, old(Now()), Now()) && IsNode(entry)
        invariant uncertainties == [] ==>
                    forall k :: 0 <= k < i ==> HasNode(nodes, files[k]) && repo.read(files[k]).Some?
        invariant Now() == old(Now()) <==> i == 0 || Spent(old(Now()))
      {
        ghost var before := Now();
        ReadProjectFile(files[i], entry);
        GrewAgain(repo, old(Now()), before, Now());
        GrowthStays(repo, old(Now()), before, Now());
        MoreStillHave(before.nodes, nodes, files[..i]);
      }
    }

    lemma MoreStillHave(before: seq<Node>, after: seq<Node>, files: seq<Path>)
      requires before <= after
      ensures forall k :: 0 <= k < |files| && HasNode(before, files[k]) ==> HasNode(after, files[k])
    {
      forall k | 0 <= k < |files| && HasNode(before, files[k])
        ensures HasNode(after, files[k])
      {
        MoreNodesStillHave(before, after, files[k]);
      }
    }

    /** `_add_java_file` and its like. */
    method ReadProjectFile(file: Path, entry: Node)
      requires Valid() && IsNode(entry)
      modifies this`nodes, this`edges, this`uncertainties, this`exhausted
      ensures Valid() && Grew(repo, old(Now()), Now())
      ensures uncertainties == [] ==> HasNode(nodes, file) && repo.read(file).Some?
      ensures Now() == old(Now()) <==> Spent(old(Now()))
    {
      var enough := HasNodeBudget(Some(file), file);
      if !enough {
        return;
      }
      var node := AddChild(entry, FileNode, file, Some(file));
      assert nodes[|nodes| - 1].file == Some(file);
      ghost var added := Now();
      if repo.read(file).None? {
        AddUncertainty(ScriptParseUncertain, Some(file), "Could not read ecosystem file.");
      }
      GrewAgain(repo, old(Now()), added, Now());
    }

    /** The `make` branch of `_resolve_build`. */
    method RunMakefiles(files: seq<Path>, entry: Node) returns (more: bool)
      requires Valid() && IsNode(entry)
      modifies this
      ensures Valid() && Grew(repo, old(Now()), Now())
      ensures uncertainties == [] ==> more && forall i :: 0 <= i < |files| ==> File(files[i]) in seen
      ensures Now() == old(Now()) <==> files == [] || Spent(old(Now()))
    {
      for i := 0 to |files|
        invariant Valid() && Grew(repo, old(Now()), Now()) && IsNode(entry)
        invariant uncertainties == [] ==> forall k :: 0 <= k < i ==> File(files[k]) in seen
        invariant if i == 0 then Now() == old(Now()) else |old(nodes)| < |nodes|
      {
        ghost var before := Now();
        more := HasNodeBudget(Some(files[i]), files[i]);
        if !more {
          GrewAgain(repo, old(Now()), before, Now());
          return;
        }
        RunMakefile(files[i], entry);
        GrewAgain(repo, old(Now()), before, Now());
      }
      return true;
    }

    method RunMakefile(file: Path, entry: Node)
      requires Valid() && IsNode(entry) && |nodes| < MAX_NODES
      modifies this
      ensures Valid() && Grew(repo, old(Now()), Now())
      ensures uncertainties == [] ==> File(file) in seen
      ensures AddedFirst(old(Now()), Now(), entry, MakefileNode, file, file)
    {
      var node := AddChild(entry, MakefileNode, file, Some(file));
      assert nodes[|nodes| - 1].file == Some(file);
      ghost var added := Now();
      ScanFile(file, node, 0);
      GrewAgain(repo, old(Now()), added, Now());
      StaysFirst(repo, old(Now()), added, Now(), entry, MakefileNode, file, file);
    }

    /** The package scripts of every package file: lifecycle scripts of an installation, or the script that
        a build command names. */
    method RunAllPackages(names: set<string>, entry: Node) returns (more: bool)
      requires Valid() && IsNode(entry)
      modifies this
      ensures Valid() && Grew(repo, old(Now()), Now())
      ensures uncertainties == [] ==>
                more && forall i :: 0 <= i < |repo.packages| ==> PackageSettled(repo, repo.packages[i], names, seen)
      ensures !exhausted ==>
                forall i :: 0 <= i < |repo.packages| ==>
                  HaveChildren(nodes, edges, entry.id, ScriptsOf(repo, repo.packages[i], names), repo.packages[i])
      ensures Now() == old(Now()) <==> ScriptsVanish(repo, repo.packages, names, Spent(old(Now())))
    {
      more := RunDeclaredScripts(repo.packages, names, entry, 0);
    }

    /** `_resolve_docker`: a node for each file, with an edge from the entry, unless the budget runs out. */
    method FollowContainers(files: seq<ContainerFile>, entry: Node)
      requires Valid() && IsNode(entry)
      modifies this
      ensures Valid() && Grew(repo, old(Now()), Now())
      ensures uncertainties == [] ==> forall i :: 0 <= i < |files| ==> ContainerSettled(repo, files[i], seen)
      ensures !exhausted ==>
                forall i :: 0 <= i < |files| ==>
                  HasChild(nodes, edges, entry.id, FileNode, files[i].path, files[i].path)
      ensures Now() == old(Now()) <==> files == [] || Spent(old(Now()))
    {
      for i := 0 to |files|
        invariant Valid() && Grew(repo, old(Now()), Now()) && IsNode(entry)
        invariant uncertainties == [] ==> forall k :: 0 <= k < i ==> ContainerSettled(repo, files[k], seen)
        invariant forall k :: 0 <= k < i ==>
                    HasChild(nodes, edges, entry.id, FileNode, files[k].path, files[k].path)
        invariant if i == 0 then Now() == old(Now()) else |old(nodes)| < |nodes|
      {
        ghost var before := Now();
        var more := HasNodeBudget(Some(files[i].path), files[i].path);
        if !more {
          GrewAgain(repo, old(Now()), before, Now());
          return;
        }
        FollowContainer(files[i], entry);
        GrewAgain(repo, old(Now()), before, Now());
        OneMoreContainer(before, Now(), entry, files, i);
      }
    }

    lemma OneMoreContainer(before: Progress, after: Progress, entry: Node, files: seq<ContainerFile>, i: nat)
      requires i < |files| && IsTree(before.nodes, before.edges)
      requires AddedFirst(before, after, entry, FileNode, files[i].path, files[i].path)
      requires forall k :: 0 <= k < i ==>
                 HasChild(before.nodes, before.edges, entry.id, FileNode, files[k].path, files[k].path)
      ensures forall k :: 0 <= k <= i ==>
                HasChild(after.nodes, after.edges, entry.id, FileNode, files[k].path, files[k].path)
      ensures |before.nodes| < |after.nodes|
    {
      FirstAddedIsChild(before, after, entry, FileNode, files[i].path, files[i].path);
      forall k | 0 <= k < i
        ensures HasChild(after.nodes, after.edges, entry.id, FileNode, files[k].path, files[k].path)
      {
        ChildStays(
          before.nodes, before.edges, after.nodes, after.edges, entry.id, FileNode, files[k].path, files[k].path);
      }
    }

    /** One Docker file. What it refers to follows its node; of one that refers to nothing or cannot be read there is
        the node and no uncertainty. */
    method FollowContainer(file: ContainerFile, entry: Node)
      requires Valid() && IsNode(entry) && |nodes| < MAX_NODES
      modifies this
      ensures Valid() && Grew(repo, old(Now()), Now())
      ensures uncertainties == [] ==> ContainerSettled(repo, file, seen)
      ensures AddedFirst(old(Now()), Now(), entry, FileNode, file.path, file.path)
      ensures file.Dockerfile? || file.references == None || file.references == Some([]) ==>
                Now() == WithChild(old(Now()), entry, FileNode, file.path, file.path)
    {
      var node := AddChild(entry, FileNode, file.path, Some(file.path));
      if file.ComposeFile? && file.references.Some? {
        ghost var added := Now();
        FollowPaths(file.references.value, node, repo.parent(file.path), 0);
        GrewAgain(repo, old(Now()), added, Now());
        StaysFirst(repo, old(Now()), added, Now(), entry, FileNode, file.path, file.path);
      }
    }

    /** One step of a build. Nothing is added if and only if it finds no file or script, or the budget was spent. */
    method RunStep(step: BuildStep, entry: Node) returns (more: bool)
      requires Valid() && IsNode(entry)
      modifies this
      ensures Valid() && Grew(repo, old(Now()), Now())
      ensures uncertainties == [] ==> more && StepSettled(repo, step, seen)
      ensures Now() == old(Now()) <==> StepVanishes(repo, step, Spent(old(Now())))
    {
      if step.RunScript? {
        more := RunAllPackages({step.name}, entry);
      } else if step.MakeFiles? {
        more := RunMakefiles(step.files, entry);
      } else {
        ReadProjectFiles(FilesOf(repo, step), entry);
        more := true;
      }
    }

    /** `_resolve_build`: an exhausted budget ends it. */
    method RunSteps(steps: seq<BuildStep>, entry: Node)
      requires Valid() && IsNode(entry)
      modifies this
      ensures Valid() && Grew(repo, old(Now()), Now())
      ensures uncertainties == [] ==> forall i :: 0 <= i < |steps| ==> StepSettled(repo, steps[i], seen)
    {
      for i := 0 to |steps|
        invariant Valid() && Grew(repo, old(Now()), Now()) && IsNode(entry)
        invariant uncertainties == [] ==> forall k :: 0 <= k < i ==> StepSettled(repo, steps[k], seen)
      {
        ghost var before := Now();
        var more := RunStep(steps[i], entry);
        GrewAgain(repo, old(Now()), before, Now());
        if uncertainties == [] {
          forall k | 0 <= k < i
            ensures StepSettled(repo, steps[k], seen)
          {
            StepStaysSettled(repo, steps[k], before.seen, seen);
          }
        }
        if !more {
          return;
        }
      }
    }

    method RunEntryCommand(command: string, entry: Node)
      requires Valid() && IsNode(entry)
      modifies this
      ensures Valid() && Grew(repo, old(Now()), Now())
      ensures uncertainties == [] ==> NestedSettled(command, ROOT, seen)
    {
      var segments := SplitShellSegments(command);
      for i := 0 to |segments|
        invariant Valid() && Grew(repo, old(Now()), Now()) && IsNode(entry)
        invariant uncertainties == [] ==> forall k :: 0 <= k < i ==> Command(segments[k], ROOT) in seen
      {
        ghost var before := Now();
        ResolveCommandReferences(segments[i], entry, ROOT, 0);
        GrewAgain(repo, old(Now()), before, Now());
      }
    }

    /** `build`. On every repository, self-calling scripts and cyclic references included, it ends with a
        tree of at most 100 nodes. If it reports no uncertainty, then everything that the command reaches
        was followed and every reached file is in the graph. */
    method Build(command: string, start: Start)
      requires Valid() && nodes == [Node(1, CommandNode, command, None)]
      requires uncertainties == [] && seen == {}
      modifies this
      ensures IsTree(nodes, edges) && |nodes| <= MAX_NODES && nodes[0] == Node(1, CommandNode, command, None)
      ensures BudgetReports(uncertainties) == if exhausted then 1 else 0
      ensures OnlyUncertainties(uncertainties)
      ensures uncertainties == [] ==>
                && AllSettled(repo, seen)
                && StartSettled(repo, command, start, seen)
                && forall path :: File(path) in seen ==> HasNode(nodes, path)
    {
      var entry := nodes[0];
      match start
      case Install(rubyFiles) =>
        var more := RunAllPackages(LIFECYCLE_SCRIPTS, entry);
        if more {
          ghost var before := Now();
          ReadProjectFiles(rubyFiles, entry);
          GrewAgain(repo, old(Now()), before, Now());
        }
      case RunCommand => RunEntryCommand(command, entry);
      case Containers(files) => FollowContainers(files, entry);
      case RunBuild(steps) => RunSteps(steps, entry);
      case NothingToFollow =>
    }
  }

  // ---------- what the start leads to ----------

  predicate ContainerSettled(repo: Repo, file: ContainerFile, seen: set<Item>) {
    file.ComposeFile? && file.references.Some? ==>
      forall i :: 0 <= i < |file.references.value| ==>
        TargetSettled(TargetOf(repo, file.references.value[i], repo.parent(file.path), None), seen)
  }

  /** The files that a step reads as they are. */
  function FilesOf(repo: Repo, step: BuildStep): seq<Path> {
    match step
    case RubyFiles(files) => files
    case ProjectFiles(files) => files
    case NamedFiles(targets) => Located(repo, targets)
    case ProjectDirectory(directory) => if directory.Some? then directory.value else []
    case _ => []
  }

  predicate StepSettled(repo: Repo, step: BuildStep, seen: set<Item>) {
    match step
    case RunScript(name) =>
      forall i :: 0 <= i < |repo.packages| ==> PackageSettled(repo, repo.packages[i], {name}, seen)
    case MakeFiles(files) => forall i :: 0 <= i < |files| ==> File(files[i]) in seen
    case _ => forall i :: 0 <= i < |FilesOf(repo, step)| ==> repo.read(FilesOf(repo, step)[i]).Some?
  }

  /** Nothing comes of this step. */
  predicate StepVanishes(repo: Repo, step: BuildStep, spent: bool) {
    match step
    case RunScript(name) => ScriptsVanish(repo, repo.packages, {name}, spent)
    case MakeFiles(files) => files == [] || spent
    case _ => FilesOf(repo, step) == [] || spent
  }

  /** Files that the command line names vanish if and only if none of them is a file of the repository. */
  lemma WhenNamedFilesVanish(repo: Repo, targets: seq<Path>)
    ensures StepVanishes(repo, NamedFiles(targets), false) <==>
              forall i :: 0 <= i < |targets| ==> repo.commandFile(targets[i]) == None
  {
    if Located(repo, targets) != [] {
      assert Located(repo, targets)[0] in Located(repo, targets);
    }
  }

  predicate StartSettled(repo: Repo, command: string, start: Start, seen: set<Item>) {
    match start
    case Install(rubyFiles) =>
      && (forall i :: 0 <= i < |repo.packages| ==> PackageSettled(repo, repo.packages[i], LIFECYCLE_SCRIPTS, seen))
      && (forall i :: 0 <= i < |rubyFiles| ==> repo.read(rubyFiles[i]).Some?)
    case RunCommand => NestedSettled(command, ROOT, seen)
    case Containers(files) => forall i :: 0 <= i < |files| ==> ContainerSettled(repo, files[i], seen)
    case RunBuild(steps) => forall i :: 0 <= i < |steps| ==> StepSettled(repo, steps[i], seen)
    case NothingToFollow => true
  }

  lemma StepStaysSettled(repo: Repo, step: BuildStep, seen: set<Item>, more: set<Item>)
    requires seen <= more && StepSettled(repo, step, seen)
    ensures StepSettled(repo, step, more)
  {
    if step.RunScript? {
      forall i | 0 <= i < |repo.packages|
        ensures PackageSettled(repo, repo.packages[i], {step.name}, more)
      {
        assert PackageSettled(repo, repo.packages[i], {step.name}, seen);
      }
    }
  }

  /** The command or file is one that the start names. */
  ghost predicate StartsAt(repo: Repo, command: string, start: Start, to: Item) {
    match start
    case Install(_) => exists i :: 0 <= i < |repo.packages| && IsScriptOf(repo, repo.packages[i], LIFECYCLE_SCRIPTS, to)
    case RunCommand => exists j :: 0 <= j < |Split(command)| && to == Command(Split(command)[j], ROOT)
    case Containers(files) => exists i :: 0 <= i < |files| && ContainerLeads(repo, files[i], to)
    case RunBuild(steps) => exists i :: 0 <= i < |steps| && StepLeads(repo, steps[i], to)
    case NothingToFollow => false
  }

  ghost predicate IsScriptOf(repo: Repo, package: Path, names: set<string>, to: Item) {
    exists j :: 0 <= j < |ScriptsOf(repo, package, names)|
                && to == Command(ScriptsOf(repo, package, names)[j].command, repo.parent(package))
  }

  ghost predicate ContainerLeads(repo: Repo, file: ContainerFile, to: Item) {
    && file.ComposeFile? && file.references.Some?
    && exists i :: 0 <= i < |file.references.value|
                   && LeadsTo(TargetOf(repo, file.references.value[i], repo.parent(file.path), None), to)
  }

  ghost predicate StepLeads(repo: Repo, step: BuildStep, to: Item) {
    match step
    case RunScript(name) => exists i :: 0 <= i < |repo.packages| && IsScriptOf(repo, repo.packages[i], {name}, to)
    case MakeFiles(files) => exists i :: 0 <= i < |files| && to == File(files[i])
    case _ => false
  }

  lemma SettledStartIsSeen(repo: Repo, command: string, start: Start, to: Item, seen: set<Item>)
    requires StartSettled(repo, command, start, seen) && StartsAt(repo, command, start, to)
    ensures to in seen
  {
    match start {
      case Install(_) =>
        var i :| 0 <= i < |repo.packages| && IsScriptOf(repo, repo.packages[i], LIFECYCLE_SCRIPTS, to);
        assert PackageSettled(repo, repo.packages[i], LIFECYCLE_SCRIPTS, seen);
      case RunCommand =>
      case Containers(files) =>
        var i :| 0 <= i < |files| && ContainerLeads(repo, files[i], to);
        assert ContainerSettled(repo, files[i], seen);
      case RunBuild(steps) =>
        var i :| 0 <= i < |steps| && StepLeads(repo, steps[i], to);
        assert StepSettled(repo, steps[i], seen);
        if steps[i].RunScript? {
          var k :| 0 <= k < |repo.packages| && IsScriptOf(repo, repo.packages[k], {steps[i].name}, to);
          assert PackageSettled(repo, repo.packages[k], {steps[i].name}, seen);
        }
    }
  }

  // A repository in which references vanish.

  /** One package file, which declares a test script and nothing else. */
  const ONLY_TEST := Repo(
    Words(text => [], text => false, text => false, text => false), text => Targets([], [], [], [], false, false),
    (dir: Path, target: Path) => Place(false, false, None), path => false, path => ".", path => None, ["package.json"],
    path => Scripts([Script("test", "true")]), path => None, name => [], path => [], path => None)

  /** The command runs a script that the package file does not declare, and a Maven build of a file that is not there.
      The graph is the entry alone, and nothing is uncertain. */
  method MissingReferencesLeaveNoTrace() returns (resolver: ReachabilityResolver)
    ensures fresh(resolver)
    ensures resolver.nodes == [Node(1, CommandNode, "npm run build; mvn -f other.xml", None)]
    ensures resolver.edges == [] && resolver.uncertainties == [] && !resolver.exhausted
  {
    resolver := new ReachabilityResolver(ONLY_TEST, "npm run build; mvn -f other.xml");
    MissingReferencesVanish();
    var _ := resolver.RunStep(RunScript("build"), resolver.nodes[0]);
    var _ := resolver.RunStep(NamedFiles(["other.xml"]), resolver.nodes[0]);
  }

  lemma MissingReferencesVanish()
    ensures StepVanishes(ONLY_TEST, RunScript("build"), false)
    ensures StepVanishes(ONLY_TEST, NamedFiles(["other.xml"]), false)
  {
    assert Undeclared(ONLY_TEST, "package.json", {"build"});
    WhenScriptsVanish(ONLY_TEST, ONLY_TEST.packages, {"build"}, false);
    WhenNamedFilesVanish(ONLY_TEST, ["other.xml"]);
  }

  // ---------- the tree ----------

  /** The way up from a node: always to an earlier node, and so to the entry command. */
  function PathToEntry(nodes: seq<Node>, edges: seq<Edge>, id: nat): (path: seq<nat>)
    requires IsTree(nodes, edges) && 1 <= id <= |nodes|
    ensures path != [] && path[0] == id && path[|path| - 1] == 1
    ensures forall i :: 0 <= i < |path| - 1 ==> Edge(path[i + 1], path[i]) in edges
  {
    if id == 1 then [1]
    else
      var edge := edges[id - 2];
      assert Edge(edge.source, id) == edge && edge in edges;
      [id] + PathToEntry(nodes, edges, edge.source)
  }

  /** One incoming edge for each node but the entry, which has none. */
  lemma OneIncomingEdge(nodes: seq<Node>, edges: seq<Edge>, id: nat)
    requires IsTree(nodes, edges) && 1 <= id <= |nodes|
    ensures id == 1 ==> forall i :: 0 <= i < |edges| ==> edges[i].target != id
    ensures id > 1 ==>
              && edges[id - 2].target == id && edges[id - 2].source < id
              && forall i :: 0 <= i < |edges| && edges[i].target == id ==> i == id - 2
  {}
}
