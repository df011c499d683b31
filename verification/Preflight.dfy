/** `run_preflight`: from the execution graph to the verdict. Command risks, repository scans and the
    capabilities of reached files come from rule packs, which are parameters. */
module Preflight {
  import opened Results
  import opened PolicyMatrix
  import opened Policy
  import opened Reachability
  import Resolver

  function SeverityOf(rule: ReviewRule): Severity {
    if rule in {ScriptChainDepthExceeded, ScriptNodeBudgetExceeded, ScriptDynamicCommandConstruction,
                ScriptDynamicModuleReference} then High
    else Medium
  }

  /** `Uncertainty.to_finding`. */
  function ToFinding(uncertainty: Resolver.Uncertainty): Finding {
    Finding(Review(uncertainty.rule), SeverityOf(uncertainty.rule),
            if uncertainty.file.Some? then uncertainty.file.value else "", 0, uncertainty.about)
  }

  function ToFindings(uncertainties: seq<Resolver.Uncertainty>): (findings: seq<Finding>)
    ensures |findings| == |uncertainties|
    ensures forall i :: 0 <= i < |uncertainties| ==> findings[i] == ToFinding(uncertainties[i])
  {
    if uncertainties == [] then []
    else ToFindings(uncertainties[..|uncertainties| - 1]) + [ToFinding(uncertainties[|uncertainties| - 1])]
  }

  /** Which scopes are followed, and from where. */
  predicate StartFits(scope: Scope, start: Resolver.Start) {
    match scope
    case DependencyInstall => start.Install?
    case ScriptExecution | UnknownShell | McpServerStart => start.RunCommand?
    case Docker => start.Containers?
    case Build | Test => start.RunBuild?
    case NetworkShell | SafeReadonly => start.NothingToFollow?
  }

  datatype Report = Report(decision: Decision, findings: seq<Finding>, explanation: Explanation)

  lemma UncertainGraphAsksTheUser(
    commandRisks: seq<Finding>, scanned: seq<Finding>, capabilities: seq<Finding>,
    uncertainties: seq<Resolver.Uncertainty>, scope: Scope)
    requires Resolver.OnlyUncertainties(uncertainties) && uncertainties != []
    ensures var findings := commandRisks + scanned + capabilities + ToFindings(uncertainties);
            var kept := Deduped(findings, DirectDownloadFiles(findings));
            && (forall i :: 0 <= i < |uncertainties| ==> Policy.KeyOf(ToFinding(uncertainties[i])) in Keys(kept))
            && Rank(Verdict(kept, scope)) >= Rank(if scope == SafeReadonly then Warn else AskUser)
  {
    var findings := commandRisks + scanned + capabilities + ToFindings(uncertainties);
    forall i | 0 <= i < |uncertainties|
      ensures Policy.KeyOf(ToFinding(uncertainties[i])) in Keys(Deduped(findings, DirectDownloadFiles(findings)))
    {
      assert ToFindings(uncertainties)[i] in findings;
      UncertaintyForcesReview(findings, ToFinding(uncertainties[i]), scope);
    }
    assert ToFindings(uncertainties)[0] in findings;
    UncertaintyForcesReview(findings, ToFinding(uncertainties[0]), scope);
  }

  /** `run_preflight`, after the cache lookups. */
  method RunPreflight(
    resolver: Resolver.ReachabilityResolver, command: string, scope: Scope, start: Resolver.Start,
    commandRisks: seq<Finding>, scanned: seq<Finding>, capabilities: seq<Finding>, trusted: bool,
    first: set<RuleId> -> RuleId) returns (report: Report)
    requires resolver.Valid() && StartFits(scope, start) && PicksMember(first)
    requires resolver.nodes == [Resolver.Node(1, Resolver.CommandNode, command, None)]
    requires resolver.uncertainties == [] && resolver.seen == {}
    modifies resolver
    ensures report.explanation.finalDecision == report.decision
    ensures report.decision == if trusted then Allow else Verdict(report.findings, scope)
    ensures forall i :: 0 <= i < |resolver.uncertainties| ==>
              Policy.KeyOf(ToFinding(resolver.uncertainties[i])) in Keys(report.findings)
    ensures !trusted && scope != SafeReadonly && Rank(report.decision) < Rank(AskUser) ==>
              IsComplete(resolver.repo, command, start, resolver.nodes)
  {
    resolver.Build(command, start);
    var findings := commandRisks + scanned + capabilities + ToFindings(resolver.uncertainties);
    if resolver.uncertainties != [] {
      UncertainGraphAsksTheUser(commandRisks, scanned, capabilities, resolver.uncertainties, scope);
    } else {
      QuietGraphIsComplete(resolver.repo, command, start, resolver.nodes, resolver.seen);
    }
    findings := DedupeFindings(findings);
    var policy := EvaluatePolicy(findings, scope);
    if trusted {
      policy := policy.(decision := Allow);
    }
    var explanation := BuildPolicyExplanation(findings, scope, policy, trusted, first);
    return Report(policy.decision, findings, explanation);
  }

  /** Every file that the command reaches, over any chain of references, is a node of the graph. */
  ghost predicate IsComplete(repo: Repo, command: string, start: Resolver.Start, nodes: seq<Resolver.Node>) {
    forall chain: seq<Item> :: ReachesFile(repo, command, start, chain) ==>
      Resolver.HasNode(nodes, chain[|chain| - 1].path)
  }

  ghost predicate ReachesFile(repo: Repo, command: string, start: Resolver.Start, chain: seq<Item>) {
    IsChain(repo, chain) && Resolver.StartsAt(repo, command, start, chain[0]) && chain[|chain| - 1].File?
  }

  lemma QuietGraphIsComplete(
    repo: Repo, command: string, start: Resolver.Start, nodes: seq<Resolver.Node>, seen: set<Item>)
    requires AllSettled(repo, seen) && Resolver.StartSettled(repo, command, start, seen)
    requires forall path :: File(path) in seen ==> Resolver.HasNode(nodes, path)
    ensures IsComplete(repo, command, start, nodes)
  {
    forall chain: seq<Item> | ReachesFile(repo, command, start, chain)
      ensures Resolver.HasNode(nodes, chain[|chain| - 1].path)
    {
      Resolver.SettledStartIsSeen(repo, command, start, chain[0], seen);
      ChainStaysSeen(repo, seen, chain);
    }
  }
}
