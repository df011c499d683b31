/** The policy engine, the explanation that accounts for its verdict, and the deduplication of findings
    before both. */
module Policy {
  import opened Results
  import opened PolicyMatrix

  datatype Finding = Finding(rule: RuleId, severity: Severity, file: string, line: nat, evidence: string)

  datatype Reason =
    | HardBlockFound
    | UnknownShellCaution
    | ReadonlyDowngraded
    | MatrixMinimumApplies
    | RiskThresholdDecides
    | Plain(decision: Decision)

  datatype PolicyResult = PolicyResult(decision: Decision, riskScore: nat, reason: Reason)

  function TotalScore(findings: seq<Finding>): nat {
    if findings == [] then 0
    else TotalScore(findings[..|findings| - 1]) + Score(findings[|findings| - 1].severity)
  }

  function Rules(findings: seq<Finding>): set<RuleId> {
    set finding | finding in findings :: finding.rule
  }

  function Threshold(score: nat): Decision {
    if score <= 9 then Allow
    else if score <= 24 then Warn
    else if score <= 74 then AskUser
    else Block
  }

  predicate AnyHardBlock(findings: seq<Finding>) {
    exists finding | finding in findings :: IsHardBlock(finding.rule)
  }

  /** The highest demand of a set of rules, `Allow` when there is none. */
  ghost predicate IsHighest(decision: Decision, rules: set<RuleId>, scope: Scope) {
    && (decision == Allow || exists rule :: rule in rules && Demand(rule, scope) == decision)
    && (forall rule :: rule in rules ==> Rank(Demand(rule, scope)) <= Rank(decision))
  }

  function Highest(findings: seq<Finding>, scope: Scope): (decision: Decision)
    ensures IsHighest(decision, Rules(findings), scope)
  {
    if findings == [] then Allow
    else
      var init, last := findings[..|findings| - 1], findings[|findings| - 1];
      assert findings == init + [last];
      assert Rules(findings) == Rules(init) + {last.rule};
      Max(Highest(init, scope), Demand(last.rule, scope))
  }

  lemma HighestIsUnique(left: Decision, right: Decision, rules: set<RuleId>, scope: Scope)
    requires IsHighest(left, rules, scope) && IsHighest(right, rules, scope)
    ensures left == right
  {}

  /** Threshold and matrix minimum together, before the scope is taken into account. */
  function Preliminary(findings: seq<Finding>, scope: Scope): Decision {
    Max(Threshold(TotalScore(findings)), Highest(findings, scope))
  }

  function Verdict(findings: seq<Finding>, scope: Scope): Decision {
    if AnyHardBlock(findings) then Block
    else if findings == [] && scope == UnknownShell then Warn
    else if scope == SafeReadonly && Preliminary(findings, scope) == AskUser then Warn
    else Preliminary(findings, scope)
  }

  /** The result of the engine for these findings. */
  ghost predicate IsResult(policy: PolicyResult, findings: seq<Finding>, scope: Scope) {
    && policy.decision == Verdict(findings, scope)
    && policy.riskScore == (if findings == [] && scope == UnknownShell then 10 else TotalScore(findings))
    && match policy.reason
       case HardBlockFound => AnyHardBlock(findings)
       case UnknownShellCaution => findings == [] && scope == UnknownShell
       case ReadonlyDowngraded =>
         !AnyHardBlock(findings) && scope == SafeReadonly && Preliminary(findings, scope) == AskUser
       case MatrixMinimumApplies =>
         && !AnyHardBlock(findings) && findings != []
         && policy.decision == Preliminary(findings, scope) == Highest(findings, scope) != Allow
       case RiskThresholdDecides =>
         && !AnyHardBlock(findings) && findings != []
         && policy.decision == Preliminary(findings, scope) == Threshold(TotalScore(findings)) != Allow
         && Highest(findings, scope) != policy.decision
       case Plain(decision) =>
         decision == Allow == policy.decision && !AnyHardBlock(findings)
  }

  /** `_reason`. */
  function ReasonFor(decision: Decision, threshold: Decision, matrixMinimum: Decision, downgraded: bool): Reason {
    if downgraded then ReadonlyDowngraded
    else if decision == matrixMinimum && matrixMinimum != Allow then MatrixMinimumApplies
    else if decision == threshold && threshold != Allow then RiskThresholdDecides
    else Plain(decision)
  }

  lemma OneMoreDemand(decision: Decision, rules: set<RuleId>, rule: RuleId, scope: Scope)
    requires IsHighest(decision, rules, scope)
    ensures IsHighest(Max(decision, Demand(rule, scope)), rules + {rule}, scope)
  {}

  /** The loop over the rule ids, which come in no particular order. */
  method ApplyMinimums(ruleIds: set<RuleId>, scope: Scope, threshold: Decision)
    returns (decision: Decision, matrixMinimum: Decision)
    ensures IsHighest(matrixMinimum, ruleIds, scope)
    ensures decision == Max(threshold, matrixMinimum)
  {
    decision, matrixMinimum := threshold, Allow;
    var rest := ruleIds;
    while rest != {}
      invariant rest <= ruleIds
      invariant IsHighest(matrixMinimum, ruleIds - rest, scope)
      invariant decision == Max(threshold, matrixMinimum)
    {
      var rule :| rule in rest;
      OneMoreDemand(matrixMinimum, ruleIds - rest, rule, scope);
      assert ruleIds - (rest - {rule}) == ruleIds - rest + {rule};
      rest := rest - {rule};
      var minimum := MinimumFor(rule, scope);
      if minimum.Some? {
        matrixMinimum := Max(matrixMinimum, minimum.value);
        decision := Max(decision, minimum.value);
      }
    }
    assert ruleIds - rest == ruleIds;
  }

  /** `evaluate_policy`. */
  method EvaluatePolicy(findings: seq<Finding>, scope: Scope) returns (policy: PolicyResult)
    ensures IsResult(policy, findings, scope)
  {
    var riskScore := TotalScore(findings);
    if AnyHardBlock(findings) {
      return PolicyResult(Block, riskScore, HardBlockFound);
    }
    var threshold := Threshold(riskScore);
    var decision, matrixMinimum := ApplyMinimums(Rules(findings), scope, threshold);
    HighestIsUnique(matrixMinimum, Highest(findings, scope), Rules(findings), scope);
    var downgraded := false;
    if scope == SafeReadonly && decision == AskUser {
      decision := Warn;
      downgraded := true;
    }
    if findings == [] && scope == UnknownShell {
      return PolicyResult(Warn, if riskScore > 10 then riskScore else 10, UnknownShellCaution);
    }
    return PolicyResult(decision, riskScore, ReasonFor(decision, threshold, matrixMinimum, downgraded));
  }

  // ---------- order and monotonicity ----------

  lemma {:induction false} TakingOneOut(findings: seq<Finding>, i: nat)
    requires i < |findings|
    ensures TotalScore(findings) == TotalScore(findings[..i] + findings[i + 1..]) + Score(findings[i].severity)
  {
    var last := |findings| - 1;
    if i < last {
      var without := findings[..i] + findings[i + 1..];
      assert without[..|without| - 1] == findings[..last][..i] + findings[..last][i + 1..];
      TakingOneOut(findings[..last], i);
    } else {
      assert findings[..i] + findings[i + 1..] == findings[..last];
    }
  }

  lemma Without(findings: seq<Finding>, finding: Finding) returns (rest: seq<Finding>)
    requires finding in findings
    ensures multiset(findings) == multiset(rest) + multiset{finding}
    ensures TotalScore(findings) == TotalScore(rest) + Score(finding.severity)
  {
    var i :| 0 <= i < |findings| && findings[i] == finding;
    rest := findings[..i] + findings[i + 1..];
    assert findings == findings[..i] + [finding] + findings[i + 1..];
    TakingOneOut(findings, i);
  }

  lemma {:induction false} MoreFindingsScoreMore(fewer: seq<Finding>, more: seq<Finding>)
    requires multiset(fewer) <= multiset(more)
    ensures TotalScore(fewer) <= TotalScore(more)
  {
    if fewer != [] {
      var init, last := fewer[..|fewer| - 1], fewer[|fewer| - 1];
      assert fewer == init + [last];
      assert multiset(fewer) == multiset(init) + multiset{last};
      assert last in multiset(more);
      var rest := Without(more, last);
      forall finding
        ensures multiset(init)[finding] <= multiset(rest)[finding]
      {
        assert multiset(fewer)[finding] <= multiset(more)[finding];
      }
      MoreFindingsScoreMore(init, rest);
    }
  }

  predicate Within(fewer: seq<Finding>, more: seq<Finding>) {
    forall finding :: finding in fewer ==> finding in more
  }

  lemma MoreFindingsDemandMore(fewer: seq<Finding>, more: seq<Finding>, scope: Scope)
    requires Within(fewer, more)
    ensures Rank(Highest(fewer, scope)) <= Rank(Highest(more, scope))
    ensures AnyHardBlock(fewer) ==> AnyHardBlock(more)
  {
    assert Rules(fewer) <= Rules(more);
  }

  lemma HigherIsStricter(left: Decision, right: Decision, left': Decision, right': Decision)
    requires Rank(left) <= Rank(left') && Rank(right) <= Rank(right')
    ensures Rank(Max(left, right)) <= Rank(Max(left', right'))
  {}

  lemma MoreFindingsWeighMore(fewer: seq<Finding>, more: seq<Finding>, scope: Scope)
    requires multiset(fewer) <= multiset(more)
    ensures Rank(Preliminary(fewer, scope)) <= Rank(Preliminary(more, scope))
    ensures AnyHardBlock(fewer) ==> AnyHardBlock(more)
    ensures more == [] ==> fewer == []
  {
    MoreFindingsScoreMore(fewer, more);
    forall finding | finding in fewer
      ensures finding in more
    {
      assert finding in multiset(fewer);
    }
    MoreFindingsDemandMore(fewer, more, scope);
    HigherIsStricter(
      Threshold(TotalScore(fewer)), Highest(fewer, scope), Threshold(TotalScore(more)), Highest(more, scope));
    if fewer != [] {
      assert fewer[0] in more;
    }
  }

  /** More findings never lower the verdict, in any scope and order, unless there were none at all for
      an unknown shell command. */
  lemma MoreFindingsNeverLowerTheVerdict(fewer: seq<Finding>, more: seq<Finding>, scope: Scope)
    requires multiset(fewer) <= multiset(more)
    requires fewer != [] || scope != UnknownShell
    ensures Rank(Verdict(fewer, scope)) <= Rank(Verdict(more, scope))
  {
    MoreFindingsWeighMore(fewer, more, scope);
  }

  /** The verdict depends on the findings and not on their order. */
  lemma OrderDoesNotMatter(left: seq<Finding>, right: seq<Finding>, scope: Scope)
    requires multiset(left) == multiset(right)
    ensures Verdict(left, scope) == Verdict(right, scope) && TotalScore(left) == TotalScore(right)
  {
    MoreFindingsScoreMore(left, right);
    MoreFindingsScoreMore(right, left);
    MoreFindingsWeighMore(left, right, scope);
    MoreFindingsWeighMore(right, left, scope);
    SameRankSameDecision(Preliminary(left, scope), Preliminary(right, scope));
  }

  lemma SameRankSameDecision(left: Decision, right: Decision)
    requires Rank(left) == Rank(right)
    ensures left == right
  {}

  lemma SingleFinding(added: Finding, scope: Scope)
    ensures TotalScore([added]) == Score(added.severity) && Highest([added], scope) == Demand(added.rule, scope)
    ensures AnyHardBlock([added]) <==> added.rule.Hard?
  {
    assert [added][..0] == [];
    assert added in [added];
  }

  /** A rule that is not hard demands nothing only when it is not listed. */
  lemma SingleDemand(added: Finding)
    requires !added.rule.Hard?
    ensures Max(Threshold(Score(added.severity)), Demand(added.rule, UnknownShell)) == Allow <==>
              added.rule.Unlisted? && Score(added.severity) <= 9
  {}

  /** With a single finding an unknown shell command is allowed only if it is not listed and scores at most nine. */
  lemma SingleFindingAllows(added: Finding)
    ensures Verdict([added], UnknownShell) == Allow <==> added.rule.Unlisted? && Score(added.severity) <= 9
  {
    SingleFinding(added, UnknownShell);
    if !added.rule.Hard? {
      SingleDemand(added);
    }
  }

  lemma NothingBelowWarnButAllow(decision: Decision)
    ensures Rank(decision) < Rank(Warn) <==> decision == Allow
  {}

  /** The one way to lower a verdict by adding a finding: the caution for an unknown shell command
      without findings gives way to a single unlisted finding of low score. */
  lemma WhenAFindingLowersTheVerdict(findings: seq<Finding>, added: Finding, scope: Scope)
    ensures Rank(Verdict(findings + [added], scope)) < Rank(Verdict(findings, scope)) <==>
              findings == [] && scope == UnknownShell && added.rule.Unlisted? && Score(added.severity) <= 9
  {
    if findings != [] || scope != UnknownShell {
      MoreFindingsNeverLowerTheVerdict(findings, findings + [added], scope);
    } else {
      assert findings + [added] == [added];
      assert Verdict(findings, scope) == Warn;
      NothingBelowWarnButAllow(Verdict([added], scope));
      SingleFindingAllows(added);
    }
  }

  // ---------- the explanation ----------

  datatype Kind = TrustApproval | HardBlockRule | CommandScope | ScopeAdjustment | MatrixPolicy | RiskScore | NoGate

  datatype Selector = Selector(kind: Kind, decision: Decision, rule: Option<RuleId>)

  datatype Contribution = Contribution(
    rule: RuleId, findingCount: nat, riskScore: nat, minimum: Option<Decision>, hardBlock: bool, affected: bool)

  datatype Explanation = Explanation(
    finalDecision: Decision, selectedBy: Selector, riskScore: nat, threshold: Decision, commandAffected: bool,
    contributions: seq<Contribution>)

  function OfRule(findings: seq<Finding>, rule: RuleId): seq<Finding> {
    if findings == [] then []
    else
      var last := findings[|findings| - 1];
      OfRule(findings[..|findings| - 1], rule) + if last.rule == rule then [last] else []
  }

  /** `first` stands for the first rule id in name order. */
  ghost predicate PicksMember(first: set<RuleId> -> RuleId) {
    forall rules: set<RuleId> :: rules != {} ==> first(rules) in rules
  }

  function HardRules(rules: set<RuleId>): set<RuleId> {
    set rule | rule in rules && IsHardBlock(rule)
  }

  function RulesAt(rules: set<RuleId>, scope: Scope, minimum: Decision): set<RuleId> {
    set rule | rule in rules && MinimumFor(rule, scope) == Some(minimum)
  }

  lemma HardRulesAreThere(findings: seq<Finding>)
    ensures HardRules(Rules(findings)) != {} <==> AnyHardBlock(findings)
  {
    if AnyHardBlock(findings) {
      var finding :| finding in findings && IsHardBlock(finding.rule);
      assert finding.rule in HardRules(Rules(findings));
    }
  }

  /** `_selection`. */
  function Selection(
    rules: set<RuleId>, scope: Scope, policy: PolicyResult, threshold: Decision, matrixMinimum: Decision,
    trusted: bool, first: set<RuleId> -> RuleId): Selector
  {
    if trusted then Selector(TrustApproval, policy.decision, None)
    else if HardRules(rules) != {} then Selector(HardBlockRule, Block, Some(first(HardRules(rules))))
    else if rules == {} && scope == UnknownShell then Selector(CommandScope, policy.decision, None)
    else if scope == SafeReadonly && Max(threshold, matrixMinimum) == AskUser
    then Selector(ScopeAdjustment, policy.decision, None)
    else if matrixMinimum != Allow && policy.decision == matrixMinimum
    then Selector(MatrixPolicy, policy.decision, Some(first(RulesAt(rules, scope, matrixMinimum))))
    else if threshold != Allow && policy.decision == threshold then Selector(RiskScore, policy.decision, None)
    else Selector(NoGate, policy.decision, None)
  }

  /** `_rule_contribution`. */
  function RuleContribution(
    rule: RuleId, findings: seq<Finding>, minimum: Option<Decision>, policy: PolicyResult, kind: Kind): Contribution
  {
    var score := TotalScore(findings);
    var affected := match kind
      case HardBlockRule => IsHardBlock(rule)
      case MatrixPolicy => minimum == Some(policy.decision)
      case RiskScore => score > 0
      case ScopeAdjustment => score > 0 || (minimum.Some? && Rank(minimum.value) >= Rank(Warn))
      case _ => false;
    Contribution(rule, |findings|, score, minimum, IsHardBlock(rule), affected)
  }

  predicate RuleDriven(kind: Kind) {
    kind in {HardBlockRule, ScopeAdjustment, MatrixPolicy, RiskScore}
  }

  /** What each kind of selector says about the engine's own reason. */
  predicate Agrees(kind: Kind, reason: Reason) {
    match reason
    case HardBlockFound => kind == HardBlockRule
    case UnknownShellCaution => kind == CommandScope
    case ReadonlyDowngraded => kind == ScopeAdjustment
    case MatrixMinimumApplies => kind == MatrixPolicy
    case RiskThresholdDecides => kind == RiskScore
    case Plain(_) => kind == NoGate
  }

  function SumOfScores(contributions: seq<Contribution>): nat {
    if contributions == [] then 0
    else SumOfScores(contributions[..|contributions| - 1]) + contributions[|contributions| - 1].riskScore
  }

  function ScoreAmong(findings: seq<Finding>, rules: set<RuleId>): nat {
    if findings == [] then 0
    else
      var last := findings[|findings| - 1];
      ScoreAmong(findings[..|findings| - 1], rules) + if last.rule in rules then Score(last.severity) else 0
  }

  lemma {:induction false} OneMoreRule(findings: seq<Finding>, rules: set<RuleId>, rule: RuleId)
    requires rule !in rules
    ensures ScoreAmong(findings, rules + {rule}) == ScoreAmong(findings, rules) + TotalScore(OfRule(findings, rule))
  {
    if findings != [] {
      var init, last := findings[..|findings| - 1], findings[|findings| - 1];
      OneMoreRule(init, rules, rule);
      if last.rule == rule {
        var grown := OfRule(findings, rule);
        assert grown[..|grown| - 1] == OfRule(init, rule);
      } else {
        assert OfRule(findings, rule) == OfRule(init, rule);
      }
    }
  }

  lemma {:induction false} AllRulesScoreAll(findings: seq<Finding>, rules: set<RuleId>)
    requires forall finding :: finding in findings ==> finding.rule in rules
    ensures ScoreAmong(findings, rules) == TotalScore(findings)
    ensures ScoreAmong(findings, {}) == 0
  {
    if findings != [] {
      AllRulesScoreAll(findings[..|findings| - 1], rules);
    }
  }

  /** A positive total comes from some rule. */
  lemma {:induction false} SomeRuleScores(findings: seq<Finding>) returns (rule: RuleId)
    requires TotalScore(findings) > 0
    ensures rule in Rules(findings) && TotalScore(OfRule(findings, rule)) > 0
  {
    var init, last := findings[..|findings| - 1], findings[|findings| - 1];
    if TotalScore(init) > 0 {
      rule := SomeRuleScores(init);
      assert rule in Rules(init);
      if last.rule == rule {
        assert OfRule(findings, rule)[..|OfRule(init, rule)|] == OfRule(init, rule);
      } else {
        assert OfRule(findings, rule) == OfRule(init, rule);
      }
    } else {
      rule := last.rule;
      var own := OfRule(findings, rule);
      assert own[|own| - 1] == last;
    }
  }

  /** The policy that the explanation is asked about: the engine's, or its result with the decision that a
      matching approval puts in its place. */
  ghost predicate Explains(policy: PolicyResult, findings: seq<Finding>, scope: Scope, trusted: bool) {
    if trusted then policy.decision == Allow else IsResult(policy, findings, scope)
  }

  lemma SelectionAccounts(
    findings: seq<Finding>, scope: Scope, policy: PolicyResult, trusted: bool, first: set<RuleId> -> RuleId)
    requires Explains(policy, findings, scope, trusted)
    ensures var selector := Selection(
              Rules(findings), scope, policy, Threshold(policy.riskScore), Highest(findings, scope), trusted, first);
            && selector.decision == policy.decision
            && (selector.kind == NoGate <==> !trusted && policy.decision == Allow)
            && (!trusted ==> Agrees(selector.kind, policy.reason))
            && (trusted ==> selector.kind == TrustApproval)
  {
    HardRulesAreThere(findings);
    if findings == [] {
      assert Rules(findings) == {};
    } else {
      assert findings[0].rule in Rules(findings);
    }
  }

  /** A rule-driven selector can point at a rule. */
  lemma SomeRuleAffects(
    findings: seq<Finding>, scope: Scope, policy: PolicyResult, trusted: bool, kind: Kind) returns (rule: RuleId)
    requires Explains(policy, findings, scope, trusted) && !trusted
    requires Agrees(kind, policy.reason) && RuleDriven(kind)
    ensures rule in Rules(findings)
    ensures RuleContribution(rule, OfRule(findings, rule), MinimumFor(rule, scope), policy, kind).affected
  {
    match kind {
      case HardBlockRule =>
        var finding :| finding in findings && IsHardBlock(finding.rule);
        rule := finding.rule;
      case MatrixPolicy =>
        rule :| rule in Rules(findings) && Demand(rule, scope) == Highest(findings, scope);
      case RiskScore =>
        rule := SomeRuleScores(findings);
      case ScopeAdjustment =>
        if Threshold(TotalScore(findings)) == AskUser {
          rule := SomeRuleScores(findings);
        } else {
          rule :| rule in Rules(findings) && Demand(rule, scope) == Highest(findings, scope);
        }
    }
  }

  ghost predicate ListsOnce(contributions: seq<Contribution>, rules: set<RuleId>) {
    && (forall i :: 0 <= i < |contributions| ==> contributions[i].rule in rules)
    && (forall i, j :: 0 <= i < j < |contributions| ==> contributions[i].rule != contributions[j].rule)
    && (forall rule :: rule in rules ==> exists i :: 0 <= i < |contributions| && contributions[i].rule == rule)
  }

  lemma ListingOneMore(contributions: seq<Contribution>, rules: set<RuleId>, next: Contribution)
    requires ListsOnce(contributions, rules) && next.rule !in rules
    ensures ListsOnce(contributions + [next], rules + {next.rule})
  {
    var grown := contributions + [next];
    assert grown[|contributions|] == next;
    forall rule | rule in rules
      ensures exists i :: 0 <= i < |grown| && grown[i].rule == rule
    {
      var i :| 0 <= i < |contributions| && contributions[i].rule == rule;
      assert grown[i].rule == rule;
    }
  }

  /** The loop over `sorted(grouped)` that finds the highest minimum. */
  method FindMatrixMinimum(findings: seq<Finding>, scope: Scope) returns (matrixMinimum: Decision)
    ensures matrixMinimum == Highest(findings, scope)
  {
    var rules := Rules(findings);
    var rest := rules;
    matrixMinimum := Allow;
    while rest != {}
      invariant rest <= rules
      invariant IsHighest(matrixMinimum, rules - rest, scope)
    {
      var rule :| rule in rest;
      rest := rest - {rule};
      assert rules - rest == rules - (rest + {rule}) + {rule};
      var minimum := MinimumFor(rule, scope);
      if minimum.Some? {
        matrixMinimum := Max(matrixMinimum, minimum.value);
      }
    }
    assert rules - rest == rules;
    HighestIsUnique(matrixMinimum, Highest(findings, scope), rules, scope);
  }

  /** The contributions, one for each rule. */
  method ListContributions(findings: seq<Finding>, scope: Scope, policy: PolicyResult, kind: Kind)
    returns (contributions: seq<Contribution>)
    ensures ListsOnce(contributions, Rules(findings))
    ensures SumOfScores(contributions) == TotalScore(findings)
    ensures forall c :: c in contributions ==>
              c == RuleContribution(c.rule, OfRule(findings, c.rule), MinimumFor(c.rule, scope), policy, kind)
  {
    var rules := Rules(findings);
    var rest := rules;
    contributions := [];
    AllRulesScoreAll(findings, rules);
    assert rules - rest == {};
    while rest != {}
      invariant rest <= rules
      invariant ListsOnce(contributions, rules - rest)
      invariant SumOfScores(contributions) == ScoreAmong(findings, rules - rest)
      invariant forall c :: c in contributions ==>
                  c == RuleContribution(c.rule, OfRule(findings, c.rule), MinimumFor(c.rule, scope), policy, kind)
    {
      var rule :| rule in rest;
      var next := RuleContribution(rule, OfRule(findings, rule), MinimumFor(rule, scope), policy, kind);
      ListingOneMore(contributions, rules - rest, next);
      OneMoreRule(findings, rules - rest, rule);
      assert (contributions + [next])[..|contributions|] == contributions;
      contributions := contributions + [next];
      assert rules - (rest - {rule}) == rules - rest + {rule};
      rest := rest - {rule};
    }
    assert rules - rest == rules;
  }

  /** `build_policy_explanation`: it always accounts for the engine's verdict. */
  method BuildPolicyExplanation(
    findings: seq<Finding>, scope: Scope, policy: PolicyResult, trusted: bool, first: set<RuleId> -> RuleId)
    returns (e: Explanation)
    requires Explains(policy, findings, scope, trusted) && PicksMember(first)
    ensures e.finalDecision == e.selectedBy.decision == policy.decision
    ensures e.selectedBy.kind == NoGate <==> !trusted && policy.decision == Allow
    ensures e.selectedBy.kind == TrustApproval <==> trusted
    ensures !trusted ==> Agrees(e.selectedBy.kind, policy.reason)
    ensures e.selectedBy.rule.Some? ==> e.selectedBy.rule.value in Rules(findings)
    ensures ListsOnce(e.contributions, Rules(findings))
    ensures forall c :: c in e.contributions ==>
              c == RuleContribution(c.rule, OfRule(findings, c.rule), MinimumFor(c.rule, scope), policy, e.selectedBy.kind)
    ensures e.threshold == Threshold(policy.riskScore)
    ensures e.commandAffected <==> e.selectedBy.kind in {CommandScope, RiskScore, ScopeAdjustment}
    ensures RuleDriven(e.selectedBy.kind) <==> exists c :: c in e.contributions && c.affected
    ensures SumOfScores(e.contributions) == TotalScore(findings)
    ensures !trusted && !(findings == [] && scope == UnknownShell) ==> e.riskScore == SumOfScores(e.contributions)
  {
    var threshold := Threshold(policy.riskScore);
    var matrixMinimum := FindMatrixMinimum(findings, scope);
    var selected := Selection(Rules(findings), scope, policy, threshold, matrixMinimum, trusted, first);
    SelectionAccounts(findings, scope, policy, trusted, first);
    var contributions := ListContributions(findings, scope, policy, selected.kind);
    if RuleDriven(selected.kind) {
      ghost var rule := SomeRuleAffects(findings, scope, policy, trusted, selected.kind);
      ghost var i :| 0 <= i < |contributions| && contributions[i].rule == rule;
      assert contributions[i] in contributions;
    }
    SelectedRuleIsPresent(findings, scope, policy, threshold, matrixMinimum, trusted, first);
    e := Explanation(
      policy.decision, selected, policy.riskScore, threshold,
      selected.kind in {CommandScope, RiskScore, ScopeAdjustment}, contributions);
  }

  lemma SelectedRuleIsPresent(
    findings: seq<Finding>, scope: Scope, policy: PolicyResult, threshold: Decision, matrixMinimum: Decision,
    trusted: bool, first: set<RuleId> -> RuleId)
    requires PicksMember(first) && matrixMinimum == Highest(findings, scope)
    ensures var selector := Selection(Rules(findings), scope, policy, threshold, matrixMinimum, trusted, first);
            selector.rule.Some? ==> selector.rule.value in Rules(findings)
  {
    var rules := Rules(findings);
    match Selection(rules, scope, policy, threshold, matrixMinimum, trusted, first).kind {
      case HardBlockRule =>
        assert first(HardRules(rules)) in HardRules(rules);
      case MatrixPolicy =>
        var rule :| rule in rules && Demand(rule, scope) == matrixMinimum;
        assert rule in RulesAt(rules, scope, matrixMinimum);
        assert first(RulesAt(rules, scope, matrixMinimum)) in RulesAt(rules, scope, matrixMinimum);
      case _ =>
    }
  }

  // ---------- deduplication ----------

  datatype Key = Key(rule: RuleId, file: string)

  function KeyOf(finding: Finding): Key {
    Key(finding.rule, finding.file)
  }

  const DIRECT_DOWNLOADS := {Review(ShellCurlPipeBash), Review(ShellWgetPipeSh)}

  function DirectDownloadFiles(findings: seq<Finding>): set<string> {
    set finding | finding in findings && finding.rule in DIRECT_DOWNLOADS :: finding.file
  }

  /** A download capability says nothing new about a file that pipes its download into a shell. */
  predicate Subsumed(finding: Finding, direct: set<string>) {
    finding.rule == Review(ShellDownloadCapability) && finding.file in direct
  }

  function Keys(findings: seq<Finding>): set<Key> {
    set finding | finding in findings :: KeyOf(finding)
  }

  function Deduped(findings: seq<Finding>, direct: set<string>): seq<Finding> {
    if findings == [] then []
    else
      var kept, last := Deduped(findings[..|findings| - 1], direct), findings[|findings| - 1];
      if Subsumed(last, direct) || KeyOf(last) in Keys(kept) then kept else kept + [last]
  }

  /** `_dedupe_findings`. */
  method DedupeFindings(findings: seq<Finding>) returns (deduped: seq<Finding>)
    ensures deduped == Deduped(findings, DirectDownloadFiles(findings))
  {
    var direct := DirectDownloadFiles(findings);
    var seen: set<Key> := {};
    deduped := [];
    for i := 0 to |findings|
      invariant deduped == Deduped(findings[..i], direct)
      invariant seen == Keys(deduped)
    {
      var finding := findings[i];
      assert findings[..i + 1][..i] == findings[..i];
      if Subsumed(finding, direct) {
        continue;
      }
      if KeyOf(finding) in seen {
        continue;
      }
      seen := seen + {KeyOf(finding)};
      deduped := deduped + [finding];
    }
    assert findings[..|findings|] == findings;
  }

  /** Deduplication keeps every rule and file pair exactly once, except the subsumed ones. */
  lemma {:induction false} DedupeKeepsEveryKey(findings: seq<Finding>, direct: set<string>)
    ensures var kept := Deduped(findings, direct);
            && (forall finding :: finding in kept ==> finding in findings && !Subsumed(finding, direct))
            && (forall i, j :: 0 <= i < j < |kept| ==> KeyOf(kept[i]) != KeyOf(kept[j]))
            && (forall finding :: finding in findings && !Subsumed(finding, direct) ==> KeyOf(finding) in Keys(kept))
            && TotalScore(kept) <= TotalScore(findings)
  {
    if findings != [] {
      var init, last := findings[..|findings| - 1], findings[|findings| - 1];
      DedupeKeepsEveryKey(init, direct);
      assert findings == init + [last];
      var before, kept := Deduped(init, direct), Deduped(findings, direct);
      if kept != before {
        assert kept[..|kept| - 1] == before;
        forall i | 0 <= i < |before|
          ensures KeyOf(before[i]) != KeyOf(last)
        {
          assert KeyOf(before[i]) in Keys(before);
        }
      }
    }
  }

  /** Every finding leaves one behind that demands as much. */
  lemma SomeKeptFindingDemandsAsMuch(findings: seq<Finding>, finding: Finding) returns (other: Finding)
    requires finding in findings
    ensures other in Deduped(findings, DirectDownloadFiles(findings))
    ensures other.rule == finding.rule
         || (finding.rule == Review(ShellDownloadCapability) && other.rule in DIRECT_DOWNLOADS)
    ensures other.file == finding.file
  {
    var direct := DirectDownloadFiles(findings);
    var kept := Deduped(findings, direct);
    DedupeKeepsEveryKey(findings, direct);
    var source := finding;
    if Subsumed(finding, direct) {
      source :| source in findings && source.rule in DIRECT_DOWNLOADS && source.file == finding.file;
    }
    assert !Subsumed(source, direct);
    assert KeyOf(source) in Keys(kept);
    other :| other in kept && KeyOf(other) == KeyOf(source);
  }

  lemma DedupeKeepsHighest(findings: seq<Finding>, scope: Scope)
    ensures Rank(Highest(findings, scope)) <= Rank(Highest(Deduped(findings, DirectDownloadFiles(findings)), scope))
  {
    var kept := Deduped(findings, DirectDownloadFiles(findings));
    var highest := Highest(findings, scope);
    if highest != Allow {
      var rule :| rule in Rules(findings) && Demand(rule, scope) == highest;
      var finding :| finding in findings && finding.rule == rule;
      var other := SomeKeptFindingDemandsAsMuch(findings, finding);
      assert other.rule in Rules(kept);
      assert Demand(other.rule, scope) == highest;
    }
  }

  lemma DedupeKeepsHardBlocks(findings: seq<Finding>)
    ensures AnyHardBlock(findings) ==> AnyHardBlock(Deduped(findings, DirectDownloadFiles(findings)))
  {
    if AnyHardBlock(findings) {
      var finding :| finding in findings && IsHardBlock(finding.rule);
      var other := SomeKeptFindingDemandsAsMuch(findings, finding);
      assert IsHardBlock(other.rule);
    }
  }

  /** Deduplication changes neither the matrix minimum nor the presence of a hard block, in any scope:
      only the score can fall. */
  lemma DedupeKeepsTheGate(findings: seq<Finding>, scope: Scope)
    ensures var kept := Deduped(findings, DirectDownloadFiles(findings));
            && Highest(kept, scope) == Highest(findings, scope)
            && AnyHardBlock(kept) == AnyHardBlock(findings)
            && (kept == [] <==> findings == [])
  {
    var kept := Deduped(findings, DirectDownloadFiles(findings));
    DedupeKeepsEveryKey(findings, DirectDownloadFiles(findings));
    assert Within(kept, findings);
    MoreFindingsDemandMore(kept, findings, scope);
    DedupeKeepsHighest(findings, scope);
    DedupeKeepsHardBlocks(findings);
    if findings != [] {
      var other := SomeKeptFindingDemandsAsMuch(findings, findings[0]);
    }
  }

  /** Unknown is not safe: one uncertainty among the findings, whatever else is found and however much of
      it is deduplicated, demands at least user review, and a warning for a read-only command. */
  lemma UncertaintyForcesReview(findings: seq<Finding>, uncertain: Finding, scope: Scope)
    requires uncertain in findings
    requires uncertain.rule.Review? && uncertain.rule.review in UNCERTAINTY_RULES
    ensures var kept := Deduped(findings, DirectDownloadFiles(findings));
            && KeyOf(uncertain) in Keys(kept)
            && Rank(Verdict(kept, scope)) >= Rank(if scope == SafeReadonly then Warn else AskUser)
  {
    var kept := Deduped(findings, DirectDownloadFiles(findings));
    var other := SomeKeptFindingDemandsAsMuch(findings, uncertain);
    assert KeyOf(other) == KeyOf(uncertain);
    assert other.rule in Rules(kept);
    assert Demand(other.rule, scope) == AskUser;
  }
}
