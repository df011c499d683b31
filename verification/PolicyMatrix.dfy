/** The policy matrix: decisions, command scopes, rule ids and the minimum decision each rule demands. */
module PolicyMatrix {
  import opened Results

  datatype Decision = Allow | Warn | AskUser | Block

  datatype Scope =
    | DependencyInstall
    | ScriptExecution
    | Build
    | Test
    | Docker
    | NetworkShell
    | McpServerStart
    | UnknownShell
    | SafeReadonly

  datatype Severity = Critical | High | Medium | Low | Info

  function Rank(decision: Decision): nat {
    match decision
    case Allow => 0
    case Warn => 1
    case AskUser => 2
    case Block => 3
  }

  function Max(left: Decision, right: Decision): (most: Decision)
    ensures most in {left, right} && Rank(left) <= Rank(most) && Rank(right) <= Rank(most)
  {
    if Rank(right) > Rank(left) then right else left
  }

  function Score(severity: Severity): nat {
    match severity
    case Critical => 50
    case High => 25
    case Medium => 10
    case Low => 3
    case Info => 0
  }

  // The rules, class by class, as the matrix lists them.

  datatype HardRule =
    | CommandPowershellEncoded | CommandPowershellRemoteExec | CommandRemoteShellPipe | DockerReachableRunRemoteExec
    | McpSecretEnvExposure | NodeLifecycleRemoteExec | PowershellEncodedCommand | SecretGithubToken
    | SecretOpenaiKey | SecretPrivateKey | ShellDecodeExec

  datatype ReviewRule =
    | AgentSecretExfiltrationRequest | AgentUnsafeCommandRequest | CommandDockerHostRootMount
    | CommandDockerPrivileged | CommandDockerSocketMount | CommandInlineInterpreterExec | CommandMcpBroadStartup
    | DockerBroadHostMount | DockerPrivilegedContainer | DockerReachableEntrypointScript | DockerRemoteScriptExec
    | DockerSocketMount | JsChildProcessExec | JsDynamicEval | JsEnvAccess | JsNetworkAccess
    | McpBroadFilesystemAccess | McpRemoteExecArguments | McpShellCommand | NodeLifecycleScript
    | NodePostinstallScript | NodePreinstallScript | NodePrepareScript | PythonDynamicExec | PythonEnvAccess
    | PythonNetworkAccess | PythonSetupRemoteFetch | PythonSubprocessExec | ScriptChainDepthExceeded
    | ScriptDynamicCommandConstruction | ScriptDynamicModuleReference | ScriptExternalPackageExecution
    | ScriptIndirectExecution | ScriptNodeBudgetExceeded | ScriptParseUncertain | ScriptTargetMissing
    | ScriptTargetOutsideRepo | ScriptTaskRunnerUnresolved | ScriptUnknownInterpreter | SecretAwsKey | SecretEnvFile
    | ShellBase64Exec | ShellCurlPipeBash | ShellDestructiveRm | ShellDownloadCapability | ShellEvalUsage
    | ShellSourceIndirection | ShellWgetPipeSh

  /** User review, but only a warning for read-only commands. */
  datatype ReadmeRule =
    | ReadmeDefeatSecurityWarning | ReadmeFakeReleaseLink | ReadmeInstallerFromNonReleaseHost
    | ReadmeRawSourceArchiveDownload

  datatype WarningRule =
    | AgentDisableSafety | AgentIgnoreInstructions | GhaPullRequestTarget | GhaRemoteScriptExec
    | GhaSelfHostedRunner | GhaUnpinnedAction | GhaWriteAllPermissions | GoCgoUsage | GoGenerateDirective
    | GoLocalModuleReplace | GoModuleReplace | GoTestmain | ReportSizeBudgetExceeded | RustBuildScript
    | RustCargoAlias | RustCargoGitSource | RustCargoSourceReplacement | RubyBundlerGitSource
    | RubyBundlerLocalPathSource | RubyGemspecExtension | RubyInstallHook | RubyNativeExtension
    | RubyRakeCommandExec | JavaMavenPluginExecution | JavaGradlePluginRepository | JavaGradleInitScript
    | JavaGradleBuildLogic | JavaGradleWrapperIntegrity

  datatype RuleId =
    | Hard(hard: HardRule)
    | Review(review: ReviewRule)
    | Readme(readme: ReadmeRule)
    | Warning(warning: WarningRule)
    | Unlisted(name: string)  // not in the matrix

  datatype MatrixEntry = MatrixEntry(minimum: Decision, readonlyMinimum: Decision, hardBlock: bool)

  /** `POLICY_MATRIX`. */
  function Matrix(rule: RuleId): Option<MatrixEntry> {
    match rule
    case Hard(_) => Some(MatrixEntry(Block, Block, true))
    case Review(_) => Some(MatrixEntry(AskUser, AskUser, false))
    case Readme(_) => Some(MatrixEntry(AskUser, Warn, false))
    case Warning(_) => Some(MatrixEntry(Warn, Warn, false))
    case Unlisted(_) => None
  }

  /** `minimum_decision_for`. */
  function MinimumFor(rule: RuleId, scope: Scope): Option<Decision> {
    match Matrix(rule)
    case None => None
    case Some(entry) => Some(if scope == SafeReadonly then entry.readonlyMinimum else entry.minimum)
  }

  /** The minimum as a decision; a rule outside the matrix demands nothing. */
  function Demand(rule: RuleId, scope: Scope): Decision {
    var minimum := MinimumFor(rule, scope);
    if minimum.Some? then minimum.value else Allow
  }

  predicate IsHardBlock(rule: RuleId) {
    Matrix(rule).Some? && Matrix(rule).value.hardBlock
  }

  /** The rules under which reachability reports what it could not resolve. */
  const UNCERTAINTY_RULES := {
    ScriptChainDepthExceeded, ScriptDynamicCommandConstruction, ScriptDynamicModuleReference,
    ScriptExternalPackageExecution, ScriptNodeBudgetExceeded, ScriptParseUncertain, ScriptTargetMissing,
    ScriptTargetOutsideRepo, ScriptTaskRunnerUnresolved, ScriptUnknownInterpreter}
}
