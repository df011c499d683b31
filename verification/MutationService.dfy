/** `TrustMutationService`: issue a challenge, consume it, re-check the target, and run one audited
    mutation of the trust store, while other processes do the same. */
module MutationService {
  import opened Results
  import opened TrustStore
  import opened AuditChain
  import opened AuditFiles
  import opened AuditLog
  import opened Confirmation
  import opened MutationLedger
  import Protocol = MutationProtocol
  import Recovery

  const TRUST_CACHE_MAX_BYTES := 1024 * 1024

  /** The `MCP_TRUST_MUTATION_` codes. `Rejected` covers argument, identity, limit, timeout and
      cancellation errors, which the environment decides. */
  datatype Code =
    | Rejected(reason: string)
    | ConfirmationInvalid
    | RateLimited
    | RecoveryNeeded
    | AuditDown
    | StoreCorrupt
    | PersistenceFailed
    | TargetDrift
    | EntryNotFound
    | EntryVersionConflict
    | CommittedAuditPending(preparedId: Id)

  datatype Response =
    | Applied(entry: Entry, preparedId: Id, finalId: Id)
    | Noop(existing: Entry)
    | Failed(code: Code)

  /** How a transaction ended, before the service answers. */
  datatype Outcome =
    | Committed(entry: Entry, preparedId: Id, finalId: Id)
    | NoChange(plan: Plan)
    | Pending(preparedId: Id)
    | WriteFailed
    | Refused(code: Code)

  function AuditCode(error: AuditError): Code {
    match error
    case RecoveryRequired => RecoveryNeeded
    case AuditFailed => AuditDown
    case ChainCorrupt => StoreCorrupt
  }

  function StoreCode(error: StoreError): Code {
    match error
    case Corrupt => StoreCorrupt
    case Unavailable => PersistenceFailed
  }

  function ContextOf(operation: Operation, operationId: Id, entryId: Id, challenge: Id, target: Option<Target>): Context {
    Context(operation, operationId, Some(entryId), Some(challenge), target)
  }

  function OperationOf(binding: Binding): Operation {
    if binding.ApproveBinding? then ApproveOperation else RevokeOperation
  }

  /** The log was extended, in the end by the notice of this event. */
  predicate Noted(before: seq<Record>, after: seq<Record>, name: string, context: Context) {
    && before < after
    && after[|after| - 1].draft.event == Notice(name)
    && after[|after| - 1].draft.context == context
  }

  // ---------- what a request finds ----------

  /** The entry that an approval adds. */
  function ApprovedEntry(token: Token<Binding>, bytes: nat): Entry
    requires token.binding.ApproveBinding?
  {
    var binding := token.binding;
    Entry(binding.entryId, binding.observed.target, binding.observed.path, binding.observed.remoteUrl,
          binding.request.command, token.issuedAt, binding.request.expiresAt, binding.request.reason,
          binding.preparedId, bytes)
  }

  /** The checks between consuming an approval and taking the store lock, in their order. */
  function ApprovalMismatch(
    binding: Binding, request: Result<ApprovalRequest, string>, observed: Result<Observed, string>, store: StoreFile)
    : (code: Option<Code>)
    requires binding.ApproveBinding?
    ensures code == None <==>
            && request == Ok(binding.request) && observed == Ok(binding.observed) && binding.store == store
            && ReadSnapshot(store, TRUST_CACHE_MAX_BYTES).Ok?
    ensures code.Some? ==> !code.value.CommittedAuditPending?
  {
    if request.Err? then Some(Rejected(request.error))
    else if observed.Err? then Some(Rejected(observed.error))
    else
      match ReadSnapshot(store, TRUST_CACHE_MAX_BYTES)
      case Err(error) => Some(StoreCode(error))
      case Ok(_) =>
        if binding != ApproveBinding(binding.operationId, binding.entryId, binding.preparedId, request.value,
                                     observed.value, store) then Some(TargetDrift)
        else None
  }

  /** The checks between consuming a revocation and taking the store lock, in their order. */
  function RevocationMismatch(binding: Binding, request: Result<RevokeRequest, string>, store: StoreFile, now: real)
    : (code: Option<Code>)
    requires binding.RevokeBinding?
    ensures code == None ==>
              && request == Ok(RevokeRequest(binding.entryId, binding.reason)) && binding.store == store
              && ReadSnapshot(store, TRUST_CACHE_MAX_BYTES).Ok?
              && binding.expected in ReadSnapshot(store, TRUST_CACHE_MAX_BYTES).value
              && binding.expected.entryId == binding.entryId && Live(binding.expected, now)
    ensures code.Some? ==> !code.value.CommittedAuditPending?
  {
    if request.Err? then Some(Rejected(request.error))
    else
      match ReadSnapshot(store, TRUST_CACHE_MAX_BYTES)
      case Err(error) => Some(StoreCode(error))
      case Ok(entries) =>
        var found := FindLiveId(entries, request.value.entryId, now);
        if found.None? then Some(EntryNotFound)
        else if binding != RevokeBinding(binding.operationId, request.value.entryId, request.value.reason,
                                         entries[found.value], store) then Some(TargetDrift)
        else None
  }

  /** What is still to be decided under the store lock. `store` is what the challenge is bound to. */
  datatype Attempt =
    | Approving(entry: Entry, observed: Observed, again: Result<Observed, string>, store: StoreFile, lockedAt: real)
    | Revoking(expected: Entry, store: StoreFile, lockedAt: real)

  /** The decision under the store lock, for the store as it is then. An approval is re-validated before its plan is
      made, a revocation before its plan is prepared. */
  function Decide(attempt: Attempt, store: StoreFile): (decision: Result<Plan, Code>)
    ensures decision.Err? ==> !decision.error.CommittedAuditPending?
  {
    match attempt
    case Approving(entry, observed, again, bound, lockedAt) =>
      var plan := PlanApproval(store, entry, lockedAt, TRUST_CACHE_MAX_BYTES);
      if ReadSnapshot(store, TRUST_CACHE_MAX_BYTES).Err? then Ok(plan)
      else if again.Err? then Err(Rejected(again.error))
      else if again.value != observed || store != bound then Err(TargetDrift)
      else Ok(plan)
    case Revoking(expected, bound, lockedAt) =>
      var plan := PlanRevocation(store, expected.entryId, expected, lockedAt, TRUST_CACHE_MAX_BYTES);
      if plan.Apply? && store != bound then Err(TargetDrift) else Ok(plan)
  }

  /** What is applied is applied to the bound store, and changes it. */
  lemma AppliedDecisionsAreBound(attempt: Attempt, store: StoreFile)
    ensures var decision := Decide(attempt, store);
            decision.Ok? && decision.value.AlreadyApproved? ==>
              attempt.Approving? && store == attempt.store && attempt.again == Ok(attempt.observed)
    ensures var decision := Decide(attempt, store);
            decision.Ok? && decision.value.Apply? ==>
              && store == attempt.store
              && Some(decision.value.after) != store
              && (attempt.Approving? ==> attempt.again == Ok(attempt.observed) && decision.value.entry == attempt.entry)
              && (attempt.Revoking? ==> decision.value.entry == attempt.expected)
  {
    match attempt {
      case Approving(entry, observed, again, bound, lockedAt) =>
      case Revoking(expected, bound, lockedAt) =>
        var plan := PlanRevocation(store, expected.entryId, expected, lockedAt, TRUST_CACHE_MAX_BYTES);
        if plan.Apply? {
          assert |plan.after.list| + 1 == |ReadSnapshot(store, TRUST_CACHE_MAX_BYTES).value|;
        }
    }
  }

  // ---------- what an answer says ----------

  predicate Applies(decision: Result<Plan, Code>) {
    decision.Ok? && decision.value.Apply?
  }

  /** The mutation replaced version `m.at` by this one, and nobody wrote since. */
  predicate Swapped(before: seq<Mutation>, ledger: Ledger, m: Mutation, after: StoreFile) {
    ledger.applied == before + [m] && |ledger.versions| == m.at + 2 && ledger.versions[m.at + 1] == after
  }

  /** What each answer says: an applied mutation is in the store and committed exactly once; a pending one is in the
      store and stops the service; any other error means that this service replaced nothing, except a failed store
      write, which stops the service. */
  predicate Truthful(
    response: Response, decision: Result<Plan, Code>, m: Mutation, before: seq<Mutation>, ledger: Ledger, log: LogFiles,
    limits: Limits, healthy: bool)
  {
    match response
    case Applied(entry, preparedId, finalId) =>
      && healthy && Applies(decision) && entry == decision.value.entry
      && Swapped(before, ledger, m, Some(decision.value.after))
      && LogView(log, limits).Legible? && CommittedOnce(log.history, preparedId, finalId)
    case Noop(existing) => healthy && decision == Ok(AlreadyApproved(existing)) && ledger.applied == before
    case Failed(code) =>
      if code.CommittedAuditPending? then
        !healthy && Applies(decision) && Swapped(before, ledger, m, Some(decision.value.after))
      else if healthy then ledger.applied == before
      else
        && code == PersistenceFailed && Applies(decision)
        && (ledger.applied == before || Swapped(before, ledger, m, Some(decision.value.after)))
  }

  /** What the transaction guarantees of its outcome. */
  predicate Accounts(
    outcome: Outcome, decision: Result<Plan, Code>, preparedId: Id, m: Mutation, before: seq<Mutation>, ledger: Ledger,
    log: LogFiles, limits: Limits)
  {
    match outcome
    case Committed(entry, prepared, final) =>
      && Applies(decision) && entry == decision.value.entry && prepared == preparedId
      && Swapped(before, ledger, m, Some(decision.value.after))
      && LogView(log, limits).Legible? && CommittedOnce(log.history, preparedId, final)
    case Pending(prepared) =>
      && Applies(decision) && prepared == preparedId
      && Swapped(before, ledger, m, Some(decision.value.after))
    case WriteFailed =>
      && Applies(decision)
      && (ledger.applied == before || Swapped(before, ledger, m, Some(decision.value.after)))
    case NoChange(plan) => decision == Ok(plan) && !plan.Apply? && ledger.applied == before
    case Refused(code) => ledger.applied == before && !code.CommittedAuditPending?
  }

  /** Without a fault the outcome is the decision. */
  predicate Follows(outcome: Outcome, decision: Result<Plan, Code>) {
    match decision
    case Err(code) => outcome == Refused(code)
    case Ok(plan) => if plan.Apply? then outcome.Committed? else outcome == NoChange(plan)
  }

  /** The outcome when the clean-up at the end of the transaction fails. */
  function Unfinished(outcome: Outcome): Outcome {
    match outcome
    case Committed(_, prepared, _) => Pending(prepared)
    case NoChange(_) => Refused(AuditDown)
    case _ => outcome
  }

  predicate Answers(response: Response, outcome: Outcome, healthy: bool) {
    && (healthy <==> !outcome.Pending? && !outcome.WriteFailed?)
    && match response
       case Applied(entry, prepared, final) => outcome == Committed(entry, prepared, final)
       case Noop(existing) => outcome == NoChange(AlreadyApproved(existing))
       case Failed(code) =>
         && !outcome.Committed?
         && (outcome.Pending? ==> code == CommittedAuditPending(outcome.preparedId))
         && (code.CommittedAuditPending? ==> outcome == Pending(code.preparedId))
         && (outcome.WriteFailed? ==> code == PersistenceFailed)
  }

  function NoChangeResponse(plan: Plan): Response
    requires !plan.Apply?
  {
    match plan
    case AlreadyApproved(existing) => Noop(existing)
    case NotFound => Failed(EntryNotFound)
    case VersionConflict(_) => Failed(EntryVersionConflict)
    case Refuse(error) => Failed(StoreCode(error))
  }

  /** Without a fault the answer is the decision. */
  predicate Fulfils(response: Response, decision: Result<Plan, Code>) {
    match decision
    case Err(code) => response == Failed(code)
    case Ok(plan) => if plan.Apply? then response.Applied? else response == NoChangeResponse(plan)
  }

  predicate AnswersFully(response: Response, outcome: Outcome) {
    match outcome
    case Committed(entry, prepared, final) => response == Applied(entry, prepared, final)
    case NoChange(plan) => !plan.Apply? && response == NoChangeResponse(plan)
    case Refused(code) => response == Failed(code)
    case _ => true
  }

  lemma AnswerIsTruthful(
    response: Response, outcome: Outcome, decision: Result<Plan, Code>, preparedId: Id, m: Mutation,
    before: seq<Mutation>, made: Ledger, ledger: Ledger, log: LogFiles, log': LogFiles, limits: Limits, healthy: bool)
    requires Accounts(outcome, decision, preparedId, m, before, made, log, limits)
    requires Answers(response, outcome, healthy) && ledger.applied == made.applied
    requires outcome.Committed? || outcome.Pending? || outcome.WriteFailed? ==> log' == log && ledger == made
    ensures Truthful(response, decision, m, before, ledger, log', limits, healthy)
    ensures response.Applied? ==> response.preparedId == preparedId
    ensures AnswersFully(response, outcome) && Follows(outcome, decision) ==> Fulfils(response, decision)
  {}

  /** A new challenge was issued, and it is the token. */
  predicate Challenges(before: Ledger, after: Ledger, token: Token<Binding>, now: real) {
    && token.challengeId !in before.issued
    && after.issued == before.issued[token.challengeId := Issued(token.binding, now + CONFIRMATION_EXPIRY_SECONDS)]
  }

  /** What a confirmation sees besides the store: the request and the target when it starts, the target and the time
      under the store lock. */
  datatype Sight =
    | ApprovalSight(approval: Result<ApprovalRequest, string>, observed: Result<Observed, string>,
                    again: Result<Observed, string>, lockedAt: real, entryBytes: nat)
    | RevocationSight(revocation: Result<RevokeRequest, string>, lockedAt: real)

  predicate Suits(sight: Sight, binding: Binding) {
    sight.ApprovalSight? <==> binding.ApproveBinding?
  }

  /** What the checks before the store lock say. */
  function Checked(binding: Binding, sight: Sight, store: StoreFile, now: real): Option<Code>
    requires Suits(sight, binding)
  {
    match sight
    case ApprovalSight(approval, observed, _, _, _) => ApprovalMismatch(binding, approval, observed, store)
    case RevocationSight(revocation, _) => RevocationMismatch(binding, revocation, store, now)
  }

  /** What is attempted if they find nothing. */
  function AttemptOf(token: Token<Binding>, sight: Sight): Attempt
    requires Suits(sight, token.binding)
  {
    match sight
    case ApprovalSight(_, _, again, lockedAt, entryBytes) =>
      Approving(ApprovedEntry(token, entryBytes), token.binding.observed, again, token.binding.store, lockedAt)
    case RevocationSight(_, lockedAt) => Revoking(token.binding.expected, token.binding.store, lockedAt)
  }

  /** What the answer to a confirmation says, if it checked version `seen` of the store first and found version `found`
      under the lock. Without a fault it is exactly what the checks and the decision under the lock say. */
  predicate Confirmed(
    response: Response, token: Token<Binding>, now: real, sight: Sight, seen: nat, found: nat, before: seq<Mutation>,
    ledger: Ledger, log: LogFiles, limits: Limits, healthy: bool, calm: bool)
    requires seen < |ledger.versions| && found < |ledger.versions|
  {
    && Suits(sight, token.binding)
    && var checked := Checked(token.binding, sight, ledger.versions[seen], now);
    && var decision := Decide(AttemptOf(token, sight), ledger.versions[found]);
    && Truthful(response, decision, Mutation(token.challengeId, now, found), before, ledger, log, limits, healthy)
    && (checked.Some? ==> response.Failed? && ledger.applied == before)
    && (response.Applied? && sight.ApprovalSight? ==> response.preparedId == token.binding.preparedId)
    && (calm ==> if checked.Some? then response == Failed(checked.value) else Fulfils(response, decision))
  }

  lemma MismatchIsConfirmed(
    code: Code, token: Token<Binding>, now: real, sight: Sight, seen: nat, found: nat, before: Ledger, ledger: Ledger,
    log: LogFiles, limits: Limits, calm: bool)
    requires seen < |ledger.versions| && found < |ledger.versions| && Suits(sight, token.binding)
    requires var checked := Checked(token.binding, sight, ledger.versions[seen], now);
             && checked.Some?
             && (code == checked.value || (code in {RecoveryNeeded, AuditDown, StoreCorrupt} && !calm))
    requires ledger.applied == before.applied
    ensures Confirmed(Failed(code), token, now, sight, seen, found, before.applied, ledger, log, limits, true, calm)
  {}

  lemma AnswerIsConfirmed(
    response: Response, token: Token<Binding>, now: real, sight: Sight, seen: nat, found: nat, before: seq<Mutation>,
    ledger: Ledger, log: LogFiles, limits: Limits, healthy: bool, calm: bool)
    requires seen < |ledger.versions| && found < |ledger.versions| && Suits(sight, token.binding)
    requires Checked(token.binding, sight, ledger.versions[seen], now) == None
    requires var decision := Decide(AttemptOf(token, sight), ledger.versions[found]);
             && Truthful(response, decision, Mutation(token.challengeId, now, found), before, ledger, log, limits, healthy)
             && (calm ==> Fulfils(response, decision))
    requires response.Applied? && sight.ApprovalSight? ==> response.preparedId == token.binding.preparedId
    requires token.challengeId in ledger.issued && ledger.issued[token.challengeId].binding == token.binding
    requires now < ledger.issued[token.challengeId].expiresAt
    ensures Confirmed(response, token, now, sight, seen, found, before, ledger, log, limits, healthy, calm)
    ensures !response.Failed? || ledger.applied != before ==> Authorized(token, now, sight, seen, found, ledger)
  {
    ConfirmedIsAuthorized(response, token, now, sight, seen, found, before, ledger, log, limits, healthy, calm);
  }

  /** The challenge was issued for what is seen, and for the store as it was checked and as it was under the lock. */
  predicate Authorized(token: Token<Binding>, now: real, sight: Sight, seen: nat, found: nat, ledger: Ledger)
    requires seen < |ledger.versions| && found < |ledger.versions|
  {
    && token.challengeId in ledger.issued && ledger.issued[token.challengeId].binding == token.binding
    && now < ledger.issued[token.challengeId].expiresAt
    && token.binding.store == ledger.versions[seen] == ledger.versions[found]
    && match sight
       case ApprovalSight(approval, observed, again, _, _) =>
         && token.binding.ApproveBinding? && approval == Ok(token.binding.request)
         && observed == again == Ok(token.binding.observed)
       case RevocationSight(revocation, _) =>
         token.binding.RevokeBinding? && revocation == Ok(RevokeRequest(token.binding.entryId, token.binding.reason))
  }

  /** Nothing was approved or revoked, and nothing replaced, unless every check passed on both versions of the store. */
  lemma ConfirmedIsAuthorized(
    response: Response, token: Token<Binding>, now: real, sight: Sight, seen: nat, found: nat, before: seq<Mutation>,
    ledger: Ledger, log: LogFiles, limits: Limits, healthy: bool, calm: bool)
    requires seen < |ledger.versions| && found < |ledger.versions|
    requires Confirmed(response, token, now, sight, seen, found, before, ledger, log, limits, healthy, calm)
    requires token.challengeId in ledger.issued && ledger.issued[token.challengeId].binding == token.binding
    requires now < ledger.issued[token.challengeId].expiresAt
    ensures !response.Failed? || ledger.applied != before ==> Authorized(token, now, sight, seen, found, ledger)
  {
    AppliedDecisionsAreBound(AttemptOf(token, sight), ledger.versions[found]);
  }

  /** Without a fault a confirmed approval goes through if and only if the request and the target are still what the
      challenge was issued for, on both looks, the store is, on both looks, and the plan for it applies. */
  lemma WhenAnApprovalGoesThrough(
    response: Response, token: Token<Binding>, now: real, sight: Sight, seen: nat, found: nat, before: seq<Mutation>,
    ledger: Ledger, log: LogFiles, limits: Limits, healthy: bool)
    requires seen < |ledger.versions| && found < |ledger.versions| && sight.ApprovalSight?
    requires Confirmed(response, token, now, sight, seen, found, before, ledger, log, limits, healthy, true)
    ensures response.Applied? <==>
              && sight.approval == Ok(token.binding.request)
              && sight.observed == sight.again == Ok(token.binding.observed)
              && ledger.versions[seen] == ledger.versions[found] == token.binding.store
              && PlanApproval(token.binding.store, ApprovedEntry(token, sight.entryBytes), sight.lockedAt,
                              TRUST_CACHE_MAX_BYTES).Apply?
  {
    AppliedDecisionsAreBound(AttemptOf(token, sight), ledger.versions[found]);
  }

  /** The same for a revocation, which looks at its entry on both looks. */
  lemma WhenARevocationGoesThrough(
    response: Response, token: Token<Binding>, now: real, sight: Sight, seen: nat, found: nat, before: seq<Mutation>,
    ledger: Ledger, log: LogFiles, limits: Limits, healthy: bool)
    requires seen < |ledger.versions| && found < |ledger.versions| && sight.RevocationSight?
    requires Confirmed(response, token, now, sight, seen, found, before, ledger, log, limits, healthy, true)
    ensures response.Applied? <==>
              && RevocationMismatch(token.binding, sight.revocation, ledger.versions[seen], now) == None
              && ledger.versions[found] == token.binding.store
              && PlanRevocation(token.binding.store, token.binding.expected.entryId, token.binding.expected,
                                sight.lockedAt, TRUST_CACHE_MAX_BYTES).Apply?
  {
    AppliedDecisionsAreBound(AttemptOf(token, sight), ledger.versions[found]);
  }

  predicate HasLiveEntry(store: StoreFile, id: Id, now: real) {
    var snapshot := ReadSnapshot(store, TRUST_CACHE_MAX_BYTES);
    snapshot.Ok? && FindLiveId(snapshot.value, id, now).Some?
  }

  /** The binding of a revocation names a live entry of the store that it is bound to. */
  predicate BindsEntry(binding: Binding, request: RevokeRequest, store: StoreFile, now: real) {
    var snapshot := ReadSnapshot(store, TRUST_CACHE_MAX_BYTES);
    && binding.RevokeBinding?
    && binding.entryId == request.entryId == binding.expected.entryId
    && binding.reason == request.reason
    && binding.store == store
    && snapshot.Ok? && binding.expected in snapshot.value && Live(binding.expected, now)
  }

  class TrustMutationService {
    const audit: TrustMutationAuditLog
    const confirmation: TrustMutationConfirmationManager<Binding>
    const longest: nat  // no audit line of this service is longer
    var healthy: bool
    var ledger: Ledger

    /** Since the last `Watch`, no file operation failed and the disk was always ready. */
    ghost predicate Calm()
      reads this, audit
    {
      !audit.faulted && !ledger.disturbed
    }

    /** Everything but the place of the process in a transaction. */
    ghost predicate Sound(point: Protocol.Point)
      reads this, audit, confirmation
    {
      var w := Protocol.World(audit.disk, point);
      Coherent(w, audit.limits, ledger) && Agrees() && (Calm() ==> Ready(w, audit.limits, longest))
    }

    /** Always true. It stands guard for `Agrees` as `Inside` does for `Coherent`. */
    predicate Within(k: nat) {
      true
    }

    /** The confirmation manager and the ledger agree. */
    ghost predicate Agrees()
      reads this, confirmation
    {
      forall k :: Within(k) ==>
        && confirmation.Valid()
        && Tied(confirmation.records, confirmation.usedIds, confirmation.consumedIds, ledger)
    }

    ghost predicate Valid()
      reads this, audit, confirmation
    {
      audit.reservation == None && Sound(Protocol.Idle)
    }

    /** Time goes on: nothing is forgotten, and calm does not return. */
    twostate predicate Forward()
      reads this, audit
    {
      && Onward(old(ledger), ledger)
      && old(audit.disk.log.history) <= audit.disk.log.history
      && (old(audit.faulted) ==> audit.faulted)
    }

    /** And the service issued, prepared and replaced nothing. */
    twostate predicate Quiet()
      reads this, audit
    {
      && Passed(old(ledger), ledger)
      && old(audit.disk.log.history) <= audit.disk.log.history
      && (old(audit.faulted) ==> audit.faulted)
    }

    constructor (audit: TrustMutationAuditLog, confirmation: TrustMutationConfirmationManager<Binding>, longest: nat)
      requires audit.reservation == None
      requires Protocol.Inv(Protocol.World(audit.disk, Protocol.Idle), audit.limits)
      requires confirmation.Valid() && confirmation.usedIds == {}
      ensures Valid() && healthy
      ensures this.audit == audit && this.confirmation == confirmation && this.longest == longest
      ensures ledger.applied == [] && ledger.versions == [audit.disk.store]
    {
      this.audit, this.confirmation, this.longest := audit, confirmation, longest;
      healthy := true;
      ledger := Ledger(
        IdsOf(audit.disk.log.history), map[], {}, [], [audit.disk.store],
        !Ready(Protocol.World(audit.disk, Protocol.Idle), audit.limits, longest));
      new;
      LookInside(Protocol.World(audit.disk, Protocol.Idle), audit.limits, ledger);
    }

    /** From here on: did a file operation fail, or did another process leave a disk that is not ready? */
    method Watch()
      requires Valid()
      modifies this`ledger, audit`faulted
      ensures Valid()
      ensures ledger == old(ledger).(disturbed := ledger.disturbed)
      ensures Calm() <==> Ready(Protocol.World(audit.disk, Protocol.Idle), audit.limits, longest)
    {
      assert Within(0);
      audit.faulted := false;
      ledger := ledger.(disturbed := !Ready(Protocol.World(audit.disk, Protocol.Idle), audit.limits, longest));
    }

    /** Whatever other processes did before this one got its lock. */
    method OthersRun()
      requires Valid()
      modifies this`ledger, audit`disk
      ensures Valid() && Quiet()
      ensures MayBecome(old(audit.disk), audit.disk, old(ledger.used), audit.limits)
    {
      assert Within(0);
      LookInside(Protocol.World(audit.disk, Protocol.Idle), audit.limits, ledger);
      var next: Disk := *;
      if MayBecome(audit.disk, next, ledger.used, audit.limits) {
        var ready := Ready(Protocol.World(next, Protocol.Idle), audit.limits, longest);
        OthersKeepCoherent(audit.disk, next, audit.limits, ledger, ready);
        ledger := AfterOthers(ledger, next, ready);
        audit.disk := next;
      }
    }

    method NewId() returns (id: Id)
      ensures id !in ledger.used
    {
      ghost var unused := UnusedIdExists(ledger.used);
      id :| id !in ledger.used;
    }

    method LineLength() returns (bytes: nat)
      ensures bytes <= longest
    {
      bytes := *;
      if bytes > longest {
        bytes := longest;
      }
    }

    /** `record`, as far as the protocol is concerned. */
    method AppendNotice(id: Id, name: string, context: Context) returns (r: Result<Id, Code>, ghost draft: Draft)
      modifies audit`disk, audit`faulted
      ensures draft == Draft(Notice(name), id, context, None, None, None, draft.bytes)
      ensures RecordEffect(old(audit.disk), audit.disk, draft, audit.limits)
      ensures r.Ok? ==> r.value == id && LogGrew(old(audit.disk.log), audit.disk.log, draft, audit.limits)
      ensures r.Err? ==> r.error in {RecoveryNeeded, AuditDown, StoreCorrupt}
      ensures old(Ready(Protocol.World(audit.disk, Protocol.Idle), audit.limits, longest)) && !audit.faulted ==>
                r.Ok? && Ready(Protocol.World(audit.disk, Protocol.Idle), audit.limits, longest)
      ensures old(audit.faulted) ==> audit.faulted
    {
      var bytes := LineLength();
      ghost var before := audit.disk;
      draft := Draft(Notice(name), id, context, None, None, None, bytes);
      ReadyLogsTakeRecords(Protocol.World(before, Protocol.Idle), draft, audit.freshKey, audit.limits, longest);
      var recorded, _ := audit.RecordEvent(Draft(Notice(name), id, context, None, None, None, bytes));
      r := match recorded case Ok(_) => Ok(id) case Err(error) => Err(AuditCode(error));
    }

    /** `_record`, once the lock is held. */
    method RecordLocked(name: string, context: Context) returns (r: Result<Id, Code>)
      requires Valid()
      modifies this`ledger, audit`disk, audit`faulted
      ensures Valid() && Quiet()
      ensures r.Ok? ==> Noted(old(audit.disk.log.history), audit.disk.log.history, name, context)
      ensures r.Err? ==> r.error in {RecoveryNeeded, AuditDown, StoreCorrupt}
      ensures Calm() ==> r.Ok?
    {
      assert Within(0);
      ghost var before, draft := audit.disk, NOTE;
      var id := NewId();
      r, draft := AppendNotice(id, name, context);
      RecordingKeepsCoherent(before, audit.disk, draft, audit.limits, ledger);
      ledger := ledger.(used := ledger.used + {id});
    }

    /** `_record`. */
    method Record(name: string, context: Context) returns (r: Result<Id, Code>)
      requires Valid()
      modifies this`ledger, audit`disk, audit`faulted
      ensures Valid() && Quiet()
      ensures r.Ok? ==> Noted(old(audit.disk.log.history), audit.disk.log.history, name, context)
      ensures r.Err? ==> r.error in {RecoveryNeeded, AuditDown, StoreCorrupt}
      ensures Calm() ==> r.Ok?
    {
      OthersRun();
      r := RecordLocked(name, context);
    }

    /** Version `at` of the store was the present one at some time during the call. */
    twostate predicate Saw(at: nat)
      reads this
    {
      |old(ledger.versions)| <= at + 1 && at < |ledger.versions|
    }

    /** Read the store under its lock. */
    method ReadStore() returns (store: StoreFile, ghost at: nat)
      requires Valid()
      modifies this`ledger, audit`disk
      ensures Valid() && Quiet() && Saw(at) && store == ledger.versions[at]
    {
      OthersRun();
      store, at := audit.disk.store, Present(ledger);
    }

    // ---------- inside the transaction ----------

    /** The reservation says what the point in the transaction says. */
    ghost predicate Reserves(point: Protocol.Point)
      reads audit
    {
      && audit.reservation.Some?
      && (Protocol.MayClearMarker(point) <==>
            !audit.reservation.value.prepareAttempted || audit.reservation.value.completed)
      && (point.Began? ==> audit.reservation.value == Reservation(false, None, false))
      && (point.Prepared? || point.Wrote? ==> audit.reservation.value.prepared == Some(point.prepared.eventId))
    }

    ghost predicate Holds(point: Protocol.Point)
      reads this, audit, confirmation
    {
      Sound(point) && Reserves(point)
    }

    /** The challenge pays for a mutation that is prepared under this id. */
    ghost predicate Pays(c: Id, consumedAt: real, preparedId: Id)
      reads this, confirmation
    {
      && c in ledger.issued && c in confirmation.consumedIds && consumedAt < ledger.issued[c].expiresAt
      && preparedId in ledger.used && ReservedForNoOther(ledger.issued, c, preparedId)
    }

    /** It was not used, and neither was the id. */
    ghost predicate Unspent(c: Id, preparedId: Id)
      reads this, audit
    {
      c !in ledger.spent && Protocol.Fresh(preparedId, audit.disk.log.history)
    }

    /** Entering `mutation_transaction`, which waits for the reservation lock. */
    method Begin() returns (r: Result<(), AuditError>)
      requires Valid()
      modifies this`ledger, audit`disk, audit`faulted, audit`reservation
      ensures Quiet()
      ensures forall id :: id in old(ledger.used) && Protocol.Fresh(id, old(audit.disk.log.history)) ==>
                Protocol.Fresh(id, audit.disk.log.history)
      ensures if r.Ok? then Holds(Protocol.Began) else Valid()
      ensures Calm() ==> r.Ok?
    {
      OthersRun();
      ghost var before := audit.disk;
      r := audit.BeginTransaction();
      ghost var point := if r.Ok? then Protocol.Began else Protocol.Idle;
      StepKeepsCoherent(
        Protocol.World(before, Protocol.Idle), Protocol.BeginStep, Protocol.World(audit.disk, point), audit.limits, ledger);
    }

    /** Until the store lock is taken as well, a writer that knows nothing of the log may write the store. */
    method OthersWrite()
      requires Holds(Protocol.Began)
      modifies this`ledger, audit`disk
      ensures Holds(Protocol.Began) && Quiet()
      ensures audit.disk == old(audit.disk).(store := audit.disk.store) && ledger.used == old(ledger.used)
    {
      assert Within(0);
      var next: StoreFile := *;
      StoreWritersKeepCoherent(audit.disk, next, audit.limits, ledger);
      ledger := WithVersion(ledger, next);
      audit.disk := audit.disk.(store := next);
    }

    /** `prepare_mutation` in the transaction, as far as the protocol is concerned. */
    method AppendPrepare(context: Context, preparedId: Id, after: StoreFile)
      returns (r: Result<PreparedMutation, AuditError>, ghost draft: Draft)
      requires Reserves(Protocol.Began) && audit.disk.marker && after != audit.disk.store
      modifies audit`disk, audit`faulted, audit`reservation
      ensures Prepares(old(audit.disk), audit.disk, context, draft, after, r, audit.limits) && draft.eventId == preparedId
      ensures old(Ready(Protocol.World(audit.disk, Protocol.Began), audit.limits, longest)) && !audit.faulted ==>
                r.Ok? && Ready(Protocol.World(audit.disk, Protocol.Began), audit.limits, longest)
      ensures audit.reservation == Some(Reservation(true, if r.Ok? then Some(preparedId) else None, false))
      ensures old(audit.faulted) ==> audit.faulted
    {
      var bytes := LineLength();
      ghost var before, reach := audit.disk, Untouched;
      ghost var drafted := audit.DraftToPrepare(before.log, context, preparedId, before.store, after, bytes);
      ReadyLogsTakeRecords(Protocol.World(before, Protocol.Began), drafted, audit.freshKey, audit.limits, longest);
      r, reach := audit.PrepareMutation(context, preparedId, audit.disk.store, after, bytes, true);
      draft := PrepareDraft(context, preparedId, KeyOf(audit.disk.log), before.store, after, bytes);
      ReachingPrepares(
        before, audit.disk, context, preparedId, after, bytes, r, audit.limits, reach, audit.freshKey);
    }

    /** `_prepare_audit`. */
    method PrepareAudit(c: Id, consumedAt: real, context: Context, preparedId: Id, after: StoreFile)
      returns (r: Result<PreparedMutation, AuditError>)
      requires Holds(Protocol.Began) && Pays(c, consumedAt, preparedId) && Unspent(c, preparedId)
      requires after != audit.disk.store
      modifies this`ledger, audit`disk, audit`faulted, audit`reservation
      ensures ledger == old(ledger).(spent := old(ledger.spent) + {c}) && audit.disk.store == old(audit.disk.store)
      ensures Forward() && Holds(PointAfterPrepare(r, context, after))
      ensures r.Ok? ==> r.value.eventId == preparedId
      ensures Calm() ==> r.Ok?
    {
      assert Within(0);
      ghost var before, draft := audit.disk, NOTE;
      r, draft := AppendPrepare(context, preparedId, after);
      PreparingKeepsCoherent(before, audit.disk, c, context, draft, after, r, audit.limits, ledger);
      ledger := ledger.(spent := ledger.spent + {c});
    }

    /** `_write_encoded_unlocked` after a prepared mutation. */
    method WriteStore(c: Id, consumedAt: real, prepared: PreparedMutation, context: Context, after: StoreFile)
      returns (ok: bool)
      requires Holds(Protocol.Prepared(prepared, context, after)) && Pays(c, consumedAt, prepared.eventId)
      requires c in ledger.spent && (forall m :: m in ledger.applied ==> m.challenge != c)
      requires ledger.issued[c].binding.store == audit.disk.store && after != audit.disk.store
      modifies this`ledger, audit`disk, audit`faulted
      ensures Forward() && Holds(if ok then Protocol.Wrote(prepared, context) else Protocol.Ending(true, false))
      ensures ledger.used == old(ledger.used) && ledger.issued == old(ledger.issued) && ledger.spent == old(ledger.spent)
      ensures Swapped(old(ledger.applied), ledger, Mutation(c, consumedAt, Present(old(ledger))), after)
           || (ledger.applied == old(ledger.applied) && !ok)
      ensures Calm() ==> ok
    {
      assert Within(0);
      ghost var before := audit.disk;
      ok := audit.Perform(audit.disk.(store := after));
      ghost var written := audit.disk.store != before.store;
      WritingStoreKeepsCoherent(before, prepared, context, after, written, ok, c, consumedAt, audit.limits, ledger);
      ledger := if audit.disk.store == after then WithMutation(ledger, c, consumedAt, after) else ledger;
    }

    /** `commit_mutation` in the transaction, as far as the protocol is concerned. */
    method AppendCommit(id: Id, prepared: PreparedMutation, context: Context)
      returns (r: Result<Id, Code>, ghost draft: Draft)
      requires Reserves(Protocol.Wrote(prepared, context))
      requires Protocol.Inv(Protocol.World(audit.disk, Protocol.Wrote(prepared, context)), audit.limits)
      modifies audit`disk, audit`faulted, audit`reservation
      ensures draft == CommitDraft(prepared, context, id, draft.bytes)
      ensures CommitEffect(old(audit.disk), audit.disk, prepared, context, id, draft.bytes, audit.limits)
      ensures r.Ok? ==> r.value == id && LogGrew(old(audit.disk.log), audit.disk.log, draft, audit.limits)
      ensures Reserves(Protocol.Ending(true, r.Ok?))
      ensures var before, after := Protocol.World(old(audit.disk), Protocol.Began), Protocol.World(audit.disk, Protocol.Began);
              Ready(before, audit.limits, longest) && !audit.faulted ==> r.Ok? && Ready(after, audit.limits, longest)
      ensures old(audit.faulted) ==> audit.faulted
    {
      var bytes := LineLength();
      ghost var w := Protocol.World(audit.disk, Protocol.Wrote(prepared, context));
      draft := CommitDraft(prepared, context, id, bytes);
      if Ready(w, audit.limits, longest) {
        OpenMutationIsCommittable(w, audit.limits);
      }
      ReadyLogsTakeRecords(w, draft, audit.freshKey, audit.limits, longest);
      var committed, _ := audit.CommitMutation(prepared, context, id, bytes, true);
      r := match committed case Ok(value) => Ok(value) case Err(error) => Err(AuditCode(error));
    }

    /** `_commit_audit`. */
    method CommitAudit(prepared: PreparedMutation, context: Context) returns (r: Result<Id, Code>)
      requires Holds(Protocol.Wrote(prepared, context))
      requires prepared.eventId in ledger.used && NotReserved(ledger, prepared.eventId)
      modifies this`ledger, audit`disk, audit`faulted, audit`reservation
      ensures Quiet() && ledger.versions == old(ledger.versions)
      ensures Holds(Protocol.Ending(true, r.Ok?))
      ensures r.Ok? ==>
                && LogView(audit.disk.log, audit.limits).Legible?
                && CommittedOnce(audit.disk.log.history, prepared.eventId, r.value)
      ensures Calm() ==> r.Ok?
    {
      assert Within(0);
      ghost var before, draft := audit.disk, NOTE;
      LookInside(Protocol.World(before, Protocol.Wrote(prepared, context)), audit.limits, ledger);
      var id := NewId();
      r, draft := AppendCommit(id, prepared, context);
      CommittingKeepsCoherent(before, audit.disk, prepared, context, draft, r.Ok?, audit.limits, ledger);
      ledger := ledger.(used := ledger.used + {id});
    }

    /** Leaving `mutation_transaction`. */
    method Finish(ghost point: Protocol.Point) returns (ok: bool)
      requires Holds(point) && point != Protocol.Idle && (Calm() ==> Protocol.MayClearMarker(point))
      modifies audit`disk, audit`faulted, audit`reservation
      ensures Valid() && Quiet()
      ensures audit.disk.log == old(audit.disk.log)
      ensures Calm() ==> ok
    {
      ghost var before := audit.disk;
      ok := audit.FinishTransaction();
      StepKeepsCoherent(
        Protocol.World(before, point), Protocol.FinishStep, Protocol.World(audit.disk, Protocol.Idle), audit.limits,
        ledger);
    }

    /** The body that `approve_mcp` and `revoke_entry_id` share: prepare, replace the store, commit. */
    method Mutate(c: Id, consumedAt: real, context: Context, preparedId: Id, after: StoreBytes, entry: Entry)
      returns (outcome: Outcome, ghost point: Protocol.Point)
      requires Holds(Protocol.Began) && Pays(c, consumedAt, preparedId) && Unspent(c, preparedId)
      requires ledger.issued[c].binding.store == audit.disk.store && Some(after) != audit.disk.store
      modifies this`ledger, audit`disk, audit`faulted, audit`reservation
      ensures point.Ending? && Holds(point) && Forward() && ledger.issued == old(ledger.issued)
      ensures Accounts(outcome, Ok(Apply(after, entry)), preparedId, Mutation(c, consumedAt, Present(old(ledger))),
                       old(ledger.applied), ledger, audit.disk.log, audit.limits)
      ensures point.completed <==> outcome.Committed?
      ensures Calm() ==> outcome.Committed?
    {
      point := Protocol.Ending(true, false);
      UnspentIsNotApplied(Protocol.World(audit.disk, Protocol.Began), audit.limits, ledger, c);
      var prepared := PrepareAudit(c, consumedAt, context, preparedId, Some(after));
      if prepared.Err? {
        outcome := Refused(AuditCode(prepared.error));
      } else {
        outcome, point := WriteAndCommit(c, consumedAt, prepared.value, context, after, entry);
      }
    }

    /** The rest of it, once the mutation is prepared. */
    method WriteAndCommit(
      c: Id, consumedAt: real, prepared: PreparedMutation, context: Context, after: StoreBytes, entry: Entry)
      returns (outcome: Outcome, ghost point: Protocol.Point)
      requires Holds(Protocol.Prepared(prepared, context, Some(after))) && Pays(c, consumedAt, prepared.eventId)
      requires c in ledger.spent && (forall m :: m in ledger.applied ==> m.challenge != c)
      requires ledger.issued[c].binding.store == audit.disk.store && Some(after) != audit.disk.store
      modifies this`ledger, audit`disk, audit`faulted, audit`reservation
      ensures point.Ending? && Holds(point) && Forward() && ledger.issued == old(ledger.issued)
      ensures Accounts(outcome, Ok(Apply(after, entry)), prepared.eventId, Mutation(c, consumedAt, Present(old(ledger))),
                       old(ledger.applied), ledger, audit.disk.log, audit.limits)
      ensures point.completed <==> outcome.Committed?
      ensures Calm() ==> outcome.Committed?
    {
      point := Protocol.Ending(true, false);
      var written := WriteStore(c, consumedAt, prepared, context, Some(after));
      if !written {
        outcome := WriteFailed;
      } else {
        var committed := CommitAudit(prepared, context);
        point := Protocol.Ending(true, committed.Ok?);
        outcome := match committed
          case Ok(final) => Committed(entry, prepared.eventId, final)
          case Err(_) => Pending(prepared.eventId);
      }
    }

    /** What happens to the store in a transaction: read it under the lock, decide, and do as decided. */
    method DecideAndMutate(c: Id, consumedAt: real, context: Context, preparedId: Id, attempt: Attempt)
      returns (outcome: Outcome, ghost found: nat, ghost point: Protocol.Point)
      requires Holds(Protocol.Began) && Pays(c, consumedAt, preparedId) && Unspent(c, preparedId)
      requires attempt.store == ledger.issued[c].binding.store
      modifies this`ledger, audit`disk, audit`faulted, audit`reservation
      ensures Holds(point) && point != Protocol.Idle && Forward() && Saw(found) && ledger.issued == old(ledger.issued)
      ensures Calm() ==> Protocol.MayClearMarker(point)
      ensures Accounts(outcome, Decide(attempt, ledger.versions[found]), preparedId, Mutation(c, consumedAt, found),
                       old(ledger.applied), ledger, audit.disk.log, audit.limits)
      ensures Calm() ==> Follows(outcome, Decide(attempt, ledger.versions[found]))
    {
      OthersWrite();
      found, point := Present(ledger), Protocol.Began;
      AppliedDecisionsAreBound(attempt, audit.disk.store);
      match Decide(attempt, audit.disk.store)
      case Err(code) => outcome := Refused(code);
      case Ok(plan) =>
        if plan.Apply? {
          outcome, point := Mutate(c, consumedAt, context, preparedId, plan.after, plan.entry);
        } else {
          outcome := NoChange(plan);
        }
    }

    /** `mutation_transaction` around one attempt. `found` is the version of the store under the lock: nothing but the
        comparison made there says that it is the bound one. */
    method Transact(c: Id, consumedAt: real, context: Context, preparedId: Id, attempt: Attempt)
      returns (outcome: Outcome, ghost found: nat)
      requires Valid() && Pays(c, consumedAt, preparedId) && Unspent(c, preparedId)
      requires attempt.store == ledger.issued[c].binding.store
      modifies this`ledger, audit`disk, audit`faulted, audit`reservation
      ensures Valid() && Forward() && Saw(found) && ledger.issued == old(ledger.issued)
      ensures Accounts(outcome, Decide(attempt, ledger.versions[found]), preparedId, Mutation(c, consumedAt, found),
                       old(ledger.applied), ledger, audit.disk.log, audit.limits)
      ensures Calm() ==> Follows(outcome, Decide(attempt, ledger.versions[found]))
    {
      var begun := Begin();
      if begun.Err? {
        outcome, found := Refused(AuditCode(begun.error)), Present(ledger);
      } else {
        ghost var point;
        outcome, found, point := DecideAndMutate(c, consumedAt, context, preparedId, attempt);
        var finished := Finish(point);
        outcome := if finished then outcome else Unfinished(outcome);
      }
    }

    // ---------- the two tools ----------

    /** Record an event that goes with an error. A failure to record replaces the error. */
    method RecordAs(name: string, context: Context, code: Code) returns (final: Code)
      requires Valid()
      modifies this`ledger, audit`disk, audit`faulted
      ensures Valid() && Quiet()
      ensures final == code || (final in {RecoveryNeeded, AuditDown, StoreCorrupt} && !Calm())
      ensures final !in {RecoveryNeeded, AuditDown, StoreCorrupt} ==>
                Noted(old(audit.disk.log.history), audit.disk.log.history, name, context)
    {
      var recorded := Record(name, context);
      final := if recorded.Ok? then code else recorded.error;
    }

    /** `_record_terminal_failure`. */
    method RecordFailure(context: Context, code: Code) returns (final: Code)
      requires Valid()
      modifies this`ledger, audit`disk, audit`faulted
      ensures Valid() && Quiet()
      ensures final == code || (final in {RecoveryNeeded, AuditDown, StoreCorrupt} && !Calm())
      ensures final !in {RecoveryNeeded, AuditDown, StoreCorrupt} ==>
                Noted(old(audit.disk.log.history), audit.disk.log.history, "mutation_failed", context)
    {
      final := RecordAs("mutation_failed", context, code);
    }

    /** `_mark_unhealthy`. */
    method MarkUnhealthy()
      requires Valid()
      modifies this`healthy, confirmation
      ensures Valid() && !healthy
      ensures confirmation.usedIds == old(confirmation.usedIds)
    {
      assert Within(0);
      healthy := false;
      confirmation.InvalidateAll();
    }

    /** The confirmation manager has room for one more challenge. */
    predicate HasSlot(now: real)
      reads confirmation
    {
      && |PruneExpired(confirmation.records, now)| < MAX_LIVE_CHALLENGES
      && |PruneIssueWindow(confirmation.issuedAt, now)| < MAX_ISSUES_PER_WINDOW
    }

    /** A UUID that nothing recorded or reserved carries. */
    ghost predicate Unclaimed(id: Id)
      reads this, audit
    {
      && id in ledger.used
      && Protocol.Fresh(id, audit.disk.log.history)
      && ReservedForNone(ledger.issued, id)
    }

    method UnclaimedId() returns (id: Id)
      requires Valid()
      modifies this`ledger
      ensures Valid() && Quiet() && Unclaimed(id)
      ensures ledger == old(ledger).(used := ledger.used)
    {
      assert Within(0);
      id := NewId();
      DrawingKeepsCoherent(Protocol.World(audit.disk, Protocol.Idle), audit.limits, ledger, id);
      ledger := ledger.(used := ledger.used + {id});
    }

    /** The confirmation manager's part of issuing. */
    method AskManager(binding: Binding, c: Id, now: real) returns (r: Result<Token<Binding>, ConfirmationError>)
      requires confirmation.Valid() && c !in ledger.used
      requires Tied(confirmation.records, confirmation.usedIds, confirmation.consumedIds, ledger)
      modifies confirmation
      ensures confirmation.Valid()
      ensures Tied(confirmation.records, confirmation.usedIds, confirmation.consumedIds,
                   AfterIssue(ledger, c, Issued(binding, now + CONFIRMATION_EXPIRY_SECONDS), r.Ok?))
      ensures r.Ok? ==> r.value == Token(confirmation.secret, c, now, now + CONFIRMATION_EXPIRY_SECONDS, binding)
      ensures r.Ok? <==> old(HasSlot(now))
    {
      IssuingKeepsTied(
        confirmation.records, confirmation.usedIds, confirmation.consumedIds, ledger, c,
        ChallengeRecord(now, now + CONFIRMATION_EXPIRY_SECONDS, binding, binding.entryId, false), now);
      r := confirmation.Issue(binding, binding.entryId, c, now);
    }

    /** Draw an id and enter the challenge. */
    method EnterChallenge(binding: Binding, now: real) returns (c: Id, r: Result<Token<Binding>, ConfirmationError>)
      requires Valid()
      requires binding.ApproveBinding? ==> Unclaimed(binding.preparedId)
      modifies this`ledger, confirmation
      ensures Valid() && c !in old(ledger.issued)
      ensures ledger == AfterIssue(old(ledger), c, Issued(binding, now + CONFIRMATION_EXPIRY_SECONDS), r.Ok?)
      ensures r.Ok? ==> r.value == Token(confirmation.secret, c, now, now + CONFIRMATION_EXPIRY_SECONDS, binding)
      ensures r.Ok? <==> old(HasSlot(now))
    {
      assert Within(0);
      c := NewId();
      var next := Issued(binding, now + CONFIRMATION_EXPIRY_SECONDS);
      IssuingKeepsCoherent(Protocol.World(audit.disk, Protocol.Idle), audit.limits, ledger, c, next);
      r := AskManager(binding, c, now);
      ledger := AfterIssue(ledger, c, next, r.Ok?);
    }

    /** Issue a challenge for a binding. */
    method IssueChallenge(binding: Binding, now: real) returns (r: Result<Token<Binding>, Code>)
      requires Valid()
      requires binding.ApproveBinding? ==> Unclaimed(binding.preparedId)
      modifies this`ledger, audit`disk, audit`faulted, confirmation
      ensures Valid() && Forward()
      ensures r.Ok? ==>
                && Challenges(old(ledger), ledger, r.value, now) && r.value.binding == binding
                && Noted(old(audit.disk.log.history), audit.disk.log.history, "challenge_issued",
                         ContextOf(OperationOf(binding), binding.operationId, binding.entryId, r.value.challengeId, None))
      ensures Calm() ==> (r.Ok? <==> old(HasSlot(now)))
    {
      var c, token := EnterChallenge(binding, now);
      var context := ContextOf(OperationOf(binding), binding.operationId, binding.entryId, c, None);
      if token.Err? {
        var code := RecordAs("challenge_rejected", context, Code.RateLimited);
        r := Err(code);
      } else {
        var recorded := Record("challenge_issued", context);
        r := if recorded.Ok? then Ok(token.value) else Err(recorded.error);
      }
    }

    /** The token is one of this service's, in time, and not used yet. */
    predicate Redeemable(token: Token<Binding>, now: real, operation: Operation)
      reads confirmation
    {
      && token.signer == confirmation.secret
      && token.challengeId in confirmation.records
      && var record := confirmation.records[token.challengeId];
      && now < record.expiresAt
      && !record.consumed
      && token == Token(confirmation.secret, token.challengeId, record.issuedAt, record.expiresAt, record.binding)
      && operation == OperationOf(token.binding)
    }

    /** A consumed challenge that has not been used yet. */
    ghost predicate Usable(token: Token<Binding>, now: real)
      reads this, confirmation
    {
      && token.challengeId in ledger.issued && token.challengeId !in ledger.spent
      && token.challengeId in confirmation.consumedIds
      && ledger.issued[token.challengeId].binding == token.binding
      && now < ledger.issued[token.challengeId].expiresAt
    }

    /** The part of `_consume` that the confirmation manager does. */
    method Redeem(token: Token<Binding>, now: real) returns (ok: bool)
      requires Valid()
      modifies confirmation
      ensures Valid()
      ensures ok <==> old(Redeemable(token, now, OperationOf(token.binding)))
      ensures ok ==> token.challengeId !in old(confirmation.consumedIds) && Usable(token, now)
    {
      assert Within(0);
      var consumed := confirmation.AuthenticateAndConsume(token, now);
      ok := consumed.Ok?;
    }

    /** `_consume`. */
    method Consume(token: Token<Binding>, now: real, operation: Operation) returns (r: Result<(), Code>)
      requires Valid()
      modifies this`ledger, audit`disk, audit`faulted, confirmation
      ensures Valid() && Quiet()
      ensures r.Ok? ==>
                && old(Redeemable(token, now, operation))
                && token.challengeId !in old(confirmation.consumedIds)
                && Usable(token, now)
                && Noted(old(audit.disk.log.history), audit.disk.log.history, "challenge_consumed",
                         ContextOf(operation, token.binding.operationId, token.binding.entryId, token.challengeId, None))
      ensures r.Err? ==> !r.error.CommittedAuditPending?
      ensures Calm() ==> r == if old(Redeemable(token, now, operation)) then Ok(()) else Err(ConfirmationInvalid)
    {
      var redeemed := Redeem(token, now);
      if !redeemed {
        r := Err(ConfirmationInvalid);
      } else {
        r := RecordConsumed(token, operation);
      }
    }

    /** The rest of it: the record, and whether the token is for this operation. */
    method RecordConsumed(token: Token<Binding>, operation: Operation) returns (r: Result<(), Code>)
      requires Valid()
      modifies this`ledger, audit`disk, audit`faulted
      ensures Valid() && Quiet()
      ensures r.Ok? ==>
                && operation == OperationOf(token.binding)
                && Noted(old(audit.disk.log.history), audit.disk.log.history, "challenge_consumed",
                         ContextOf(operation, token.binding.operationId, token.binding.entryId, token.challengeId, None))
      ensures r.Err? ==> !r.error.CommittedAuditPending?
      ensures Calm() ==> r == if operation == OperationOf(token.binding) then Ok(()) else Err(ConfirmationInvalid)
    {
      var context := ContextOf(
        OperationOf(token.binding), token.binding.operationId, token.binding.entryId, token.challengeId, None);
      var recorded := Record("challenge_consumed", context);
      r := Ok(());
      if recorded.Err? {
        r := Err(recorded.error);
      } else if OperationOf(token.binding) != operation {
        var code := RecordFailure(context, ConfirmationInvalid);
        r := Err(code);
      }
    }

    /** What comes before anything else in a confirmation: the service must be healthy, and the token is consumed. */
    method Admit(token: Token<Binding>, now: real, operation: Operation) returns (r: Result<(), Code>)
      requires Valid()
      modifies this`ledger, audit`disk, audit`faulted, confirmation
      ensures Valid() && Quiet()
      ensures !healthy ==> r == Err(RecoveryNeeded) && audit.disk == old(audit.disk) && ledger == old(ledger)
      ensures r.Ok? ==>
                && healthy && old(Redeemable(token, now, operation))
                && token.challengeId !in old(confirmation.consumedIds) && Usable(token, now)
      ensures r.Err? ==> !r.error.CommittedAuditPending?
      ensures healthy && Calm() ==> r == if old(Redeemable(token, now, operation)) then Ok(()) else Err(ConfirmationInvalid)
    {
      r := Err(RecoveryNeeded);
      if healthy {
        r := Consume(token, now, operation);
      }
    }

    /** What the tool answers when nothing was changed. */
    method AnswerNoChange(plan: Plan, context: Context) returns (response: Response)
      requires Valid() && !plan.Apply?
      modifies this`ledger, audit`disk, audit`faulted
      ensures Valid() && Quiet()
      ensures response == NoChangeResponse(plan)
           || (response.Failed? && response.code in {RecoveryNeeded, AuditDown, StoreCorrupt} && !Calm())
    {
      var event := if plan.AlreadyApproved? || plan.NotFound? then "mutation_noop" else "mutation_failed";
      var recorded := Record(event, context);
      response := if recorded.Ok? then NoChangeResponse(plan) else Failed(recorded.error);
    }

    /** After the transaction: what the tool answers, and whether the service stays healthy. */
    method Answer(outcome: Outcome, context: Context) returns (response: Response)
      requires Valid() && healthy
      requires outcome.NoChange? ==> !outcome.plan.Apply?
      requires outcome.Refused? ==> !outcome.code.CommittedAuditPending?
      modifies this`ledger, this`healthy, audit`disk, audit`faulted, confirmation
      ensures Valid() && Quiet()
      ensures Answers(response, outcome, healthy)
      ensures Calm() ==> AnswersFully(response, outcome)
      ensures outcome.Committed? || outcome.Pending? || outcome.WriteFailed? ==>
                audit.disk == old(audit.disk) && ledger == old(ledger)
    {
      match outcome {
        case Committed(entry, prepared, final) =>
          response := Applied(entry, prepared, final);
        case Pending(prepared) =>
          MarkUnhealthy();
          response := Failed(CommittedAuditPending(prepared));
        case WriteFailed =>
          MarkUnhealthy();
          response := Failed(PersistenceFailed);
        case Refused(code) =>
          var final := RecordFailure(context, code);
          response := Failed(final);
        case NoChange(plan) =>
          response := AnswerNoChange(plan, context);
      }
    }

    // ---------- requests ----------

    /** `_issue_approval`: the environment decides whether the request is well-formed and what the
        repository looks like. `at` is the version of the store that the challenge is bound to. */
    method IssueApproval(request: Result<ApprovalRequest, string>, observed: Result<Observed, string>, now: real)
      returns (r: Result<Token<Binding>, Code>, ghost at: nat)
      requires Valid()
      modifies this`ledger, audit`disk, audit`faulted, confirmation
      ensures Valid() && Forward() && Saw(at)
      ensures !old(healthy) ==> r == Err(RecoveryNeeded) && audit.disk == old(audit.disk) && ledger == old(ledger)
      ensures r.Ok? ==>
                && request.Ok? && observed.Ok?
                && Challenges(old(ledger), ledger, r.value, now)
                && r.value.binding.ApproveBinding?
                && r.value.binding.request == request.value && r.value.binding.observed == observed.value
                && r.value.binding.store == ledger.versions[at]
      ensures old(healthy) && Calm() ==>
                (r.Ok? <==>
                   && request.Ok? && observed.Ok? && old(HasSlot(now))
                   && ReadSnapshot(ledger.versions[at], TRUST_CACHE_MAX_BYTES).Ok?)
    {
      at := Present(ledger);
      if !healthy {
        r := Err(RecoveryNeeded);
      } else {
        var operationId := NewOperation();
        var context := Context(ApproveOperation, operationId, None, None, None);
        var refused := Validate(context, request);
        at := Present(ledger);
        if refused.Some? {
          r := Err(refused.value);
        } else if observed.Err? {
          var code := RecordFailure(context, Rejected(observed.error));
          r, at := Err(code), Present(ledger);
        } else {
          r, at := IssueForTarget(request.value, observed.value, context, now);
        }
      }
    }

    method NewOperation() returns (id: Id)
      requires Valid()
      modifies this`ledger
      ensures Valid() && Quiet() && ledger.versions == old(ledger.versions)
    {
      id := UnclaimedId();
    }

    /** Record that the request is well-formed, or why it is not. */
    method Validate<R>(context: Context, request: Result<R, string>) returns (refused: Option<Code>)
      requires Valid()
      modifies this`ledger, audit`disk, audit`faulted
      ensures Valid() && Quiet()
      ensures request.Err? ==> refused.Some?
      ensures Calm() ==> refused == if request.Ok? then None else Some(Rejected(request.error))
    {
      if request.Err? {
        var code := RecordAs("request_validation_failed", context, Rejected(request.error));
        refused := Some(code);
      } else {
        var validated := Record("request_validated", context);
        refused := if validated.Ok? then None else Some(validated.error);
      }
    }

    /** The rest of `_issue_approval`, from the store on. */
    method IssueForTarget(request: ApprovalRequest, observed: Observed, context: Context, now: real)
      returns (r: Result<Token<Binding>, Code>, ghost at: nat)
      requires Valid()
      modifies this`ledger, audit`disk, audit`faulted, confirmation
      ensures Valid() && Forward() && Saw(at)
      ensures r.Ok? ==>
                && Challenges(old(ledger), ledger, r.value, now)
                && r.value.binding.ApproveBinding?
                && r.value.binding.request == request && r.value.binding.observed == observed
                && r.value.binding.store == ledger.versions[at]
      ensures Calm() ==>
                (r.Ok? <==> old(HasSlot(now)) && ReadSnapshot(ledger.versions[at], TRUST_CACHE_MAX_BYTES).Ok?)
    {
      var store, snapshot;
      store, snapshot, at := Snapshot(context);
      if snapshot.Err? {
        r := Err(snapshot.error);
      } else {
        r := IssueForStore(request, observed, context, store, now);
      }
    }

    /** Read the store and its entries, or record why they cannot be read. */
    method Snapshot(context: Context) returns (store: StoreFile, snapshot: Result<seq<Entry>, Code>, ghost at: nat)
      requires Valid()
      modifies this`ledger, audit`disk, audit`faulted
      ensures Valid() && Quiet() && Saw(at) && store == ledger.versions[at]
      ensures snapshot.Ok? <==> ReadSnapshot(store, TRUST_CACHE_MAX_BYTES).Ok?
      ensures snapshot.Ok? ==> snapshot.value == ReadSnapshot(store, TRUST_CACHE_MAX_BYTES).value
    {
      store, at := ReadStore();
      match ReadSnapshot(store, TRUST_CACHE_MAX_BYTES)
      case Ok(entries) => snapshot := Ok(entries);
      case Err(error) =>
        var code := RecordFailure(context, StoreCode(error));
        snapshot := Err(code);
    }

    /** The challenge for an approval that was bound to this store. */
    method IssueForStore(request: ApprovalRequest, observed: Observed, context: Context, store: StoreFile, now: real)
      returns (r: Result<Token<Binding>, Code>)
      requires Valid()
      modifies this`ledger, audit`disk, audit`faulted, confirmation
      ensures Valid() && Forward()
      ensures r.Ok? ==>
                && Challenges(old(ledger), ledger, r.value, now)
                && r.value.binding.ApproveBinding?
                && r.value.binding.request == request && r.value.binding.observed == observed
                && r.value.binding.store == store
      ensures Calm() ==> (r.Ok? <==> old(HasSlot(now)))
    {
      var resolved := Record("identity_resolved", context.(target := Some(observed.target)));
      if resolved.Err? {
        r := Err(resolved.error);
      } else {
        var entryId := UnclaimedId();
        var preparedId := UnclaimedId();
        r := IssueChallenge(
          ApproveBinding(context.operationId, entryId, preparedId, request, observed, store), now);
      }
    }

    /** `_issue_revoke`. */
    method IssueRevoke(request: Result<RevokeRequest, string>, now: real)
      returns (r: Result<Token<Binding>, Code>, ghost at: nat)
      requires Valid()
      modifies this`ledger, audit`disk, audit`faulted, confirmation
      ensures Valid() && Forward() && Saw(at)
      ensures !old(healthy) ==> r == Err(RecoveryNeeded) && audit.disk == old(audit.disk) && ledger == old(ledger)
      ensures r.Ok? ==>
                && request.Ok? && Challenges(old(ledger), ledger, r.value, now)
                && BindsEntry(r.value.binding, request.value, ledger.versions[at], now)
      ensures old(healthy) && Calm() ==>
                (r.Ok? <==> request.Ok? && old(HasSlot(now)) && HasLiveEntry(ledger.versions[at], request.value.entryId, now))
    {
      at := Present(ledger);
      if !healthy {
        r := Err(RecoveryNeeded);
      } else {
        var operationId := NewOperation();
        var context := Context(RevokeOperation, operationId, None, None, None);
        var refused := Validate(context, request);
        at := Present(ledger);
        if refused.Some? {
          r := Err(refused.value);
        } else {
          r, at := IssueForEntry(request.value, context, now);
        }
      }
    }

    /** The rest of `_issue_revoke`, from the store on. */
    method IssueForEntry(request: RevokeRequest, context: Context, now: real)
      returns (r: Result<Token<Binding>, Code>, ghost at: nat)
      requires Valid()
      modifies this`ledger, audit`disk, audit`faulted, confirmation
      ensures Valid() && Forward() && Saw(at)
      ensures r.Ok? ==>
                && Challenges(old(ledger), ledger, r.value, now)
                && BindsEntry(r.value.binding, request, ledger.versions[at], now)
      ensures Calm() ==> (r.Ok? <==> old(HasSlot(now)) && HasLiveEntry(ledger.versions[at], request.entryId, now))
    {
      var store, snapshot;
      store, snapshot, at := Snapshot(context);
      if snapshot.Err? {
        r := Err(snapshot.error);
      } else {
        var found := FindLiveId(snapshot.value, request.entryId, now);
        if found.None? {
          var code := RecordAs("target_not_visible", context.(entryId := Some(request.entryId)), EntryNotFound);
          r := Err(code);
        } else {
          r := IssueChallenge(
            RevokeBinding(context.operationId, request.entryId, request.reason, snapshot.value[found.value], store), now);
        }
      }
    }

    /** Once the target and the store match the binding again: the transaction and the answer. */
    method Settle(c: Id, consumedAt: real, context: Context, preparedId: Id, attempt: Attempt)
      returns (response: Response, ghost found: nat)
      requires Valid() && healthy && Pays(c, consumedAt, preparedId) && Unspent(c, preparedId)
      requires attempt.store == ledger.issued[c].binding.store
      modifies this`ledger, this`healthy, audit`disk, audit`faulted, audit`reservation, confirmation
      ensures Valid() && Forward() && Saw(found) && ledger.issued == old(ledger.issued)
      ensures Truthful(response, Decide(attempt, ledger.versions[found]), Mutation(c, consumedAt, found),
                       old(ledger.applied), ledger, audit.disk.log, audit.limits, healthy)
      ensures response.Applied? ==> response.preparedId == preparedId
      ensures Calm() ==> Fulfils(response, Decide(attempt, ledger.versions[found]))
    {
      var outcome;
      outcome, found := Transact(c, consumedAt, context, preparedId, attempt);
      ghost var made, log, decision := ledger, audit.disk.log, Decide(attempt, ledger.versions[found]);
      response := Answer(outcome, context);
      AnswerIsTruthful(
        response, outcome, decision, preparedId, Mutation(c, consumedAt, found), old(ledger.applied), made, ledger, log,
        audit.disk.log, audit.limits, healthy);
    }

    /** The transaction of an approval. Its prepare id is the one that the challenge reserved. */
    method SettleApproval(token: Token<Binding>, now: real, context: Context, attempt: Attempt)
      returns (response: Response, ghost found: nat)
      requires Valid() && healthy && Usable(token, now) && attempt.store == token.binding.store
      requires token.binding.ApproveBinding?
      modifies this`ledger, this`healthy, audit`disk, audit`faulted, audit`reservation, confirmation
      ensures Valid() && Forward() && Saw(found) && ledger.issued == old(ledger.issued)
      ensures Truthful(response, Decide(attempt, ledger.versions[found]), Mutation(token.challengeId, now, found),
                       old(ledger.applied), ledger, audit.disk.log, audit.limits, healthy)
      ensures response.Applied? ==> response.preparedId == token.binding.preparedId
      ensures Calm() ==> Fulfils(response, Decide(attempt, ledger.versions[found]))
    {
      OwnIdIsUnused(Protocol.World(audit.disk, Protocol.Idle), audit.limits, ledger, token.challengeId);
      response, found := Settle(token.challengeId, now, context, token.binding.preparedId, attempt);
    }

    /** `_confirm_approval` once the challenge is consumed. */
    method ApproveConsumed(
      token: Token<Binding>, now: real, request: Result<ApprovalRequest, string>, observed: Result<Observed, string>,
      again: Result<Observed, string>, lockedAt: real, entryBytes: nat)
      returns (response: Response, ghost seen: nat, ghost found: nat)
      requires Valid() && healthy && Usable(token, now) && token.binding.ApproveBinding?
      modifies this`ledger, this`healthy, audit`disk, audit`faulted, audit`reservation, confirmation
      ensures Valid() && Forward() && Saw(seen) && Saw(found) && ledger.issued == old(ledger.issued)
      ensures Confirmed(response, token, now, ApprovalSight(request, observed, again, lockedAt, entryBytes), seen, found,
                        old(ledger.applied), ledger, audit.disk.log, audit.limits, healthy, Calm())
      ensures !response.Failed? || ledger.applied != old(ledger.applied) ==>
                Authorized(token, now, ApprovalSight(request, observed, again, lockedAt, entryBytes), seen, found, ledger)
    {
      var binding := token.binding;
      var context := ContextOf(ApproveOperation, binding.operationId, binding.entryId, token.challengeId, None);
      ghost var sight := ApprovalSight(request, observed, again, lockedAt, entryBytes);
      var store;
      store, seen := ReadStore();
      var mismatch := ApprovalMismatch(binding, request, observed, store);
      if mismatch.Some? {
        var event := if request.Err? then "request_validation_failed" else "mutation_failed";
        var code := RecordAs(event, context, mismatch.value);
        response, found := Failed(code), Present(ledger);
        MismatchIsConfirmed(
          code, token, now, sight, seen, found, old(ledger), ledger, audit.disk.log, audit.limits, Calm());
      } else {
        response, found := SettleApproval(
          token, now, context.(target := Some(observed.value.target)),
          Approving(ApprovedEntry(token, entryBytes), observed.value, again, binding.store, lockedAt));
        AnswerIsConfirmed(
          response, token, now, sight, seen, found, old(ledger.applied), ledger, audit.disk.log, audit.limits, healthy,
          Calm());
      }
    }

    /** `_confirm_approval`. `request` and `observed` are what is seen now, `again` what is seen under the store lock.
        `seen` is the version of the store that is checked first, `found` the one under the lock. */
    method ConfirmApproval(
      token: Token<Binding>, now: real, request: Result<ApprovalRequest, string>, observed: Result<Observed, string>,
      again: Result<Observed, string>, lockedAt: real, entryBytes: nat)
      returns (response: Response, ghost seen: nat, ghost found: nat)
      requires Valid()
      modifies this`ledger, this`healthy, audit`disk, audit`faulted, audit`reservation, confirmation
      ensures Valid() && Forward() && Saw(seen) && Saw(found)
      ensures Handled(response, token, now, ApproveOperation,
                      ApprovalSight(request, observed, again, lockedAt, entryBytes), seen, found)
    {
      var admitted := Admit(token, now, ApproveOperation);
      if admitted.Err? {
        response, seen, found := Failed(admitted.error), Present(ledger), Present(ledger);
      } else {
        response, seen, found := ApproveConsumed(token, now, request, observed, again, lockedAt, entryBytes);
      }
    }

    /** What the service promises of a confirmation. A service that is not healthy does nothing. A token that cannot be
        redeemed changes nothing. Otherwise the answer is `Confirmed`, and whatever is not a failure, and every
        replacement of the store, is `Authorized`. */
    twostate predicate Handled(
      response: Response, token: Token<Binding>, now: real, operation: Operation, sight: Sight, seen: nat, found: nat)
      requires seen < |ledger.versions| && found < |ledger.versions|
      reads this, audit, confirmation
    {
      if !old(healthy) then
        response == Failed(RecoveryNeeded) && audit.disk == old(audit.disk) && ledger == old(ledger) && !healthy
      else if !old(Redeemable(token, now, operation)) then
        && response.Failed? && !response.code.CommittedAuditPending? && ledger.applied == old(ledger.applied)
        && (Calm() ==> response == Failed(ConfirmationInvalid))
      else
        && Confirmed(response, token, now, sight, seen, found, old(ledger.applied), ledger, audit.disk.log, audit.limits,
                     healthy, Calm())
        && (!response.Failed? || ledger.applied != old(ledger.applied) ==>
              && token.challengeId !in old(confirmation.consumedIds)
              && Authorized(token, now, sight, seen, found, ledger))
    }

    /** The transaction of a revocation. Its prepare id is new. */
    method SettleRevocation(token: Token<Binding>, now: real, context: Context, attempt: Attempt)
      returns (response: Response, ghost found: nat)
      requires Valid() && healthy && Usable(token, now) && attempt.store == token.binding.store
      modifies this`ledger, this`healthy, audit`disk, audit`faulted, audit`reservation, confirmation
      ensures Valid() && Forward() && Saw(found) && ledger.issued == old(ledger.issued)
      ensures Truthful(response, Decide(attempt, ledger.versions[found]), Mutation(token.challengeId, now, found),
                       old(ledger.applied), ledger, audit.disk.log, audit.limits, healthy)
      ensures Calm() ==> Fulfils(response, Decide(attempt, ledger.versions[found]))
    {
      var preparedId := UnclaimedId();
      response, found := Settle(token.challengeId, now, context, preparedId, attempt);
    }

    /** `_confirm_revoke` once the challenge is consumed. */
    method RevokeConsumed(token: Token<Binding>, now: real, request: Result<RevokeRequest, string>, lockedAt: real)
      returns (response: Response, ghost seen: nat, ghost found: nat)
      requires Valid() && healthy && Usable(token, now) && token.binding.RevokeBinding?
      modifies this`ledger, this`healthy, audit`disk, audit`faulted, audit`reservation, confirmation
      ensures Valid() && Forward() && Saw(seen) && Saw(found) && ledger.issued == old(ledger.issued)
      ensures Confirmed(response, token, now, RevocationSight(request, lockedAt), seen, found, old(ledger.applied), ledger,
                        audit.disk.log, audit.limits, healthy, Calm())
      ensures !response.Failed? || ledger.applied != old(ledger.applied) ==>
                Authorized(token, now, RevocationSight(request, lockedAt), seen, found, ledger)
    {
      var binding := token.binding;
      var context := ContextOf(RevokeOperation, binding.operationId, binding.entryId, token.challengeId, None);
      ghost var sight := RevocationSight(request, lockedAt);
      var store;
      store, seen := ReadStore();
      var mismatch := RevocationMismatch(binding, request, store, now);
      if mismatch.Some? {
        var event :=
          if request.Err? then "request_validation_failed"
          else if mismatch.value == EntryNotFound then "mutation_noop"
          else "mutation_failed";
        var code := RecordAs(event, context, mismatch.value);
        response, found := Failed(code), Present(ledger);
        MismatchIsConfirmed(
          code, token, now, sight, seen, found, old(ledger), ledger, audit.disk.log, audit.limits, Calm());
      } else {
        response, found := SettleRevocation(
          token, now, context.(target := Some(binding.expected.target)), Revoking(binding.expected, binding.store, lockedAt));
        AnswerIsConfirmed(
          response, token, now, sight, seen, found, old(ledger.applied), ledger, audit.disk.log, audit.limits, healthy,
          Calm());
      }
    }

    /** `_confirm_revoke`. `seen` is the version of the store that is checked first, `found` the one under the lock. */
    method ConfirmRevoke(token: Token<Binding>, now: real, request: Result<RevokeRequest, string>, lockedAt: real)
      returns (response: Response, ghost seen: nat, ghost found: nat)
      requires Valid()
      modifies this`ledger, this`healthy, audit`disk, audit`faulted, audit`reservation, confirmation
      ensures Valid() && Forward() && Saw(seen) && Saw(found)
      ensures Handled(response, token, now, RevokeOperation, RevocationSight(request, lockedAt), seen, found)
    {
      var admitted := Admit(token, now, RevokeOperation);
      if admitted.Err? {
        response, seen, found := Failed(admitted.error), Present(ledger), Present(ledger);
      } else {
        response, seen, found := RevokeConsumed(token, now, request, lockedAt);
      }
    }

    /** `recover_startup`: the one way back to a healthy service. `found` is the disk that recovery starts from. */
    method RecoverStartup() returns (r: Result<RecoveryStatus, Code>, ghost found: Disk)
      requires Valid()
      modifies this`ledger, this`healthy, audit`disk, audit`faulted
      ensures Valid() && Quiet()
      ensures healthy == r.Ok?
      ensures MayBecome(old(audit.disk), found, old(ledger.used), audit.limits) && audit.disk.store == found.store
      ensures r.Ok? ==>
                && LogView(audit.disk.log, audit.limits).Legible?
                && !audit.disk.marker
                && Unmatched(audit.disk.log.history) == []
      ensures r.Err? && !audit.faulted ==>
                LogView(found.log, audit.limits) == Illegible || found.reserve || !RoomForRecords(audit.limits, longest)
    {
      OthersRun();
      found := audit.disk;
      r := RecoverLocked();
      healthy := r.Ok?;
    }

    /** The same once the locks are held. */
    method RecoverLocked() returns (r: Result<RecoveryStatus, Code>)
      requires Valid()
      modifies this`ledger, audit`disk, audit`faulted
      ensures Valid() && Quiet()
      ensures audit.disk.store == old(audit.disk.store)
      ensures r.Ok? ==>
                && LogView(audit.disk.log, audit.limits).Legible?
                && !audit.disk.marker
                && Unmatched(audit.disk.log.history) == []
      ensures r.Err? && !audit.faulted ==>
                || LogView(old(audit.disk.log), audit.limits) == Illegible
                || old(audit.disk.reserve) || !RoomForRecords(audit.limits, longest)
    {
      assert Within(0);
      ghost var before, bytes := audit.disk, 0;
      LookInside(Protocol.World(before, Protocol.Idle), audit.limits, ledger);
      var id := NewId();
      r, bytes := RecoverDisk(id);
      RecoveringKeepsCoherent(before, audit.disk, id, bytes, audit.limits, ledger);
      var ready := Ready(Protocol.World(audit.disk, Protocol.Idle), audit.limits, longest);
      ledger := AfterRecovery(ledger, id, ready);
    }

    /** `verify_and_recover`, as far as the protocol is concerned. */
    method RecoverDisk(id: Id) returns (r: Result<RecoveryStatus, Code>, ghost bytes: nat)
      requires Protocol.Inv(Protocol.World(audit.disk, Protocol.Idle), audit.limits)
      modifies audit`disk, audit`faulted
      ensures RecoverEffect(old(audit.disk), audit.disk, id, bytes, audit.limits)
      ensures r.Ok? ==>
                && LogView(audit.disk.log, audit.limits).Legible?
                && !audit.disk.marker
                && Unmatched(audit.disk.log.history) == []
      ensures r.Err? && !audit.faulted ==>
                || LogView(old(audit.disk.log), audit.limits) == Illegible
                || old(audit.disk.reserve) || !RoomForRecords(audit.limits, longest)
      ensures old(audit.faulted) ==> audit.faulted
    {
      var length := LineLength();
      bytes := length;
      ghost var w := Protocol.World(audit.disk, Protocol.Idle);
      if LogView(w.disk.log, audit.limits).Legible? && !w.disk.reserve && RoomForRecords(audit.limits, longest) {
        Recovery.DecidedPlansAreRecoverable(w, id, bytes, audit.freshKey, audit.limits);
      }
      var recovered, _ := audit.VerifyAndRecover(id, length);
      if recovered.Ok? {
        Protocol.RecoveryIsFinal(w, id, bytes, Protocol.World(audit.disk, Protocol.Idle), audit.limits);
      }
      r := match recovered case Ok(status) => Ok(status) case Err(error) => Err(AuditCode(error));
    }
  }
}
