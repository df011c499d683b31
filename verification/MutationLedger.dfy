/** What `TrustMutationService` can say of its ids, its challenges and the contents of the store, whatever other
    processes do meanwhile. */
module MutationLedger {
  import opened Results
  import opened TrustStore
  import opened AuditChain
  import opened AuditFiles
  import opened Confirmation
  import Protocol = MutationProtocol
  import Recovery

  datatype ApprovalRequest = ApprovalRequest(cwd: string, command: string, expiresAt: real, reason: string)

  datatype RevokeRequest = RevokeRequest(entryId: Id, reason: string)

  /** What identity resolution, fingerprinting and classification find for a request. */
  datatype Observed = Observed(target: Target, path: string, remoteUrl: Option<string>)

  /** What a challenge is bound to. SHA-256 digests are injective, so the values stand for them. */
  datatype Binding =
    | ApproveBinding(operationId: Id, entryId: Id, preparedId: Id, request: ApprovalRequest,
                     observed: Observed, store: StoreFile)
    | RevokeBinding(operationId: Id, entryId: Id, reason: string, expected: Entry, store: StoreFile)

  datatype Issued = Issued(binding: Binding, expiresAt: real)

  /** The service replaced version `at` of the store by the next one. */
  datatype Mutation = Mutation(challenge: Id, consumedAt: real, at: nat)

  datatype Ledger = Ledger(
    used: set<Id>,              // every UUID drawn so far, by whatever process
    issued: map<Id, Issued>,    // every challenge ever issued
    spent: set<Id>,             // challenges whose mutation was prepared
    applied: seq<Mutation>,     // every replacement of the store by this service
    versions: seq<StoreFile>,   // every content of the store, whoever wrote it
    disturbed: bool)            // another process left a disk that is not ready

  /** The index of the present version of the store. */
  function Present(ledger: Ledger): nat
    requires ledger.versions != []
  {
    |ledger.versions| - 1
  }

  /** Nothing is forgotten. */
  predicate Onward(before: Ledger, after: Ledger) {
    && before.used <= after.used
    && before.versions <= after.versions
    && (before.disturbed ==> after.disturbed)
  }

  /** The service itself neither issued nor prepared nor replaced anything. */
  predicate Passed(before: Ledger, after: Ledger) {
    && Onward(before, after)
    && after.issued == before.issued && after.spent == before.spent && after.applied == before.applied
  }

  // ---------- ids ----------

  /** UUIDs never repeat. */
  lemma UnusedIdExists(used: set<Id>) returns (id: Id)
    ensures id !in used
    ensures forall other :: other in used ==> |other| < |id|
  {
    if used == {} {
      id := "0";
    } else {
      var other :| other in used;
      var shorter := UnusedIdExists(used - {other});
      id := shorter + other + "0";
    }
  }

  function IdsOf(history: seq<Record>): set<Id> {
    (set record | record in history :: record.draft.eventId)
    + (set record | record in history && record.draft.preparedId.Some? :: record.draft.preparedId.value)
  }

  predicate KnownIds(history: seq<Record>, used: set<Id>) {
    forall record :: record in history ==>
      record.draft.eventId in used && (record.draft.preparedId.Some? ==> record.draft.preparedId.value in used)
  }

  lemma NewRecordIsLast(before: LogFiles, after: LogFiles, draft: Draft, record: Record)
    requires WroteAtMost(before, after, draft) && record in after.history && record !in before.history
    ensures record.draft == draft
  {
    assert after.history == after.history[..|after.history| - 1] + [after.history[|after.history| - 1]];
  }

  lemma WritingKeepsIds(before: LogFiles, after: LogFiles, draft: Draft, used: set<Id>)
    requires WroteAtMost(before, after, draft) && KnownIds(before.history, used)
    requires draft.eventId in used && (draft.preparedId.Some? ==> draft.preparedId.value in used)
    ensures KnownIds(after.history, used)
  {
    forall record | record in after.history
      ensures record.draft.eventId in used && (record.draft.preparedId.Some? ==> record.draft.preparedId.value in used)
    {
      if record !in before.history {
        NewRecordIsLast(before, after, draft, record);
      }
    }
  }

  lemma WritingKeepsFresh(before: LogFiles, after: LogFiles, draft: Draft, id: Id)
    requires WroteAtMost(before, after, draft) && Protocol.Fresh(id, before.history)
    requires draft.eventId != id && draft.preparedId != Some(id)
    ensures Protocol.Fresh(id, after.history)
  {
    forall record | record in after.history
      ensures record.draft.eventId != id && record.draft.preparedId != Some(id)
    {
      if record !in before.history {
        NewRecordIsLast(before, after, draft, record);
      }
    }
  }

  /** Prepared-event ids reserved by challenges are drawn once, and unused until their own mutation. */
  predicate ReservedIds(ledger: Ledger, history: seq<Record>) {
    && (forall c :: c in ledger.issued && ledger.issued[c].binding.ApproveBinding? ==>
          && ledger.issued[c].binding.preparedId in ledger.used
          && (c !in ledger.spent ==> Protocol.Fresh(ledger.issued[c].binding.preparedId, history)))
    && (forall c, d :: (c in ledger.issued && d in ledger.issued && c != d
          && ledger.issued[c].binding.ApproveBinding? && ledger.issued[d].binding.ApproveBinding?) ==>
          ledger.issued[c].binding.preparedId != ledger.issued[d].binding.preparedId)
  }

  /** No challenge but this one reserved the id. */
  predicate ReservedForNoOther(issued: map<Id, Issued>, c: Id, id: Id) {
    forall d :: d in issued && issued[d].binding.ApproveBinding? && d != c ==> issued[d].binding.preparedId != id
  }

  predicate ReservedForNone(issued: map<Id, Issued>, id: Id) {
    forall d :: d in issued && issued[d].binding.ApproveBinding? ==> issued[d].binding.preparedId != id
  }

  /** The id is not the one that a challenge reserved and has not used. */
  predicate NotReserved(ledger: Ledger, id: Id) {
    forall c :: c in ledger.issued && ledger.issued[c].binding.ApproveBinding? && c !in ledger.spent ==>
      ledger.issued[c].binding.preparedId != id
  }

  lemma WritingKeepsReservations(ledger: Ledger, before: LogFiles, after: LogFiles, draft: Draft)
    requires ReservedIds(ledger, before.history) && KnownIds(before.history, ledger.used)
    requires WroteAtMost(before, after, draft) && NotReserved(ledger, draft.eventId)
    requires draft.preparedId.Some? ==> draft.preparedId.value in ledger.used && NotReserved(ledger, draft.preparedId.value)
    ensures ReservedIds(ledger.(used := ledger.used + {draft.eventId}), after.history)
    ensures KnownIds(after.history, ledger.used + {draft.eventId})
  {
    WritingKeepsIds(before, after, draft, ledger.used + {draft.eventId});
    forall c | c in ledger.issued && ledger.issued[c].binding.ApproveBinding? && c !in ledger.spent
      ensures Protocol.Fresh(ledger.issued[c].binding.preparedId, after.history)
    {
      WritingKeepsFresh(before, after, draft, ledger.issued[c].binding.preparedId);
    }
  }

  // ---------- the replacements of the store ----------

  predicate Legitimate(m: Mutation, ledger: Ledger) {
    && m.challenge in ledger.issued && m.challenge in ledger.spent
    && m.consumedAt < ledger.issued[m.challenge].expiresAt
    && m.at + 1 < |ledger.versions|
    && ledger.versions[m.at] == ledger.issued[m.challenge].binding.store
  }

  /** Compare-and-swap across issue and confirm, whatever other processes do: each replacement by this service belongs
      to its own challenge, consumed in time, and the version of the store that it replaced is the one the challenge
      was issued for. */
  predicate Justified(ledger: Ledger, store: StoreFile) {
    && ledger.versions != [] && ledger.versions[Present(ledger)] == store
    && (forall m :: m in ledger.applied ==> Legitimate(m, ledger))
    && (forall i, j :: 0 <= i < j < |ledger.applied| ==>
          ledger.applied[i].challenge != ledger.applied[j].challenge && ledger.applied[i].at < ledger.applied[j].at)
  }

  lemma StaysLegitimate(before: Ledger, after: Ledger)
    requires before.versions <= after.versions && before.spent <= after.spent
    requires forall c :: c in before.issued ==> c in after.issued && after.issued[c] == before.issued[c]
    ensures forall m :: Legitimate(m, before) ==> Legitimate(m, after)
  {}

  /** The ledger once the store has this content. */
  function WithVersion(ledger: Ledger, store: StoreFile): (after: Ledger)
    requires ledger.versions != []
    ensures after.versions != [] && after.versions[Present(after)] == store
  {
    if store == ledger.versions[Present(ledger)] then ledger else ledger.(versions := ledger.versions + [store])
  }

  function WithMutation(ledger: Ledger, c: Id, consumedAt: real, after: StoreFile): Ledger
    requires ledger.versions != []
  {
    ledger.(applied := ledger.applied + [Mutation(c, consumedAt, Present(ledger))], versions := ledger.versions + [after])
  }

  lemma NextVersionIsJustified(ledger: Ledger, store: StoreFile, next: StoreFile)
    requires Justified(ledger, store)
    ensures Justified(WithVersion(ledger, next), next)
  {
    StaysLegitimate(ledger, WithVersion(ledger, next));
  }

  lemma ReplacementIsJustified(ledger: Ledger, store: StoreFile, c: Id, consumedAt: real, next: StoreFile)
    requires Justified(ledger, store)
    requires c in ledger.issued && c in ledger.spent && consumedAt < ledger.issued[c].expiresAt
    requires ledger.issued[c].binding.store == store
    requires forall m :: m in ledger.applied ==> m.challenge != c
    ensures Justified(WithMutation(ledger, c, consumedAt, next), next)
  {
    StaysLegitimate(ledger, WithMutation(ledger, c, consumedAt, next));
    forall i | 0 <= i < |ledger.applied|
      ensures ledger.applied[i].challenge != c && ledger.applied[i].at < Present(ledger)
    {
      assert Legitimate(ledger.applied[i], ledger);
    }
  }

  /** No challenge pays for two replacements. */
  lemma {:induction false} ReplacementsNeverOutnumberChallenges(ledger: Ledger, store: StoreFile)
    requires Justified(ledger, store)
    ensures |ledger.applied| <= |ledger.spent|
    decreases |ledger.applied|
  {
    if ledger.applied != [] {
      var init, last := ledger.applied[..|ledger.applied| - 1], ledger.applied[|ledger.applied| - 1];
      var rest := ledger.(applied := init, spent := ledger.spent - {last.challenge});
      assert Legitimate(last, ledger);
      forall m | m in init
        ensures Legitimate(m, rest)
      {
        assert Legitimate(m, ledger);
      }
      ReplacementsNeverOutnumberChallenges(rest, store);
    }
  }

  // ---------- the ledger and the disk ----------

  /** Always true. It stands guard before `Details`: only where a term of it occurs does the solver look inside, so
      that the methods of the service can hand `Coherent` on without unfolding it. */
  predicate Inside(k: nat) {
    true
  }

  /** What the disk, the process and the ledger say of each other. */
  ghost predicate Coherent(w: Protocol.World, limits: Limits, ledger: Ledger) {
    && ledger.versions != [] && ledger.versions[Present(ledger)] == w.disk.store
    && (w.point != Protocol.Idle ==> w.disk.marker)
    && forall k :: Inside(k) ==> Details(w, limits, ledger)
  }

  predicate Details(w: Protocol.World, limits: Limits, ledger: Ledger) {
    && Protocol.Inv(w, limits)
    && KnownIds(w.disk.log.history, ledger.used)
    && ReservedIds(ledger, w.disk.log.history)
    && Justified(ledger, w.disk.store)
  }

  lemma LookInside(w: Protocol.World, limits: Limits, ledger: Ledger)
    ensures Coherent(w, limits, ledger) <==> Details(w, limits, ledger)
  {
    assert Inside(0);
  }

  /** Only spent challenges paid for replacements. */
  lemma UnspentIsNotApplied(w: Protocol.World, limits: Limits, ledger: Ledger, c: Id)
    requires Coherent(w, limits, ledger) && c !in ledger.spent
    ensures forall m :: m in ledger.applied ==> m.challenge != c
  {
    LookInside(w, limits, ledger);
    forall m | m in ledger.applied
      ensures m.challenge != c
    {
      assert Legitimate(m, ledger);
    }
  }

  /** A step of the process that leaves the log and the store as they are. */
  lemma StepKeepsCoherent(w: Protocol.World, step: Protocol.Step, w': Protocol.World, limits: Limits, ledger: Ledger)
    requires Coherent(w, limits, ledger) && Protocol.Next(w, step, w', limits)
    requires w'.disk.log.history == w.disk.log.history && w'.disk.store == w.disk.store
    ensures Coherent(w', limits, ledger)
  {
    LookInside(w, limits, ledger);
    Protocol.StepKeepsInv(w, step, w', limits);
  }

  /** The challenges that the manager still holds carry the bindings they were issued for. */
  predicate Tied(
    records: map<Id, ChallengeRecord<Binding>>, challenges: set<Id>, consumed: set<Id>, ledger: Ledger)
  {
    && challenges == ledger.issued.Keys && challenges <= ledger.used && ledger.spent <= consumed
    && forall c :: c in records ==>
         c in ledger.issued && records[c].binding == ledger.issued[c].binding
         && records[c].expiresAt == ledger.issued[c].expiresAt
  }

  /** A challenge that was not spent can still use the id it reserved. */
  lemma OwnIdIsUnused(w: Protocol.World, limits: Limits, ledger: Ledger, c: Id)
    requires Coherent(w, limits, ledger)
    requires c in ledger.issued && c !in ledger.spent && ledger.issued[c].binding.ApproveBinding?
    ensures var id := ledger.issued[c].binding.preparedId;
            id in ledger.used && Protocol.Fresh(id, w.disk.log.history) && ReservedForNoOther(ledger.issued, c, id)
  {
    LookInside(w, limits, ledger);
  }

  lemma DrawingKeepsCoherent(w: Protocol.World, limits: Limits, ledger: Ledger, id: Id)
    requires Coherent(w, limits, ledger) && id !in ledger.used
    ensures Coherent(w, limits, ledger.(used := ledger.used + {id}))
    ensures Protocol.Fresh(id, w.disk.log.history) && ReservedForNone(ledger.issued, id)
  {
    LookInside(w, limits, ledger);
    StaysLegitimate(ledger, ledger.(used := ledger.used + {id}));
  }

  /** The ledger after asking for a challenge. */
  function AfterIssue(ledger: Ledger, c: Id, next: Issued, entered: bool): (after: Ledger) {
    ledger.(used := ledger.used + {c}, issued := if entered then ledger.issued[c := next] else ledger.issued)
  }

  lemma IssuingKeepsCoherent(w: Protocol.World, limits: Limits, ledger: Ledger, c: Id, next: Issued)
    requires Coherent(w, limits, ledger) && c !in ledger.issued
    requires next.binding.ApproveBinding? ==>
               && next.binding.preparedId in ledger.used && Protocol.Fresh(next.binding.preparedId, w.disk.log.history)
               && ReservedForNone(ledger.issued, next.binding.preparedId)
    ensures forall entered :: Coherent(w, limits, AfterIssue(ledger, c, next, entered))
  {
    LookInside(w, limits, ledger);
    forall entered {
      StaysLegitimate(ledger, AfterIssue(ledger, c, next, entered));
    }
  }

  lemma IssuingKeepsTied(
    records: map<Id, ChallengeRecord<Binding>>, challenges: set<Id>, consumed: set<Id>, ledger: Ledger, c: Id,
    record: ChallengeRecord<Binding>, now: real)
    requires Tied(records, challenges, consumed, ledger) && c !in ledger.used
    ensures var next := Issued(record.binding, record.expiresAt);
            && Tied(PruneExpired(records, now), challenges, consumed, AfterIssue(ledger, c, next, false))
            && Tied(PruneExpired(records, now)[c := record], challenges + {c}, consumed, AfterIssue(ledger, c, next, true))
  {}

  // ---------- other processes ----------

  /** What the disk may have become when this process takes a lock again: whatever the protocol allows between two
      transactions, with a longer log, in which no id that this process knows of has newly turned up. */
  predicate MayBecome(now: Disk, next: Disk, used: set<Id>, limits: Limits) {
    && Protocol.Inv(Protocol.World(next, Protocol.Idle), limits)
    && now.log.history <= next.log.history
    && forall id :: id in used && Protocol.Fresh(id, now.log.history) ==> Protocol.Fresh(id, next.log.history)
  }

  /** A step of another process, which draws its own ids. */
  predicate DrawsNewIds(step: Protocol.Step, used: set<Id>) {
    match step
    case RecordStep(draft) => draft.eventId !in used && draft.preparedId == None
    case PrepareStep(_, eventId, _, _) => eventId !in used
    case CommitStep(eventId, _) => eventId !in used
    case RecoverStep(eventId, _) => eventId !in used
    case _ => true
  }

  lemma OpenPrepareIsRecorded(w: Protocol.World, limits: Limits)
    requires Protocol.Inv(w, limits) && w.point == Protocol.Idle
    requires RecoveryPlanOf(w.disk, limits).CompleteWith?
    ensures RecoveryPlanOf(w.disk, limits).prepare in w.disk.log.history
  {
    var records := LogView(w.disk.log, limits).records;
    Protocol.RetainedTail(w, limits);
    if Protocol.AllClosed(records) {
      Protocol.NoneUnmatched(records);
    } else {
      Protocol.OnlyTailUnmatched(records);
    }
  }

  lemma OtherStepKeepsFresh(
    w: Protocol.World, step: Protocol.Step, w': Protocol.World, limits: Limits, used: set<Id>, id: Id)
    requires Protocol.Inv(w, limits) && Protocol.Next(w, step, w', limits) && DrawsNewIds(step, used)
    requires id in used && Protocol.Fresh(id, w.disk.log.history)
    ensures Protocol.Fresh(id, w'.disk.log.history)
  {
    var draft := Recovery.Tried(w, step, w', limits);
    if w'.disk.log.history != w.disk.log.history {
      StepWritesAtMost(w.disk.log, w'.disk.log, draft.value, limits);
      if step.RecoverStep? {
        OpenPrepareIsRecorded(w, limits);
      }
      WritingKeepsFresh(w.disk.log, w'.disk.log, draft.value, id);
    }
  }

  lemma OtherStepExtendsHistory(w: Protocol.World, step: Protocol.Step, w': Protocol.World, limits: Limits)
    requires Protocol.Next(w, step, w', limits)
    ensures w.disk.log.history <= w'.disk.log.history
  {
    var draft := Recovery.Tried(w, step, w', limits);
    if w'.disk.log.history != w.disk.log.history {
      StepWritesAtMost(w.disk.log, w'.disk.log, draft.value, limits);
    }
  }

  /** Any number of steps of other processes that run the same protocol, crashes included, leave what this process
      allows for. */
  lemma {:induction false} OthersStayWithinBounds(
    worlds: seq<Protocol.World>, steps: seq<Protocol.Step>, used: set<Id>, limits: Limits)
    requires |worlds| == |steps| + 1 && Protocol.Inv(worlds[0], limits)
    requires forall i :: 0 <= i < |steps| ==> Protocol.Next(worlds[i], steps[i], worlds[i + 1], limits)
    requires forall i :: 0 <= i < |steps| ==> DrawsNewIds(steps[i], used)
    ensures Protocol.Inv(worlds[|steps|], limits)
    ensures worlds[|steps|].point == Protocol.Idle ==> MayBecome(worlds[0].disk, worlds[|steps|].disk, used, limits)
    ensures worlds[0].disk.log.history <= worlds[|steps|].disk.log.history
    ensures forall id :: id in used && Protocol.Fresh(id, worlds[0].disk.log.history) ==>
              Protocol.Fresh(id, worlds[|steps|].disk.log.history)
  {
    if steps != [] {
      var last := |steps| - 1;
      var worlds', steps' := worlds[..|worlds| - 1], steps[..last];
      forall i | 0 <= i < |steps'|
        ensures Protocol.Next(worlds'[i], steps'[i], worlds'[i + 1], limits) && DrawsNewIds(steps'[i], used)
      {
        assert Protocol.Next(worlds[i], steps[i], worlds[i + 1], limits);
      }
      OthersStayWithinBounds(worlds', steps', used, limits);
      Protocol.StepKeepsInv(worlds[last], steps[last], worlds[last + 1], limits);
      OtherStepExtendsHistory(worlds[last], steps[last], worlds[last + 1], limits);
      forall id | id in used && Protocol.Fresh(id, worlds[0].disk.log.history)
        ensures Protocol.Fresh(id, worlds[|steps|].disk.log.history)
      {
        OtherStepKeepsFresh(worlds[last], steps[last], worlds[last + 1], limits, used, id);
      }
    }
  }

  /** Writers of the store that know nothing of the log, as the command line is one, stay within the same bounds while
      no mutation is open. */
  lemma StoreWritersStayWithinBounds(disk: Disk, store: StoreFile, used: set<Id>, limits: Limits)
    requires Protocol.Inv(Protocol.World(disk, Protocol.Idle), limits) && Unmatched(disk.log.history) == []
    ensures MayBecome(disk, disk.(store := store), used, limits)
  {
    if !Protocol.AllClosed(disk.log.history) {
      Protocol.OnlyTailUnmatched(disk.log.history);
    }
  }

  /** The ledger after other processes ran. */
  function AfterOthers(ledger: Ledger, next: Disk, ready: bool): Ledger
    requires ledger.versions != []
  {
    WithVersion(ledger, next.store).(
      used := ledger.used + IdsOf(next.log.history), disturbed := ledger.disturbed || !ready)
  }

  lemma OthersKeepCoherent(now: Disk, next: Disk, limits: Limits, ledger: Ledger, ready: bool)
    requires Coherent(Protocol.World(now, Protocol.Idle), limits, ledger)
    requires MayBecome(now, next, ledger.used, limits)
    ensures Coherent(Protocol.World(next, Protocol.Idle), limits, AfterOthers(ledger, next, ready))
    ensures Passed(ledger, AfterOthers(ledger, next, ready))
  {
    LookInside(Protocol.World(now, Protocol.Idle), limits, ledger);
    NextVersionIsJustified(ledger, now.store, next.store);
    StaysLegitimate(WithVersion(ledger, next.store), AfterOthers(ledger, next, ready));
  }

  lemma StoreWritersKeepCoherent(disk: Disk, next: StoreFile, limits: Limits, ledger: Ledger)
    requires Coherent(Protocol.World(disk, Protocol.Began), limits, ledger)
    ensures Coherent(Protocol.World(disk.(store := next), Protocol.Began), limits, WithVersion(ledger, next))
    ensures Passed(ledger, WithVersion(ledger, next))
  {
    LookInside(Protocol.World(disk, Protocol.Began), limits, ledger);
    NextVersionIsJustified(ledger, disk.store, next);
  }

  // ---------- what the service itself does ----------

  lemma RecordingKeepsCoherent(before: Disk, after: Disk, draft: Draft, limits: Limits, ledger: Ledger)
    requires Coherent(Protocol.World(before, Protocol.Idle), limits, ledger)
    requires draft.event.Notice? && draft.preparedId == None && draft.eventId !in ledger.used
    requires RecordEffect(before, after, draft, limits)
    ensures Coherent(Protocol.World(after, Protocol.Idle), limits, ledger.(used := ledger.used + {draft.eventId}))
    ensures before.log.history <= after.log.history
  {
    LookInside(Protocol.World(before, Protocol.Idle), limits, ledger);
    var w, w' := Protocol.World(before, Protocol.Idle), Protocol.World(after, Protocol.Idle);
    Protocol.RecordKeepsInv(w, draft, w', limits);
    if !before.marker {
      StepWritesAtMost(before.log, after.log, draft, limits);
    }
    WritingKeepsReservations(ledger, before.log, after.log, draft);
    StaysLegitimate(ledger, ledger.(used := ledger.used + {draft.eventId}));
  }

  function PointAfterPrepare(prepared: Result<PreparedMutation, AuditError>, context: Context, after: StoreFile)
    : Protocol.Point
  {
    if prepared.Ok? then Protocol.Prepared(prepared.value, context, after) else Protocol.Ending(true, false)
  }

  /** A prepare record may carry the id that its own challenge reserved, and no other. */
  lemma PreparingKeepsReservations(ledger: Ledger, c: Id, before: LogFiles, after: LogFiles, draft: Draft)
    requires ReservedIds(ledger, before.history) && KnownIds(before.history, ledger.used)
    requires WroteAtMost(before, after, draft) && draft.eventId in ledger.used && draft.preparedId == None
    requires ReservedForNoOther(ledger.issued, c, draft.eventId)
    ensures ReservedIds(ledger.(spent := ledger.spent + {c}), after.history) && KnownIds(after.history, ledger.used)
  {
    var spending := ledger.(spent := ledger.spent + {c});
    WritingKeepsReservations(spending, before, after, draft);
    assert spending.(used := spending.used + {draft.eventId}) == spending by {
      assert spending.used + {draft.eventId} == spending.used;
    }
  }

  /** What the protocol asks of a call of `prepare_mutation`. */
  ghost predicate Prepares(
    before: Disk, after: Disk, context: Context, draft: Draft, next: StoreFile, prepared: Result<PreparedMutation, AuditError>,
    limits: Limits)
  {
    && draft == PrepareDraft(context, draft.eventId, KeyOf(after.log), before.store, next, draft.bytes)
    && AppendUnderMarker(before, after, draft, limits)
    && (prepared.Ok? ==>
          && LogGrew(before.log, after.log, draft, limits)
          && var records := LogView(after.log, limits).records;
          BoundTo(records[|records| - 1], prepared.value, context) && prepared.value.eventId == draft.eventId)
  }

  lemma ReachingPrepares(
    before: Disk, after: Disk, context: Context, eventId: Id, next: StoreFile, bytes: nat,
    prepared: Result<PreparedMutation, AuditError>, limits: Limits, reach: Reach, key: Key)
    requires after.marker == before.marker && after.store == before.store
    requires reach.Stopped? ==> reach.key == key
    requires var drafted := PrepareDraft(context, eventId, KeyOf(Started(before.log, key)), before.store, next, bytes);
             && Reaches(before.log, after.log, drafted, limits, reach)
             && (prepared.Ok? ==>
                   && LogGrew(before.log, after.log, drafted, limits)
                   && var records := LogView(after.log, limits).records;
                   BoundTo(records[|records| - 1], prepared.value, context) && prepared.value.eventId == eventId)
    ensures var draft := PrepareDraft(context, eventId, KeyOf(after.log), before.store, next, bytes);
            Prepares(before, after, context, draft, next, prepared, limits)
  {
    PrepareReaches(before.log, after.log, context, eventId, before.store, next, bytes, limits, reach, key);
  }

  lemma PreparingKeepsCoherent(
    before: Disk, after: Disk, c: Id, context: Context, draft: Draft, next: StoreFile,
    prepared: Result<PreparedMutation, AuditError>, limits: Limits, ledger: Ledger)
    requires Coherent(Protocol.World(before, Protocol.Began), limits, ledger)
    requires Protocol.Fresh(draft.eventId, before.log.history) && draft.eventId in ledger.used && before.store != next
    requires ReservedForNoOther(ledger.issued, c, draft.eventId)
    requires Prepares(before, after, context, draft, next, prepared, limits)
    ensures Coherent(Protocol.World(after, PointAfterPrepare(prepared, context, next)), limits,
                     ledger.(spent := ledger.spent + {c}))
    ensures before.log.history <= after.log.history
  {
    LookInside(Protocol.World(before, Protocol.Began), limits, ledger);
    Protocol.PrepareKeepsInv(
      Protocol.World(before, Protocol.Began), context, draft.eventId, next, draft.bytes,
      Protocol.World(after, PointAfterPrepare(prepared, context, next)), limits);
    StepWritesAtMost(before.log, after.log, draft, limits);
    PreparingKeepsReservations(ledger, c, before.log, after.log, draft);
    StaysLegitimate(ledger, ledger.(spent := ledger.spent + {c}));
  }

  lemma WritingStoreKeepsCoherent(
    disk: Disk, prepared: PreparedMutation, context: Context, after: StoreFile, written: bool, ok: bool, c: Id,
    consumedAt: real, limits: Limits, ledger: Ledger)
    requires Coherent(Protocol.World(disk, Protocol.Prepared(prepared, context, after)), limits, ledger)
    requires c in ledger.issued && c in ledger.spent && consumedAt < ledger.issued[c].expiresAt
    requires ledger.issued[c].binding.store == disk.store
    requires forall m :: m in ledger.applied ==> m.challenge != c
    requires ok ==> written
    ensures var point := if ok then Protocol.Wrote(prepared, context) else Protocol.Ending(true, false);
            Coherent(Protocol.World(if written then disk.(store := after) else disk, point), limits,
                     if written then WithMutation(ledger, c, consumedAt, after) else ledger)
  {
    LookInside(Protocol.World(disk, Protocol.Prepared(prepared, context, after)), limits, ledger);
    var point := if ok then Protocol.Wrote(prepared, context) else Protocol.Ending(true, false);
    Protocol.StepKeepsInv(
      Protocol.World(disk, Protocol.Prepared(prepared, context, after)), Protocol.StoreStep,
      Protocol.World(if written then disk.(store := after) else disk, point), limits);
    if written {
      ReplacementIsJustified(ledger, disk.store, c, consumedAt, after);
    }
  }

  /** The log ends with the only completion of the prepared mutation, its commit. */
  predicate CommittedOnce(history: seq<Record>, preparedId: Id, finalId: Id) {
    && history != []
    && history[|history| - 1].draft.event == MutationCommitted
    && history[|history| - 1].draft.eventId == finalId
    && Completes(history[|history| - 1], preparedId)
    && (forall i :: 0 <= i < |history| - 1 ==> !Completes(history[i], preparedId))
  }

  lemma CommitIsUnique(before: seq<Record>, after: seq<Record>, draft: Draft)
    requires Protocol.TailOpen(before) && Protocol.GrewBy(before, after, draft)
    requires draft.event == MutationCommitted && draft.preparedId == Some(before[|before| - 1].draft.eventId)
    ensures CommittedOnce(after, before[|before| - 1].draft.eventId, draft.eventId)
  {
    forall i | 0 <= i < |after| - 1
      ensures !Completes(after[i], before[|before| - 1].draft.eventId)
    {
      assert after[i] == before[i];
      assert after[i] in before;
    }
  }

  lemma CommittingKeepsCoherent(
    before: Disk, after: Disk, prepared: PreparedMutation, context: Context, draft: Draft, done: bool, limits: Limits,
    ledger: Ledger)
    requires Coherent(Protocol.World(before, Protocol.Wrote(prepared, context)), limits, ledger)
    requires draft == CommitDraft(prepared, context, draft.eventId, draft.bytes) && draft.eventId !in ledger.used
    requires prepared.eventId in ledger.used && NotReserved(ledger, prepared.eventId)
    requires CommitEffect(before, after, prepared, context, draft.eventId, draft.bytes, limits)
    requires done ==> LogGrew(before.log, after.log, draft, limits)
    ensures Coherent(Protocol.World(after, Protocol.Ending(true, done)), limits,
                     ledger.(used := ledger.used + {draft.eventId}))
    ensures done ==> CommittedOnce(after.log.history, prepared.eventId, draft.eventId)
    ensures before.log.history <= after.log.history
  {
    LookInside(Protocol.World(before, Protocol.Wrote(prepared, context)), limits, ledger);
    var w := Protocol.World(before, Protocol.Wrote(prepared, context));
    Protocol.CommitKeepsInv(
      w, draft.eventId, draft.bytes, Protocol.World(after, Protocol.Ending(true, done)), limits);
    if after.log.history != before.log.history {
      StepWritesAtMost(before.log, after.log, draft, limits);
    }
    WritingKeepsReservations(ledger, before.log, after.log, draft);
    StaysLegitimate(ledger, ledger.(used := ledger.used + {draft.eventId}));
    if done {
      Protocol.GrowthIsRetained(before.log, after.log, draft, limits);
      CommitIsUnique(before.log.history, after.log.history, draft);
    }
  }

  /** The ledger after recovery, which may leave a reserve file behind, or fail. */
  function AfterRecovery(ledger: Ledger, id: Id, ready: bool): Ledger {
    ledger.(used := ledger.used + {id}, disturbed := ledger.disturbed || !ready)
  }

  lemma RecoveringKeepsCoherent(before: Disk, after: Disk, id: Id, bytes: nat, limits: Limits, ledger: Ledger)
    requires Coherent(Protocol.World(before, Protocol.Idle), limits, ledger)
    requires RecoverEffect(before, after, id, bytes, limits) && id !in ledger.used
    ensures forall ready :: Coherent(Protocol.World(after, Protocol.Idle), limits, AfterRecovery(ledger, id, ready))
    ensures before.log.history <= after.log.history
  {
    LookInside(Protocol.World(before, Protocol.Idle), limits, ledger);
    var w, w' := Protocol.World(before, Protocol.Idle), Protocol.World(after, Protocol.Idle);
    Protocol.RecoverKeepsInv(w, id, bytes, w', limits);
    forall ready {
      StaysLegitimate(ledger, AfterRecovery(ledger, id, ready));
    }
    var plan := RecoveryPlanOf(before, limits);
    if plan.CompleteWith? {
      var draft := RecoveryDraft(plan.prepare, plan.event, id, bytes);
      StepWritesAtMost(before.log, after.log, draft, limits);
      OpenPrepareIsRecorded(w, limits);
      WritingKeepsReservations(ledger, before.log, after.log, draft);
    }
  }

  // ---------- when nothing is in the way ----------

  predicate RoomForRecords(limits: Limits, longest: nat) {
    Roomy(limits) && longest <= limits.maxRecord && longest <= limits.maxSegment
  }

  /** Only a fault can keep the service from recording something here. */
  predicate Ready(w: Protocol.World, limits: Limits, longest: nat) {
    && LogView(w.disk.log, limits).Legible?
    && !w.disk.reserve
    && (w.point == Protocol.Idle ==> !w.disk.marker)
    && RoomForRecords(limits, longest)
  }

  lemma ReadyLogsTakeRecords(w: Protocol.World, draft: Draft, key: Key, limits: Limits, longest: nat)
    requires draft.bytes <= longest
    ensures Ready(w, limits, longest) ==> CanAppend(w.disk, draft, key, limits)
  {
    if Ready(w, limits, longest) {
      RoomyLogsTakeRecords(w.disk, draft, key, limits);
    }
  }

  lemma OpenMutationIsCommittable(w: Protocol.World, limits: Limits)
    requires Protocol.Inv(w, limits) && w.point.Wrote? && LogView(w.disk.log, limits).Legible?
    ensures var records := LogView(w.disk.log, limits).records;
            && UnmatchedTail(records, w.point.prepared.eventId)
            && BoundTo(Unmatched(records)[0], w.point.prepared, w.point.context)
            && w.point.prepared.before != w.point.prepared.after
            && w.point.prepared.operation == w.point.context.operation
            && w.point.prepared.entryId == w.point.context.entryId
  {
    Protocol.RetainedTail(w, limits);
    Protocol.OnlyTailUnmatched(LogView(w.disk.log, limits).records);
  }
}
