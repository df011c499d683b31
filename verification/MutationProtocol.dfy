/** The write-ahead protocol as a state machine. Its steps are the effects that the methods of
    `TrustMutationAuditLog` guarantee, with a crash possible at every point. */
module MutationProtocol {
  import opened Results
  import opened TrustStore
  import opened AuditChain
  import opened AuditFiles

  /** Where the one process that holds the reservation lock stands. */
  datatype Point =
    | Idle
    | Began
    | Prepared(prepared: PreparedMutation, context: Context, after: StoreFile)
    | Wrote(prepared: PreparedMutation, context: Context)
    | Ending(attempted: bool, completed: bool)

  datatype World = World(disk: Disk, point: Point)

  datatype Step =
    | RecordStep(draft: Draft)
    | BeginStep
    | PrepareStep(context: Context, eventId: Id, after: StoreFile, bytes: nat)
    | StoreStep
    | CommitStep(eventId: Id, bytes: nat)
    | FinishStep
    | CrashStep
    | RecoverStep(eventId: Id, bytes: nat)

  /** Event ids are UUIDs: a new one was never written before. */
  predicate Fresh(id: Id, history: seq<Record>) {
    forall record :: record in history ==> record.draft.eventId != id && record.draft.preparedId != Some(id)
  }

  predicate MayClearMarker(point: Point) {
    point == Began || (point.Ending? && (!point.attempted || point.completed))
  }

  ghost predicate Next(w: World, step: Step, w': World, limits: Limits) {
    match step
    case RecordStep(draft) =>
      w.point == w'.point == Idle && draft.event.Notice? && RecordEffect(w.disk, w'.disk, draft, limits)
    case BeginStep =>
      && w.point == Idle
      && w'.disk == w.disk.(marker := w'.disk.marker)
      && (w.disk.marker ==> w' == w)
      && (w'.point == Idle || (w'.point == Began && w'.disk.marker))
    case PrepareStep(context, eventId, after, bytes) =>
      var draft := PrepareDraft(context, eventId, KeyOf(w'.disk.log), w.disk.store, after, bytes);
      && w.point == Began
      && Fresh(eventId, w.disk.log.history)
      && AppendUnderMarker(w.disk, w'.disk, draft, limits)
      && (w.disk.store == after ==> LogKept(w.disk.log, w'.disk.log, limits))
      && (|| w'.point == Ending(true, false)
          || (&& w'.point.Prepared?
              && w'.point == Prepared(w'.point.prepared, context, after)
              && w.disk.store != after
              && LogGrew(w.disk.log, w'.disk.log, draft, limits)
              && BoundTo(LastRecord(w'.disk, limits), w'.point.prepared, context)))
    case StoreStep =>
      && w.point.Prepared?
      && (w'.disk == w.disk || w'.disk == w.disk.(store := w.point.after))
      && (|| w'.point == Ending(true, false)
          || (w'.point == Wrote(w.point.prepared, w.point.context) && w'.disk.store == w.point.after))
    case CommitStep(eventId, bytes) =>
      && w.point.Wrote?
      && CommitEffect(w.disk, w'.disk, w.point.prepared, w.point.context, eventId, bytes, limits)
      && (|| w'.point == Ending(true, false)
          || (&& w'.point == Ending(true, true)
              && LogGrew(w.disk.log, w'.disk.log, CommitDraft(w.point.prepared, w.point.context, eventId, bytes), limits)))
    case FinishStep =>
      && w.point != Idle && w'.point == Idle
      && (w'.disk == w.disk || (MayClearMarker(w.point) && w'.disk == w.disk.(marker := false)))
    case CrashStep =>
      w' == w.(point := Idle)
    case RecoverStep(eventId, bytes) =>
      w.point == w'.point == Idle && RecoverEffect(w.disk, w'.disk, eventId, bytes, limits)
  }

  ghost function LastRecord(disk: Disk, limits: Limits): Record
    requires LogView(disk.log, limits).Legible? && LogView(disk.log, limits).records != []
  {
    LogView(disk.log, limits).records[|LogView(disk.log, limits).records| - 1]
  }

  /** No file exists yet but, possibly, the store. */
  predicate Initial(w: World) {
    w.point == Idle && w.disk.log == LogFiles(map[], NoKeyFile, []) && !w.disk.marker
  }

  // ---------- open and closed mutations ----------

  predicate ClosedAt(records: seq<Record>, i: nat)
    requires i < |records|
  {
    records[i].draft.event == MutationPrepared ==>
      exists j :: i < j < |records| && Completes(records[j], records[i].draft.eventId)
  }

  predicate AllClosed(records: seq<Record>) {
    forall i :: 0 <= i < |records| ==> ClosedAt(records, i)
  }

  predicate TailOpen(records: seq<Record>) {
    && records != []
    && records[|records| - 1].draft.event == MutationPrepared
    && (forall i :: 0 <= i < |records| - 1 ==> ClosedAt(records, i))
    && (forall record :: record in records ==> !Completes(record, records[|records| - 1].draft.eventId))
  }

  lemma {:induction false} ClosedMeansNoneUnmatched(records: seq<Record>, all: seq<Record>)
    requires |records| <= |all| && records == all[..|records|]
    requires forall i :: 0 <= i < |records| ==> ClosedAt(all, i)
    ensures UnmatchedAmong(records, all) == []
  {
    if records != [] {
      var last := |records| - 1;
      assert records[..last] == all[..last];
      ClosedMeansNoneUnmatched(records[..last], all);
      assert ClosedAt(all, last);
      if all[last].draft.event == MutationPrepared {
        var j :| last < j < |all| && Completes(all[j], all[last].draft.eventId);
        assert all[j] in all;
      }
    }
  }

  lemma NoneUnmatched(records: seq<Record>)
    requires AllClosed(records)
    ensures Unmatched(records) == []
  {
    assert records == records[..|records|];
    ClosedMeansNoneUnmatched(records, records);
  }

  lemma OnlyTailUnmatched(records: seq<Record>)
    requires TailOpen(records)
    ensures Unmatched(records) == [records[|records| - 1]]
    ensures UnmatchedTail(records, records[|records| - 1].draft.eventId)
  {
    ClosedMeansNoneUnmatched(records[..|records| - 1], records);
  }

  /** Rotation cannot reopen a mutation: completions come later than what they complete. */
  lemma SuffixKeepsClosed(records: seq<Record>, kept: seq<Record>, i: nat)
    requires IsSuffix(kept, records) && i < |kept|
    requires ClosedAt(records, |records| - |kept| + i)
    ensures ClosedAt(kept, i)
  {
    var shift := |records| - |kept|;
    if kept[i].draft.event == MutationPrepared {
      var j :| shift + i < j < |records| && Completes(records[j], records[shift + i].draft.eventId);
      assert kept[j - shift] == records[j];
    }
  }

  lemma SuffixKeepsAllClosed(records: seq<Record>, kept: seq<Record>)
    requires IsSuffix(kept, records) && AllClosed(records)
    ensures AllClosed(kept)
  {
    forall i | 0 <= i < |kept|
      ensures ClosedAt(kept, i)
    {
      SuffixKeepsClosed(records, kept, i);
    }
  }

  lemma SuffixKeepsTailOpen(records: seq<Record>, kept: seq<Record>)
    requires IsSuffix(kept, records) && TailOpen(records) && kept != []
    ensures TailOpen(kept) && kept[|kept| - 1] == records[|records| - 1]
  {
    forall i | 0 <= i < |kept| - 1
      ensures ClosedAt(kept, i)
    {
      SuffixKeepsClosed(records, kept, i);
    }
    forall record | record in kept
      ensures record in records
    {}
  }

  /** One record more, of this draft. */
  predicate GrewBy(before: seq<Record>, after: seq<Record>, draft: Draft) {
    && |after| == |before| + 1
    && after[..|before|] == before
    && after[|before|].draft == draft
  }

  lemma GrowthKeepsClosed(before: seq<Record>, after: seq<Record>, draft: Draft, i: nat)
    requires GrewBy(before, after, draft) && i < |before| && ClosedAt(before, i)
    ensures ClosedAt(after, i)
  {
    assert after[i] == before[i];
    if after[i].draft.event == MutationPrepared {
      var j :| i < j < |before| && Completes(before[j], before[i].draft.eventId);
      assert Completes(after[j], after[i].draft.eventId);
    }
  }

  lemma NoticeKeepsClosed(before: seq<Record>, after: seq<Record>, draft: Draft)
    requires AllClosed(before) && GrewBy(before, after, draft) && draft.event != MutationPrepared
    ensures AllClosed(after)
  {
    forall i | 0 <= i < |before|
      ensures ClosedAt(after, i)
    {
      GrowthKeepsClosed(before, after, draft, i);
    }
  }

  lemma PrepareOpensTail(before: seq<Record>, after: seq<Record>, draft: Draft)
    requires AllClosed(before) && GrewBy(before, after, draft)
    requires draft.event == MutationPrepared && draft.preparedId == None && Fresh(draft.eventId, before)
    ensures TailOpen(after)
  {
    forall i | 0 <= i < |before|
      ensures ClosedAt(after, i)
    {
      GrowthKeepsClosed(before, after, draft, i);
    }
    forall record | record in after
      ensures !Completes(record, draft.eventId)
    {
      var i :| 0 <= i < |after| && after[i] == record;
      if i < |before| {
        assert record == before[i];
      }
    }
  }

  lemma CompletionClosesTail(before: seq<Record>, after: seq<Record>, draft: Draft)
    requires TailOpen(before) && GrewBy(before, after, draft)
    requires draft.event in {MutationCommitted, RecoveryCommitted, RecoveryAborted}
    requires draft.preparedId == Some(before[|before| - 1].draft.eventId)
    ensures AllClosed(after)
  {
    forall i | 0 <= i < |after|
      ensures ClosedAt(after, i)
    {
      if i < |before| - 1 {
        GrowthKeepsClosed(before, after, draft, i);
      } else if i == |before| - 1 {
        assert after[i] == before[i];
        assert Completes(after[|before|], after[i].draft.eventId);
      }
    }
  }

  // ---------- the invariant ----------

  /** The store is in one of the two states that the open mutation names. */
  predicate Pinned(prepare: Record, store: StoreFile, key: Key) {
    && prepare.draft.before.Some? && prepare.draft.after.Some?
    && prepare.draft.before != prepare.draft.after
    && Some(StateDigest(key, store)) in {prepare.draft.before, prepare.draft.after}
  }

  /** What all records ever written say about the disk at each point of the process. */
  predicate Consistent(records: seq<Record>, disk: Disk, point: Point) {
    var current := Some(StateDigest(KeyOf(disk.log), disk.store));
    match point
    case Idle =>
      AllClosed(records)
      || (TailOpen(records) && disk.marker && Pinned(records[|records| - 1], disk.store, KeyOf(disk.log)))
    case Began => AllClosed(records)
    case Prepared(prepared, context, after) =>
      && TailOpen(records)
      && Pinned(records[|records| - 1], disk.store, KeyOf(disk.log))
      && BoundTo(records[|records| - 1], prepared, context)
      && records[|records| - 1].draft.before == current
      && records[|records| - 1].draft.after == Some(StateDigest(KeyOf(disk.log), after))
    case Wrote(prepared, context) =>
      && TailOpen(records)
      && Pinned(records[|records| - 1], disk.store, KeyOf(disk.log))
      && BoundTo(records[|records| - 1], prepared, context)
      && records[|records| - 1].draft.after == current
    case Ending(attempted, completed) =>
      || AllClosed(records)
      || (attempted && !completed && TailOpen(records)
          && Pinned(records[|records| - 1], disk.store, KeyOf(disk.log)))
  }

  /** What verification returns is the end of everything ever written, and not nothing. */
  predicate Retains(log: LogFiles, limits: Limits) {
    match LogView(log, limits)
    case Illegible => true
    case Legible(records) => IsSuffix(records, log.history) && (log.history != [] ==> records != [])
  }

  predicate Inv(w: World, limits: Limits) {
    && BoundedFiles(w.disk.log.segments, limits)
    && (w.point != Idle ==> w.disk.marker)
    && (w.disk.log.history != [] ==> w.disk.log.keyFile.StoredKey?)
    && Retains(w.disk.log, limits)
    && Consistent(w.disk.log.history, w.disk, w.point)
  }

  lemma GrowthIsRetained(before: LogFiles, after: LogFiles, draft: Draft, limits: Limits)
    requires LogGrew(before, after, draft, limits) && Retains(before, limits)
    ensures Retains(after, limits) && GrewBy(before.history, after.history, draft)
    ensures LogView(after, limits).records[|LogView(after, limits).records| - 1] == after.history[|after.history| - 1]
  {
    var records, records' := LogView(before, limits).records, LogView(after, limits).records;
    var kept := records'[..|records'| - 1];
    assert records' == kept + [records'[|records'| - 1]];
    assert after.history[|after.history| - |records'|..] == records';
  }

  /** A log that is kept or grows by a step keeps the parts of the invariant that do not depend on the point. */
  lemma StepKeepsLog(before: LogFiles, after: LogFiles, draft: Draft, limits: Limits)
    requires LogStep(before, after, draft, limits)
    requires BoundedFiles(before.segments, limits) && Retains(before, limits)
    requires before.history != [] ==> before.keyFile.StoredKey?
    ensures BoundedFiles(after.segments, limits) && Retains(after, limits)
    ensures after.history != [] ==> after.keyFile.StoredKey?
    ensures before.history != [] ==> KeyOf(after) == KeyOf(before)
    ensures after.history == before.history || (GrewBy(before.history, after.history, draft) && LogGrew(before, after, draft, limits))
  {
    if after.history != before.history {
      GrowthIsRetained(before, after, draft, limits);
    } else if LogView(before, limits).Legible? && LogView(after, limits).Legible? {
      assert !LogGrew(before, after, draft, limits);
    }
  }

  lemma RecordKeepsInv(w: World, draft: Draft, w': World, limits: Limits)
    requires Inv(w, limits) && Next(w, RecordStep(draft), w', limits)
    ensures Inv(w', limits)
  {
    if !w.disk.marker {
      StepKeepsLog(w.disk.log, w'.disk.log, draft, limits);
      if w'.disk.log.history != w.disk.log.history {
        NoticeKeepsClosed(w.disk.log.history, w'.disk.log.history, draft);
      }
    }
  }

  /** A new prepare record opens the one mutation, with the store in its before state. */
  lemma PreparePinsStore(
    before: seq<Record>, after: seq<Record>, context: Context, eventId: Id, store: StoreFile, next: StoreFile, bytes: nat,
    key: Key)
    requires AllClosed(before) && Fresh(eventId, before) && store != next
    requires GrewBy(before, after, PrepareDraft(context, eventId, key, store, next, bytes))
    ensures TailOpen(after) && Pinned(after[|after| - 1], store, key)
    ensures after[|after| - 1].draft == PrepareDraft(context, eventId, key, store, next, bytes)
  {
    PrepareOpensTail(before, after, PrepareDraft(context, eventId, key, store, next, bytes));
  }

  lemma PrepareKeepsInv(w: World, context: Context, eventId: Id, after: StoreFile, bytes: nat, w': World, limits: Limits)
    requires Inv(w, limits) && Next(w, PrepareStep(context, eventId, after, bytes), w', limits)
    ensures Inv(w', limits)
  {
    var history, history', key := w.disk.log.history, w'.disk.log.history, KeyOf(w'.disk.log);
    var draft := PrepareDraft(context, eventId, key, w.disk.store, after, bytes);
    StepKeepsLog(w.disk.log, w'.disk.log, draft, limits);
    if history' != history {
      PreparePinsStore(history, history', context, eventId, w.disk.store, after, bytes, key);
      LastRecordIsNewest(w.disk.log, w'.disk, draft, limits);
    }
  }

  lemma LastRecordIsNewest(before: LogFiles, after: Disk, draft: Draft, limits: Limits)
    requires LogGrew(before, after.log, draft, limits)
    ensures LastRecord(after, limits) == after.log.history[|after.log.history| - 1]
  {}

  lemma CommitKeepsInv(w: World, eventId: Id, bytes: nat, w': World, limits: Limits)
    requires Inv(w, limits) && Next(w, CommitStep(eventId, bytes), w', limits)
    ensures Inv(w', limits)
  {
    var draft := CommitDraft(w.point.prepared, w.point.context, eventId, bytes);
    if LogStep(w.disk.log, w'.disk.log, draft, limits) {
      StepKeepsLog(w.disk.log, w'.disk.log, draft, limits);
      if w'.disk.log.history != w.disk.log.history {
        CompletionClosesTail(w.disk.log.history, w'.disk.log.history, draft);
      }
    }
  }

  /** Seen from the retained records, the open mutation is the one that all records have open. */
  lemma RetainedTail(w: World, limits: Limits)
    requires Inv(w, limits) && LogView(w.disk.log, limits).Legible?
    ensures var records := LogView(w.disk.log, limits).records;
            && Consistent(records, w.disk, w.point)
            && (AllClosed(w.disk.log.history) <==> AllClosed(records))
            && (TailOpen(w.disk.log.history) ==>
                  TailOpen(records) && records[|records| - 1] == w.disk.log.history[|w.disk.log.history| - 1])
  {
    var records, history := LogView(w.disk.log, limits).records, w.disk.log.history;
    if TailOpen(history) {
      TailIsOpen(history);
      SuffixKeepsTailOpen(history, records);
      TailIsOpen(records);
    } else {
      SuffixKeepsAllClosed(history, records);
    }
  }

  lemma TailIsOpen(records: seq<Record>)
    requires TailOpen(records)
    ensures !AllClosed(records)
  {
    assert !ClosedAt(records, |records| - 1);
  }

  lemma RecoverKeepsInv(w: World, eventId: Id, bytes: nat, w': World, limits: Limits)
    requires Inv(w, limits) && Next(w, RecoverStep(eventId, bytes), w', limits)
    ensures Inv(w', limits)
  {
    if LogView(w.disk.log, limits).Legible? {
      RetainedTail(w, limits);
      var records := LogView(w.disk.log, limits).records;
      if AllClosed(records) {
        NoneUnmatched(records);
      } else {
        OnlyTailUnmatched(records);
        match PlanRecovery(records, w.disk.store, KeyOf(w.disk.log)) {
          case NothingToDo =>
          case CannotDecide =>
          case CompleteWith(prepare, event) =>
            var draft := RecoveryDraft(prepare, event, eventId, bytes);
            StepKeepsLog(w.disk.log, w'.disk.log, draft, limits);
            if w'.disk.log.history != w.disk.log.history {
              CompletionClosesTail(w.disk.log.history, w'.disk.log.history, draft);
            }
        }
      }
    }
  }

  lemma StepKeepsInv(w: World, step: Step, w': World, limits: Limits)
    requires Inv(w, limits) && Next(w, step, w', limits)
    ensures Inv(w', limits)
  {
    match step {
      case RecordStep(draft) => RecordKeepsInv(w, draft, w', limits);
      case BeginStep =>
      case PrepareStep(context, eventId, after, bytes) =>
        PrepareKeepsInv(w, context, eventId, after, bytes, w', limits);
      case StoreStep =>
      case CommitStep(eventId, bytes) => CommitKeepsInv(w, eventId, bytes, w', limits);
      case FinishStep =>
      case CrashStep =>
      case RecoverStep(eventId, bytes) => RecoverKeepsInv(w, eventId, bytes, w', limits);
    }
  }

  // ---------- a prepare of its own ----------

  /** A prepare record is safe to crash after if and only if the marker is there, which only a transaction sees to,
      and no other mutation is open. */
  lemma WhenAPrepareIsSafe(w: World, context: Context, eventId: Id, after: StoreFile, bytes: nat, log: LogFiles, limits: Limits)
    requires Inv(w, limits) && Fresh(eventId, w.disk.log.history) && w.disk.store != after
    requires var draft := PrepareDraft(context, eventId, KeyOf(log), w.disk.store, after, bytes);
             LogStep(w.disk.log, log, draft, limits) && LogGrew(w.disk.log, log, draft, limits)
    ensures Inv(World(w.disk.(log := log), Idle), limits) <==> w.disk.marker && AllClosed(w.disk.log.history)
  {
    var history, history' := w.disk.log.history, log.history;
    var draft := PrepareDraft(context, eventId, KeyOf(log), w.disk.store, after, bytes);
    StepKeepsLog(w.disk.log, log, draft, limits);
    GrowthIsRetained(w.disk.log, log, draft, limits);
    if AllClosed(history) {
      PrepareOpensTail(history, history', draft);
      TailIsOpen(history');
    } else if TailOpen(history') {
      NoPrepareCloses(history, history', draft);
    } else {
      var i :| 0 <= i < |history| && !ClosedAt(history, i);
      NoPrepareClosesAt(history, history', draft, i);
    }
  }

  lemma NoPrepareClosesAt(before: seq<Record>, after: seq<Record>, draft: Draft, i: nat)
    requires GrewBy(before, after, draft) && draft.event == MutationPrepared && i < |before|
    ensures ClosedAt(after, i) ==> ClosedAt(before, i)
  {
    assert after[i] == before[i];
    if ClosedAt(after, i) && after[i].draft.event == MutationPrepared {
      var j :| i < j < |after| && Completes(after[j], after[i].draft.eventId);
      assert after[j] == before[j];
    }
  }

  lemma NoPrepareCloses(before: seq<Record>, after: seq<Record>, draft: Draft)
    requires GrewBy(before, after, draft) && draft.event == MutationPrepared && TailOpen(after)
    ensures AllClosed(before)
  {
    forall i | 0 <= i < |before|
      ensures ClosedAt(before, i)
    {
      NoPrepareClosesAt(before, after, draft, i);
    }
  }

  /** A disk with an empty log and no marker. A prepare of its own, without a transaction, leaves an open mutation that
      no marker announces. */
  lemma LonePrepareIsNotSafe(context: Context, eventId: Id, after: StoreFile) returns (log: LogFiles)
    requires after != None
    ensures var disk := Disk(EMPTY_LOG, false, false, None);
            && Inv(World(disk, Idle), DEFAULT_LIMITS)
            && LogGrew(EMPTY_LOG, log, PrepareDraft(context, eventId, "key", None, after, 100), DEFAULT_LIMITS)
            && !Inv(World(disk.(log := log), Idle), DEFAULT_LIMITS)
            && |Unmatched(log.history)| == 1
  {
    var disk := Disk(EMPTY_LOG, false, false, None);
    var draft := PrepareDraft(context, eventId, "key", None, after, 100);
    DefaultLimitsAreRoomy();
    EmptyLogIsSettled(DEFAULT_LIMITS);
    TotalNeverRefuses(EMPTY_LOG.segments, NewRecord(EMPTY_LOG, draft, DEFAULT_LIMITS), DEFAULT_LIMITS);
    log := FilesAt(EMPTY_LOG, draft, DEFAULT_LIMITS, Done);
    AppendEffectIsLogStep(EMPTY_LOG, log, draft, DEFAULT_LIMITS, Done);
    WhenAPrepareIsSafe(World(disk, Idle), context, eventId, after, 100, log, DEFAULT_LIMITS);
    PrepareOpensTail(EMPTY_LOG.history, log.history, draft);
    OnlyTailUnmatched(log.history);
  }

  // ---------- whole runs ----------

  ghost predicate IsRun(run: seq<World>, steps: seq<Step>, limits: Limits) {
    && |run| == |steps| + 1
    && Initial(run[0])
    && forall i :: 0 <= i < |steps| ==> Next(run[i], steps[i], run[i + 1], limits)
  }

  lemma {:induction false} EveryRunKeepsInv(run: seq<World>, steps: seq<Step>, limits: Limits)
    requires IsRun(run, steps, limits)
    ensures Inv(run[|steps|], limits)
  {
    if steps != [] {
      var last := |steps| - 1;
      assert IsRun(run[..|run| - 1], steps[..last], limits);
      EveryRunKeepsInv(run[..|run| - 1], steps[..last], limits);
      StepKeepsInv(run[last], steps[last], run[last + 1], limits);
    }
  }

  /** In every reachable state, mid-transaction and after any crash, whether the log can still be read or not: of
      all records ever written at most one mutation is open, as the last record, with the marker present and the store
      in its before or after state; no file exceeds its limit; and the verified records are a suffix of everything
      ever written, in which the same mutation is open. */
  lemma WriteAheadSafety(run: seq<World>, steps: seq<Step>, limits: Limits)
    requires IsRun(run, steps, limits)
    ensures var w := run[|steps|];
            var history := w.disk.log.history;
            && BoundedFiles(w.disk.log.segments, limits)
            && (Roomy(limits) ==> TotalBytes(w.disk.log.segments, FileCount(limits)) <= limits.maxTotal)
            && (|| Unmatched(history) == []
                || (&& history != [] && Unmatched(history) == [history[|history| - 1]]
                    && w.disk.marker
                    && Pinned(history[|history| - 1], w.disk.store, KeyOf(w.disk.log))))
            && (LogView(w.disk.log, limits).Legible? ==>
                  var records := LogView(w.disk.log, limits).records;
                  IsSuffix(records, history) && Unmatched(records) == Unmatched(history))
  {
    EveryRunKeepsInv(run, steps, limits);
    var w := run[|steps|];
    SegmentsBoundTotal(w.disk.log.segments, FileCount(limits), limits);
    SameUnmatched(w, limits);
    if AllClosed(w.disk.log.history) {
      NoneUnmatched(w.disk.log.history);
    } else {
      OnlyTailUnmatched(w.disk.log.history);
    }
  }

  lemma SameUnmatched(w: World, limits: Limits)
    requires Inv(w, limits)
    ensures LogView(w.disk.log, limits).Legible? ==>
              Unmatched(LogView(w.disk.log, limits).records) == Unmatched(w.disk.log.history)
  {
    if LogView(w.disk.log, limits).Legible? {
      RetainedTail(w, limits);
      if AllClosed(w.disk.log.history) {
        NoneUnmatched(w.disk.log.history);
        NoneUnmatched(LogView(w.disk.log, limits).records);
      } else {
        OnlyTailUnmatched(w.disk.log.history);
        OnlyTailUnmatched(LogView(w.disk.log, limits).records);
      }
    }
  }

  // ---------- recovery ----------

  /** What a successful `VerifyAndRecover` guarantees. */
  ghost predicate Recovers(before: Disk, after: Disk, eventId: Id, bytes: nat, limits: Limits) {
    && RecoverEffect(before, after, eventId, bytes, limits)
    && !after.marker
    && match RecoveryPlanOf(before, limits)
       case NothingToDo => LogView(after.log, limits) == LogView(before.log, limits)
       case CannotDecide => false
       case CompleteWith(prepare, event) =>
         LogGrew(before.log, after.log, RecoveryDraft(prepare, event, eventId, bytes), limits)
  }

  /** As long as the log can be read, recovery can tell what happened: it commits exactly when the store is in the after
      state of the open mutation and aborts exactly when it is in the before state. */
  lemma RecoveryIsDecided(w: World, limits: Limits)
    requires Inv(w, limits) && w.point == Idle && LogView(w.disk.log, limits).Legible?
    ensures var open := Unmatched(w.disk.log.history);
            var plan := RecoveryPlanOf(w.disk, limits);
            var current := Some(StateDigest(KeyOf(w.disk.log), w.disk.store));
            && plan != CannotDecide
            && (plan == NothingToDo <==> open == [])
            && (open != [] ==>
                  && (plan == CompleteWith(open[0], RecoveryCommitted) <==> current == open[0].draft.after)
                  && (plan == CompleteWith(open[0], RecoveryAborted) <==> current == open[0].draft.before))
  {
    SameUnmatched(w, limits);
    RetainedTail(w, limits);
    var records := LogView(w.disk.log, limits).records;
    if AllClosed(records) {
      NoneUnmatched(records);
    } else {
      OnlyTailUnmatched(records);
    }
  }

  /** A writer that knows nothing of the log, as the command line is one, may write the store while a crashed mutation is
      open. Recovery is then undecided if and only if what it wrote is neither of the two states. */
  lemma WhenRecoveryIsUndecided(w: World, store: StoreFile, limits: Limits)
    requires Inv(w, limits) && w.point == Idle && LogView(w.disk.log, limits).Legible?
    ensures var open := Unmatched(w.disk.log.history);
            RecoveryPlanOf(w.disk.(store := store), limits) == CannotDecide <==>
              open != [] && Some(StateDigest(KeyOf(w.disk.log), store)) !in {open[0].draft.before, open[0].draft.after}
  {
    SameUnmatched(w, limits);
    RetainedTail(w, limits);
    var records := LogView(w.disk.log, limits).records;
    if AllClosed(records) {
      NoneUnmatched(records);
    } else {
      OnlyTailUnmatched(records);
    }
  }

  /** A finished recovery leaves nothing open and no marker, so that a second one has nothing to do. */
  lemma RecoveryIsFinal(w: World, eventId: Id, bytes: nat, w': World, limits: Limits)
    requires Inv(w, limits) && w.point == w'.point == Idle
    requires Recovers(w.disk, w'.disk, eventId, bytes, limits)
    ensures Inv(w', limits)
    ensures LogView(w'.disk.log, limits).Legible? && !w'.disk.marker
    ensures Unmatched(w'.disk.log.history) == []
    ensures RecoveryPlanOf(w'.disk, limits) == NothingToDo
    ensures w'.disk.store == w.disk.store
  {
    RecoverKeepsInv(w, eventId, bytes, w', limits);
    RetainedTail(w', limits);
    NoneUnmatched(w'.disk.log.history);
    NoneUnmatched(LogView(w'.disk.log, limits).records);
  }

  predicate EndsWithCompletion(records: seq<Record>, prepare: Record, event: Event) {
    && records != []
    && records[|records| - 1].draft.event == event
    && Completes(records[|records| - 1], prepare.draft.eventId)
  }

  /** The verdict of a recovery stands: either it is still to be recorded, or it is the last record. */
  ghost predicate VerdictStands(w: World, prepare: Record, event: Event, limits: Limits) {
    RecoveryPlanOf(w.disk, limits) == CompleteWith(prepare, event)
    || (RecoveryPlanOf(w.disk, limits) == NothingToDo && EndsWithCompletion(w.disk.log.history, prepare, event))
  }

  /** One more attempt, wherever it is cut off, leaves the verdict as it is. */
  lemma AttemptKeepsVerdict(
    w: World, eventId: Id, bytes: nat, w': World, prepare: Record, event: Event, limits: Limits)
    requires Inv(w, limits) && VerdictStands(w, prepare, event, limits)
    requires Next(w, RecoverStep(eventId, bytes), w', limits) && LogView(w'.disk.log, limits).Legible?
    ensures VerdictStands(w', prepare, event, limits)
  {
    RecoverKeepsInv(w, eventId, bytes, w', limits);
    RecoveryIsDecided(w, limits);
    RecoveryIsDecided(w', limits);
    if RecoveryPlanOf(w.disk, limits).CompleteWith? {
      var draft := RecoveryDraft(prepare, event, eventId, bytes);
      StepKeepsLog(w.disk.log, w'.disk.log, draft, limits);
      if w'.disk.log.history != w.disk.log.history {
        RetainedTail(w, limits);
        AttemptCompletes(w, draft, w', limits);
      }
    }
  }

  lemma AttemptCompletes(w: World, draft: Draft, w': World, limits: Limits)
    requires Inv(w, limits) && w.point == Idle && LogView(w.disk.log, limits).Legible?
    requires RecoveryPlanOf(w.disk, limits).CompleteWith?
    requires draft.event in {RecoveryCommitted, RecoveryAborted}
    requires draft.preparedId == Some(RecoveryPlanOf(w.disk, limits).prepare.draft.eventId)
    requires GrewBy(w.disk.log.history, w'.disk.log.history, draft)
    ensures Unmatched(w'.disk.log.history) == []
  {
    RecoveryIsDecided(w, limits);
    RetainedTail(w, limits);
    if AllClosed(w.disk.log.history) {
      NoneUnmatched(w.disk.log.history);
    } else {
      OnlyTailUnmatched(w.disk.log.history);
      CompletionClosesTail(w.disk.log.history, w'.disk.log.history, draft);
      NoneUnmatched(w'.disk.log.history);
    }
  }

  /** Attempts at recovery, one after the other, each cut off anywhere. */
  datatype Attempt = Attempt(eventId: Id, bytes: nat)

  ghost predicate AreAttempts(worlds: seq<World>, attempts: seq<Attempt>, limits: Limits) {
    && |worlds| == |attempts| + 1
    && forall i :: 0 <= i < |attempts| ==>
         Next(worlds[i], RecoverStep(attempts[i].eventId, attempts[i].bytes), worlds[i + 1], limits)
  }

  lemma IllegibleStaysIllegible(w: World, step: Step, w': World, limits: Limits)
    requires Next(w, step, w', limits)
    ensures LogView(w.disk.log, limits) == Illegible ==> LogView(w'.disk.log, limits) == Illegible
  {}

  lemma {:induction false} AttemptsKeepVerdict(
    worlds: seq<World>, attempts: seq<Attempt>, prepare: Record, event: Event, limits: Limits)
    requires AreAttempts(worlds, attempts, limits) && Inv(worlds[0], limits)
    requires RecoveryPlanOf(worlds[0].disk, limits) == CompleteWith(prepare, event)
    ensures Inv(worlds[|attempts|], limits) && worlds[|attempts|].disk.store == worlds[0].disk.store
    ensures LogView(worlds[|attempts|].disk.log, limits).Legible? ==>
              VerdictStands(worlds[|attempts|], prepare, event, limits)
  {
    if attempts != [] {
      var last := |attempts| - 1;
      var init, tried := worlds[..|worlds| - 1], attempts[..last];
      forall i | 0 <= i < |tried|
        ensures Next(init[i], RecoverStep(tried[i].eventId, tried[i].bytes), init[i + 1], limits)
      {
        assert Next(worlds[i], RecoverStep(attempts[i].eventId, attempts[i].bytes), worlds[i + 1], limits);
      }
      AttemptsKeepVerdict(init, tried, prepare, event, limits);
      var step := RecoverStep(attempts[last].eventId, attempts[last].bytes);
      StepKeepsInv(worlds[last], step, worlds[last + 1], limits);
      IllegibleStaysIllegible(worlds[last], step, worlds[last + 1], limits);
      if LogView(worlds[last + 1].disk.log, limits).Legible? {
        AttemptKeepsVerdict(
          worlds[last], attempts[last].eventId, attempts[last].bytes, worlds[last + 1], prepare, event, limits);
      }
    }
  }

  /** Cutting recovery off any number of times, anywhere, and starting again ends with the verdict of the first
      attempt as the last record. */
  lemma InterruptedRecoveryRepeats(
    worlds: seq<World>, attempts: seq<Attempt>, last: Attempt, w: World, prepare: Record, event: Event, limits: Limits)
    requires AreAttempts(worlds, attempts, limits) && Inv(worlds[0], limits)
    requires RecoveryPlanOf(worlds[0].disk, limits) == CompleteWith(prepare, event)
    requires w.point == Idle && Recovers(worlds[|attempts|].disk, w.disk, last.eventId, last.bytes, limits)
    ensures EndsWithCompletion(w.disk.log.history, prepare, event)
    ensures w.disk.store == worlds[0].disk.store && !w.disk.marker
  {
    AttemptsKeepVerdict(worlds, attempts, prepare, event, limits);
  }
}
