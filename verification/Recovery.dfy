/** Recovery over whole runs: which crashes the log survives, and that a log which survived can always be
    recovered. */
module Recovery {
  import opened Results
  import opened TrustStore
  import opened AuditChain
  import opened AuditFiles
  import opened MutationProtocol

  /** The record that a step tries to append. */
  ghost function Tried(w: World, step: Step, w': World, limits: Limits): Option<Draft> {
    match step
    case RecordStep(draft) => Some(draft)
    case PrepareStep(context, eventId, after, bytes) =>
      Some(PrepareDraft(context, eventId, KeyOf(w'.disk.log), w.disk.store, after, bytes))
    case CommitStep(eventId, bytes) =>
      if w.point.Wrote? then Some(CommitDraft(w.point.prepared, w.point.context, eventId, bytes)) else None
    case RecoverStep(eventId, bytes) =>
      var plan := RecoveryPlanOf(w.disk, limits);
      if plan.CompleteWith? then Some(RecoveryDraft(plan.prepare, plan.event, eventId, bytes)) else None
    case _ => None
  }

  /** How far a step got with the log, as the methods of the audit log report it. */
  ghost predicate StepReaches(w: World, step: Step, w': World, limits: Limits, reach: Reach) {
    match Tried(w, step, w', limits)
    case Some(draft) => Reaches(w.disk.log, w'.disk.log, draft, limits, reach)
    case None =>
      && (reach.Stopped? ==> reach.stage == Before)
      && forall draft :: Reaches(w.disk.log, w'.disk.log, draft, limits, reach)
  }

  /** The step was cut off where the log does not survive it. */
  ghost predicate StepEndsTheLog(w: World, step: Step, w': World, limits: Limits, reach: Reach) {
    match Tried(w, step, w', limits)
    case Some(draft) => EndsTheLog(w.disk.log, draft, limits, reach)
    case None => reach.KeyTorn?
  }

  lemma LogSurvivesStepUnlessEnded(w: World, step: Step, w': World, limits: Limits, reach: Reach)
    requires ValidLimits(limits) && StepReaches(w, step, w', limits, reach)
    ensures LogView(w'.disk.log, limits).Legible? <==>
              LogView(w.disk.log, limits).Legible? && !StepEndsTheLog(w, step, w', limits, reach)
  {
    match Tried(w, step, w', limits)
    case Some(draft) => LogSurvivesUnlessEnded(w.disk.log, w'.disk.log, draft, limits, reach);
    case None =>
      LogSurvivesUnlessEnded(w.disk.log, w'.disk.log, NOTE, limits, reach);
  }

  /** An attempt without rotation, that neither stops within its line nor leaves a new active file empty, and that
      does not tear the key file, never ends the log. */
  ghost predicate IsPlain(before: LogFiles, draft: Draft, limits: Limits, reach: Reach) {
    && !reach.KeyTorn?
    && (reach.Stopped? ==>
          && !Rotates(before.segments, draft, limits)
          && !reach.stage.TornLine? && !reach.stage.Moving?
          && (reach.stage == Opened ==> 0 in before.segments))
  }

  ghost predicate StepIsPlain(w: World, step: Step, w': World, limits: Limits, reach: Reach) {
    match Tried(w, step, w', limits)
    case Some(draft) => IsPlain(w.disk.log, draft, limits, reach)
    case None => !reach.KeyTorn?
  }

  // ---------- runs ----------

  ghost predicate IsReachingRun(run: seq<World>, steps: seq<Step>, reaches: seq<Reach>, limits: Limits) {
    && IsRun(run, steps, limits) && |reaches| == |steps|
    && forall i :: 0 <= i < |steps| ==> StepReaches(run[i], steps[i], run[i + 1], limits, reaches[i])
  }

  ghost predicate NeverEnds(run: seq<World>, steps: seq<Step>, reaches: seq<Reach>, limits: Limits)
    requires |run| == |steps| + 1 && |reaches| == |steps|
  {
    forall i :: 0 <= i < |steps| ==> !StepEndsTheLog(run[i], steps[i], run[i + 1], limits, reaches[i])
  }

  lemma RunPrefix(run: seq<World>, steps: seq<Step>, reaches: seq<Reach>, limits: Limits)
    requires IsReachingRun(run, steps, reaches, limits) && steps != []
    ensures IsReachingRun(run[..|steps|], steps[..|steps| - 1], reaches[..|steps| - 1], limits)
  {
    forall i | 0 <= i < |steps| - 1
      ensures Next(run[i], steps[i], run[i + 1], limits) && StepReaches(run[i], steps[i], run[i + 1], limits, reaches[i])
    {}
  }

  lemma {:induction false} LogSurvivesRunUnlessEnded(run: seq<World>, steps: seq<Step>, reaches: seq<Reach>, limits: Limits)
    requires ValidLimits(limits) && IsReachingRun(run, steps, reaches, limits)
    ensures LogView(run[|steps|].disk.log, limits).Legible? <==> NeverEnds(run, steps, reaches, limits)
  {
    if steps != [] {
      var last := |steps| - 1;
      RunPrefix(run, steps, reaches, limits);
      LogSurvivesRunUnlessEnded(run[..|steps|], steps[..last], reaches[..last], limits);
      LogSurvivesStepUnlessEnded(run[last], steps[last], run[last + 1], limits, reaches[last]);
      NeverEndsByLast(run, steps, reaches, limits);
    }
  }

  lemma NeverEndsByLast(run: seq<World>, steps: seq<Step>, reaches: seq<Reach>, limits: Limits)
    requires |run| == |steps| + 1 && |reaches| == |steps| && steps != []
    ensures var last := |steps| - 1;
            NeverEnds(run, steps, reaches, limits) <==>
              NeverEnds(run[..|steps|], steps[..last], reaches[..last], limits)
              && !StepEndsTheLog(run[last], steps[last], run[last + 1], limits, reaches[last])
  {
    var last := |steps| - 1;
    var run', steps', reaches' := run[..|steps|], steps[..last], reaches[..last];
    assert forall i :: 0 <= i < last ==>
      (StepEndsTheLog(run'[i], steps'[i], run'[i + 1], limits, reaches'[i]) <==>
       StepEndsTheLog(run[i], steps[i], run[i + 1], limits, reaches[i]));
  }

  lemma PlainRunsNeverEnd(run: seq<World>, steps: seq<Step>, reaches: seq<Reach>, limits: Limits)
    requires ValidLimits(limits) && IsReachingRun(run, steps, reaches, limits)
    requires forall i :: 0 <= i < |steps| ==> StepIsPlain(run[i], steps[i], run[i + 1], limits, reaches[i])
    ensures NeverEnds(run, steps, reaches, limits)
    ensures LogView(run[|steps|].disk.log, limits).Legible?
  {
    LogSurvivesRunUnlessEnded(run, steps, reaches, limits);
  }

  // ---------- recovery always succeeds ----------

  /** Only these two things can be in the way of the record that recovery appends: its length, and a reserve file that
      an interrupted rotation left behind when it must rotate itself. */
  ghost predicate HasRoomToRecover(disk: Disk, eventId: Id, bytes: nat, limits: Limits) {
    var plan := RecoveryPlanOf(disk, limits);
    plan.CompleteWith? ==>
      var draft := RecoveryDraft(plan.prepare, plan.event, eventId, bytes);
      Fits(draft, limits) && !(disk.reserve && Rotates(disk.log.segments, draft, limits))
  }

  lemma DecidedPlansAreRecoverable(w: World, eventId: Id, bytes: nat, key: Key, limits: Limits)
    requires Inv(w, limits) && w.point == Idle && LogView(w.disk.log, limits).Legible? && Roomy(limits)
    requires HasRoomToRecover(w.disk, eventId, bytes, limits)
    ensures Recoverable(w.disk, eventId, bytes, key, limits)
  {
    RecoveryIsDecided(w, limits);
    var plan := RecoveryPlanOf(w.disk, limits);
    if plan.CompleteWith? {
      RoomyLogsTakeRecords(w.disk, RecoveryDraft(plan.prepare, plan.event, eventId, bytes), key, limits);
    }
  }

  lemma OpenMutationIsPinned(w: World, limits: Limits)
    requires Inv(w, limits) && w.point == Idle
    ensures var open := Unmatched(w.disk.log.history);
            || open == []
            || (|open| == 1 && Pinned(open[0], w.disk.store, KeyOf(w.disk.log)))
  {
    if AllClosed(w.disk.log.history) {
      NoneUnmatched(w.disk.log.history);
    } else {
      OnlyTailUnmatched(w.disk.log.history);
    }
  }

  /** Wherever a run is cut off, unless it was cut off where the log does not survive it, recovery knows what to do
      and can do it: only a fault can then keep it from finishing. */
  lemma CrashedRunsCanRecover(
    run: seq<World>, steps: seq<Step>, reaches: seq<Reach>, limits: Limits, eventId: Id, bytes: nat, key: Key)
    requires ValidLimits(limits) && Roomy(limits) && IsReachingRun(run, steps, reaches, limits)
    requires NeverEnds(run, steps, reaches, limits)
    ensures var crashed := run[|steps|].disk;
            var open := Unmatched(crashed.log.history);
            var current := Some(StateDigest(KeyOf(crashed.log), crashed.store));
            && LogView(crashed.log, limits).Legible?
            && |open| <= 1
            && RecoveryPlanOf(crashed, limits) ==
                 (if open == [] then NothingToDo
                  else CompleteWith(open[0], if current == open[0].draft.after then RecoveryCommitted else RecoveryAborted))
            && (HasRoomToRecover(crashed, eventId, bytes, limits) ==>
                  Recoverable(crashed, eventId, bytes, key, limits))
  {
    var w := run[|steps|];
    var crashed := w.(point := Idle);
    EveryRunKeepsInv(run, steps, limits);
    StepKeepsInv(w, CrashStep, crashed, limits);
    LogSurvivesRunUnlessEnded(run, steps, reaches, limits);
    RecoveryIsDecided(crashed, limits);
    OpenMutationIsPinned(crashed, limits);
    if HasRoomToRecover(crashed.disk, eventId, bytes, limits) {
      DecidedPlansAreRecoverable(crashed, eventId, bytes, key, limits);
    }
  }

  // ---------- recovery that is itself cut off ----------

  ghost predicate AreReachingAttempts(worlds: seq<World>, attempts: seq<Attempt>, reaches: seq<Reach>, limits: Limits) {
    && AreAttempts(worlds, attempts, limits) && |reaches| == |attempts|
    && forall i :: 0 <= i < |attempts| ==>
         StepReaches(worlds[i], RecoverStep(attempts[i].eventId, attempts[i].bytes), worlds[i + 1], limits, reaches[i])
  }

  ghost predicate AttemptsNeverEnd(worlds: seq<World>, attempts: seq<Attempt>, reaches: seq<Reach>, limits: Limits)
    requires |worlds| == |attempts| + 1 && |reaches| == |attempts|
  {
    forall i :: 0 <= i < |attempts| ==>
      !StepEndsTheLog(worlds[i], RecoverStep(attempts[i].eventId, attempts[i].bytes), worlds[i + 1], limits, reaches[i])
  }

  lemma {:induction false} LogSurvivesAttempts(
    worlds: seq<World>, attempts: seq<Attempt>, reaches: seq<Reach>, limits: Limits)
    requires ValidLimits(limits) && AreReachingAttempts(worlds, attempts, reaches, limits)
    requires LogView(worlds[0].disk.log, limits).Legible? && AttemptsNeverEnd(worlds, attempts, reaches, limits)
    ensures LogView(worlds[|attempts|].disk.log, limits).Legible?
  {
    if attempts != [] {
      var last := |attempts| - 1;
      var step := RecoverStep(attempts[last].eventId, attempts[last].bytes);
      var worlds', attempts', reaches' := worlds[..|worlds| - 1], attempts[..last], reaches[..last];
      forall i | 0 <= i < |attempts'|
        ensures var tried := RecoverStep(attempts'[i].eventId, attempts'[i].bytes);
                && Next(worlds'[i], tried, worlds'[i + 1], limits)
                && StepReaches(worlds'[i], tried, worlds'[i + 1], limits, reaches'[i])
                && !StepEndsTheLog(worlds'[i], tried, worlds'[i + 1], limits, reaches'[i])
      {
        assert worlds'[i] == worlds[i] && worlds'[i + 1] == worlds[i + 1];
      }
      LogSurvivesAttempts(worlds', attempts', reaches', limits);
      LogSurvivesStepUnlessEnded(worlds[last], step, worlds[last + 1], limits, reaches[last]);
    }
  }

  /** However often recovery is cut off, the next attempt still knows what to do, and what it was going to do from the
      start: the verdict is recorded already, or the next attempt can record it. */
  lemma InterruptedRecoveryCanFinish(
    worlds: seq<World>, attempts: seq<Attempt>, reaches: seq<Reach>, prepare: Record, event: Event, limits: Limits,
    next: Attempt, key: Key)
    requires ValidLimits(limits) && Roomy(limits) && AreReachingAttempts(worlds, attempts, reaches, limits)
    requires Inv(worlds[0], limits) && worlds[0].point == Idle
    requires AttemptsNeverEnd(worlds, attempts, reaches, limits)
    requires RecoveryPlanOf(worlds[0].disk, limits) == CompleteWith(prepare, event)
    ensures var w := worlds[|attempts|];
            && LogView(w.disk.log, limits).Legible?
            && VerdictStands(w, prepare, event, limits)
            && (HasRoomToRecover(w.disk, next.eventId, next.bytes, limits) ==>
                  Recoverable(w.disk, next.eventId, next.bytes, key, limits))
  {
    var w := worlds[|attempts|];
    LogSurvivesAttempts(worlds, attempts, reaches, limits);
    AttemptsKeepVerdict(worlds, attempts, prepare, event, limits);
    if attempts != [] {
      var last := |attempts| - 1;
      assert Next(worlds[last], RecoverStep(attempts[last].eventId, attempts[last].bytes), w, limits);
    }
    if HasRoomToRecover(w.disk, next.eventId, next.bytes, limits) {
      DecidedPlansAreRecoverable(w, next.eventId, next.bytes, key, limits);
    }
  }
}
