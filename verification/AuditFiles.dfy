/** The files of the mutation audit log, what verification reads from them, and what every
    operation may leave behind. A file operation may fail before or after its effect; a crash is a
    failure that nothing follows. */
module AuditFiles {
  import opened Results
  import opened TrustStore
  import opened AuditChain

  datatype KeyState = KeyState(key: Key, committed: Snapshot, pending: Option<Snapshot>)

  datatype KeyFile = NoKeyFile | TornKeyFile | StoredKey(state: KeyState)

  /** `history` is no file: it lists every record whose line was ever completely written. */
  datatype LogFiles = LogFiles(segments: Segments, keyFile: KeyFile, history: seq<Record>)

  datatype Disk = Disk(log: LogFiles, reserve: bool, marker: bool, store: StoreFile)

  /** What the next verification of the chain will say. */
  datatype View = Legible(records: seq<Record>) | Illegible

  function Observed(log: LogFiles, limits: Limits): Snapshot
    requires log.keyFile.StoredKey? && Readable(log.segments, log.keyFile.state.key, limits)
  {
    var key := log.keyFile.state.key;
    AnchorSnapshot(log.segments, TerminalMac(Retained(log.segments, key, limits)), key, limits)
  }

  function LogView(log: LogFiles, limits: Limits): View {
    if !ValidLimits(limits) then Illegible
    else
      match log.keyFile
      case NoKeyFile => if log.segments == map[] then Legible([]) else Illegible
      case TornKeyFile => Illegible
      case StoredKey(state) =>
        if !Readable(log.segments, state.key, limits) then Illegible
        else if Observed(log, limits) == state.committed || Some(Observed(log, limits)) == state.pending
        then Legible(Retained(log.segments, state.key, limits))
        else Illegible
  }

  /** The chain was verified and its anchor is at rest. */
  ghost predicate Settled(log: LogFiles, limits: Limits) {
    && log.keyFile.StoredKey?
    && Readable(log.segments, log.keyFile.state.key, limits)
    && log.keyFile.state.committed == Observed(log, limits)
    && log.keyFile.state.pending == None
  }

  datatype AuditError = RecoveryRequired | AuditFailed | ChainCorrupt

  // ---------- reading the chain ----------

  lemma NoSegmentsNoLines(count: nat)
    ensures Lines(map[], count) == [] && TotalBytes(map[], count) == 0
  {}

  lemma PrefixIsChained(front: seq<Line>, rest: seq<Line>, key: Key, maxRecord: nat)
    requires Chained(front + rest, key, maxRecord)
    ensures Chained(front, key, maxRecord)
  {
    assert forall i :: 0 <= i < |front| ==> front[i] == (front + rest)[i];
  }

  /** The checks on one line, given the records before it. */
  predicate Links(earlier: seq<Record>, line: Line, key: Key, maxRecord: nat) {
    && LineBytes(line) <= maxRecord
    && line.Stored?
    && (earlier != [] ==> line.record.previous == earlier[|earlier| - 1].mac)
    && line.record.mac == RecordMac(key, line.record.draft, line.record.previous)
  }

  lemma NextLineDecides(front: seq<Line>, data: Segment, i: nat, key: Key, maxRecord: nat)
    requires i < |data| && Chained(front + data[..i], key, maxRecord)
    ensures Links(RecordsOf(front + data[..i]), data[i], key, maxRecord) ==>
              && Chained(front + data[..i + 1], key, maxRecord)
              && RecordsOf(front + data[..i + 1]) == RecordsOf(front + data[..i]) + [data[i].record]
    ensures !Links(RecordsOf(front + data[..i]), data[i], key, maxRecord) ==> !Chained(front + data, key, maxRecord)
  {
    var read, whole := front + data[..i], front + data;
    assert front + data[..i + 1] == read + [data[i]];
    assert whole[|read|] == data[i];
    assert read != [] ==> whole[|read| - 1] == read[|read| - 1];
  }

  lemma NoSegmentsNoAnchors(key: Key, count: nat)
    ensures Anchors(map[], key, count) == []
  {}

  // ---------- an append, file operation by file operation ----------

  /** How far an append came before it stopped. */
  datatype Stage =
    | Before
    | Announced              // the pending anchor is stored
    | Moving(next: nat)      // rotated segments from `next` upward have moved
    | Opened                 // the active file exists
    | TornLine(bytes: nat)   // a proper prefix of the line was written
    | Written                // the whole line was written
    | Done                   // the committed anchor is stored

  ghost function SettledFiles(log: LogFiles, limits: Limits): LogFiles
    requires LogView(log, limits).Legible? && log.keyFile.StoredKey?
  {
    log.(keyFile := StoredKey(KeyState(log.keyFile.state.key, Observed(log, limits), None)))
  }

  ghost function NewRecord(log: LogFiles, draft: Draft, limits: Limits): Record
    requires Settled(log, limits)
  {
    var key := log.keyFile.state.key;
    Sign(draft, TerminalMac(Retained(log.segments, key, limits)), key)
  }

  ghost function NextSegments(log: LogFiles, draft: Draft, limits: Limits): Segments
    requires Settled(log, limits)
  {
    Appended(log.segments, draft, log.keyFile.state.key, limits)
  }

  /** The size checks of `_append_record_unlocked`. */
  ghost predicate Admitted(log: LogFiles, draft: Draft, limits: Limits)
    requires Settled(log, limits)
  {
    Fits(draft, limits) && TotalBytes(NextSegments(log, draft, limits), FileCount(limits)) <= limits.maxTotal
  }

  /** The files an append has left behind when it stops at a stage. */
  ghost function FilesAt(log: LogFiles, draft: Draft, limits: Limits, stage: Stage): LogFiles
    requires Settled(log, limits)
  {
    var state := log.keyFile.state;
    var record := NewRecord(log, draft, limits);
    var target := NextSegments(log, draft, limits);
    var anchor := AnchorSnapshot(target, record.mac, state.key, limits);
    var announced := log.(keyFile := StoredKey(KeyState(state.key, state.committed, Some(anchor))));
    var cleared := if Rotates(log.segments, draft, limits) then RotatedDownTo(log.segments, 0, limits) else log.segments;
    match stage
    case Before => log
    case Announced => announced
    case Moving(next) => announced.(segments := RotatedDownTo(log.segments, next, limits))
    case Opened => announced.(segments := cleared[0 := At(cleared, 0)])
    case TornLine(bytes) => announced.(segments := cleared[0 := At(cleared, 0) + [Foreign(bytes)]])
    case Written => announced.(segments := target, history := log.history + [record])
    case Done => LogFiles(target, StoredKey(KeyState(state.key, anchor, None)), log.history + [record])
  }

  ghost predicate StageReachable(log: LogFiles, draft: Draft, limits: Limits, stage: Stage)
    requires Settled(log, limits)
  {
    && (stage != Before ==> Admitted(log, draft, limits))
    && (stage.Moving? ==> Rotates(log.segments, draft, limits) && stage.next <= limits.maxRotated)
    && (stage.TornLine? ==> 0 < stage.bytes < draft.bytes)
  }

  /** An append starts by settling a pending anchor, then stops at a stage. */
  ghost predicate AppendEffect(before: LogFiles, after: LogFiles, draft: Draft, limits: Limits, stage: Stage)
    requires LogView(before, limits).Legible? && before.keyFile.StoredKey?
  {
    var start := SettledFiles(before, limits);
    && StageReachable(start, draft, limits, stage)
    && (after == FilesAt(start, draft, limits, stage) || (stage == Before && after == before))
  }

  lemma SnapshotTellsSegments(left: Segments, right: Segments, terminal: Mac, terminal': Mac, key: Key, limits: Limits)
    requires forall index :: index in left || index in right ==> index <= limits.maxRotated
    ensures AnchorSnapshot(left, terminal, key, limits) == AnchorSnapshot(right, terminal', key, limits) ==>
              left == right && terminal == terminal'
  {
    if Anchors(left, key, FileCount(limits)) == Anchors(right, key, FileCount(limits)) {
      SameAnchorSameSegments(left, right, key, limits);
    }
  }

  /** The files while an append is announced. */
  ghost function Between(log: LogFiles, draft: Draft, limits: Limits, segments: Segments): LogFiles
    requires Settled(log, limits)
  {
    FilesAt(log, draft, limits, Announced).(segments := segments)
  }

  lemma OtherSegmentsDiffer(log: LogFiles, draft: Draft, limits: Limits, segments: Segments)
    requires Settled(log, limits) && Admitted(log, draft, limits)
    requires Readable(segments, log.keyFile.state.key, limits)
    requires segments != log.segments && segments != NextSegments(log, draft, limits)
    ensures var key := log.keyFile.state.key;
            var found := AnchorSnapshot(segments, TerminalMac(Retained(segments, key, limits)), key, limits);
            && found != log.keyFile.state.committed
            && found != AnchorSnapshot(NextSegments(log, draft, limits), NewRecord(log, draft, limits).mac, key, limits)
  {
    var key := log.keyFile.state.key;
    var terminal := TerminalMac(Retained(segments, key, limits));
    var _ := AppendedIsReadable(log.segments, draft, key, limits);
    SnapshotTellsSegments(segments, log.segments, terminal, TerminalMac(Retained(log.segments, key, limits)), key, limits);
    SnapshotTellsSegments(
      segments, NextSegments(log, draft, limits), terminal, NewRecord(log, draft, limits).mac, key, limits);
  }

  lemma NeitherAnchorMatches(log: LogFiles, draft: Draft, limits: Limits, segments: Segments)
    requires Settled(log, limits) && Admitted(log, draft, limits)
    requires segments != log.segments && segments != NextSegments(log, draft, limits)
    ensures LogView(Between(log, draft, limits, segments), limits) == Illegible
  {
    if Readable(segments, log.keyFile.state.key, limits) {
      OtherSegmentsDiffer(log, draft, limits, segments);
    }
  }

  lemma NextSegmentsMatch(log: LogFiles, draft: Draft, limits: Limits)
    requires Settled(log, limits) && Admitted(log, draft, limits)
    ensures var target, key := NextSegments(log, draft, limits), log.keyFile.state.key;
            && target != log.segments
            && Readable(target, key, limits)
            && LogView(Between(log, draft, limits, target), limits) == Legible(Retained(target, key, limits))
  {
    var _ := AppendedIsReadable(log.segments, draft, log.keyFile.state.key, limits);
  }

  lemma OldSegmentsMatch(log: LogFiles, draft: Draft, limits: Limits)
    requires Settled(log, limits) && Admitted(log, draft, limits)
    ensures LogView(Between(log, draft, limits, log.segments), limits) ==
              Legible(Retained(log.segments, log.keyFile.state.key, limits))
  {}

  /** Between the two anchors nothing is legible but the two file sets they pin. */
  lemma OnlyAnchoredFilesAreLegible(log: LogFiles, draft: Draft, limits: Limits, segments: Segments)
    requires Settled(log, limits) && Admitted(log, draft, limits)
    ensures Readable(NextSegments(log, draft, limits), log.keyFile.state.key, limits)
    ensures var key := log.keyFile.state.key;
            LogView(Between(log, draft, limits, segments), limits) ==
              if segments == log.segments then Legible(Retained(log.segments, key, limits))
              else if segments == NextSegments(log, draft, limits)
              then Legible(Retained(NextSegments(log, draft, limits), key, limits))
              else Illegible
  {
    NextSegmentsMatch(log, draft, limits);
    if segments == log.segments {
      OldSegmentsMatch(log, draft, limits);
    } else if segments != NextSegments(log, draft, limits) {
      NeitherAnchorMatches(log, draft, limits, segments);
    }
  }

  /** What the verification after a crash at each stage says: the old records, the new ones, or
      neither. */
  ghost function Verdict(log: LogFiles, draft: Draft, limits: Limits, stage: Stage): View
    requires Settled(log, limits) && StageReachable(log, draft, limits, stage)
  {
    var key := log.keyFile.state.key;
    var rotating := Rotates(log.segments, draft, limits);
    var before := Legible(Retained(log.segments, key, limits));
    match stage
    case Before | Announced => before
    case Moving(next) => if RotatedDownTo(log.segments, next, limits) == log.segments then before else Illegible
    case Opened => if !rotating && 0 in log.segments then before else Illegible
    case TornLine(_) => Illegible
    case Written | Done =>
      var dropped := if rotating then |At(log.segments, limits.maxRotated)| else 0;
      var kept := if dropped <= |before.records| then before.records[dropped..] else [];
      Legible(kept + [NewRecord(log, draft, limits)])
  }

  lemma NewestIsLastLine(segments: Segments, count: nat)
    requires count > 0 && At(segments, 0) != []
    ensures Lines(segments, count) != []
    ensures Lines(segments, count)[|Lines(segments, count)| - 1] == At(segments, 0)[|At(segments, 0)| - 1]
  {}

  lemma TornFilesAreUnreadable(segments: Segments, key: Key, limits: Limits)
    requires At(segments, 0) != [] && At(segments, 0)[|At(segments, 0)| - 1].Foreign?
    ensures !Readable(segments, key, limits)
  {
    NewestIsLastLine(segments, FileCount(limits));
  }

  lemma LastLineIsOlder(log: LogFiles, draft: Draft, limits: Limits)
    requires Settled(log, limits) && At(log.segments, 0) != []
    ensures At(log.segments, 0)[|At(log.segments, 0)| - 1] != Stored(NewRecord(log, draft, limits))
  {
    NewestIsLastLine(log.segments, FileCount(limits));
    MacIsNotItsOwnPrevious(NewRecord(log, draft, limits).mac);
  }

  lemma NextSegmentsEndWithNewLine(log: LogFiles, draft: Draft, limits: Limits)
    requires Settled(log, limits) && Admitted(log, draft, limits)
    ensures var target := NextSegments(log, draft, limits);
            0 in target && target[0] != [] && target[0][|target[0]| - 1] == Stored(NewRecord(log, draft, limits))
  {}

  /** The new line is not on the disk yet: no active file that lacks it is the announced one. */
  lemma ActiveFileTellsTheTarget(log: LogFiles, draft: Draft, limits: Limits, segments: Segments)
    requires Settled(log, limits) && Admitted(log, draft, limits)
    requires At(segments, 0) == [] || At(segments, 0) == At(log.segments, 0)
    ensures segments != NextSegments(log, draft, limits)
  {
    NextSegmentsEndWithNewLine(log, draft, limits);
    if At(log.segments, 0) != [] {
      LastLineIsOlder(log, draft, limits);
    }
  }

  lemma MovingVerdict(log: LogFiles, draft: Draft, limits: Limits, next: nat)
    requires Settled(log, limits) && StageReachable(log, draft, limits, Moving(next))
    ensures LogView(FilesAt(log, draft, limits, Moving(next)), limits) == Verdict(log, draft, limits, Moving(next))
  {
    var moved := RotatedDownTo(log.segments, next, limits);
    ActiveFileTellsTheTarget(log, draft, limits, moved);
    OnlyAnchoredFilesAreLegible(log, draft, limits, moved);
  }

  lemma OpeningChangesFiles(log: LogFiles, draft: Draft, limits: Limits)
    requires Settled(log, limits) && Admitted(log, draft, limits)
    ensures var files := FilesAt(log, draft, limits, Opened).segments;
            && (files == log.segments <==> !Rotates(log.segments, draft, limits) && 0 in log.segments)
            && (At(files, 0) == [] || At(files, 0) == At(log.segments, 0))
  {
    var files := FilesAt(log, draft, limits, Opened).segments;
    assert 0 in files;
    if Rotates(log.segments, draft, limits) {
      assert At(log.segments, 0) != [];
      assert files[0] == [];
    } else if 0 in log.segments {
      assert files == log.segments;
    }
  }

  lemma OpenedVerdict(log: LogFiles, draft: Draft, limits: Limits)
    requires Settled(log, limits) && StageReachable(log, draft, limits, Opened)
    ensures LogView(FilesAt(log, draft, limits, Opened), limits) == Verdict(log, draft, limits, Opened)
  {
    var files := FilesAt(log, draft, limits, Opened).segments;
    OpeningChangesFiles(log, draft, limits);
    ActiveFileTellsTheTarget(log, draft, limits, files);
    OnlyAnchoredFilesAreLegible(log, draft, limits, files);
  }

  lemma WrittenVerdict(log: LogFiles, draft: Draft, limits: Limits)
    requires Settled(log, limits) && StageReachable(log, draft, limits, Written)
    ensures LogView(FilesAt(log, draft, limits, Written), limits) == Verdict(log, draft, limits, Written)
    ensures LogView(FilesAt(log, draft, limits, Done), limits) == Verdict(log, draft, limits, Written)
  {
    var key := log.keyFile.state.key;
    var target := NextSegments(log, draft, limits);
    OnlyAnchoredFilesAreLegible(log, draft, limits, target);
    var dropped := AppendedIsReadable(log.segments, draft, key, limits);
    assert TerminalMac(Retained(target, key, limits)) == NewRecord(log, draft, limits).mac;
  }

  lemma AnnouncedVerdict(log: LogFiles, draft: Draft, limits: Limits)
    requires Settled(log, limits) && StageReachable(log, draft, limits, Announced)
    ensures LogView(FilesAt(log, draft, limits, Announced), limits) == Verdict(log, draft, limits, Announced)
  {
    OnlyAnchoredFilesAreLegible(log, draft, limits, log.segments);
  }

  lemma TornVerdict(log: LogFiles, draft: Draft, limits: Limits, bytes: nat)
    requires Settled(log, limits) && StageReachable(log, draft, limits, TornLine(bytes))
    ensures LogView(FilesAt(log, draft, limits, TornLine(bytes)), limits) == Illegible
  {
    TornFilesAreUnreadable(FilesAt(log, draft, limits, TornLine(bytes)).segments, log.keyFile.state.key, limits);
  }

  /** Append is crash-atomic: at every stage the next verification returns exactly the old records,
      exactly the retained old records with the new one, or refuses. It refuses precisely when
      segments had begun to move, when only an empty active file was created, or when the line was
      torn. */
  lemma CrashVerdict(log: LogFiles, draft: Draft, limits: Limits, stage: Stage)
    requires Settled(log, limits) && StageReachable(log, draft, limits, stage)
    ensures LogView(FilesAt(log, draft, limits, stage), limits) == Verdict(log, draft, limits, stage)
  {
    match stage {
      case Before =>
      case Announced => AnnouncedVerdict(log, draft, limits);
      case Moving(next) => MovingVerdict(log, draft, limits, next);
      case Opened => OpenedVerdict(log, draft, limits);
      case TornLine(bytes) => TornVerdict(log, draft, limits, bytes);
      case Written => WrittenVerdict(log, draft, limits);
      case Done => WrittenVerdict(log, draft, limits);
    }
  }

  /** The points at which an append must not be cut off. */
  ghost predicate IsDeadly(log: LogFiles, draft: Draft, limits: Limits, stage: Stage)
    requires Settled(log, limits)
  {
    match stage
    case Moving(next) => RotatedDownTo(log.segments, next, limits) != log.segments
    case Opened => Rotates(log.segments, draft, limits) || 0 !in log.segments
    case TornLine(_) => true
    case _ => false
  }

  /** A crash is survived if and only if it does not come once a file has moved or an active file has been
      created, and before the whole line is there. */
  lemma AppendSurvivesUnlessDeadly(log: LogFiles, draft: Draft, limits: Limits, stage: Stage)
    requires Settled(log, limits) && StageReachable(log, draft, limits, stage)
    ensures LogView(FilesAt(log, draft, limits, stage), limits).Legible? <==> !IsDeadly(log, draft, limits, stage)
  {
    CrashVerdict(log, draft, limits, stage);
  }

  /** Without rotation, and with the line written all at once, a crash is survived unless it leaves a
      freshly created active file empty. */
  lemma PlainAppendSurvivesCrashes(log: LogFiles, draft: Draft, limits: Limits, stage: Stage)
    requires Settled(log, limits) && StageReachable(log, draft, limits, stage)
    requires !Rotates(log.segments, draft, limits) && !stage.TornLine?
    ensures LogView(FilesAt(log, draft, limits, stage), limits).Legible? <==> (stage == Opened ==> 0 in log.segments)
  {
    CrashVerdict(log, draft, limits, stage);
  }

  /** With rotation, a crash is survived before the first file moves and after the line is complete,
      and at no other point. */
  lemma RotatingAppendFailsClosed(log: LogFiles, draft: Draft, limits: Limits, stage: Stage)
    requires Settled(log, limits) && StageReachable(log, draft, limits, stage)
    requires Rotates(log.segments, draft, limits)
    ensures LogView(FilesAt(log, draft, limits, stage), limits).Legible? <==>
            || FilesAt(log, draft, limits, stage).segments == log.segments
            || stage in {Written, Done}
  {
    CrashVerdict(log, draft, limits, stage);
    match stage {
      case Opened => OpeningChangesFiles(log, draft, limits);
      case TornLine(_) => TornFilesAreUnreadable(FilesAt(log, draft, limits, stage).segments, log.keyFile.state.key, limits);
      case _ =>
    }
  }

  // Two logs at which an append ends the log for good.

  const EMPTY_LOG := LogFiles(map[], StoredKey(KeyState("key", Snapshot([], ZeroMac), None)), [])
  const NOTE := Draft(Notice("note"), "id", Context(ApproveOperation, "operation", None, None, None), None, None, None, 100)
  const TWO_LINES := Limits(100, 100, 1, 200)  // one line in the active file, one in a rotated one

  lemma EmptyLogIsSettled(limits: Limits)
    requires ValidLimits(limits)
    ensures Settled(EMPTY_LOG, limits) && Retained(EMPTY_LOG.segments, "key", limits) == []
  {
    NoSegmentsNoLines(FileCount(limits));
    NoSegmentsNoAnchors("key", FileCount(limits));
  }

  lemma EmptyLogAdmits(limits: Limits)
    requires ValidLimits(limits) && Roomy(limits) && Fits(NOTE, limits)
    ensures Settled(EMPTY_LOG, limits) && Admitted(EMPTY_LOG, NOTE, limits)
    ensures !Rotates(EMPTY_LOG.segments, NOTE, limits)
  {
    EmptyLogIsSettled(limits);
    TotalNeverRefuses(EMPTY_LOG.segments, NewRecord(EMPTY_LOG, NOTE, limits), limits);
  }

  /** The first append to a log under the default limits, cut off between creating the active file and writing to
      it: it does not rotate and tears no line, and the log is lost. */
  lemma FirstAppendCanEndTheLog()
    ensures Settled(EMPTY_LOG, DEFAULT_LIMITS) && StageReachable(EMPTY_LOG, NOTE, DEFAULT_LIMITS, Opened)
    ensures !Rotates(EMPTY_LOG.segments, NOTE, DEFAULT_LIMITS)
    ensures LogView(FilesAt(EMPTY_LOG, NOTE, DEFAULT_LIMITS, Opened), DEFAULT_LIMITS) == Illegible
  {
    EmptyLogAdmits(DEFAULT_LIMITS);
    PlainAppendSurvivesCrashes(EMPTY_LOG, NOTE, DEFAULT_LIMITS, Opened);
  }

  /** The log that holds just this note. */
  ghost function NotedOnce(): LogFiles
    requires Settled(EMPTY_LOG, TWO_LINES)
  {
    FilesAt(EMPTY_LOG, NOTE, TWO_LINES, Done)
  }

  lemma NotedOnceIsFull()
    ensures Settled(EMPTY_LOG, TWO_LINES) && Settled(NotedOnce(), TWO_LINES)
    ensures 0 in NotedOnce().segments && Rotates(NotedOnce().segments, NOTE, TWO_LINES)
    ensures Admitted(NotedOnce(), NOTE, TWO_LINES)
  {
    EmptyLogAdmits(TWO_LINES);
    var _ := AppendedIsReadable(EMPTY_LOG.segments, NOTE, "key", TWO_LINES);
    var line := Stored(NewRecord(EMPTY_LOG, NOTE, TWO_LINES));
    assert NotedOnce().segments == map[0 := [line]] by {
      assert [] + [line] == [line];
    }
    assert SegmentBytes([line]) == 100 by {
      assert [line][..0] == [];
    }
    TotalNeverRefuses(NotedOnce().segments, NewRecord(NotedOnce(), NOTE, TWO_LINES), TWO_LINES);
  }

  lemma MovedActiveFileEndsTheLog(log: LogFiles, draft: Draft, limits: Limits)
    requires Settled(log, limits) && Admitted(log, draft, limits)
    requires Rotates(log.segments, draft, limits) && 0 in log.segments
    ensures StageReachable(log, draft, limits, Moving(0))
    ensures LogView(FilesAt(log, draft, limits, Moving(0)), limits) == Illegible
  {
    RotatingAppendFailsClosed(log, draft, limits, Moving(0));
    assert 0 !in FilesAt(log, draft, limits, Moving(0)).segments;
  }

  /** A second append to that log must rotate. Cut off when the active file has moved, it loses the log. */
  lemma HalfARotationEndsTheLog(log: LogFiles)
    requires Settled(EMPTY_LOG, TWO_LINES) && log == NotedOnce()
    ensures Settled(log, TWO_LINES) && StageReachable(log, NOTE, TWO_LINES, Moving(0))
    ensures LogView(FilesAt(log, NOTE, TWO_LINES, Moving(0)), TWO_LINES) == Illegible
  {
    NotedOnceIsFull();
    MovedActiveFileEndsTheLog(log, NOTE, TWO_LINES);
  }

  // ---------- rotation in place ----------

  function Renamed(segments: Segments, from: nat, to: nat): Segments
    requires from in segments
  {
    (segments - {from})[to := segments[from]]
  }

  lemma RenameMovesOneDown(segments: Segments, next: nat, limits: Limits)
    requires next < limits.maxRotated
    requires forall index :: index in segments ==> index <= limits.maxRotated
    ensures var moving := RotatedDownTo(segments, next + 1, limits);
            RotatedDownTo(segments, next, limits) ==
              if next in moving then Renamed(moving, next, next + 1) else moving
  {
    var moving := RotatedDownTo(segments, next + 1, limits);
    var moved := RotatedDownTo(segments, next, limits);
    forall i: nat
      ensures i in moved <==> if i == next then false else if i == next + 1 then next in moving else i in moving
    {
      assert FilledAfter(segments, next, i) || !FilledAfter(segments, next, i);
      assert FilledAfter(segments, next + 1, i) || !FilledAfter(segments, next + 1, i);
    }
  }

  lemma RotationMeetsProjection(segments: Segments, line: Line, limits: Limits)
    ensures RotatedDownTo(segments, 0, limits)[0 := [line]] == Project(segments, line, true, limits)
  {
    var rotated, projected := RotatedDownTo(segments, 0, limits), Project(segments, line, true, limits);
    forall i: nat
      ensures i != 0 ==> (i in rotated <==> i in projected)
    {
      assert FilledAfter(segments, 0, i) <==> HasPredecessor(segments, i);
    }
  }

  lemma DiscardOldest(segments: Segments, limits: Limits)
    requires forall index :: index in segments ==> index <= limits.maxRotated
    ensures segments - {limits.maxRotated} == RotatedDownTo(segments, limits.maxRotated, limits)
  {
    var discarded, rotated := segments - {limits.maxRotated}, RotatedDownTo(segments, limits.maxRotated, limits);
    forall i: nat
      ensures i in discarded <==> i in rotated
    {
      assert FilledAfter(segments, limits.maxRotated, i) || !FilledAfter(segments, limits.maxRotated, i);
    }
  }

  // ---------- what one call does to the disk ----------

  predicate IsSuffix<T(==)>(part: seq<T>, whole: seq<T>) {
    |part| <= |whole| && part == whole[|whole| - |part|..]
  }

  ghost predicate Extends(before: seq<Record>, after: seq<Record>, draft: Draft, key: Key) {
    && after != []
    && after[|after| - 1] == Sign(draft, TerminalMac(before), key)
    && IsSuffix(after[..|after| - 1], before)
  }

  predicate BoundedFiles(segments: Segments, limits: Limits) {
    forall index :: index in segments ==>
      index <= limits.maxRotated && SegmentBytes(segments[index]) <= limits.maxSegment
  }

  /** Trying to append `draft` leaves the log as it was, extended, or illegible for good. */
  ghost predicate LogStep(before: LogFiles, after: LogFiles, draft: Draft, limits: Limits) {
    && (after.history == before.history || LogGrew(before, after, draft, limits))
    && (before.keyFile.StoredKey? ==>
          after.keyFile.StoredKey? && after.keyFile.state.key == before.keyFile.state.key)
    && (BoundedFiles(before.segments, limits) ==> BoundedFiles(after.segments, limits))
    && match LogView(before, limits)
       case Illegible => LogView(after, limits) == Illegible
       case Legible(records) =>
         match LogView(after, limits)
         case Illegible => true
         case Legible(records') =>
           || (records' == records && after.history == before.history)
           || LogGrew(before, after, draft, limits)
  }

  /** The log is legible and ends with the record of `draft`. */
  ghost predicate LogGrew(before: LogFiles, after: LogFiles, draft: Draft, limits: Limits) {
    && LogView(before, limits).Legible? && LogView(after, limits).Legible?
    && after.keyFile.StoredKey?
    && var records, records' := LogView(before, limits).records, LogView(after, limits).records;
    && Extends(records, records', draft, after.keyFile.state.key)
    && after.history == before.history + [records'[|records'| - 1]]
  }

  /** At most the line of `draft` was written. */
  ghost predicate WroteAtMost(before: LogFiles, after: LogFiles, draft: Draft) {
    || after.history == before.history
    || (after.history != [] && after.history[..|after.history| - 1] == before.history
        && after.history[|after.history| - 1].draft == draft)
  }

  lemma StepWritesAtMost(before: LogFiles, after: LogFiles, draft: Draft, limits: Limits)
    requires LogStep(before, after, draft, limits)
    ensures WroteAtMost(before, after, draft)
    ensures before.history <= after.history
  {}

  lemma RotationStaysBounded(segments: Segments, next: nat, limits: Limits)
    requires BoundedFiles(segments, limits)
    ensures BoundedFiles(RotatedDownTo(segments, next, limits), limits)
  {
    var rotated := RotatedDownTo(segments, next, limits);
    forall index | index in rotated
      ensures index <= limits.maxRotated && SegmentBytes(rotated[index]) <= limits.maxSegment
    {
      assert FilledAfter(segments, next, index);
    }
  }

  lemma LineFitsActiveFile(segments: Segments, line: Line, limits: Limits)
    requires BoundedFiles(segments, limits)
    requires SegmentBytes(At(segments, 0)) + LineBytes(line) <= limits.maxSegment
    ensures BoundedFiles(segments[0 := At(segments, 0) + [line]], limits)
  {
    assert (At(segments, 0) + [line])[..|At(segments, 0)|] == At(segments, 0);
  }

  lemma TornLineStaysBounded(log: LogFiles, draft: Draft, limits: Limits, bytes: nat)
    requires Settled(log, limits) && Admitted(log, draft, limits) && 0 < bytes < draft.bytes
    ensures BoundedFiles(FilesAt(log, draft, limits, TornLine(bytes)).segments, limits)
  {
    RotationStaysBounded(log.segments, 0, limits);
    if Rotates(log.segments, draft, limits) {
      LineFitsActiveFile(RotatedDownTo(log.segments, 0, limits), Foreign(bytes), limits);
    } else {
      LineFitsActiveFile(log.segments, Foreign(bytes), limits);
    }
  }

  lemma OpenedFileStaysBounded(segments: Segments, limits: Limits)
    requires BoundedFiles(segments, limits)
    ensures BoundedFiles(segments[0 := At(segments, 0)], limits)
  {}

  /** At every stage, a torn line included, each file keeps within the segment limit. */
  lemma StagesStayBounded(log: LogFiles, draft: Draft, limits: Limits, stage: Stage)
    requires Settled(log, limits) && StageReachable(log, draft, limits, stage)
    ensures BoundedFiles(FilesAt(log, draft, limits, stage).segments, limits)
  {
    match stage {
      case Before =>
      case Announced =>
      case Moving(next) => RotationStaysBounded(log.segments, next, limits);
      case Opened =>
        RotationStaysBounded(log.segments, 0, limits);
        OpenedFileStaysBounded(RotatedDownTo(log.segments, 0, limits), limits);
        OpenedFileStaysBounded(log.segments, limits);
      case TornLine(bytes) => TornLineStaysBounded(log, draft, limits, bytes);
      case Written => var _ := AppendedIsReadable(log.segments, draft, log.keyFile.state.key, limits);
      case Done => var _ := AppendedIsReadable(log.segments, draft, log.keyFile.state.key, limits);
    }
  }

  lemma SuffixThenOneExtends(records: seq<Record>, dropped: nat, draft: Draft, key: Key)
    requires dropped <= |records|
    ensures var record := Sign(draft, TerminalMac(records), key);
            Extends(records, records[dropped..] + [record], draft, key)
  {
    var kept := records[dropped..];
    var grown := kept + [Sign(draft, TerminalMac(records), key)];
    assert grown[..|grown| - 1] == kept;
  }

  lemma VerdictExtends(log: LogFiles, draft: Draft, limits: Limits)
    requires Settled(log, limits) && StageReachable(log, draft, limits, Written)
    ensures var view := Verdict(log, draft, limits, Written);
            && Extends(Retained(log.segments, log.keyFile.state.key, limits), view.records, draft, log.keyFile.state.key)
            && view.records[|view.records| - 1] == NewRecord(log, draft, limits)
  {
    var records := Retained(log.segments, log.keyFile.state.key, limits);
    var dropped := AppendedIsReadable(log.segments, draft, log.keyFile.state.key, limits);
    SuffixThenOneExtends(records, dropped, draft, log.keyFile.state.key);
  }

  lemma SettlingKeepsView(before: LogFiles, limits: Limits)
    requires before.keyFile.StoredKey? && LogView(before, limits).Legible?
    ensures Settled(SettledFiles(before, limits), limits)
    ensures LogView(before, limits) == Legible(Retained(before.segments, before.keyFile.state.key, limits))
  {}

  lemma CompletedAppendGrowsLog(before: LogFiles, after: LogFiles, draft: Draft, limits: Limits, stage: Stage)
    requires before.keyFile.StoredKey? && LogView(before, limits).Legible?
    requires var start := SettledFiles(before, limits);
             StageReachable(start, draft, limits, stage) && after == FilesAt(start, draft, limits, stage)
    requires stage == Written || stage == Done
    ensures LogGrew(before, after, draft, limits)
  {
    var start := SettledFiles(before, limits);
    SettlingKeepsView(before, limits);
    CrashVerdict(start, draft, limits, stage);
    VerdictExtends(start, draft, limits);
  }

  lemma InterruptedAppendIsLogStep(before: LogFiles, after: LogFiles, draft: Draft, limits: Limits, stage: Stage)
    requires before.keyFile.StoredKey? && LogView(before, limits).Legible?
    requires var start := SettledFiles(before, limits);
             StageReachable(start, draft, limits, stage) && after == FilesAt(start, draft, limits, stage)
    requires stage != Written && stage != Done
    ensures LogStep(before, after, draft, limits)
  {
    var start := SettledFiles(before, limits);
    SettlingKeepsView(before, limits);
    StagesStayBounded(start, draft, limits, stage);
    CrashVerdict(start, draft, limits, stage);
    assert after.history == before.history;
  }

  lemma AppendEffectIsLogStep(before: LogFiles, after: LogFiles, draft: Draft, limits: Limits, stage: Stage)
    requires before.keyFile.StoredKey? && LogView(before, limits).Legible?
    requires AppendEffect(before, after, draft, limits, stage)
    ensures LogStep(before, after, draft, limits)
    ensures stage == Written || stage == Done ==> LogGrew(before, after, draft, limits)
  {
    if stage == Written || stage == Done {
      StagesStayBounded(SettledFiles(before, limits), draft, limits, stage);
      CompletedAppendGrowsLog(before, after, draft, limits, stage);
    } else if after != before {
      InterruptedAppendIsLogStep(before, after, draft, limits, stage);
    }
  }

  // ---------- how far one attempt to append gets ----------

  /** The log once its key exists. */
  function Started(log: LogFiles, key: Key): LogFiles {
    if log.keyFile == NoKeyFile && log.segments == map[]
    then log.(keyFile := StoredKey(KeyState(key, Snapshot([], ZeroMac), None)))
    else log
  }

  /** One attempt creates the key if there is none, verifies the chain and appends. */
  datatype Reach =
    | Untouched
    | KeyTorn
    | KeyCreated(key: Key)
    | Stopped(key: Key, stage: Stage)

  ghost predicate Reaches(before: LogFiles, after: LogFiles, draft: Draft, limits: Limits, reach: Reach) {
    match reach
    case Untouched => after == before
    case KeyTorn => before.keyFile == NoKeyFile && before.segments == map[] && after == before.(keyFile := TornKeyFile)
    case KeyCreated(key) => after == Started(before, key)
    case Stopped(key, stage) =>
      var begun := Started(before, key);
      && begun.keyFile.StoredKey? && LogView(begun, limits).Legible?
      && AppendEffect(begun, after, draft, limits, stage)
  }

  /** The attempt was cut off where it must not be. */
  ghost predicate EndsTheLog(before: LogFiles, draft: Draft, limits: Limits, reach: Reach) {
    match reach
    case KeyTorn => true
    case Stopped(key, stage) =>
      var begun := Started(before, key);
      && begun.keyFile.StoredKey? && LogView(begun, limits).Legible?
      && IsDeadly(SettledFiles(begun, limits), draft, limits, stage)
    case _ => false
  }

  lemma StartingKeepsView(log: LogFiles, key: Key, limits: Limits)
    ensures LogView(Started(log, key), limits) == LogView(log, limits)
  {
    NoSegmentsNoLines(FileCount(limits));
    NoSegmentsNoAnchors(key, FileCount(limits));
  }

  /** Whether the log survives an attempt depends on where it was cut off, and on nothing else. */
  lemma LogSurvivesUnlessEnded(before: LogFiles, after: LogFiles, draft: Draft, limits: Limits, reach: Reach)
    requires ValidLimits(limits) && Reaches(before, after, draft, limits, reach)
    ensures LogView(after, limits).Legible? <==>
              LogView(before, limits).Legible? && !EndsTheLog(before, draft, limits, reach)
  {
    match reach {
      case Untouched =>
      case KeyTorn =>
      case KeyCreated(key) => StartingKeepsView(before, key, limits);
      case Stopped(key, stage) =>
        StartingKeepsView(before, key, limits);
        var start := SettledFiles(Started(before, key), limits);
        SettlingKeepsView(Started(before, key), limits);
        AppendSurvivesUnlessDeadly(start, draft, limits, stage);
    }
  }

  /** Any attempt is a step of the log. */
  lemma ReachIsLogStep(before: LogFiles, after: LogFiles, draft: Draft, limits: Limits, reach: Reach)
    requires Reaches(before, after, draft, limits, reach)
    ensures LogStep(before, after, draft, limits)
  {
    match reach {
      case Untouched =>
      case KeyTorn =>
      case KeyCreated(key) => StartingKeepsView(before, key, limits);
      case Stopped(key, stage) =>
        StartingKeepsView(before, key, limits);
        AppendEffectIsLogStep(Started(before, key), after, draft, limits, stage);
    }
  }

  lemma StoppedKeepsKey(before: LogFiles, after: LogFiles, draft: Draft, limits: Limits, reach: Reach)
    requires Reaches(before, after, draft, limits, reach) && reach.Stopped?
    ensures KeyOf(after) == KeyOf(Started(before, reach.key))
  {}

  lemma OtherReachesHoldForAnyDraft(
    before: LogFiles, after: LogFiles, draft: Draft, other: Draft, limits: Limits, reach: Reach)
    requires Reaches(before, after, draft, limits, reach) && !reach.Stopped?
    ensures Reaches(before, after, other, limits, reach) && after.history == before.history
  {}

  /** The key a prepare record was digested under is the key that the log has afterwards. */
  lemma PrepareReaches(
    before: LogFiles, after: LogFiles, context: Context, eventId: Id, store: StoreFile, next: StoreFile, bytes: nat,
    limits: Limits, reach: Reach, key: Key)
    requires reach.Stopped? ==> reach.key == key
    requires var drafted := PrepareDraft(context, eventId, KeyOf(Started(before, key)), store, next, bytes);
             Reaches(before, after, drafted, limits, reach)
    ensures var draft := PrepareDraft(context, eventId, KeyOf(after), store, next, bytes);
            && Reaches(before, after, draft, limits, reach)
            && LogStep(before, after, draft, limits)
    ensures after.history != before.history ==> KeyOf(after) == KeyOf(Started(before, key))
  {
    var drafted := PrepareDraft(context, eventId, KeyOf(Started(before, key)), store, next, bytes);
    var draft := PrepareDraft(context, eventId, KeyOf(after), store, next, bytes);
    if reach.Stopped? {
      StoppedKeepsKey(before, after, drafted, limits, reach);
    } else {
      OtherReachesHoldForAnyDraft(before, after, drafted, draft, limits, reach);
    }
    ReachIsLogStep(before, after, draft, limits, reach);
  }

  // ---------- open mutations ----------

  predicate Completes(record: Record, id: Id) {
    && record.draft.event in {MutationCommitted, RecoveryCommitted, RecoveryAborted}
    && record.draft.preparedId == Some(id)
  }

  predicate IsCompleted(records: seq<Record>, id: Id) {
    exists record | record in records :: Completes(record, id)
  }

  function UnmatchedAmong(records: seq<Record>, all: seq<Record>): seq<Record> {
    if records == [] then []
    else
      var last := records[|records| - 1];
      UnmatchedAmong(records[..|records| - 1], all)
      + if last.draft.event == MutationPrepared && !IsCompleted(all, last.draft.eventId) then [last] else []
  }

  /** `_unmatched_prepares`. */
  function Unmatched(records: seq<Record>): seq<Record> {
    UnmatchedAmong(records, records)
  }

  /** What `verify_and_recover` decides from the records and the store. */
  datatype RecoveryPlan = NothingToDo | CompleteWith(prepare: Record, event: Event) | CannotDecide

  function PlanRecovery(records: seq<Record>, store: StoreFile, key: Key): RecoveryPlan {
    var unmatched := Unmatched(records);
    if unmatched == [] then NothingToDo
    else if |unmatched| != 1 || records == [] || records[|records| - 1].draft.eventId != unmatched[0].draft.eventId
    then CannotDecide
    else
      var prepare := unmatched[0];
      var current := Some(StateDigest(key, store));
      if prepare.draft.before == prepare.draft.after then CannotDecide
      else if current == prepare.draft.after then CompleteWith(prepare, RecoveryCommitted)
      else if current == prepare.draft.before then CompleteWith(prepare, RecoveryAborted)
      else CannotDecide
  }

  function RecoveryDraft(prepare: Record, event: Event, eventId: Id, bytes: nat): Draft {
    Draft(event, eventId, prepare.draft.context, prepare.draft.before, prepare.draft.after,
          Some(prepare.draft.eventId), bytes)
  }

  function KeyOf(log: LogFiles): Key {
    if log.keyFile.StoredKey? then log.keyFile.state.key else ""
  }

  /** No line was written; at most the key file was created or a pending anchor settled. */
  ghost predicate LogKept(before: LogFiles, after: LogFiles, limits: Limits) {
    && (before.keyFile.StoredKey? ==>
          after.keyFile.StoredKey? && after.keyFile.state.key == before.keyFile.state.key)
    && after.segments == before.segments
    && after.history == before.history
    && (LogView(after, limits) == LogView(before, limits) || LogView(after, limits) == Illegible)
  }

  ghost predicate RecordEffect(before: Disk, after: Disk, draft: Draft, limits: Limits) {
    && after.marker == before.marker && after.store == before.store
    && (if before.marker then after == before else LogStep(before.log, after.log, draft, limits))
  }

  ghost predicate AppendUnderMarker(before: Disk, after: Disk, draft: Draft, limits: Limits) {
    && after.marker == before.marker && after.store == before.store
    && LogStep(before.log, after.log, draft, limits)
  }

  ghost predicate RecoverEffect(before: Disk, after: Disk, eventId: Id, bytes: nat, limits: Limits) {
    && after.store == before.store
    && match LogView(before.log, limits)
       case Illegible => LogKept(before.log, after.log, limits) && after.marker == before.marker
       case Legible(records) =>
         match PlanRecovery(records, before.store, KeyOf(before.log))
         case CannotDecide => LogKept(before.log, after.log, limits) && after.marker == before.marker
         case NothingToDo =>
           && LogKept(before.log, after.log, limits)
           && (after.marker == before.marker
               || (!after.marker && LogView(after.log, limits) == LogView(before.log, limits)))
         case CompleteWith(prepare, event) =>
           var draft := RecoveryDraft(prepare, event, eventId, bytes);
           && LogStep(before.log, after.log, draft, limits)
           && (after.marker == before.marker
               || (!after.marker && LogGrew(before.log, after.log, draft, limits)))
  }

  /** An append of this draft can go through: it is admitted, and no stale reserve file is in its way. */
  ghost predicate Appendable(disk: Disk, draft: Draft, limits: Limits)
    requires LogView(disk.log, limits).Legible? && disk.log.keyFile.StoredKey?
  {
    var start := SettledFiles(disk.log, limits);
    && Admitted(start, draft, limits)
    && !(Rotates(start.segments, draft, limits) && disk.reserve)
  }

  /** The same for a log whose key may not exist yet. */
  ghost predicate CanAppend(disk: Disk, draft: Draft, key: Key, limits: Limits) {
    var begun := disk.(log := Started(disk.log, key));
    begun.log.keyFile.StoredKey? && LogView(begun.log, limits).Legible? && Appendable(begun, draft, limits)
  }

  /** With room for all segments, only the length of its line stands in the way of an append to a legible log, and a
      stale reserve file in the way of one that rotates. */
  lemma RoomyLogsTakeRecords(disk: Disk, draft: Draft, key: Key, limits: Limits)
    requires LogView(disk.log, limits).Legible? && Roomy(limits) && Fits(draft, limits)
    requires !(disk.reserve && Rotates(disk.log.segments, draft, limits))
    ensures CanAppend(disk, draft, key, limits)
  {
    StartingKeepsView(disk.log, key, limits);
    var begun := Started(disk.log, key);
    SettlingKeepsView(begun, limits);
    var start := SettledFiles(begun, limits);
    TotalNeverRefuses(start.segments, NewRecord(start, draft, limits), limits);
  }

  datatype PreparedMutation = PreparedMutation(
    eventId: Id, operation: Operation, entryId: Option<Id>, before: StateDigest, after: StateDigest, mac: Mac)

  function PrepareDraft(context: Context, eventId: Id, key: Key, before: StoreFile, after: StoreFile, bytes: nat): Draft {
    Draft(MutationPrepared, eventId, context, Some(StateDigest(key, before)), Some(StateDigest(key, after)), None, bytes)
  }

  function CommitDraft(prepared: PreparedMutation, context: Context, eventId: Id, bytes: nat): Draft {
    Draft(MutationCommitted, eventId, context, Some(prepared.before), Some(prepared.after),
          Some(prepared.eventId), bytes)
  }

  /** `_require_unmatched_tail`. */
  predicate UnmatchedTail(records: seq<Record>, id: Id) {
    && |Unmatched(records)| == 1 && records != []
    && Unmatched(records)[0].draft.eventId == id
    && records[|records| - 1].draft.eventId == id
  }

  /** `_require_complete_prepare_binding`. */
  predicate BoundTo(actual: Record, prepared: PreparedMutation, context: Context) {
    && actual.draft.context == context
    && actual.draft.eventId == prepared.eventId
    && actual.mac == prepared.mac
    && actual.draft.context.operation == prepared.operation
    && actual.draft.context.entryId == prepared.entryId
    && actual.draft.before == Some(prepared.before)
    && actual.draft.after == Some(prepared.after)
  }

  ghost predicate CommitEffect(
    before: Disk, after: Disk, prepared: PreparedMutation, context: Context, eventId: Id, bytes: nat, limits: Limits)
  {
    && after.marker == before.marker && after.store == before.store
    && (|| LogKept(before.log, after.log, limits)
        || (&& LogView(before.log, limits).Legible?
            && UnmatchedTail(LogView(before.log, limits).records, prepared.eventId)
            && BoundTo(Unmatched(LogView(before.log, limits).records)[0], prepared, context)
            && LogStep(before.log, after.log, CommitDraft(prepared, context, eventId, bytes), limits)))
  }

  datatype RecoveryStatus = Clean | Recovered(event: Event, eventId: Id, preparedId: Id)

  /** What recovery decides from the disk; nothing while the log cannot be read. */
  ghost function RecoveryPlanOf(disk: Disk, limits: Limits): RecoveryPlan {
    match LogView(disk.log, limits)
    case Illegible => CannotDecide
    case Legible(records) => PlanRecovery(records, disk.store, KeyOf(disk.log))
  }

  /** How far recovery got with the one record that its plan calls for. */
  ghost predicate RecoveryReaches(
    before: LogFiles, after: LogFiles, plan: RecoveryPlan, eventId: Id, bytes: nat, limits: Limits, reach: Reach)
  {
    match plan
    case CompleteWith(prepare, event) =>
      Reaches(before, after, RecoveryDraft(prepare, event, eventId, bytes), limits, reach)
    case _ =>
      && (reach.Stopped? ==> reach.stage == Before)
      && forall draft :: Reaches(before, after, draft, limits, reach)
  }

  /** Nothing but a fault can keep this recovery from finishing. */
  ghost predicate Recoverable(disk: Disk, eventId: Id, bytes: nat, key: Key, limits: Limits) {
    match RecoveryPlanOf(disk, limits)
    case NothingToDo => true
    case CannotDecide => false
    case CompleteWith(prepare, event) => CanAppend(disk, RecoveryDraft(prepare, event, eventId, bytes), key, limits)
  }

  lemma OnlyRecordsCanBeUnmatched(records: seq<Record>)
    ensures records == [] ==> Unmatched(records) == []
  {}
}
