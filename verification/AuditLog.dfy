/** `TrustMutationAuditLog`: verification, the in-place append with its two-phase anchor, and the
    mutation transaction around it. */
module AuditLog {
  import opened Results
  import opened TrustStore
  import opened AuditChain
  import opened AuditFiles

  /** The inner loop of `_verify_chain_unlocked`: one segment, after the lines of the older ones. */
  method ReadSegment(data: Segment, earlier: seq<Record>, ghost front: seq<Line>, key: Key, maxRecord: nat)
    returns (r: Result<seq<Record>, AuditError>)
    requires Chained(front, key, maxRecord) && earlier == RecordsOf(front)
    ensures r.Ok? <==> Chained(front + data, key, maxRecord)
    ensures r.Ok? ==> r.value == RecordsOf(front + data)
  {
    var records := earlier;
    assert front + data[..0] == front;
    for i := 0 to |data|
      invariant Chained(front + data[..i], key, maxRecord) && records == RecordsOf(front + data[..i])
    {
      NextLineDecides(front, data, i, key, maxRecord);
      if !Links(records, data[i], key, maxRecord) {
        return Err(ChainCorrupt);
      }
      records := records + [data[i].record];
    }
    assert data[..|data|] == data;
    return Ok(records);
  }

  /** The lines of the segments from `index` upward, oldest first. */
  function Older(segments: Segments, index: nat, count: nat): seq<Line>
    decreases count - index
  {
    if index >= count then [] else Older(segments, index + 1, count) + At(segments, index)
  }

  lemma {:induction false} OlderThenNewer(segments: Segments, index: nat, count: nat)
    requires index <= count
    ensures Lines(segments, count) == Older(segments, index, count) + Lines(segments, index)
    decreases count - index
  {
    if index < count {
      OlderThenNewer(segments, index + 1, count);
      assert Lines(segments, index + 1) == At(segments, index) + Lines(segments, index);
    }
  }

  lemma OlderIsChained(segments: Segments, index: nat, count: nat, key: Key, maxRecord: nat)
    requires index <= count
    ensures Chained(Lines(segments, count), key, maxRecord) ==> Chained(Older(segments, index, count), key, maxRecord)
    ensures index == 0 ==> Older(segments, index, count) == Lines(segments, count)
  {
    OlderThenNewer(segments, index, count);
    if Chained(Lines(segments, count), key, maxRecord) {
      PrefixIsChained(Older(segments, index, count), Lines(segments, index), key, maxRecord);
    }
  }

  /** One file, which may be absent, after the older ones. */
  method ReadFile(segments: Segments, index: nat, earlier: seq<Record>, key: Key, limits: Limits)
    returns (r: Result<seq<Record>, AuditError>)
    requires index < FileCount(limits)
    requires Chained(Older(segments, index + 1, FileCount(limits)), key, limits.maxRecord)
    requires earlier == RecordsOf(Older(segments, index + 1, FileCount(limits)))
    ensures r.Ok? <==>
            && SegmentBytes(At(segments, index)) <= limits.maxSegment
            && Chained(Older(segments, index, FileCount(limits)), key, limits.maxRecord)
    ensures r.Ok? ==> r.value == RecordsOf(Older(segments, index, FileCount(limits)))
  {
    ghost var front := Older(segments, index + 1, FileCount(limits));
    if index !in segments {
      assert front + [] == front;
      return Ok(earlier);
    }
    if SegmentBytes(segments[index]) > limits.maxSegment {
      return Err(ChainCorrupt);
    }
    r := ReadSegment(segments[index], earlier, front, key, limits.maxRecord);
  }

  /** The outer loop of `_verify_chain_unlocked`: the segments from the oldest to the active one. */
  method ReadSegments(segments: Segments, key: Key, limits: Limits) returns (r: Result<seq<Record>, AuditError>)
    requires forall index :: index in segments ==> index <= limits.maxRotated
    ensures r.Ok? <==>
            && (forall index :: index in segments ==> SegmentBytes(segments[index]) <= limits.maxSegment)
            && Chained(Lines(segments, FileCount(limits)), key, limits.maxRecord)
    ensures r.Ok? ==> r.value == RecordsOf(Lines(segments, FileCount(limits)))
  {
    var records: seq<Record> := [];
    var next := FileCount(limits);
    while next > 0
      invariant 0 <= next <= FileCount(limits)
      invariant Chained(Older(segments, next, FileCount(limits)), key, limits.maxRecord)
      invariant records == RecordsOf(Older(segments, next, FileCount(limits)))
      invariant forall index :: index in segments && index >= next ==> SegmentBytes(segments[index]) <= limits.maxSegment
    {
      next := next - 1;
      OlderIsChained(segments, next, FileCount(limits), key, limits.maxRecord);
      var file := ReadFile(segments, next, records, key, limits);
      if file.Err? {
        return file;
      }
      records := file.value;
    }
    OlderIsChained(segments, 0, FileCount(limits), key, limits.maxRecord);
    return Ok(records);
  }

  /** The read part of `_verify_chain_unlocked`. */
  method ReadChain(segments: Segments, key: Key, limits: Limits) returns (r: Result<seq<Record>, AuditError>)
    ensures r.Ok? <==> Readable(segments, key, limits)
    ensures r.Ok? ==> r.value == Retained(segments, key, limits)
  {
    if !ValidLimits(limits) {
      return Err(AuditFailed);
    }
    if exists name | name in segments.Keys :: name > limits.maxRotated {
      return Err(ChainCorrupt);
    }
    if TotalBytes(segments, FileCount(limits)) > limits.maxTotal {
      return Err(ChainCorrupt);
    }
    r := ReadSegments(segments, key, limits);
  }

  /** `_MutationReservation`. */
  datatype Reservation = Reservation(prepareAttempted: bool, prepared: Option<Id>, completed: bool)

  class TrustMutationAuditLog {
    const limits: Limits
    const freshKey: Key  // what `key_factory` returns when there is no key file
    var disk: Disk
    var reservation: Option<Reservation>  // the transaction that holds the reservation lock
    ghost var faulted: bool  // some file operation failed

    constructor (limits: Limits, freshKey: Key, disk: Disk)
      ensures this.limits == limits && this.freshKey == freshKey && this.disk == disk
      ensures reservation == None && !faulted
    {
      this.limits, this.freshKey, this.disk := limits, freshKey, disk;
      reservation, faulted := None, false;
    }

    /** One file operation. It may fail before its effect or after it. */
    method Perform(next: Disk) returns (ok: bool)
      modifies this`disk, this`faulted
      ensures disk == old(disk) || disk == next
      ensures ok ==> disk == next
      ensures faulted == (old(faulted) || !ok)
    {
      if * {
        faulted := true;
        return false;
      }
      disk := next;
      if * {
        faulted := true;
        return false;
      }
      return true;
    }

    method PerformOnSegments(segments: Segments) returns (ok: bool)
      modifies this`disk, this`faulted
      ensures disk == old(disk) || disk == old(disk).(log := old(disk.log).(segments := segments))
      ensures ok ==> disk.log.segments == segments
      ensures faulted == (old(faulted) || !ok)
    {
      ok := Perform(disk.(log := disk.log.(segments := segments)));
    }

    method WriteKeyState(state: KeyState) returns (ok: bool)
      modifies this`disk, this`faulted
      ensures disk == old(disk) || disk == old(disk).(log := old(disk.log).(keyFile := StoredKey(state)))
      ensures ok ==> disk.log.keyFile == StoredKey(state)
      ensures faulted == (old(faulted) || !ok)
    {
      ok := Perform(disk.(log := disk.log.(keyFile := StoredKey(state))));
    }

    ghost predicate MovedDownTo(start: LogFiles, next: nat)
      reads this`disk
    {
      disk.log == start.(segments := RotatedDownTo(start.segments, next, limits))
    }

    /** `_discard_oldest_unlocked`, when there is something to discard. */
    method DiscardOldestSegment() returns (ok: bool)
      requires forall index :: index in disk.log.segments ==> index <= limits.maxRotated
      modifies this`disk, this`faulted
      ensures disk == old(disk).(log := disk.log)
      ensures disk.log == old(disk.log) || MovedDownTo(old(disk.log), limits.maxRotated)
      ensures ok ==> MovedDownTo(old(disk.log), limits.maxRotated)
      ensures faulted == (old(faulted) || !ok)
    {
      ghost var start := disk.log.segments;
      DiscardOldest(start, limits);
      if limits.maxRotated in disk.log.segments {
        ok := PerformOnSegments(disk.log.segments - {limits.maxRotated});
      } else {
        assert start - {limits.maxRotated} == start;
        ok := true;
      }
    }

    /** One turn of the rename loop. */
    method MoveSegment(ghost start: LogFiles, next: nat) returns (ok: bool)
      requires next < limits.maxRotated && MovedDownTo(start, next + 1)
      requires forall index :: index in start.segments ==> index <= limits.maxRotated
      modifies this`disk, this`faulted
      ensures disk == old(disk).(log := disk.log)
      ensures MovedDownTo(start, next + 1) || MovedDownTo(start, next)
      ensures ok ==> MovedDownTo(start, next)
      ensures faulted == (old(faulted) || !ok)
    {
      RenameMovesOneDown(start.segments, next, limits);
      if next in disk.log.segments {
        ok := PerformOnSegments(Renamed(disk.log.segments, next, next + 1));
      } else {
        ok := true;
      }
    }

    /** `next > limits.maxRotated` says that nothing has moved yet. */
    ghost predicate RotationAt(start: LogFiles, next: nat)
      reads this`disk
    {
      if next > limits.maxRotated then disk.log == start else MovedDownTo(start, next)
    }

    /** `_rotate_unlocked`: the rename loop, from the oldest segment to the active file. */
    method Rotate() returns (ok: bool, ghost moved: nat)
      requires forall index :: index in disk.log.segments ==> index <= limits.maxRotated
      modifies this`disk, this`faulted
      ensures disk == old(disk).(log := disk.log)
      ensures RotationAt(old(disk.log), moved)
      ensures ok ==> moved == 0
      ensures faulted == (old(faulted) || !ok)
    {
      ghost var start := disk.log;
      ok := DiscardOldestSegment();
      moved := if disk.log == start && !ok then FileCount(limits) else limits.maxRotated;
      var next := limits.maxRotated;
      while ok && next > 0
        invariant 0 <= next <= limits.maxRotated
        invariant disk == old(disk).(log := disk.log)
        invariant RotationAt(start, moved) && (ok ==> moved == next)
        invariant faulted == (old(faulted) || !ok)
        decreases next
      {
        next := next - 1;
        ok := MoveSegment(start, next);
        moved := if MovedDownTo(start, next) then next else next + 1;
      }
    }

    /** `_load_or_create_key`. */
    method LoadOrCreateKey() returns (r: Result<Key, AuditError>, ghost reach: Reach)
      modifies this`disk, this`faulted
      ensures disk == old(disk).(log := old(disk.log).(keyFile := disk.log.keyFile))
      ensures LogKept(old(disk.log), disk.log, limits)
      ensures reach in {Untouched, KeyTorn, KeyCreated(freshKey)}
      ensures forall draft :: Reaches(old(disk.log), disk.log, draft, limits, reach)
      ensures old(disk.log.keyFile) != NoKeyFile ==> disk == old(disk)
      ensures r.Ok? ==> disk.log == Started(old(disk.log), freshKey)
      ensures r.Ok? ==> disk.log.keyFile.StoredKey? && r.value == disk.log.keyFile.state.key
      ensures r.Ok? ==> faulted == old(faulted)
      ensures old(faulted) ==> faulted
      ensures r.Err? && !faulted ==> !Started(old(disk.log), freshKey).keyFile.StoredKey?
    {
      StartingKeepsView(disk.log, freshKey, limits);
      match disk.log.keyFile
      case StoredKey(state) => return Ok(state.key), Untouched;
      case TornKeyFile => return Err(AuditFailed), Untouched;
      case NoKeyFile =>
        if disk.log.segments != map[] {
          return Err(AuditFailed), Untouched;
        }
        if * {
          faulted := true;
          disk := disk.(log := disk.log.(keyFile := TornKeyFile));
          return Err(AuditFailed), KeyTorn;
        }
        ghost var before := disk.log;
        var ok := WriteKeyState(KeyState(freshKey, Snapshot([], ZeroMac), None));
        reach := if disk.log == before then Untouched else KeyCreated(freshKey);
        return if ok then Ok(freshKey) else Err(AuditFailed), reach;
    }

    /** `_verify_chain_unlocked`: read the chain, compare the anchor, settle a pending one. */
    method VerifyChain() returns (r: Result<seq<Record>, AuditError>)
      requires disk.log.keyFile.StoredKey?
      modifies this`disk, this`faulted
      ensures disk == old(disk)
           || (LogView(old(disk.log), limits).Legible? && disk == old(disk).(log := SettledFiles(old(disk.log), limits)))
      ensures LogView(disk.log, limits) == LogView(old(disk.log), limits)
      ensures r.Ok? ==> LogView(old(disk.log), limits) == Legible(r.value) && Settled(disk.log, limits)
      ensures r.Ok? ==> faulted == old(faulted)
      ensures old(faulted) ==> faulted
      ensures r.Err? && !faulted ==> LogView(disk.log, limits) == Illegible
    {
      var state := disk.log.keyFile.state;
      r := ReadChain(disk.log.segments, state.key, limits);
      if r.Err? {
        return;
      }
      var observed := AnchorSnapshot(disk.log.segments, TerminalMac(r.value), state.key, limits);
      if state.pending == None {
        return if observed == state.committed then r else Err(ChainCorrupt);
      }
      if observed != state.pending.value && observed != state.committed {
        return Err(ChainCorrupt);
      }
      var ok := WriteKeyState(KeyState(state.key, observed, None));
      return if ok then r else Err(AuditFailed);
    }

    /** The append-mode open and the write of one line. A failure may leave any proper prefix. */
    method WriteLine(record: Record) returns (ok: bool, ghost at: Stage)
      modifies this`disk, this`faulted
      ensures at in {Announced, Opened, Written} || (at.TornLine? && 0 < at.bytes < record.draft.bytes)
      ensures var log := old(disk.log);
              var active := At(log.segments, 0);
              disk == old(disk).(log :=
                if at == Announced then log
                else if at == Opened then log.(segments := log.segments[0 := active])
                else if at == Written then
                  log.(segments := log.segments[0 := active + [Stored(record)]], history := log.history + [record])
                else log.(segments := log.segments[0 := active + [Foreign(at.bytes)]]))
      ensures ok ==> at == Written
      ensures faulted == (old(faulted) || !ok)
    {
      ghost var log := disk.log;
      var active := At(disk.log.segments, 0);
      ok := PerformOnSegments(disk.log.segments[0 := active]);
      at := if disk.log == log && !ok then Announced else Opened;
      if !ok {
        return;
      }
      if * {
        faulted := true;
        var written: nat := *;
        if 0 < written < record.draft.bytes {
          disk := disk.(log := disk.log.(segments := disk.log.segments[0 := active + [Foreign(written)]]));
          return false, TornLine(written);
        }
        return false, Opened;
      }
      disk := disk.(log := disk.log.(
        segments := disk.log.segments[0 := active + [Stored(record)]], history := disk.log.history + [record]));
      at := Written;
      if * {
        faulted := true;
        return false, Written;
      }
    }

    /** The file steps of `_append_record_unlocked` after its checks: announce, rotate, write, settle. */
    method PublishRecord(draft: Draft, record: Record, target: Segments, rotating: bool)
      returns (ok: bool, ghost stage: Stage)
      requires Settled(disk.log, limits) && Admitted(disk.log, draft, limits)
      requires record == NewRecord(disk.log, draft, limits) && target == NextSegments(disk.log, draft, limits)
      requires rotating == Rotates(disk.log.segments, draft, limits)
      modifies this`disk, this`faulted
      ensures StageReachable(old(disk.log), draft, limits, stage)
      ensures disk == old(disk).(log := FilesAt(old(disk.log), draft, limits, stage))
      ensures ok ==> stage == Done
      ensures faulted == (old(faulted) || !ok)
    {
      ghost var start := disk.log;
      var state := disk.log.keyFile.state;
      var anchor := AnchorSnapshot(target, record.mac, state.key, limits);
      stage := Before;
      ok := WriteKeyState(KeyState(state.key, state.committed, Some(anchor)));
      stage := if disk.log == FilesAt(start, draft, limits, Announced) then Announced else Before;
      if ok && rotating {
        ghost var moved;
        ok, moved := Rotate();
        stage := if moved > limits.maxRotated then Announced else Moving(moved);
        RotationMeetsProjection(start.segments, Stored(record), limits);
      }
      if ok {
        ghost var at;
        ghost var cleared := disk.log;
        assert disk.log == FilesAt(start, draft, limits, stage);
        ok, at := WriteLine(record);
        stage := if at == Announced then stage else at;
        assert At(cleared.segments, 0) == (if rotating then [] else At(start.segments, 0));
        assert [] + [Stored(record)] == [Stored(record)];
        assert disk.log == FilesAt(start, draft, limits, stage);
      }
      if ok {
        ok := WriteKeyState(KeyState(state.key, anchor, None));
        stage := if disk.log == FilesAt(start, draft, limits, Done) then Done else Written;
      }
    }

    /** `_reserve_capacity`: an exclusive create. A file left by an earlier crash makes it fail, and is
        removed. */
    method ReserveCapacity() returns (ok: bool)
      modifies this`disk, this`faulted
      ensures disk == old(disk).(reserve := disk.reserve)
      ensures ok ==> !old(disk.reserve)
      ensures ok ==> faulted == old(faulted)
      ensures !ok && !faulted ==> old(disk.reserve) && !disk.reserve
      ensures old(faulted) ==> faulted
    {
      if disk.reserve {
        var _ := Perform(disk.(reserve := false));
        return false;
      }
      ok := Perform(disk.(reserve := true));
    }

    /** `_append_record_unlocked` once the chain is verified. */
    method AppendVerified(records: seq<Record>, draft: Draft) returns (r: Result<Record, AuditError>, ghost stage: Stage)
      requires Settled(disk.log, limits)
      requires records == Retained(disk.log.segments, disk.log.keyFile.state.key, limits)
      modifies this`disk, this`faulted
      ensures StageReachable(old(disk.log), draft, limits, stage)
      ensures disk == old(disk).(log := FilesAt(old(disk.log), draft, limits, stage), reserve := disk.reserve)
      ensures r.Ok? ==> stage == Done && r.value == NewRecord(old(disk.log), draft, limits)
      ensures r.Ok? && !old(disk.reserve) ==> !disk.reserve
      ensures r.Ok? ==> faulted == old(faulted)
      ensures r.Err? && !faulted ==>
                && stage == Before
                && (|| !Admitted(old(disk.log), draft, limits)
                    || (Rotates(old(disk.log).segments, draft, limits) && old(disk.reserve)))
      ensures old(faulted) ==> faulted
    {
      var key := disk.log.keyFile.state.key;
      var record := Sign(draft, TerminalMac(records), key);
      var rotating := Rotates(disk.log.segments, draft, limits);
      var target := Project(disk.log.segments, Stored(record), rotating, limits);
      if !Fits(draft, limits) || TotalBytes(target, FileCount(limits)) > limits.maxTotal {
        return Err(AuditFailed), Before;
      }
      if rotating {
        var reserved := ReserveCapacity();
        if !reserved {
          return Err(AuditFailed), Before;
        }
      }
      var published;
      published, stage := PublishRecord(draft, record, target, rotating);
      if rotating {
        var released := Perform(disk.(reserve := false));
        published := published && released;
      }
      r := if published then Ok(record) else Err(AuditFailed);
    }

    /** `_append_record_unlocked`. */
    method AppendRecord(draft: Draft) returns (r: Result<Record, AuditError>, ghost stage: Stage)
      requires disk.log.keyFile.StoredKey?
      modifies this`disk, this`faulted
      ensures disk.marker == old(disk.marker) && disk.store == old(disk.store)
      ensures LogView(old(disk.log), limits) == Illegible ==> r.Err? && disk == old(disk)
      ensures LogView(old(disk.log), limits).Legible? ==>
                AppendEffect(old(disk.log), disk.log, draft, limits, stage)
      ensures r.Ok? ==>
                && LogView(old(disk.log), limits).Legible?
                && stage == Done
                && r.value == NewRecord(SettledFiles(old(disk.log), limits), draft, limits)
      ensures r.Ok? && !old(disk.reserve) ==> !disk.reserve
      ensures r.Ok? ==> faulted == old(faulted)
      ensures r.Err? && !faulted && LogView(old(disk.log), limits).Legible? ==>
                var start := SettledFiles(old(disk.log), limits);
                && stage == Before
                && (|| !Admitted(start, draft, limits)
                    || (Rotates(start.segments, draft, limits) && old(disk.reserve)))
      ensures old(faulted) ==> faulted
    {
      stage := Before;
      var checked := VerifyChain();
      if checked.Err? {
        return Err(checked.error), Before;
      }
      r, stage := AppendVerified(checked.value, draft);
    }

    /** Append under the log lock, at the level of what the log says. */
    method Append(draft: Draft) returns (r: Result<Record, AuditError>, ghost stage: Stage)
      requires disk.log.keyFile.StoredKey?
      modifies this`disk, this`faulted
      ensures AppendUnderMarker(old(disk), disk, draft, limits)
      ensures LogView(old(disk.log), limits) == Illegible ==> disk == old(disk)
      ensures LogView(old(disk.log), limits).Legible? ==>
                AppendEffect(old(disk.log), disk.log, draft, limits, stage)
      ensures r.Ok? ==>
                && LogGrew(old(disk.log), disk.log, draft, limits)
                && r.value == LogView(disk.log, limits).records[|LogView(disk.log, limits).records| - 1]
                && (!old(disk.reserve) ==> !disk.reserve)
                && faulted == old(faulted)
      ensures r.Err? && !faulted ==>
                && LogView(disk.log, limits) == LogView(old(disk.log), limits)
                && (LogView(old(disk.log), limits).Legible? ==> !Appendable(old(disk), draft, limits))
      ensures old(faulted) ==> faulted
    {
      ghost var before := disk.log;
      r, stage := AppendRecord(draft);
      if LogView(before, limits).Legible? {
        AppendEffectIsLogStep(before, disk.log, draft, limits, stage);
      }
    }

    /** Append right after the key was loaded. `before` is the log before that. */
    method AppendLoaded(draft: Draft, ghost before: LogFiles, ghost loaded: Reach)
      returns (r: Result<Record, AuditError>, ghost reach: Reach)
      requires disk.log.keyFile.StoredKey? && disk.log == Started(before, freshKey)
      requires Reaches(before, disk.log, draft, limits, loaded)
      modifies this`disk, this`faulted
      ensures reach == loaded || (reach.Stopped? && reach.key == freshKey)
      ensures disk.marker == old(disk.marker) && disk.store == old(disk.store)
      ensures Reaches(before, disk.log, draft, limits, reach)
      ensures r.Ok? ==>
                && LogGrew(before, disk.log, draft, limits)
                && r.value == LogView(disk.log, limits).records[|LogView(disk.log, limits).records| - 1]
                && (!old(disk.reserve) ==> !disk.reserve)
                && faulted == old(faulted)
      ensures r.Err? && !faulted ==> !CanAppend(old(disk).(log := before), draft, freshKey, limits)
      ensures old(faulted) ==> faulted
    {
      ghost var begun := disk.log;
      StartingKeepsView(before, freshKey, limits);
      ghost var stage;
      r, stage := Append(draft);
      reach := if LogView(begun, limits).Legible? then Stopped(freshKey, stage) else loaded;
    }

    /** `record`. */
    method RecordEvent(draft: Draft) returns (r: Result<Record, AuditError>, ghost reach: Reach)
      modifies this`disk, this`faulted
      ensures RecordEffect(old(disk), disk, draft, limits)
      ensures Reaches(old(disk.log), disk.log, draft, limits, reach)
      ensures r.Ok? ==> !old(disk.marker) && LogGrew(old(disk.log), disk.log, draft, limits)
      ensures r.Ok? && !old(disk.reserve) ==> !disk.reserve
      ensures r.Ok? ==> faulted == old(faulted)
      ensures old(disk.marker) ==> r == Err(RecoveryRequired)
      ensures r.Err? && !faulted ==> old(disk.marker) || !CanAppend(old(disk), draft, freshKey, limits)
      ensures old(faulted) ==> faulted
    {
      if disk.marker {
        return Err(RecoveryRequired), Untouched;
      }
      ghost var before := disk.log;
      var loaded;
      loaded, reach := LoadOrCreateKey();
      if loaded.Err? {
        ReachIsLogStep(before, disk.log, draft, limits, reach);
        return Err(AuditFailed), reach;
      }
      r, reach := AppendLoaded(draft, before, reach);
      ReachIsLogStep(before, disk.log, draft, limits, reach);
      if r.Err? {
        r := Err(AuditFailed);
      }
    }

    /** Entering `mutation_transaction`. */
    method BeginTransaction() returns (r: Result<(), AuditError>)
      requires reservation == None
      modifies this`disk, this`faulted, this`reservation
      ensures disk == old(disk).(marker := disk.marker)
      ensures old(disk.marker) ==> r == Err(RecoveryRequired) && disk.marker
      ensures r.Ok? ==> disk.marker && reservation == Some(Reservation(false, None, false)) && faulted == old(faulted)
      ensures r.Err? ==> reservation == None
      ensures r.Err? && !faulted ==> old(disk.marker)
      ensures old(faulted) ==> faulted
    {
      if disk.marker {
        return Err(RecoveryRequired);
      }
      var ok := Perform(disk.(marker := true));
      if !ok {
        return Err(AuditFailed);
      }
      reservation := Some(Reservation(false, None, false));
      return Ok(());
    }

    /** `_clear_reservation_marker`. */
    method ClearMarker() returns (ok: bool)
      modifies this`disk, this`faulted
      ensures disk == old(disk) || disk == old(disk).(marker := false)
      ensures ok ==> !disk.marker
      ensures faulted == (old(faulted) || !ok)
    {
      ok := true;
      if disk.marker {
        ok := Perform(disk.(marker := false));
      }
    }

    /** `_finish_reservation` and the release of the lock. `ok` is false when the clean-up failed. */
    method FinishTransaction() returns (ok: bool)
      requires reservation.Some?
      modifies this`disk, this`faulted, this`reservation
      ensures reservation == None
      ensures disk == old(disk)
           || (old(!reservation.value.prepareAttempted || reservation.value.completed)
               && disk == old(disk).(marker := false))
      ensures ok && old(!reservation.value.prepareAttempted || reservation.value.completed) ==> !disk.marker
      ensures faulted == (old(faulted) || !ok)
    {
      ok := true;
      if !reservation.value.prepareAttempted || reservation.value.completed {
        ok := ClearMarker();
      }
      reservation := None;
    }

    /** The draft of a prepare record under the key that the log has or will get. */
    ghost function DraftToPrepare(
      log: LogFiles, context: Context, eventId: Id, before: StoreFile, after: StoreFile, bytes: nat): Draft
    {
      PrepareDraft(context, eventId, KeyOf(Started(log, freshKey)), before, after, bytes)
    }

    /** Digest both states under the stored key and append the prepare record. */
    method AppendPrepare(context: Context, eventId: Id, before: StoreFile, after: StoreFile, bytes: nat)
      returns (r: Result<PreparedMutation, AuditError>, ghost reach: Reach)
      modifies this`disk, this`faulted
      ensures disk.marker == old(disk.marker) && disk.store == old(disk.store)
      ensures Reaches(old(disk.log), disk.log, DraftToPrepare(old(disk.log), context, eventId, before, after, bytes), limits, reach)
      ensures before == after ==> r.Err? && !reach.Stopped?
      ensures reach.Stopped? ==> reach.key == freshKey
      ensures r.Ok? ==>
                && LogGrew(old(disk.log), disk.log, DraftToPrepare(old(disk.log), context, eventId, before, after, bytes), limits)
                && var records := LogView(disk.log, limits).records;
                && BoundTo(records[|records| - 1], r.value, context)
                && r.value.eventId == eventId
      ensures r.Ok? && !old(disk.reserve) ==> !disk.reserve
      ensures r.Ok? ==> faulted == old(faulted)
      ensures r.Err? && !faulted ==>
                || before == after
                || !CanAppend(old(disk), DraftToPrepare(old(disk.log), context, eventId, before, after, bytes), freshKey, limits)
      ensures old(faulted) ==> faulted
    {
      ghost var start := disk.log;
      var loaded;
      loaded, reach := LoadOrCreateKey();
      if loaded.Err? || StateDigest(loaded.value, before) == StateDigest(loaded.value, after) {
        r := Err(AuditFailed);
      } else {
        r, reach := AppendDigests(PrepareDraft(context, eventId, loaded.value, before, after, bytes), start, reach);
      }
    }

    /** Append a prepare record once the key is loaded. */
    method AppendDigests(draft: Draft, ghost before: LogFiles, ghost loaded: Reach)
      returns (r: Result<PreparedMutation, AuditError>, ghost reach: Reach)
      requires disk.log.keyFile.StoredKey? && disk.log == Started(before, freshKey)
      requires Reaches(before, disk.log, draft, limits, loaded)
      requires draft.before.Some? && draft.after.Some?
      modifies this`disk, this`faulted
      ensures reach == loaded || (reach.Stopped? && reach.key == freshKey)
      ensures disk.marker == old(disk.marker) && disk.store == old(disk.store)
      ensures Reaches(before, disk.log, draft, limits, reach)
      ensures r.Ok? ==>
                && LogGrew(before, disk.log, draft, limits)
                && var records := LogView(disk.log, limits).records;
                && BoundTo(records[|records| - 1], r.value, draft.context)
                && r.value.eventId == draft.eventId
                && (!old(disk.reserve) ==> !disk.reserve)
                && faulted == old(faulted)
      ensures r.Err? && !faulted ==> !CanAppend(old(disk).(log := before), draft, freshKey, limits)
      ensures old(faulted) ==> faulted
    {
      var appended;
      appended, reach := AppendLoaded(draft, before, loaded);
      if appended.Err? {
        return Err(AuditFailed), reach;
      }
      return Ok(PreparedMutation(
        draft.eventId, draft.context.operation, draft.context.entryId, draft.before.value, draft.after.value,
        appended.value.mac)), reach;
    }

    /** A call in a transaction needs its reservation and the marker. A call of its own takes the lock for itself, which
        a transaction of this process would hold, and needs that there is no marker. */
    function Barred(reserved: bool): (error: Option<AuditError>)
      reads this`reservation, this`disk
    {
      if reserved then (if reservation == None || !disk.marker then Some(AuditFailed) else None)
      else if reservation.Some? then Some(AuditFailed)
      else if disk.marker then Some(RecoveryRequired)
      else None
    }

    /** `prepare_mutation`. `reserved` says whether the caller passes its reservation. */
    method PrepareMutation(
      context: Context, eventId: Id, before: StoreFile, after: StoreFile, bytes: nat, reserved: bool)
      returns (r: Result<PreparedMutation, AuditError>, ghost reach: Reach)
      modifies this`disk, this`faulted, this`reservation
      ensures disk.marker == old(disk.marker) && disk.store == old(disk.store)
      ensures Reaches(old(disk.log), disk.log, DraftToPrepare(old(disk.log), context, eventId, before, after, bytes), limits, reach)
      ensures old(Barred(reserved)).Some? ==> r == Err(old(Barred(reserved)).value) && disk == old(disk)
      ensures before == after ==> r.Err? && !reach.Stopped?
      ensures reach.Stopped? ==> reach.key == freshKey
      ensures reservation ==
                if old(Barred(reserved)).Some? || !reserved then old(reservation)
                else Some(Reservation(
                            true, if r.Ok? then Some(eventId) else old(reservation).value.prepared,
                            old(reservation).value.completed))
      ensures r.Ok? ==>
                && LogGrew(old(disk.log), disk.log, DraftToPrepare(old(disk.log), context, eventId, before, after, bytes), limits)
                && var records := LogView(disk.log, limits).records;
                && BoundTo(records[|records| - 1], r.value, context)
                && r.value.eventId == eventId
      ensures r.Ok? && !old(disk.reserve) ==> !disk.reserve
      ensures r.Ok? ==> faulted == old(faulted)
      ensures r.Err? && !faulted ==>
                || old(Barred(reserved)).Some?
                || before == after
                || !CanAppend(old(disk), DraftToPrepare(old(disk.log), context, eventId, before, after, bytes), freshKey, limits)
      ensures old(faulted) ==> faulted
    {
      var barred := Barred(reserved);
      if barred.Some? {
        r, reach := Err(barred.value), Untouched;
      } else {
        if reserved {
          reservation := Some(reservation.value.(prepareAttempted := true));
        }
        r, reach := AppendPrepare(context, eventId, before, after, bytes);
        if r.Ok? && reserved {
          reservation := Some(reservation.value.(prepared := Some(eventId)));
        }
      }
    }

    /** `_validate_prepared`, and that the mutation belongs to the reservation. */
    predicate Committable(prepared: PreparedMutation, context: Context, reserved: bool)
      reads this`reservation
    {
      && prepared.before != prepared.after
      && prepared.operation == context.operation && prepared.entryId == context.entryId
      && (reserved ==> reservation.Some? && reservation.value.prepared == Some(prepared.eventId))
    }

    /** The log takes the commit of this mutation: it is open at the end, bound in every field, and there is room. */
    ghost predicate TakesCommit(at: Disk, prepared: PreparedMutation, context: Context, eventId: Id, bytes: nat)
    {
      && LogView(at.log, limits).Legible?
      && UnmatchedTail(LogView(at.log, limits).records, prepared.eventId)
      && BoundTo(Unmatched(LogView(at.log, limits).records)[0], prepared, context)
      && CanAppend(at, CommitDraft(prepared, context, eventId, bytes), freshKey, limits)
    }

    /** `commit_mutation`. */
    method CommitMutation(
      prepared: PreparedMutation, context: Context, eventId: Id, bytes: nat, reserved: bool)
      returns (r: Result<Id, AuditError>, ghost reach: Reach)
      modifies this`disk, this`faulted, this`reservation
      ensures CommitEffect(old(disk), disk, prepared, context, eventId, bytes, limits)
      ensures Reaches(old(disk.log), disk.log, CommitDraft(prepared, context, eventId, bytes), limits, reach)
      ensures old(Barred(reserved)).Some? ==> r == Err(old(Barred(reserved)).value) && disk == old(disk)
      ensures reservation ==
                if r.Ok? && reserved then Some(old(reservation).value.(completed := true)) else old(reservation)
      ensures r.Ok? ==>
                && r.value == eventId
                && old(Barred(reserved)) == None && old(Committable(prepared, context, reserved))
                && LogGrew(old(disk.log), disk.log, CommitDraft(prepared, context, eventId, bytes), limits)
      ensures r.Ok? && !old(disk.reserve) ==> !disk.reserve
      ensures r.Ok? ==> faulted == old(faulted)
      ensures r.Err? && !faulted ==>
                || old(Barred(reserved)).Some? || !old(Committable(prepared, context, reserved))
                || !TakesCommit(old(disk), prepared, context, eventId, bytes)
      ensures old(faulted) ==> faulted
    {
      var barred := Barred(reserved);
      if barred.Some? {
        return Err(barred.value), Untouched;
      }
      if !Committable(prepared, context, reserved) {
        return Err(AuditFailed), Untouched;
      }
      r, reach := AppendCommit(prepared, context, eventId, bytes);
      if r.Ok? && reserved {
        reservation := Some(reservation.value.(completed := true));
      }
    }

    /** The locked part of `_commit_mutation`: re-check the open mutation, then append its commit. */
    method AppendCommit(prepared: PreparedMutation, context: Context, eventId: Id, bytes: nat)
      returns (r: Result<Id, AuditError>, ghost reach: Reach)
      modifies this`disk, this`faulted
      ensures CommitEffect(old(disk), disk, prepared, context, eventId, bytes, limits)
      ensures Reaches(old(disk.log), disk.log, CommitDraft(prepared, context, eventId, bytes), limits, reach)
      ensures r.Ok? ==>
                && r.value == eventId
                && LogGrew(old(disk.log), disk.log, CommitDraft(prepared, context, eventId, bytes), limits)
      ensures r.Ok? && !old(disk.reserve) ==> !disk.reserve
      ensures r.Ok? ==> faulted == old(faulted)
      ensures r.Err? && !faulted ==> !TakesCommit(old(disk), prepared, context, eventId, bytes)
      ensures old(faulted) ==> faulted
    {
      ghost var start, draft := disk.log, CommitDraft(prepared, context, eventId, bytes);
      var verified;
      verified, reach := LoadVerified();
      if verified.Err? || !UnmatchedTail(verified.value, prepared.eventId) {
        return Err(AuditFailed), reach;
      }
      if !BoundTo(Unmatched(verified.value)[0], prepared, context) {
        return Err(AuditFailed), reach;
      }
      var appended;
      appended, reach := AppendVerifiedLog(CommitDraft(prepared, context, eventId, bytes), start);
      ReachIsLogStep(start, disk.log, draft, limits, reach);
      return if appended.Ok? then Ok(eventId) else Err(AuditFailed), reach;
    }

    /** Append to a log that was verified since `before`. */
    method AppendVerifiedLog(draft: Draft, ghost before: LogFiles)
      returns (r: Result<Record, AuditError>, ghost reach: Reach)
      requires Verified(before)
      modifies this`disk, this`faulted
      ensures disk.marker == old(disk.marker) && disk.store == old(disk.store)
      ensures Reaches(before, disk.log, draft, limits, reach)
      ensures r.Ok? ==>
                && LogGrew(before, disk.log, draft, limits)
                && r.value == LogView(disk.log, limits).records[|LogView(disk.log, limits).records| - 1]
                && (!old(disk.reserve) ==> !disk.reserve)
                && faulted == old(faulted)
      ensures r.Err? && !faulted ==> !CanAppend(old(disk).(log := before), draft, freshKey, limits)
      ensures old(faulted) ==> faulted
    {
      ghost var begun := Started(before, freshKey);
      StartingKeepsView(before, freshKey, limits);
      ghost var verified := disk.log;
      ghost var stage;
      r, stage := Append(draft);
      reach := Stopped(freshKey, stage);
    }

    /** `verify_and_recover` when one mutation is open: append its completion. `before` is the log before recovery. */
    method CompleteOpenMutation(prepare: Record, event: Event, eventId: Id, bytes: nat, ghost before: LogFiles)
      returns (r: Result<(), AuditError>, ghost reach: Reach)
      requires disk.log.keyFile.StoredKey? && LogView(disk.log, limits).Legible?
      requires Unmatched(LogView(disk.log, limits).records) == [prepare]
      requires UnmatchedTail(LogView(disk.log, limits).records, prepare.draft.eventId)
      requires Verified(before)
      modifies this`disk, this`faulted
      ensures disk.marker == old(disk.marker) && disk.store == old(disk.store)
      ensures Reaches(before, disk.log, RecoveryDraft(prepare, event, eventId, bytes), limits, reach)
      ensures r.Ok? ==> LogGrew(before, disk.log, RecoveryDraft(prepare, event, eventId, bytes), limits)
      ensures r.Err? && !faulted ==>
                !CanAppend(old(disk).(log := before), RecoveryDraft(prepare, event, eventId, bytes), freshKey, limits)
      ensures old(faulted) ==> faulted
    {
      var checked := VerifyChain();
      if checked.Err? {
        return Err(RecoveryRequired), Stopped(freshKey, Before);
      }
      if !UnmatchedTail(checked.value, prepare.draft.eventId) {
        return Err(RecoveryRequired), Stopped(freshKey, Before);
      }
      if Unmatched(checked.value)[0] != prepare {
        return Err(RecoveryRequired), Stopped(freshKey, Before);
      }
      var appended;
      appended, reach := AppendVerifiedLog(RecoveryDraft(prepare, event, eventId, bytes), before);
      return if appended.Ok? then Ok(()) else Err(RecoveryRequired), reach;
    }

    /** The log was verified since `before`: the key exists and at most a pending anchor was settled. */
    ghost predicate Verified(before: LogFiles)
      reads this`disk
    {
      var begun := Started(before, freshKey);
      && disk.log.keyFile.StoredKey? && LogView(disk.log, limits).Legible?
      && begun.keyFile.StoredKey? && LogView(begun, limits) == LogView(disk.log, limits) == LogView(before, limits)
      && SettledFiles(begun, limits) == SettledFiles(disk.log, limits)
      && disk.log in {begun, SettledFiles(begun, limits)}
    }

    /** The first locked step of recovery and of a commit: load the key and verify the chain. */
    method LoadVerified() returns (r: Result<seq<Record>, AuditError>, ghost reach: Reach)
      modifies this`disk, this`faulted
      ensures disk == old(disk).(log := disk.log)
      ensures LogKept(old(disk.log), disk.log, limits)
      ensures forall draft :: Reaches(old(disk.log), disk.log, draft, limits, reach)
      ensures reach.Stopped? ==> reach.stage == Before
      ensures r.Ok? ==> Verified(old(disk.log)) && LogView(disk.log, limits) == Legible(r.value)
      ensures r.Ok? && !old(disk.log).keyFile.StoredKey? ==> r.value == []
      ensures r.Ok? ==> faulted == old(faulted)
      ensures old(faulted) ==> faulted
      ensures r.Err? && !faulted ==> LogView(old(disk.log), limits) == Illegible
    {
      ghost var before := disk.log;
      StartingKeepsView(before, freshKey, limits);
      var loaded;
      loaded, reach := LoadOrCreateKey();
      if loaded.Err? {
        return Err(AuditFailed), reach;
      }
      ghost var begun := disk.log;
      r := VerifyChain();
      if LogView(begun, limits).Legible? {
        SettlingKeepsView(begun, limits);
        reach := Stopped(freshKey, Before);
      }
    }

    /** Read the store and complete what is open. */
    method CompleteWhatIsOpen(records: seq<Record>, eventId: Id, bytes: nat, ghost before: LogFiles)
      returns (r: Result<RecoveryStatus, AuditError>, ghost reach: Reach)
      requires Verified(before) && LogView(disk.log, limits) == Legible(records)
      requires KeyOf(before) == KeyOf(disk.log) || records == []
      modifies this`disk, this`faulted
      ensures disk.marker == old(disk.marker) && disk.store == old(disk.store)
      ensures RecoveryReaches(before, disk.log, PlanRecovery(records, old(disk.store), KeyOf(before)), eventId, bytes, limits, reach)
      ensures match PlanRecovery(records, old(disk.store), KeyOf(before))
              case NothingToDo => r == Ok(Clean) && disk == old(disk)
              case CannotDecide => r.Err? && disk == old(disk)
              case CompleteWith(prepare, event) =>
                r.Ok? ==>
                  && r.value == Recovered(event, eventId, prepare.draft.eventId)
                  && LogGrew(before, disk.log, RecoveryDraft(prepare, event, eventId, bytes), limits)
      ensures r.Err? && !faulted ==> !Recoverable(old(disk).(log := before), eventId, bytes, freshKey, limits)
      ensures old(faulted) ==> faulted
    {
      OnlyRecordsCanBeUnmatched(records);
      r, reach := Ok(Clean), Stopped(freshKey, Before);
      if Unmatched(records) != [] {
        if * {
          faulted := true;
          r := Err(RecoveryRequired);  // the store could not be read
        } else {
          match PlanRecovery(records, disk.store, disk.log.keyFile.state.key)
          case NothingToDo =>
          case CannotDecide => r := Err(RecoveryRequired);
          case CompleteWith(prepare, event) =>
            var completed;
            completed, reach := CompleteOpenMutation(prepare, event, eventId, bytes, before);
            r := if completed.Ok? then Ok(Recovered(event, eventId, prepare.draft.eventId)) else Err(completed.error);
        }
      }
    }

    /** The rest of `verify_and_recover`: complete what is open, then clear the marker. */
    method RecoverVerified(records: seq<Record>, eventId: Id, bytes: nat, ghost before: LogFiles)
      returns (r: Result<RecoveryStatus, AuditError>, ghost reach: Reach)
      requires Verified(before) && LogView(disk.log, limits) == Legible(records)
      requires KeyOf(before) == KeyOf(disk.log) || records == []
      modifies this`disk, this`faulted
      ensures RecoverEffect(old(disk).(log := before), disk, eventId, bytes, limits)
      ensures RecoveryReaches(before, disk.log, PlanRecovery(records, old(disk.store), KeyOf(before)), eventId, bytes, limits, reach)
      ensures r.Ok? ==>
                && !disk.marker
                && match PlanRecovery(records, old(disk.store), KeyOf(before))
                   case NothingToDo => r.value == Clean && disk.log == old(disk.log)
                   case CannotDecide => false
                   case CompleteWith(prepare, event) =>
                     && r.value == Recovered(event, eventId, prepare.draft.eventId)
                     && LogGrew(before, disk.log, RecoveryDraft(prepare, event, eventId, bytes), limits)
      ensures r.Err? && !faulted ==> !Recoverable(old(disk).(log := before), eventId, bytes, freshKey, limits)
      ensures old(faulted) ==> faulted
    {
      ghost var plan := PlanRecovery(records, disk.store, KeyOf(before));
      r, reach := CompleteWhatIsOpen(records, eventId, bytes, before);
      if plan.CompleteWith? {
        ReachIsLogStep(before, disk.log, RecoveryDraft(plan.prepare, plan.event, eventId, bytes), limits, reach);
      }
      if r.Ok? {
        var cleared := ClearMarker();
        r := if cleared then r else Err(AuditFailed);
      }
    }

    /** `verify_and_recover`. */
    method VerifyAndRecover(eventId: Id, bytes: nat) returns (r: Result<RecoveryStatus, AuditError>, ghost reach: Reach)
      modifies this`disk, this`faulted
      ensures RecoverEffect(old(disk), disk, eventId, bytes, limits)
      ensures RecoveryReaches(old(disk.log), disk.log, RecoveryPlanOf(old(disk), limits), eventId, bytes, limits, reach)
      ensures r.Ok? ==>
                && LogView(old(disk.log), limits).Legible?
                && !disk.marker
                && match RecoveryPlanOf(old(disk), limits)
                   case NothingToDo => r.value == Clean && LogView(disk.log, limits) == LogView(old(disk.log), limits)
                   case CannotDecide => false
                   case CompleteWith(prepare, event) =>
                     && r.value == Recovered(event, eventId, prepare.draft.eventId)
                     && LogGrew(old(disk.log), disk.log, RecoveryDraft(prepare, event, eventId, bytes), limits)
      ensures r.Err? && !faulted ==> !Recoverable(old(disk), eventId, bytes, freshKey, limits)
      ensures old(faulted) ==> faulted
    {
      ghost var before := disk.log;
      var verified;
      verified, reach := LoadVerified();
      if verified.Err? {
        return Err(verified.error), reach;
      }
      r, reach := RecoverVerified(verified.value, eventId, bytes, before);
    }
  }
}
