/** The mutation audit log as data: records signed into a chain, rotated segments, and the anchor
    that pins both. HMAC is a free constructor, so two digests are equal exactly when their inputs
    are, and the zero MAC is no HMAC. */
module AuditChain {
  import opened Results
  import opened TrustStore

  type Key = string

  datatype Operation = ApproveOperation | RevokeOperation

  /** The binding fields of `AuditContext`. */
  datatype Context = Context(
    operation: Operation, operationId: Id, entryId: Option<Id>, challengeId: Option<Id>,
    target: Option<Target>)

  datatype Event =
    | MutationPrepared
    | MutationCommitted
    | RecoveryCommitted
    | RecoveryAborted
    | Notice(name: string)  // the sixteen events that neither open nor close a mutation

  datatype StateDigest = StateDigest(key: Key, state: StoreFile)

  /** What `_build_record` returns. The MAC fields have a fixed width, so the draft already fixes the
      length of the signed line. */
  datatype Draft = Draft(
    event: Event, eventId: Id, context: Context,
    before: Option<StateDigest>, after: Option<StateDigest>, preparedId: Option<Id>,
    bytes: nat)

  datatype Mac = ZeroMac | RecordMac(key: Key, draft: Draft, previous: Mac)

  datatype Record = Record(draft: Draft, previous: Mac, mac: Mac)

  function Sign(draft: Draft, previous: Mac, key: Key): Record {
    Record(draft, previous, RecordMac(key, draft, previous))
  }

  /** A line of a segment file: the canonical encoding of a record, or any other bytes, such as a
      torn write. */
  datatype Line = Stored(record: Record) | Foreign(bytes: nat)

  type Segment = seq<Line>

  /** Segment files by rotation index: 0 is the active file, `i` is `audit.jsonl.i`. */
  type Segments = map<nat, Segment>

  datatype Limits = Limits(maxRecord: nat, maxSegment: nat, maxRotated: nat, maxTotal: nat)

  const AUDIT_MAX_RECORD_BYTES := 4096
  const AUDIT_MAX_SEGMENT_BYTES := 1024 * 1024
  const AUDIT_MAX_ROTATED_SEGMENTS := 3
  const AUDIT_MAX_TOTAL_BYTES := 4 * 1024 * 1024

  const DEFAULT_LIMITS := Limits(
    AUDIT_MAX_RECORD_BYTES, AUDIT_MAX_SEGMENT_BYTES, AUDIT_MAX_ROTATED_SEGMENTS, AUDIT_MAX_TOTAL_BYTES)

  predicate ValidLimits(limits: Limits) {
    && 0 < limits.maxRecord <= AUDIT_MAX_RECORD_BYTES
    && 0 < limits.maxSegment <= AUDIT_MAX_SEGMENT_BYTES
    && limits.maxRotated <= AUDIT_MAX_ROTATED_SEGMENTS
    && 0 < limits.maxTotal <= AUDIT_MAX_TOTAL_BYTES
  }

  // ---------- sizes and order ----------

  function LineBytes(line: Line): nat {
    match line
    case Stored(record) => record.draft.bytes
    case Foreign(bytes) => bytes
  }

  function SegmentBytes(data: Segment): nat {
    if data == [] then 0 else SegmentBytes(data[..|data| - 1]) + LineBytes(data[|data| - 1])
  }

  /** The contents of one segment, empty when the file is absent. */
  function At(segments: Segments, index: nat): Segment {
    if index in segments then segments[index] else []
  }

  /** The active file and its rotated segments. */
  function FileCount(limits: Limits): nat {
    limits.maxRotated + 1
  }

  /** The size of the segments with an index below `count`. */
  function TotalBytes(segments: Segments, count: nat): nat {
    if count == 0 then 0 else SegmentBytes(At(segments, count - 1)) + TotalBytes(segments, count - 1)
  }

  /** The lines of the segments with an index below `count`, oldest first. */
  function Lines(segments: Segments, count: nat): seq<Line> {
    if count == 0 then [] else At(segments, count - 1) + Lines(segments, count - 1)
  }

  predicate Chained(lines: seq<Line>, key: Key, maxRecord: nat) {
    forall i :: 0 <= i < |lines| ==>
      && lines[i].Stored?
      && LineBytes(lines[i]) <= maxRecord
      && lines[i].record.mac == RecordMac(key, lines[i].record.draft, lines[i].record.previous)
      && (i > 0 ==> lines[i - 1].Stored? && lines[i].record.previous == lines[i - 1].record.mac)
  }

  function RecordsOf(lines: seq<Line>): (records: seq<Record>)
    requires forall line :: line in lines ==> line.Stored?
    ensures |records| == |lines|
  {
    seq(|lines|, i requires 0 <= i < |lines| => lines[i].record)
  }

  function TerminalMac(records: seq<Record>): Mac {
    if records == [] then ZeroMac else records[|records| - 1].mac
  }

  /** What the read part of `_verify_chain_unlocked` accepts. */
  predicate Readable(segments: Segments, key: Key, limits: Limits) {
    && ValidLimits(limits)
    && (forall index :: index in segments ==> index <= limits.maxRotated)
    && TotalBytes(segments, FileCount(limits)) <= limits.maxTotal
    && (forall index :: index in segments ==> SegmentBytes(segments[index]) <= limits.maxSegment)
    && Chained(Lines(segments, FileCount(limits)), key, limits.maxRecord)
  }

  function Retained(segments: Segments, key: Key, limits: Limits): (records: seq<Record>)
    requires Readable(segments, key, limits)
  {
    RecordsOf(Lines(segments, FileCount(limits)))
  }

  // ---------- anchors ----------

  datatype SegmentDigest = SegmentDigest(key: Key, index: nat, data: Segment)
  datatype SegmentAnchor = SegmentAnchor(index: nat, bytes: nat, digest: SegmentDigest)
  datatype Snapshot = Snapshot(segments: seq<SegmentAnchor>, terminal: Mac)

  function AnchorOf(index: nat, data: Segment, key: Key): SegmentAnchor {
    SegmentAnchor(index, SegmentBytes(data), SegmentDigest(key, index, data))
  }

  function Anchors(segments: Segments, key: Key, count: nat): seq<SegmentAnchor> {
    if count == 0 then []
    else
      (if count - 1 in segments then [AnchorOf(count - 1, segments[count - 1], key)] else [])
      + Anchors(segments, key, count - 1)
  }

  function AnchorSnapshot(segments: Segments, terminal: Mac, key: Key, limits: Limits): Snapshot {
    Snapshot(Anchors(segments, key, FileCount(limits)), terminal)
  }

  /** The segments a list of anchors speaks about. */
  ghost function Anchored(anchors: seq<SegmentAnchor>): Segments {
    if anchors == [] then map[] else Anchored(anchors[1..])[anchors[0].index := anchors[0].digest.data]
  }

  /** The anchor determines the segment files: nothing but the anchored bytes matches it. */
  lemma {:induction false} AnchorDeterminesSegments(segments: Segments, key: Key, count: nat)
    ensures Anchored(Anchors(segments, key, count)) == map i | i in segments && i < count :: segments[i]
  {
    if count > 0 {
      AnchorDeterminesSegments(segments, key, count - 1);
      var rest := Anchors(segments, key, count - 1);
      if count - 1 in segments {
        assert Anchors(segments, key, count)[1..] == rest;
      } else {
        assert Anchors(segments, key, count) == rest;
      }
    }
  }

  lemma SameAnchorSameSegments(left: Segments, right: Segments, key: Key, limits: Limits)
    requires forall index :: index in left || index in right ==> index <= limits.maxRotated
    requires Anchors(left, key, FileCount(limits)) == Anchors(right, key, FileCount(limits))
    ensures left == right
  {
    AnchorDeterminesSegments(left, key, FileCount(limits));
    AnchorDeterminesSegments(right, key, FileCount(limits));
    assert left == map i | i in left && i < FileCount(limits) :: left[i];
    assert right == map i | i in right && i < FileCount(limits) :: right[i];
  }

  // ---------- projection ----------

  predicate Rotates(segments: Segments, draft: Draft, limits: Limits) {
    SegmentBytes(At(segments, 0)) + draft.bytes > limits.maxSegment
  }

  predicate HasPredecessor(segments: Segments, index: nat) {
    index > 0 && index - 1 in segments
  }

  /** `_project_segment_data`: the segment files an append of `line` must produce. */
  function Project(segments: Segments, line: Line, rotating: bool, limits: Limits): Segments {
    if !rotating then segments[0 := At(segments, 0) + [line]]
    else (map i: nat | i <= limits.maxRotated && HasPredecessor(segments, i) :: segments[i - 1])[0 := [line]]
  }

  predicate FilledAfter(segments: Segments, next: nat, index: nat) {
    if index < next then index in segments else HasPredecessor(segments, index)
  }

  /** The files once every source from `next` upward has moved one index up (the oldest is gone). */
  function RotatedDownTo(segments: Segments, next: nat, limits: Limits): Segments {
    map i: nat | i <= limits.maxRotated && i != next && FilledAfter(segments, next, i)
      :: segments[if i < next then i else i - 1]
  }

  lemma {:induction false} AppendExtendsLines(segments: Segments, line: Line, count: nat)
    requires count > 0
    ensures Lines(segments[0 := At(segments, 0) + [line]], count) == Lines(segments, count) + [line]
  {
    var grown := segments[0 := At(segments, 0) + [line]];
    if count > 1 {
      AppendExtendsLines(segments, line, count - 1);
      assert At(grown, count - 1) == At(segments, count - 1);
    }
  }

  lemma {:induction false} ShiftedLines(segments: Segments, shifted: Segments, line: Line, count: nat)
    requires count > 0 && At(shifted, 0) == [line]
    requires forall i :: 1 <= i < count ==> At(shifted, i) == At(segments, i - 1)
    ensures Lines(shifted, count) == Lines(segments, count - 1) + [line]
  {
    if count > 1 {
      ShiftedLines(segments, shifted, line, count - 1);
    }
  }

  lemma ProjectedAt(segments: Segments, line: Line, limits: Limits, index: nat)
    requires index <= limits.maxRotated
    ensures At(Project(segments, line, true, limits), index)
         == if index == 0 then [line] else At(segments, index - 1)
  {
    assert index > 0 ==> (HasPredecessor(segments, index) <==> index - 1 in segments);
  }

  lemma RotationShiftsLines(segments: Segments, line: Line, limits: Limits)
    ensures Lines(Project(segments, line, true, limits), FileCount(limits))
         == Lines(segments, limits.maxRotated) + [line]
  {
    var shifted := Project(segments, line, true, limits);
    forall i: nat | i <= limits.maxRotated
      ensures At(shifted, i) == if i == 0 then [line] else At(segments, i - 1)
    {
      ProjectedAt(segments, line, limits, i);
    }
    ShiftedLines(segments, shifted, line, FileCount(limits));
  }

  lemma RotationKeepsSuffix(segments: Segments, line: Line, limits: Limits)
    ensures var before := Lines(segments, FileCount(limits));
            var dropped := |At(segments, limits.maxRotated)|;
            && dropped <= |before|
            && Lines(Project(segments, line, true, limits), FileCount(limits)) == before[dropped..] + [line]
  {
    var before, newer := Lines(segments, FileCount(limits)), Lines(segments, limits.maxRotated);
    assert before == At(segments, limits.maxRotated) + newer;
    RotationShiftsLines(segments, line, limits);
  }

  /** Rotation forgets exactly the oldest segment: what is retained is a suffix of what was there,
      followed by the new line. */
  lemma ProjectionKeepsSuffix(segments: Segments, line: Line, rotating: bool, limits: Limits)
    returns (dropped: nat)
    ensures dropped == if rotating then |At(segments, limits.maxRotated)| else 0
    ensures dropped <= |Lines(segments, FileCount(limits))|
    ensures Lines(Project(segments, line, rotating, limits), FileCount(limits))
         == Lines(segments, FileCount(limits))[dropped..] + [line]
  {
    if rotating {
      RotationKeepsSuffix(segments, line, limits);
      dropped := |At(segments, limits.maxRotated)|;
    } else {
      AppendExtendsLines(segments, line, FileCount(limits));
      dropped := 0;
      assert Lines(segments, FileCount(limits))[0..] == Lines(segments, FileCount(limits));
    }
  }

  lemma {:induction false} SegmentsBoundTotal(segments: Segments, count: nat, limits: Limits)
    requires forall index :: index in segments ==> SegmentBytes(segments[index]) <= limits.maxSegment
    ensures TotalBytes(segments, count) <= count * limits.maxSegment
  {
    if count > 0 {
      SegmentsBoundTotal(segments, count - 1, limits);
      assert (count - 1) * limits.maxSegment + limits.maxSegment == count * limits.maxSegment;
    }
  }

  /** Room for every retained segment to be full. */
  predicate Roomy(limits: Limits) {
    FileCount(limits) * limits.maxSegment <= limits.maxTotal
  }

  predicate Fits(draft: Draft, limits: Limits) {
    draft.bytes <= limits.maxRecord && draft.bytes <= limits.maxSegment
  }

  lemma ProjectionBoundsSegments(segments: Segments, record: Record, limits: Limits)
    requires forall index :: index in segments ==> index <= limits.maxRotated
    requires forall index :: index in segments ==> SegmentBytes(segments[index]) <= limits.maxSegment
    requires Fits(record.draft, limits)
    ensures var projected := Project(segments, Stored(record), Rotates(segments, record.draft, limits), limits);
            && (forall index :: index in projected ==> index <= limits.maxRotated)
            && (forall index :: index in projected ==> SegmentBytes(projected[index]) <= limits.maxSegment)
  {
    var line := Stored(record);
    assert [line][..0] == [];
    assert SegmentBytes([line]) == SegmentBytes([]) + record.draft.bytes;
    assert (At(segments, 0) + [line])[..|At(segments, 0)|] == At(segments, 0);
  }

  /** When every segment may be full at once, as with the default limits, no append is ever refused
      because of the total. */
  lemma TotalNeverRefuses(segments: Segments, record: Record, limits: Limits)
    requires forall index :: index in segments ==> index <= limits.maxRotated
    requires forall index :: index in segments ==> SegmentBytes(segments[index]) <= limits.maxSegment
    requires Fits(record.draft, limits) && Roomy(limits)
    ensures var projected := Project(segments, Stored(record), Rotates(segments, record.draft, limits), limits);
            TotalBytes(projected, FileCount(limits)) <= limits.maxTotal
  {
    ProjectionBoundsSegments(segments, record, limits);
    SegmentsBoundTotal(
      Project(segments, Stored(record), Rotates(segments, record.draft, limits), limits), FileCount(limits), limits);
  }

  lemma DefaultLimitsAreRoomy()
    ensures Roomy(DEFAULT_LIMITS) && ValidLimits(DEFAULT_LIMITS)
  {}

  ghost function MacDepth(mac: Mac): nat {
    match mac
    case ZeroMac => 0
    case RecordMac(_, _, previous) => MacDepth(previous) + 1
  }

  lemma MacIsNotItsOwnPrevious(mac: Mac)
    ensures mac.RecordMac? ==> mac.previous != mac
  {
    if mac.RecordMac? {
      assert MacDepth(mac) == MacDepth(mac.previous) + 1;
    }
  }

  lemma ChainGrows(lines: seq<Line>, dropped: nat, draft: Draft, key: Key, maxRecord: nat)
    requires Chained(lines, key, maxRecord) && dropped <= |lines| && draft.bytes <= maxRecord
    ensures var record := Sign(draft, TerminalMac(RecordsOf(lines)), key);
            var grown := lines[dropped..] + [Stored(record)];
            && Chained(grown, key, maxRecord)
            && RecordsOf(grown) == RecordsOf(lines)[dropped..] + [record]
            && TerminalMac(RecordsOf(grown)) != TerminalMac(RecordsOf(lines))
  {
    var record := Sign(draft, TerminalMac(RecordsOf(lines)), key);
    var grown := lines[dropped..] + [Stored(record)];
    forall i | 0 <= i < |grown|
      ensures grown[i].Stored? && LineBytes(grown[i]) <= maxRecord
      ensures grown[i].record.mac == RecordMac(key, grown[i].record.draft, grown[i].record.previous)
      ensures i > 0 ==> grown[i - 1].Stored? && grown[i].record.previous == grown[i - 1].record.mac
    {
      if i < |lines| - dropped {
        assert grown[i] == lines[dropped + i];
      }
      if 0 < i {
        assert grown[i - 1] == lines[dropped + i - 1];
      }
    }
    MacIsNotItsOwnPrevious(record.mac);
  }

  /** The files an append of `draft` must produce. */
  ghost function Appended(segments: Segments, draft: Draft, key: Key, limits: Limits): Segments
    requires Readable(segments, key, limits)
  {
    var record := Sign(draft, TerminalMac(Retained(segments, key, limits)), key);
    Project(segments, Stored(record), Rotates(segments, draft, limits), limits)
  }

  /** A record signed onto the end of a readable log makes a readable log: the retained suffix of the
      old records, then the new one. */
  lemma AppendedIsReadable(segments: Segments, draft: Draft, key: Key, limits: Limits)
    returns (dropped: nat)
    requires Readable(segments, key, limits) && Fits(draft, limits)
    requires TotalBytes(Appended(segments, draft, key, limits), FileCount(limits)) <= limits.maxTotal
    ensures dropped <= |Retained(segments, key, limits)|
    ensures dropped == if Rotates(segments, draft, limits) then |At(segments, limits.maxRotated)| else 0
    ensures var before := Retained(segments, key, limits);
            var record := Sign(draft, TerminalMac(before), key);
            var after := Appended(segments, draft, key, limits);
            && Readable(after, key, limits)
            && Retained(after, key, limits) == before[dropped..] + [record]
            && TerminalMac(Retained(after, key, limits)) != TerminalMac(before)
            && after != segments
  {
    var lines := Lines(segments, FileCount(limits));
    var record := Sign(draft, TerminalMac(Retained(segments, key, limits)), key);
    ProjectionBoundsSegments(segments, record, limits);
    dropped := ProjectionKeepsSuffix(segments, Stored(record), Rotates(segments, draft, limits), limits);
    ChainGrows(lines, dropped, draft, key, limits.maxRecord);
  }
}
