/** The local trust store: what its bytes decode to, and the exact approve and revoke plans of
    `TrustCache.approve_mcp` and `TrustCache.revoke_entry_id`. */
module TrustStore {
  import opened Results

  type Id = string

  /** The six fields that `_matching_entry` compares. */
  datatype Target = Target(
    repoId: string, headCommit: Option<string>, fingerprint: string,
    scope: string, policyVersion: string, rulesetVersion: string)

  datatype Entry = Entry(
    entryId: Id, target: Target, path: string, remoteUrl: Option<string>, command: string,
    approvedAt: real, expiresAt: real, reason: string, auditEventId: Id,
    bytes: nat)  // length of the entry's indented JSON object

  /** Store bytes up to their meaning: the canonical serialization of a list, some other text that
      decodes to a list, or text the reader refuses. */
  datatype StoreBytes =
    | Canonical(list: seq<Entry>)
    | OtherText(list: seq<Entry>, text: string)
    | Undecodable(text: string)

  /** `None` is an absent file. */
  type StoreFile = Option<StoreBytes>

  datatype StoreError = Corrupt | Unavailable

  predicate UniqueIds(entries: seq<Entry>) {
    forall i, j :: 0 <= i < j < |entries| ==> entries[i].entryId != entries[j].entryId
  }

  /** `json.dumps(entries, indent=2)`: brackets, and a separator and indent for every object. */
  function SerializedSize(entries: seq<Entry>): nat {
    if entries == [] then 2
    else SerializedSize(entries[..|entries| - 1]) + entries[|entries| - 1].bytes + 4
  }

  function FileSize(content: StoreBytes): nat {
    match content
    case Canonical(list) => SerializedSize(list)
    case OtherText(_, text) => |text|
    case Undecodable(text) => |text|
  }

  /** `_read_snapshot_unlocked`: a file over the limit is refused before it is decoded. */
  function ReadSnapshot(file: StoreFile, maxBytes: nat): Result<seq<Entry>, StoreError> {
    match file
    case None => Ok([])
    case Some(content) =>
      if FileSize(content) > maxBytes then Err(Unavailable)
      else if content.Undecodable? || !UniqueIds(content.list) then Err(Corrupt)
      else Ok(content.list)
  }

  predicate Live(entry: Entry, now: real) {
    entry.expiresAt > now
  }

  /** The first live entry for the target, as an index. */
  function FindTarget(entries: seq<Entry>, target: Target, now: real): (found: Option<nat>)
    ensures found.Some? ==>
              found.value < |entries| && entries[found.value].target == target && Live(entries[found.value], now)
    ensures found.None? ==>
              forall i :: 0 <= i < |entries| && entries[i].target == target ==> !Live(entries[i], now)
  {
    if entries == [] then None
    else
      var init := FindTarget(entries[..|entries| - 1], target, now);
      var last := entries[|entries| - 1];
      if init.Some? then init
      else if last.target == target && Live(last, now) then Some(|entries| - 1)
      else None
  }

  /** The first live entry with the id, as an index. */
  function FindLiveId(entries: seq<Entry>, id: Id, now: real): (found: Option<nat>)
    ensures found.Some? ==>
              found.value < |entries| && entries[found.value].entryId == id && Live(entries[found.value], now)
    ensures found.None? ==>
              forall i :: 0 <= i < |entries| && entries[i].entryId == id ==> !Live(entries[i], now)
  {
    if entries == [] then None
    else
      var init := FindLiveId(entries[..|entries| - 1], id, now);
      var last := entries[|entries| - 1];
      if init.Some? then init
      else if last.entryId == id && Live(last, now) then Some(|entries| - 1)
      else None
  }

  /** What one locked mutation decides before it touches the audit log. */
  datatype Plan =
    | Apply(after: StoreBytes, entry: Entry)
    | AlreadyApproved(existing: Entry)
    | NotFound
    | VersionConflict(actual: Entry)
    | Refuse(error: StoreError)

  function PlanApproval(file: StoreFile, entry: Entry, now: real, maxBytes: nat): Plan {
    match ReadSnapshot(file, maxBytes)
    case Err(error) => Refuse(error)
    case Ok(entries) =>
      var existing := FindTarget(entries, entry.target, now);
      if existing.Some? then AlreadyApproved(entries[existing.value])
      else if !UniqueIds(entries + [entry]) then Refuse(Corrupt)
      else if SerializedSize(entries + [entry]) > maxBytes then Refuse(Unavailable)
      else Apply(Canonical(entries + [entry]), entry)
  }

  function PlanRevocation(file: StoreFile, id: Id, expected: Entry, now: real, maxBytes: nat): Plan {
    match ReadSnapshot(file, maxBytes)
    case Err(error) => Refuse(error)
    case Ok(entries) =>
      var found := FindLiveId(entries, id, now);
      if found.None? then NotFound
      else
        var entry := entries[found.value];
        var remaining := entries[..found.value] + entries[found.value + 1..];
        if entry != expected then VersionConflict(entry)
        else if SerializedSize(remaining) > maxBytes then Refuse(Unavailable)
        else Apply(Canonical(remaining), entry)
  }

  /** No two entries live at `now` grant the same target. */
  predicate OneLivePerTarget(entries: seq<Entry>, now: real) {
    forall i, j :: 0 <= i < j < |entries| && entries[i].target == entries[j].target ==>
      !Live(entries[i], now) || !Live(entries[j], now)
  }

  predicate Sound(file: StoreFile, now: real, maxBytes: nat) {
    ReadSnapshot(file, maxBytes).Ok? ==> OneLivePerTarget(ReadSnapshot(file, maxBytes).value, now)
  }

  /** An approval adds exactly its entry, at the end, and only when its id is new and nothing live
      already grants its target. */
  lemma ApprovalAddsOneEntry(file: StoreFile, entry: Entry, now: real, maxBytes: nat)
    requires PlanApproval(file, entry, now, maxBytes).Apply?
    requires Sound(file, now, maxBytes)
    ensures var plan := PlanApproval(file, entry, now, maxBytes);
            && ReadSnapshot(file, maxBytes).Ok?
            && ReadSnapshot(Some(plan.after), maxBytes) == Ok(ReadSnapshot(file, maxBytes).value + [entry])
            && plan.entry == entry
            && (forall other :: other in ReadSnapshot(file, maxBytes).value ==> other.entryId != entry.entryId)
            && (forall other :: other in ReadSnapshot(file, maxBytes).value && other.target == entry.target ==> !Live(other, now))
            && Sound(Some(plan.after), now, maxBytes)
  {
    var entries := ReadSnapshot(file, maxBytes).value;
    forall other | other in entries
      ensures other.entryId != entry.entryId
    {
      var i :| 0 <= i < |entries| && entries[i] == other;
      assert (entries + [entry])[i] == other && (entries + [entry])[|entries|] == entry;
    }
  }

  lemma RemovalKeepsOrder(entries: seq<Entry>, index: nat, now: real)
    requires index < |entries|
    requires UniqueIds(entries) && OneLivePerTarget(entries, now)
    ensures var rest := entries[..index] + entries[index + 1..];
            && UniqueIds(rest) && OneLivePerTarget(rest, now)
            && (forall kept :: kept in rest ==> kept.entryId != entries[index].entryId)
  {
    var rest := entries[..index] + entries[index + 1..];
    assert forall k :: 0 <= k < index ==> rest[k] == entries[k];
    assert forall k :: index <= k < |rest| ==> rest[k] == entries[k + 1];
  }

  /** A revocation removes exactly one live entry, the one with the id and with the expected value;
      everything before and after it stays, in order. */
  lemma RevocationRemovesOneEntry(file: StoreFile, id: Id, expected: Entry, now: real, maxBytes: nat)
    returns (before: seq<Entry>, after: seq<Entry>)
    requires PlanRevocation(file, id, expected, now, maxBytes).Apply?
    requires Sound(file, now, maxBytes)
    ensures var plan := PlanRevocation(file, id, expected, now, maxBytes);
            && ReadSnapshot(file, maxBytes) == Ok(before + [expected] + after)
            && ReadSnapshot(Some(plan.after), maxBytes) == Ok(before + after)
            && plan.entry == expected && expected.entryId == id && Live(expected, now)
            && (forall kept :: kept in before + after ==> kept.entryId != id)
            && Sound(Some(plan.after), now, maxBytes)
  {
    var entries := ReadSnapshot(file, maxBytes).value;
    var index := FindLiveId(entries, id, now).value;
    before, after := entries[..index], entries[index + 1..];
    assert entries == before + [expected] + after;
    RemovalKeepsOrder(entries, index, now);
  }

  lemma OneMoreStaysUnique(entries: seq<Entry>, entry: Entry)
    ensures UniqueIds(entries + [entry]) <==>
            UniqueIds(entries) && forall other :: other in entries ==> other.entryId != entry.entryId
  {
    var grown := entries + [entry];
    assert grown[|entries|] == entry && forall i :: 0 <= i < |entries| ==> grown[i] == entries[i];
  }

  /** A plan that does not apply is one the caller can tell in advance. */
  lemma WhenApprovalApplies(file: StoreFile, entry: Entry, now: real, maxBytes: nat)
    ensures PlanApproval(file, entry, now, maxBytes).Apply? <==>
            && ReadSnapshot(file, maxBytes).Ok?
            && (forall other :: other in ReadSnapshot(file, maxBytes).value ==>
                  other.entryId != entry.entryId && (other.target == entry.target ==> !Live(other, now)))
            && SerializedSize(ReadSnapshot(file, maxBytes).value) + entry.bytes + 4 <= maxBytes
  {
    if ReadSnapshot(file, maxBytes).Ok? {
      var entries := ReadSnapshot(file, maxBytes).value;
      OneMoreStaysUnique(entries, entry);
      assert (entries + [entry])[..|entries|] == entries;
    }
  }

  /** Each outcome of a revocation but the size limit, from the store alone. */
  lemma WhenRevocationApplies(file: StoreFile, id: Id, expected: Entry, now: real, maxBytes: nat)
    ensures ReadSnapshot(file, maxBytes).Err? ==>
              PlanRevocation(file, id, expected, now, maxBytes) == Refuse(ReadSnapshot(file, maxBytes).error)
    ensures ReadSnapshot(file, maxBytes).Ok? ==>
            var plan := PlanRevocation(file, id, expected, now, maxBytes);
            var entries := ReadSnapshot(file, maxBytes).value;
            && (plan == NotFound <==> forall entry :: entry in entries && entry.entryId == id ==> !Live(entry, now))
            && (plan.VersionConflict? <==>
                  exists entry :: entry in entries && entry.entryId == id && Live(entry, now) && entry != expected)
            && (plan.Apply? || plan == Refuse(Unavailable) <==>
                  expected in entries && expected.entryId == id && Live(expected, now))
  {
    if ReadSnapshot(file, maxBytes).Err? {
      return;
    }
    var entries := ReadSnapshot(file, maxBytes).value;
    var found := FindLiveId(entries, id, now);
    if found.Some? {
      assert entries[found.value] in entries;
      forall entry | entry in entries && entry.entryId == id
        ensures entry == entries[found.value]
      {
        var i :| 0 <= i < |entries| && entries[i] == entry;
        assert UniqueIds(entries);
        assert i == found.value;
      }
    } else {
      forall entry | entry in entries && entry.entryId == id
        ensures !Live(entry, now)
      {
        var i :| 0 <= i < |entries| && entries[i] == entry;
      }
    }
  }

  lemma NewIdIsFoundLast(entries: seq<Entry>, entry: Entry, now: real)
    requires UniqueIds(entries + [entry]) && Live(entry, now)
    ensures FindLiveId(entries + [entry], entry.entryId, now) == Some(|entries|)
  {
    var grown := entries + [entry];
    assert grown[..|grown| - 1] == entries && grown[|entries|] == entry;
    forall i | 0 <= i < |entries|
      ensures entries[i].entryId != entry.entryId
    {
      assert grown[i] == entries[i];
    }
  }

  /** Revoking a fresh approval before it expires restores the list as it was. */
  lemma RevokeUndoesApproval(file: StoreFile, entry: Entry, approvedAt: real, revokedAt: real, maxBytes: nat)
    requires PlanApproval(file, entry, approvedAt, maxBytes).Apply?
    requires Live(entry, revokedAt)
    ensures var written := Some(PlanApproval(file, entry, approvedAt, maxBytes).after);
            var undo := PlanRevocation(written, entry.entryId, entry, revokedAt, maxBytes);
            undo.Apply? && ReadSnapshot(Some(undo.after), maxBytes) == ReadSnapshot(file, maxBytes)
  {
    var entries := ReadSnapshot(file, maxBytes).value;
    var grown := entries + [entry];
    var written := Some(Canonical(grown));
    NewIdIsFoundLast(entries, entry, revokedAt);
    assert grown[..|entries|] + grown[|entries| + 1..] == entries;
    assert SerializedSize(grown) == SerializedSize(entries) + entry.bytes + 4 by {
      assert grown[..|grown| - 1] == entries;
    }
    assert ReadSnapshot(written, maxBytes) == Ok(grown);
    assert PlanRevocation(written, entry.entryId, entry, revokedAt, maxBytes) == Apply(Canonical(entries), entry);
    assert UniqueIds(entries);
  }

  datatype StoreOperation =
    | Approve(entry: Entry, now: real)
    | Revoke(id: Id, expected: Entry, now: real)

  function PlanOf(file: StoreFile, operation: StoreOperation, maxBytes: nat): Plan {
    match operation
    case Approve(entry, now) => PlanApproval(file, entry, now, maxBytes)
    case Revoke(id, expected, now) => PlanRevocation(file, id, expected, now, maxBytes)
  }

  /** The store after a run of mutations, each applied or refused by its plan. */
  function StoreAfter(file: StoreFile, run: seq<StoreOperation>, maxBytes: nat): StoreFile {
    if run == [] then file
    else
      var previous := StoreAfter(file, run[..|run| - 1], maxBytes);
      var plan := PlanOf(previous, run[|run| - 1], maxBytes);
      if plan.Apply? then Some(plan.after) else previous
  }

  function LatestTime(run: seq<StoreOperation>, start: real): real {
    if run == [] then start else run[|run| - 1].now
  }

  predicate ClockNeverGoesBack(run: seq<StoreOperation>, start: real) {
    run != [] ==>
      && ClockNeverGoesBack(run[..|run| - 1], start)
      && LatestTime(run[..|run| - 1], start) <= LatestTime(run, start)
  }

  lemma LiveGrantsOnlyExpire(entries: seq<Entry>, now: real, later: real)
    requires OneLivePerTarget(entries, now) && now <= later
    ensures OneLivePerTarget(entries, later)
  {
    forall i, j | 0 <= i < j < |entries| && entries[i].target == entries[j].target
      ensures !Live(entries[i], later) || !Live(entries[j], later)
    {
      assert !Live(entries[i], now) || !Live(entries[j], now);
    }
  }

  /** In every run with a clock that never goes back, starting from a store whose live grants are
      distinct, entry ids stay unique and no target is ever granted twice at once. */
  lemma {:induction false} StoreStaysSound(file: StoreFile, run: seq<StoreOperation>, start: real, maxBytes: nat)
    requires ReadSnapshot(file, maxBytes).Ok? && Sound(file, start, maxBytes)
    requires ClockNeverGoesBack(run, start)
    ensures var file' := StoreAfter(file, run, maxBytes);
            && ReadSnapshot(file', maxBytes).Ok?
            && UniqueIds(ReadSnapshot(file', maxBytes).value)
            && OneLivePerTarget(ReadSnapshot(file', maxBytes).value, LatestTime(run, start))
  {
    if run != [] {
      var init, last := run[..|run| - 1], run[|run| - 1];
      StoreStaysSound(file, init, start, maxBytes);
      var previous := StoreAfter(file, init, maxBytes);
      LiveGrantsOnlyExpire(ReadSnapshot(previous, maxBytes).value, LatestTime(init, start), last.now);
      if PlanOf(previous, last, maxBytes).Apply? {
        match last {
          case Approve(entry, now) => ApprovalAddsOneEntry(previous, entry, now, maxBytes);
          case Revoke(id, expected, now) =>
            var _, _ := RevocationRemovesOneEntry(previous, id, expected, now, maxBytes);
        }
      }
    }
  }
}
