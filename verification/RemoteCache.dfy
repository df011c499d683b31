/** `RemoteScanCache`: reports by key, kept in one signed file under a time, count and size limit. */
module RemoteCache {
  import opened Results

  type Key = string
  type Report = string

  const REMOTE_CACHE_TTL_SECONDS := 3600.0
  const REMOTE_CACHE_MAX_ENTRIES := 64
  const REMOTE_CACHE_MAX_REPORT_BYTES := 1024 * 1024
  const REMOTE_CACHE_MAX_TOTAL_BYTES := 8 * 1024 * 1024

  /** HMAC and SHA-256 are free constructors. */
  datatype KeyId = KeyId(secret: string)
  datatype Signature = Hmac(secret: string, body: Body) | OtherSignature(text: string)

  datatype Body = Body(key: Key, createdAt: real, expiresAt: real, report: Report, keyId: KeyId)

  datatype Entry = Entry(body: Body, signature: Signature, bytes: nat)  // bytes: length of its indented JSON object

  datatype File = Absent | Unparsable(bytes: nat) | Listed(entries: seq<Entry>)

  datatype CacheError = CacheFailed

  function EncodedSize(entries: seq<Entry>): nat {
    if entries == [] then 2
    else EncodedSize(entries[..|entries| - 1]) + entries[|entries| - 1].bytes + 4
  }

  // ---------- filters ----------

  datatype Test = OwnedBy(id: KeyId) | LiveAt(now: real) | NotKeyed(key: Key)

  predicate Passes(entry: Entry, test: Test) {
    match test
    case OwnedBy(id) => entry.body.keyId == id
    case LiveAt(now) => entry.body.expiresAt > now
    case NotKeyed(key) => entry.body.key != key
  }

  function Filter(entries: seq<Entry>, test: Test): (kept: seq<Entry>)
    ensures |kept| <= |entries|
    ensures forall entry :: entry in kept <==> entry in entries && Passes(entry, test)
  {
    if entries == [] then []
    else
      var last := entries[|entries| - 1];
      Filter(entries[..|entries| - 1], test) + if Passes(last, test) then [last] else []
  }

  lemma {:induction false} NothingFilteredOut(entries: seq<Entry>, test: Test)
    ensures |Filter(entries, test)| == |entries| <==> Filter(entries, test) == entries
    ensures Filter(entries, test) == entries <==> forall entry :: entry in entries ==> Passes(entry, test)
  {
    if entries != [] {
      var init, last := entries[..|entries| - 1], entries[|entries| - 1];
      NothingFilteredOut(init, test);
      assert entries == init + [last];
      if !Passes(last, test) {
        assert Filter(entries, test) == Filter(init, test);
      }
    }
  }

  lemma {:induction false} FilterNeverGrows(entries: seq<Entry>, test: Test)
    ensures EncodedSize(Filter(entries, test)) <= EncodedSize(entries)
  {
    if entries != [] {
      var init, last := entries[..|entries| - 1], entries[|entries| - 1];
      FilterNeverGrows(init, test);
      if Passes(last, test) {
        assert (Filter(init, test) + [last])[..|Filter(init, test)|] == Filter(init, test);
      } else {
        assert Filter(entries, test) == Filter(init, test);
      }
    }
  }

  predicate DistinctKeys(entries: seq<Entry>) {
    forall i, j :: 0 <= i < j < |entries| ==> entries[i].body.key != entries[j].body.key
  }

  lemma {:induction false} FilterKeepsDistinct(entries: seq<Entry>, test: Test)
    requires DistinctKeys(entries)
    ensures DistinctKeys(Filter(entries, test))
  {
    if entries != [] {
      var init, last := entries[..|entries| - 1], entries[|entries| - 1];
      FilterKeepsDistinct(init, test);
      forall entry | entry in Filter(init, test)
        ensures entry.body.key != last.body.key
      {
        var i :| 0 <= i < |init| && init[i] == entry;
      }
    }
  }

  // ---------- the latest reports ----------

  datatype Stored = Stored(report: Report, expiresAt: real)

  /** Each key at most once, and each with the report that was stored for it last. */
  predicate Refines(entries: seq<Entry>, latest: map<Key, Stored>) {
    && DistinctKeys(entries)
    && forall entry :: entry in entries ==>
         entry.body.key in latest && latest[entry.body.key] == Stored(entry.body.report, entry.body.expiresAt)
  }

  lemma FilteredRefines(entries: seq<Entry>, latest: map<Key, Stored>, test: Test)
    requires Refines(entries, latest)
    ensures Refines(Filter(entries, test), latest)
  {
    FilterKeepsDistinct(entries, test);
  }

  lemma OneMoreRefines(entries: seq<Entry>, latest: map<Key, Stored>, entry: Entry)
    requires Refines(entries, latest) && forall e :: e in entries ==> e.body.key != entry.body.key
    ensures Refines(entries + [entry], latest[entry.body.key := Stored(entry.body.report, entry.body.expiresAt)])
  {
    var all := entries + [entry];
    forall i | 0 <= i < |entries|
      ensures all[i].body.key != entry.body.key
    {
      assert all[i] in entries;
    }
  }

  lemma SuffixRefines(entries: seq<Entry>, latest: map<Key, Stored>, start: nat)
    requires Refines(entries, latest) && start <= |entries|
    ensures Refines(entries[start..], latest)
  {}

  /** What this process can read: its own entries. */
  function Own(file: File, id: KeyId): seq<Entry> {
    match file
    case Listed(entries) => Filter(entries, OwnedBy(id))
    case _ => []
  }

  lemma AllOwn(entries: seq<Entry>, id: KeyId)
    requires forall entry :: entry in entries ==> entry.body.keyId == id
    ensures Own(Listed(entries), id) == entries
  {
    NothingFilteredOut(entries, OwnedBy(id));
  }

  /** The last entry for the key. */
  function Lookup(entries: seq<Entry>, key: Key): (found: Option<Report>) {
    if entries == [] then None
    else
      var last := entries[|entries| - 1];
      if last.body.key == key then Some(last.body.report) else Lookup(entries[..|entries| - 1], key)
  }

  lemma {:induction false} LookupFindsEntry(entries: seq<Entry>, key: Key)
    ensures Lookup(entries, key).Some? <==> exists entry :: entry in entries && entry.body.key == key
    ensures Lookup(entries, key).Some? ==>
              exists entry :: entry in entries && entry.body.key == key && entry.body.report == Lookup(entries, key).value
  {
    if entries != [] {
      var init, last := entries[..|entries| - 1], entries[|entries| - 1];
      assert entries == init + [last];
      assert last in entries;
      LookupFindsEntry(init, key);
      if last.body.key != key && Lookup(init, key).Some? {
        var entry :| entry in init && entry.body.key == key && entry.body.report == Lookup(init, key).value;
        assert entry in entries;
      }
    }
  }

  // ---------- the limits ----------

  /** `entries[-count:]`. A count of zero keeps everything. */
  function LastOf(entries: seq<Entry>, count: nat): seq<Entry> {
    if count == 0 || |entries| <= count then entries else entries[|entries| - count..]
  }

  predicate WithinLimits(entries: seq<Entry>, maxEntries: nat, maxBytes: nat) {
    (maxEntries == 0 || |entries| <= maxEntries) && EncodedSize(entries) <= maxBytes
  }

  /** Of all suffixes that respect the limits, the longest. */
  predicate IsLongestSuffix(kept: seq<Entry>, entries: seq<Entry>, maxEntries: nat, maxBytes: nat) {
    && |kept| <= |entries| && kept == entries[|entries| - |kept|..]
    && (kept == [] || WithinLimits(kept, maxEntries, maxBytes))
    && forall start :: 0 <= start < |entries| - |kept| ==> !WithinLimits(entries[start..], maxEntries, maxBytes)
  }

  /** The slice and the loop that pops entries off the front. */
  method Trim(entries: seq<Entry>, maxEntries: nat, maxBytes: nat) returns (kept: seq<Entry>)
    ensures IsLongestSuffix(kept, entries, maxEntries, maxBytes)
  {
    kept := LastOf(entries, maxEntries);
    ghost var start := |entries| - |kept|;
    assert entries[0..] == entries;
    while kept != [] && EncodedSize(kept) > maxBytes
      invariant 0 <= start <= |entries| && kept == entries[start..]
      invariant maxEntries == 0 || |kept| <= maxEntries
      invariant forall longer :: 0 <= longer < start ==> !WithinLimits(entries[longer..], maxEntries, maxBytes)
      decreases |kept|
    {
      kept := kept[1..];
      start := start + 1;
    }
  }

  /** What is kept of some entries and a new one: the longest suffix within the limits of the live entries
      for other keys and the new one. */
  predicate Updates(kept: seq<Entry>, entries: seq<Entry>, entry: Entry, now: real, maxEntries: nat, maxBytes: nat) {
    IsLongestSuffix(
      kept, Filter(Filter(entries, LiveAt(now)), NotKeyed(entry.body.key)) + [entry], maxEntries, maxBytes)
  }

  /** The new entry is what is kept last, unless it alone exceeds the limit. */
  lemma NewestIsKept(
    kept: seq<Entry>, entries: seq<Entry>, entry: Entry, now: real, maxEntries: nat, maxBytes: nat)
    requires Updates(kept, entries, entry, now, maxEntries, maxBytes)
    ensures kept != [] ==> kept[|kept| - 1] == entry && EncodedSize(kept) <= maxBytes
    ensures kept == [] <==> EncodedSize([entry]) > maxBytes
  {
    var rest := Filter(Filter(entries, LiveAt(now)), NotKeyed(entry.body.key));
    var all := rest + [entry];
    assert all[|rest|..] == [entry];
    if kept != [] {
      LastIsSmallest(kept);
    }
  }

  lemma {:induction false} LastIsSmallest(entries: seq<Entry>)
    requires entries != []
    ensures EncodedSize([entries[|entries| - 1]]) <= EncodedSize(entries)
  {
    var last := [entries[|entries| - 1]];
    assert last[..0] == [];
    if |entries| > 1 {
      LastIsSmallest(entries[..|entries| - 1]);
    }
  }

  /** The live entries for other keys and the new one, cut to the limits. */
  method Keep(
    entries: seq<Entry>, entry: Entry, now: real, maxEntries: nat, maxBytes: nat, ghost latest: map<Key, Stored>)
    returns (kept: seq<Entry>)
    requires Refines(entries, latest)
    ensures Updates(kept, entries, entry, now, maxEntries, maxBytes)
    ensures Refines(kept, latest[entry.body.key := Stored(entry.body.report, entry.body.expiresAt)])
    ensures forall e :: e in kept ==> e == entry || e in entries
  {
    var rest := Filter(Filter(entries, LiveAt(now)), NotKeyed(entry.body.key));
    kept := Trim(rest + [entry], maxEntries, maxBytes);
    KeptRefines(entries, latest, rest, kept, entry, now);
  }

  /** The count limit holds of every result exactly when it is at least one. */
  lemma ZeroEntriesMeansNoLimit(maxEntries: nat)
    ensures (forall entries :: |LastOf(entries, maxEntries)| <= maxEntries) <==> maxEntries >= 1
  {
    if maxEntries == 0 {
      var entry := Entry(Body("", 0.0, 0.0, "", KeyId("")), OtherSignature(""), 0);
      assert |LastOf([entry], 0)| == 1;
    }
  }

  class RemoteScanCache {
    const secret: string
    const ttl: real
    const maxEntries: nat
    const maxReportBytes: nat
    const maxTotalBytes: nat
    var file: File
    ghost var latest: map<Key, Stored>  // the last report written for each key
    ghost var faulted: bool

    /** Only this cache signs with its secret. */
    ghost predicate Valid()
      reads this
    {
      Refines(Own(file, KeyId(secret)), latest)
    }

    constructor (secret: string, ttl: real, maxEntries: nat, maxReportBytes: nat, maxTotalBytes: nat, file: File)
      requires Own(file, KeyId(secret)) == []
      ensures Valid() && this.secret == secret && this.ttl == ttl && this.file == file && latest == map[]
      ensures this.maxEntries == maxEntries
    {
      this.secret, this.ttl, this.maxEntries := secret, ttl, maxEntries;
      this.maxReportBytes, this.maxTotalBytes := maxReportBytes, maxTotalBytes;
      this.file := file;
      latest, faulted := map[], false;
    }

    predicate Signed(entry: Entry) {
      entry.signature == Hmac(secret, entry.body)
    }

    /** The file holds the new entry, at the end of what is kept of the others. */
    predicate Holds(file: File, entries: seq<Entry>, entry: Entry, later: real) {
      && file.Listed?
      && Updates(file.entries, entries, entry, later, maxEntries, maxTotalBytes)
      && file.entries != [] && file.entries[|file.entries| - 1] == entry
    }

    /** The file is a list within the size limit, and every entry of this process is signed. */
    predicate Loadable(file: File) {
      match file
      case Absent => true
      case Unparsable(_) => false
      case Listed(entries) =>
        EncodedSize(entries) <= maxTotalBytes && forall entry :: entry in Own(file, KeyId(secret)) ==> Signed(entry)
    }

    /** `_write_unlocked`: the replacement is atomic, but an error may follow it. */
    method Write(entries: seq<Entry>) returns (r: Result<(), CacheError>)
      modifies this`file, this`faulted
      ensures file == old(file) || (file == Listed(entries) && EncodedSize(entries) <= maxTotalBytes)
      ensures r.Ok? ==> file == Listed(entries) && EncodedSize(entries) <= maxTotalBytes
      ensures r.Err? && !faulted ==> EncodedSize(entries) > maxTotalBytes
      ensures old(faulted) ==> faulted
    {
      if EncodedSize(entries) > maxTotalBytes {
        return Err(CacheFailed);
      }
      if * {
        faulted := true;
        return Err(CacheFailed);
      }
      file := Listed(entries);
      if * {
        faulted := true;
        return Err(CacheFailed);
      }
      return Ok(());
    }

    /** `_load_unlocked`: entries of other processes are dropped from the file. */
    method Load() returns (r: Result<seq<Entry>, CacheError>)
      modifies this`file, this`faulted
      ensures Own(file, KeyId(secret)) == old(Own(file, KeyId(secret)))
      ensures r.Ok? ==> r.value == old(Own(file, KeyId(secret))) && forall entry :: entry in r.value ==> Signed(entry)
      ensures r.Ok? ==> EncodedSize(r.value) <= maxTotalBytes || r.value == []
      ensures old(faulted) ==> faulted
      ensures r.Ok? ==> Loadable(old(file))
      ensures r.Err? && !faulted ==> !Loadable(old(file))
    {
      match file
      case Absent => return Ok([]);
      case Unparsable(_) => return Err(CacheFailed);
      case Listed(entries) =>
        if EncodedSize(entries) > maxTotalBytes {
          return Err(CacheFailed);
        }
        var current := Filter(entries, OwnedBy(KeyId(secret)));
        AllOwn(current, KeyId(secret));
        FilterNeverGrows(entries, OwnedBy(KeyId(secret)));
        if exists entry | entry in current :: !Signed(entry) {
          return Err(CacheFailed);
        }
        if |current| != |entries| {
          var written := Write(current);
          if written.Err? {
            return Err(CacheFailed);
          }
        }
        return Ok(current);
    }

    /** `get`: the report stored last for the key, or nothing, and never past its time. */
    method Get(key: Key, now: real) returns (r: Result<Option<Report>, CacheError>)
      requires Valid()
      modifies this`file, this`faulted
      ensures Valid() && latest == old(latest)
      ensures r.Ok? ==> r.value == Lookup(Filter(old(Own(file, KeyId(secret))), LiveAt(now)), key)
      ensures r.Ok? && r.value.Some? ==>
                key in latest && latest[key].report == r.value.value && now < latest[key].expiresAt
      ensures r.Ok? ==> Loadable(old(file))
      ensures r.Err? && !faulted ==> !Loadable(old(file))
    {
      var loaded := Load();
      if loaded.Err? {
        return Err(CacheFailed);
      }
      var active := Filter(loaded.value, LiveAt(now));
      FilteredRefines(loaded.value, latest, LiveAt(now));
      if |active| != |loaded.value| {
        AllOwn(active, KeyId(secret));
        FilterNeverGrows(loaded.value, LiveAt(now));
        var written := Write(active);
        if written.Err? {
          return Err(CacheFailed);
        }
      }
      LookupFindsEntry(active, key);
      var found := FindLast(active, key);
      return Ok(found);
    }

    /** `for entry in reversed(active)`. */
    method FindLast(entries: seq<Entry>, key: Key) returns (found: Option<Report>)
      ensures found == Lookup(entries, key)
    {
      var i := |entries|;
      assert entries[..i] == entries;
      while i > 0
        invariant 0 <= i <= |entries|
        invariant Lookup(entries, key) == Lookup(entries[..i], key)
      {
        i := i - 1;
        assert entries[..i + 1][..i] == entries[..i];
        if entries[i].body.key == key {
          return Some(entries[i].body.report);
        }
      }
      return None;
    }

    /** `store`, with the two readings of the clock: the longest recent suffix within the limits is kept. */
    method Store(key: Key, report: Report, entryBytes: nat, now: real, later: real) returns (r: Result<(), CacheError>)
      requires Valid()
      modifies this
      ensures Valid()
      ensures latest == old(latest) || latest == old(latest)[key := Stored(report, now + ttl)]
      ensures r.Ok? ==>
                && latest == old(latest)[key := Stored(report, now + ttl)]
                && Holds(file, old(Own(file, KeyId(secret))), SignedEntry(secret, key, report, entryBytes, now, ttl), later)
      ensures r.Ok? ==> |report| <= maxReportBytes && Loadable(old(file))
      ensures r.Err? && !faulted ==>
                || |report| > maxReportBytes || !Loadable(old(file))
                || EncodedSize([SignedEntry(secret, key, report, entryBytes, now, ttl)]) > maxTotalBytes
    {
      if |report| > maxReportBytes {
        return Err(CacheFailed);
      }
      var entry := SignedEntry(secret, key, report, entryBytes, now, ttl);
      var loaded := Load();
      if loaded.Err? {
        return Err(CacheFailed);
      }
      r := StoreEntry(loaded.value, entry, later);
    }

    method StoreEntry(entries: seq<Entry>, entry: Entry, later: real) returns (r: Result<(), CacheError>)
      requires Valid() && Refines(entries, latest)
      requires forall e :: e in entries ==> e.body.keyId == KeyId(secret)
      requires entry.body.keyId == KeyId(secret)
      modifies this
      ensures Valid()
      ensures latest == old(latest)
           || latest == old(latest)[entry.body.key := Stored(entry.body.report, entry.body.expiresAt)]
      ensures r.Ok? ==>
                && latest == old(latest)[entry.body.key := Stored(entry.body.report, entry.body.expiresAt)]
                && Holds(file, entries, entry, later)
      ensures old(faulted) ==> faulted
      ensures r.Err? && !faulted ==> EncodedSize([entry]) > maxTotalBytes
    {
      var kept := Keep(entries, entry, later, maxEntries, maxTotalBytes, latest);
      NewestIsKept(kept, entries, entry, later, maxEntries, maxTotalBytes);
      if kept == [] || kept[|kept| - 1] != entry {
        return Err(CacheFailed);
      }
      r := Publish(kept, entry);
    }

    /** Write what is kept; from then on the new report is the latest for its key. */
    method Publish(kept: seq<Entry>, entry: Entry) returns (r: Result<(), CacheError>)
      requires Valid()
      requires Refines(kept, latest[entry.body.key := Stored(entry.body.report, entry.body.expiresAt)])
      requires forall e :: e in kept ==> e.body.keyId == KeyId(secret)
      modifies this
      ensures Valid()
      ensures latest == old(latest)
           || latest == old(latest)[entry.body.key := Stored(entry.body.report, entry.body.expiresAt)]
      ensures r.Ok? ==>
                && latest == old(latest)[entry.body.key := Stored(entry.body.report, entry.body.expiresAt)]
                && file == Listed(kept) && EncodedSize(kept) <= maxTotalBytes
      ensures old(faulted) ==> faulted
      ensures r.Err? && !faulted ==> EncodedSize(kept) > maxTotalBytes
    {
      AllOwn(kept, KeyId(secret));
      ghost var before := file;
      r := Write(kept);
      if r.Ok? || file != before {
        latest := latest[entry.body.key := Stored(entry.body.report, entry.body.expiresAt)];
      }
    }
  }

  function SignedEntry(secret: string, key: Key, report: Report, bytes: nat, now: real, ttl: real): Entry {
    var body := Body(key, now, now + ttl, report, KeyId(secret));
    Entry(body, Hmac(secret, body), bytes)
  }

  /** What a store keeps refines the latest reports with the new one. */
  lemma KeptRefines(
    entries: seq<Entry>, latest: map<Key, Stored>, rest: seq<Entry>, kept: seq<Entry>, entry: Entry, now: real)
    requires Refines(entries, latest)
    requires rest == Filter(Filter(entries, LiveAt(now)), NotKeyed(entry.body.key))
    requires |kept| <= |rest| + 1 && kept == (rest + [entry])[|rest| + 1 - |kept|..]
    ensures Refines(kept, latest[entry.body.key := Stored(entry.body.report, entry.body.expiresAt)])
    ensures forall e :: e in kept ==> e == entry || e in entries
  {
    FilteredRefines(entries, latest, LiveAt(now));
    FilteredRefines(Filter(entries, LiveAt(now)), latest, NotKeyed(entry.body.key));
    OneMoreRefines(rest, latest, entry);
    SuffixRefines(
      rest + [entry], latest[entry.body.key := Stored(entry.body.report, entry.body.expiresAt)], |rest| + 1 - |kept|);
    forall e | e in kept
      ensures e == entry || e in rest
    {}
  }

  /** A report that was just stored is read back until it expires. */
  lemma StoredReportIsRead(entries: seq<Entry>, entry: Entry, now: real)
    requires entries != [] && entries[|entries| - 1] == entry && now < entry.body.expiresAt
    ensures Lookup(Filter(entries, LiveAt(now)), entry.body.key) == Some(entry.body.report)
  {
    var kept := Filter(entries, LiveAt(now));
    assert kept[|kept| - 1] == entry;
  }
}
