/** `TrustMutationConfirmationManager`: one-time challenges, their expiry, and the issue limits. */
module Confirmation {
  import opened Results
  import opened TrustStore

  const CONFIRMATION_EXPIRY_SECONDS := 300.0
  const ISSUE_WINDOW_SECONDS := 60.0
  const MAX_ISSUES_PER_WINDOW := 32
  const MAX_LIVE_CHALLENGES := 128

  datatype ChallengeRecord<B> = ChallengeRecord(
    issuedAt: real, expiresAt: real, binding: B, proposedEntryId: Id, consumed: bool)

  /** A signed token. Only the holder of the secret can make one; its binding digest is injective. */
  datatype Token<B> = Token(signer: string, challengeId: Id, issuedAt: real, expiresAt: real, binding: B)

  datatype ConfirmationError = Invalid | Expired | Capacity | RateLimited

  datatype Issuance = Issuance(id: Id, at: real)

  function PruneExpired<B>(records: map<Id, ChallengeRecord<B>>, now: real): map<Id, ChallengeRecord<B>> {
    map id | id in records && records[id].expiresAt > now :: records[id]
  }

  function PruneIssueWindow(issuedAt: seq<real>, now: real): seq<real> {
    if issuedAt == [] then []
    else
      var last := issuedAt[|issuedAt| - 1];
      PruneIssueWindow(issuedAt[..|issuedAt| - 1], now)
      + if last > now - ISSUE_WINDOW_SECONDS then [last] else []
  }

  // ---------- windows over the issue log ----------

  ghost predicate Sorted(log: seq<Issuance>) {
    forall i, j :: 0 <= i <= j < |log| ==> log[i].at <= log[j].at
  }

  /** Any `count + 1` consecutive issues span at least `gap` seconds. */
  ghost predicate Spaced(log: seq<Issuance>, count: nat, gap: real) {
    forall i, j :: 0 <= i && i + count <= j < |log| ==> log[j].at >= log[i].at + gap
  }

  lemma OneMoreStaysSpaced(log: seq<Issuance>, next: Issuance, count: nat, gap: real)
    requires Spaced(log, count, gap)
    requires count > 0
    requires forall i :: 0 <= i <= |log| - count ==> log[i].at + gap <= next.at
    ensures Spaced(log + [next], count, gap)
  {}

  lemma OneMoreStaysSorted(log: seq<Issuance>, next: Issuance)
    requires Sorted(log) && forall i :: 0 <= i < |log| ==> log[i].at <= next.at
    ensures Sorted(log + [next])
  {}

  /** How many issues fall into the window of `width` seconds that starts at `from`. */
  function CountInWindow(log: seq<Issuance>, from: real, width: real): nat {
    if log == [] then 0
    else
      var last := log[|log| - 1];
      CountInWindow(log[..|log| - 1], from, width) + if from <= last.at < from + width then 1 else 0
  }

  lemma {:induction false} CountAfterPrefix(log: seq<Issuance>, from: real, width: real, outside: nat)
    requires outside <= |log|
    requires forall i :: 0 <= i < outside ==> !(from <= log[i].at < from + width)
    ensures CountInWindow(log, from, width) <= |log| - outside
  {
    if log != [] {
      var init := log[..|log| - 1];
      CountAfterPrefix(init, from, width, if outside == |log| then outside - 1 else outside);
    }
  }

  /** Spacing bounds every window, wherever it starts. */
  lemma {:induction false} SpacingBoundsWindow(log: seq<Issuance>, count: nat, from: real, width: real)
    requires Spaced(log, count, width) && count > 0
    ensures CountInWindow(log, from, width) <= count
  {
    if log != [] {
      var init, last := log[..|log| - 1], log[|log| - 1];
      if from <= last.at < from + width {
        var outside := if |log| > count then |log| - count else 0;
        CountAfterPrefix(log, from, width, outside);
      } else {
        SpacingBoundsWindow(init, count, from, width);
      }
    }
  }

  lemma {:induction false} OldIssuesArePruned(times: seq<real>, now: real)
    requires forall i :: 0 <= i < |times| ==> times[i] <= now - ISSUE_WINDOW_SECONDS
    ensures PruneIssueWindow(times, now) == []
  {
    if times != [] {
      OldIssuesArePruned(times[..|times| - 1], now);
    }
  }

  lemma {:induction false} PruningKeepsSuffix(log: seq<Issuance>, start: nat, now: real) returns (start': nat)
    requires Sorted(log) && start <= |log|
    requires forall i :: 0 <= i < start ==> log[i].at <= now - ISSUE_WINDOW_SECONDS
    ensures start <= start' <= |log|
    ensures PruneIssueWindow(TimesFrom(log, start), now) == TimesFrom(log, start')
    ensures forall i :: 0 <= i < start' ==> log[i].at <= now - ISSUE_WINDOW_SECONDS
  {
    if start == |log| {
      return start;
    }
    var init, last := log[..|log| - 1], log[|log| - 1];
    var times := TimesFrom(log, start);
    if last.at > now - ISSUE_WINDOW_SECONDS {
      assert times[..|times| - 1] == TimesFrom(init, start);
      start' := PruningKeepsSuffix(init, start, now);
      assert TimesFrom(log, start') == TimesFrom(init, start') + [last.at];
    } else {
      forall i | 0 <= i < |log|
        ensures log[i].at <= last.at
      {}
      OldIssuesArePruned(times, now);
      start' := |log|;
    }
  }

  ghost function TimesFrom(log: seq<Issuance>, start: nat): (times: seq<real>)
    requires start <= |log|
    ensures |times| == |log| - start
  {
    seq(|log| - start, i requires 0 <= i < |log| - start => log[start + i].at)
  }

  lemma {:induction false} DistinctIdsFill<B>(log: seq<Issuance>, start: nat, records: map<Id, ChallengeRecord<B>>)
    requires start <= |log|
    requires forall i, j :: 0 <= i < j < |log| ==> log[i].id != log[j].id
    requires forall i :: start <= i < |log| ==> log[i].id in records
    ensures |log| - start <= |records|
    decreases |log| - start
  {
    if start < |log| {
      var first := log[start].id;
      var rest := records - {first};
      assert |rest.Keys| + 1 == |records.Keys| by {
        assert rest.Keys == records.Keys - {first};
      }
      DistinctIdsFill(log, start + 1, rest);
    }
  }

  ghost predicate DistinctIds(log: seq<Issuance>, used: set<Id>) {
    && (forall i, j :: 0 <= i < j < |log| ==> log[i].id != log[j].id)
    && (forall i :: 0 <= i < |log| ==> log[i].id in used)
  }

  ghost predicate RecordsKept<B>(records: map<Id, ChallengeRecord<B>>, used: set<Id>, consumed: set<Id>) {
    forall id :: id in records ==>
      && id in used
      && records[id].expiresAt == records[id].issuedAt + CONFIRMATION_EXPIRY_SECONDS
      && (records[id].consumed <==> id in consumed)
  }

  /** The manager's state still shows every issue that is not out of its window. */
  ghost predicate Tracked<B>(
    log: seq<Issuance>, start: nat, issuedAt: seq<real>, records: map<Id, ChallengeRecord<B>>, latest: real)
  {
    && start <= |log|
    && issuedAt == TimesFrom(log, start)
    && (forall i :: 0 <= i < |log| ==> log[i].at <= latest)
    && (forall i :: 0 <= i < start ==> log[i].at <= latest - ISSUE_WINDOW_SECONDS)
    && (forall i :: 0 <= i < |log| ==>
          || (log[i].id in records && records[log[i].id].issuedAt == log[i].at)
          || log[i].at + CONFIRMATION_EXPIRY_SECONDS <= latest)
  }

  lemma OneMoreIsTracked<B>(
    log: seq<Issuance>, start: nat, issuedAt: seq<real>, records: map<Id, ChallengeRecord<B>>, latest: real,
    id: Id, record: ChallengeRecord<B>, used: set<Id>)
    requires Tracked(log, start, issuedAt, records, latest) && DistinctIds(log, used) && id !in used
    requires record.issuedAt == latest
    ensures Tracked(log + [Issuance(id, latest)], start, issuedAt + [latest], records[id := record], latest)
  {
    var grown := log + [Issuance(id, latest)];
    assert TimesFrom(grown, start) == TimesFrom(log, start) + [latest];
  }

  lemma PruningStaysTracked<B>(
    log: seq<Issuance>, start: nat, issuedAt: seq<real>, records: map<Id, ChallengeRecord<B>>, latest: real)
    returns (start': nat)
    requires Tracked(log, start, issuedAt, records, latest) && Sorted(log)
    ensures Tracked(log, start', PruneIssueWindow(issuedAt, latest), records, latest)
  {
    start' := PruningKeepsSuffix(log, start, latest);
  }

  class TrustMutationConfirmationManager<B(==)> {
    const secret: string
    var records: map<Id, ChallengeRecord<B>>
    var issuedAt: seq<real>

    ghost var log: seq<Issuance>        // every issue since the last invalidation
    ghost var windowStart: nat       // where `issuedAt` begins in the log
    ghost var usedIds: set<Id>
    ghost var consumedIds: set<Id>
    ghost var latest: real           // the latest clock reading
    ghost var steady: bool           // the clock never went back

    constructor (secret: string, now: real)
      ensures Valid() && this.secret == secret
      ensures records == map[] && log == [] && consumedIds == {} && usedIds == {} && steady
    {
      this.secret := secret;
      records, issuedAt := map[], [];
      log, windowStart, usedIds, consumedIds, latest, steady := [], 0, {}, {}, now, true;
    }

    /** With a clock that never goes back, the two limits hold over the whole log. */
    ghost predicate WithinLimits()
      reads this
    {
      && Sorted(log)
      && Spaced(log, MAX_ISSUES_PER_WINDOW, ISSUE_WINDOW_SECONDS)
      && Spaced(log, MAX_LIVE_CHALLENGES, CONFIRMATION_EXPIRY_SECONDS)
    }

    ghost predicate Valid()
      reads this
    {
      && DistinctIds(log, usedIds)
      && RecordsKept(records, usedIds, consumedIds)
      && consumedIds <= usedIds
      && (steady ==> Tracked(log, windowStart, issuedAt, records, latest) && WithinLimits())
    }

    /** Read the clock; `_prune_expired`. */
    method PruneRecords(now: real)
      requires Valid()
      modifies this`records, this`latest, this`steady
      ensures Valid()
      ensures latest == now && steady == (old(steady) && old(latest) <= now)
      ensures records == PruneExpired(old(records), now)
    {
      steady := steady && latest <= now;
      latest := now;
      records := PruneExpired(records, now);
    }

    method MarkConsumed(id: Id)
      requires Valid() && id in records && !records[id].consumed
      modifies this`records, this`consumedIds
      ensures Valid()
      ensures records == old(records)[id := old(records)[id].(consumed := true)]
      ensures consumedIds == old(consumedIds) + {id}
    {
      records := records[id := records[id].(consumed := true)];
      consumedIds := consumedIds + {id};
    }

    /** `_prune_issue_window`, at the time just read. */
    method PruneWindow(now: real)
      requires Valid() && latest == now
      modifies this`issuedAt, this`windowStart
      ensures Valid()
      ensures issuedAt == PruneIssueWindow(old(issuedAt), now)
    {
      if steady {
        windowStart := PruningStaysTracked(log, windowStart, issuedAt, records, latest);
      }
      issuedAt := PruneIssueWindow(issuedAt, now);
    }

    /** Free slots mean that the issues a full limit ago are out of their windows. */
    lemma FreeSlotsSpaceIssues()
      requires Valid() && steady
      requires forall id :: id in records ==> records[id].expiresAt > latest
      requires |records| < MAX_LIVE_CHALLENGES && |issuedAt| < MAX_ISSUES_PER_WINDOW
      ensures forall i :: 0 <= i <= |log| - MAX_ISSUES_PER_WINDOW ==> log[i].at + ISSUE_WINDOW_SECONDS <= latest
      ensures forall i :: 0 <= i <= |log| - MAX_LIVE_CHALLENGES ==> log[i].at + CONFIRMATION_EXPIRY_SECONDS <= latest
    {
      var oldest := |log| - MAX_LIVE_CHALLENGES;
      if oldest >= 0 && log[oldest].at + CONFIRMATION_EXPIRY_SECONDS > latest {
        forall i | oldest <= i < |log|
          ensures log[i].id in records
        {
          assert log[oldest].at <= log[i].at;
        }
        DistinctIdsFill(log, oldest, records);
      }
      forall i | 0 <= i <= oldest
        ensures log[i].at + CONFIRMATION_EXPIRY_SECONDS <= latest
      {
        assert log[i].at <= log[oldest].at;
      }
    }

    method Insert(record: ChallengeRecord<B>, id: Id)
      requires Valid() && id !in usedIds
      requires record.issuedAt == latest && record.expiresAt == latest + CONFIRMATION_EXPIRY_SECONDS && !record.consumed
      requires forall other :: other in records ==> records[other].expiresAt > latest
      requires |records| < MAX_LIVE_CHALLENGES && |issuedAt| < MAX_ISSUES_PER_WINDOW
      modifies this
      ensures Valid()
      ensures steady == old(steady) && consumedIds == old(consumedIds)
      ensures usedIds == old(usedIds) + {id}
      ensures log == old(log) + [Issuance(id, old(latest))]
      ensures records == old(records)[id := record]
    {
      ghost var next := Issuance(id, record.issuedAt);
      if steady {
        FreeSlotsSpaceIssues();
        OneMoreStaysSpaced(log, next, MAX_ISSUES_PER_WINDOW, ISSUE_WINDOW_SECONDS);
        OneMoreStaysSpaced(log, next, MAX_LIVE_CHALLENGES, CONFIRMATION_EXPIRY_SECONDS);
        OneMoreStaysSorted(log, next);
        OneMoreIsTracked(log, windowStart, issuedAt, records, latest, id, record, usedIds);
      }
      records := records[id := record];
      issuedAt := issuedAt + [record.issuedAt];
      log := log + [next];
      usedIds := usedIds + {id};
    }

    /** `issue`, at the clock reading `now`, for a new random id. */
    method Issue(binding: B, proposedEntryId: Id, id: Id, now: real) returns (r: Result<Token<B>, ConfirmationError>)
      requires Valid() && id !in usedIds
      modifies this
      ensures Valid()
      ensures steady == (old(steady) && old(latest) <= now)
      ensures consumedIds == old(consumedIds)
      ensures r.Ok? ==>
                && r.value == Token(secret, id, now, now + CONFIRMATION_EXPIRY_SECONDS, binding)
                && usedIds == old(usedIds) + {id}
                && log == old(log) + [Issuance(id, now)]
                && records == PruneExpired(old(records), now)[
                     id := ChallengeRecord(now, now + CONFIRMATION_EXPIRY_SECONDS, binding, proposedEntryId, false)]
      ensures r.Err? ==>
                usedIds == old(usedIds) && log == old(log) && records == PruneExpired(old(records), now)
      ensures r.Err? <==>
                || |PruneExpired(old(records), now)| >= MAX_LIVE_CHALLENGES
                || |PruneIssueWindow(old(issuedAt), now)| >= MAX_ISSUES_PER_WINDOW
    {
      PruneRecords(now);
      PruneWindow(now);
      if |records| >= MAX_LIVE_CHALLENGES {
        return Err(Capacity);
      }
      if |issuedAt| >= MAX_ISSUES_PER_WINDOW {
        return Err(RateLimited);
      }
      var token := Token(secret, id, now, now + CONFIRMATION_EXPIRY_SECONDS, binding);
      Insert(ChallengeRecord(now, token.expiresAt, binding, proposedEntryId, false), id);
      return Ok(token);
    }

    /** `authenticate_and_consume`. */
    method AuthenticateAndConsume(token: Token<B>, now: real)
      returns (r: Result<ChallengeRecord<B>, ConfirmationError>)
      requires Valid()
      modifies this
      ensures Valid()
      ensures usedIds == old(usedIds) && log == old(log)
      ensures r.Ok? <==>
                && token.signer == secret
                && token.challengeId in old(records)
                && var record := old(records)[token.challengeId];
                && now < record.expiresAt
                && !record.consumed
                && token == Token(secret, token.challengeId, record.issuedAt, record.expiresAt, record.binding)
      ensures r.Ok? ==>
                && token.challengeId !in old(consumedIds)
                && consumedIds == old(consumedIds) + {token.challengeId}
                && r.value == old(records)[token.challengeId].(consumed := true)
                && r.value.binding == token.binding
      ensures r.Err? ==> consumedIds == old(consumedIds)
      ensures forall id :: id in records ==>
                id in old(records) && records[id].(consumed := old(records)[id].consumed) == old(records)[id]
    {
      if token.signer != secret || token.expiresAt != token.issuedAt + CONFIRMATION_EXPIRY_SECONDS {
        return Err(Invalid);
      }
      if token.challengeId !in records {
        return Err(Invalid);
      }
      var record := records[token.challengeId];
      PruneRecords(now);
      if now >= record.expiresAt {
        return Err(Expired);
      }
      if record.consumed
         || token.issuedAt != record.issuedAt || token.expiresAt != record.expiresAt || token.binding != record.binding
      {
        return Err(Invalid);
      }
      MarkConsumed(token.challengeId);
      return Ok(records[token.challengeId]);
    }

    /** `invalidate_all`. */
    method InvalidateAll()
      requires Valid()
      modifies this
      ensures Valid()
      ensures records == map[] && issuedAt == [] && log == []
      ensures usedIds == old(usedIds) && consumedIds == old(consumedIds)
    {
      records, issuedAt := map[], [];
      log, windowStart := [], 0;
    }

    /** Between invalidations, and with a clock that never goes back, no window of 60 seconds sees more
        than 32 issues and no window of 300 seconds more than 128. Consuming frees no slot. */
    lemma IssueLimits(from: real)
      requires Valid() && steady
      ensures CountInWindow(log, from, ISSUE_WINDOW_SECONDS) <= MAX_ISSUES_PER_WINDOW
      ensures CountInWindow(log, from, CONFIRMATION_EXPIRY_SECONDS) <= MAX_LIVE_CHALLENGES
    {
      SpacingBoundsWindow(log, MAX_ISSUES_PER_WINDOW, from, ISSUE_WINDOW_SECONDS);
      SpacingBoundsWindow(log, MAX_LIVE_CHALLENGES, from, CONFIRMATION_EXPIRY_SECONDS);
    }
  }
}
