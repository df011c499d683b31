/** `TrustReadService.list` and `TrustCursorManager`: filter, sort and page the live trust entries, with
    signed cursors that bind the filters, the limit and the snapshot. */
module TrustListing {
  import opened Results

  const TRUST_CURSOR_EXPIRY_SECONDS := 300
  const MAX_LIMIT := 100

  datatype Row = Row(
    expiresAt: string, repoId: string, commandScope: string, policyVersion: string, rulesetVersion: string,
    fingerprint: string, entryId: string, details: string)

  datatype Request = Request(repoId: Option<string>, commandScope: Option<string>, limit: int)

  /** SHA-256 over the filtered entries is a free constructor. */
  datatype Digest = Digest(rows: seq<Row>)

  datatype Payload = Payload(
    repoIdHash: Option<string>, commandScope: Option<string>, limit: int, digest: Digest, offset: int,
    issuedAt: int, expiresAt: int, nonce: string)

  datatype Token = Signed(secret: string, payload: Payload) | OtherText(text: string)

  datatype Page = Page(entries: seq<Row>, next: Option<Token>, digest: Digest)

  datatype ListError = LimitExceeded | CursorInvalid

  /** The service: `hash` is the privacy hash of repository ids. */
  datatype Service = Service(secret: string, hash: string -> string)

  ghost predicate Injective(hash: string -> string) {
    forall a, b :: hash(a) == hash(b) ==> a == b
  }

  // ---------- the order of the list ----------

  predicate StringBefore(left: string, right: string) {
    if left == "" then true
    else if right == "" then false
    else left[0] < right[0] || (left[0] == right[0] && StringBefore(left[1..], right[1..]))
  }

  predicate KeyBefore(left: seq<string>, right: seq<string>)
    requires |left| == |right|
  {
    || left == []
    || (left[0] != right[0] && StringBefore(left[0], right[0]))
    || (left[0] == right[0] && KeyBefore(left[1..], right[1..]))
  }

  /** `_entry_sort_key`. */
  function SortKey(row: Row, hash: string -> string): (key: seq<string>)
    ensures |key| == 7
  {
    [row.expiresAt, hash(row.repoId), row.commandScope, row.policyVersion, row.rulesetVersion, row.fingerprint,
     row.entryId]
  }

  predicate Before(left: Row, right: Row, hash: string -> string) {
    KeyBefore(SortKey(left, hash), SortKey(right, hash))
  }

  lemma {:induction false} StringOrder(a: string, b: string, c: string)
    ensures StringBefore(a, b) || StringBefore(b, a)
    ensures StringBefore(a, b) && StringBefore(b, c) ==> StringBefore(a, c)
    ensures StringBefore(a, b) && StringBefore(b, a) ==> a == b
  {
    if a != "" && b != "" {
      StringOrder(a[1..], b[1..], if c == "" then "" else c[1..]);
      assert a == [a[0]] + a[1..] && b == [b[0]] + b[1..];
    }
  }

  lemma {:induction false} KeyOrder(a: seq<string>, b: seq<string>, c: seq<string>)
    requires |a| == |b| == |c|
    ensures KeyBefore(a, b) || KeyBefore(b, a)
    ensures KeyBefore(a, b) && KeyBefore(b, c) ==> KeyBefore(a, c)
    ensures KeyBefore(a, b) && KeyBefore(b, a) ==> a == b
  {
    if a != [] {
      StringOrder(a[0], b[0], c[0]);
      StringOrder(b[0], a[0], c[0]);
      StringOrder(b[0], c[0], a[0]);
      KeyOrder(a[1..], b[1..], c[1..]);
      assert a == [a[0]] + a[1..] && b == [b[0]] + b[1..];
    }
  }

  predicate Sorted(rows: seq<Row>, hash: string -> string) {
    forall i, j :: 0 <= i < j < |rows| ==> Before(rows[i], rows[j], hash)
  }

  function Insert(row: Row, rows: seq<Row>, hash: string -> string): (inserted: seq<Row>)
    ensures multiset(inserted) == multiset(rows) + multiset{row}
  {
    if rows == [] then [row]
    else if Before(row, rows[0], hash) then
      assert [row] + rows == [row] + rows;
      [row] + rows
    else
      assert rows == [rows[0]] + rows[1..];
      [rows[0]] + Insert(row, rows[1..], hash)
  }

  /** `list.sort`. */
  function Sort(rows: seq<Row>, hash: string -> string): (sorted: seq<Row>)
    ensures multiset(sorted) == multiset(rows)
  {
    if rows == [] then []
    else
      assert rows == [rows[0]] + rows[1..];
      Insert(rows[0], Sort(rows[1..], hash), hash)
  }

  lemma {:induction false} InsertKeepsSorted(row: Row, rows: seq<Row>, hash: string -> string)
    requires Sorted(rows, hash)
    ensures Sorted(Insert(row, rows, hash), hash)
  {
    if rows != [] {
      if Before(row, rows[0], hash) {
        forall j | 0 <= j < |rows|
          ensures Before(row, rows[j], hash)
        {
          KeyOrder(SortKey(row, hash), SortKey(rows[0], hash), SortKey(rows[j], hash));
        }
      } else {
        InsertKeepsSorted(row, rows[1..], hash);
        var rest := Insert(row, rows[1..], hash);
        KeyOrder(SortKey(row, hash), SortKey(rows[0], hash), SortKey(row, hash));
        forall j | 0 <= j < |rest|
          ensures Before(rows[0], rest[j], hash)
        {
          assert rest[j] in multiset(rest);
          if rest[j] != row {
            assert rest[j] in multiset(rows[1..]);
            var k :| 0 <= k < |rows[1..]| && rows[1..][k] == rest[j];
            assert rows[k + 1] == rest[j];
          }
        }
      }
    }
  }

  lemma {:induction false} SortSorts(rows: seq<Row>, hash: string -> string)
    ensures Sorted(Sort(rows, hash), hash)
  {
    if rows != [] {
      SortSorts(rows[1..], hash);
      InsertKeepsSorted(rows[0], Sort(rows[1..], hash), hash);
    }
  }

  // ---------- filter ----------

  predicate Matches(row: Row, request: Request) {
    (request.repoId == None || row.repoId == request.repoId.value)
    && (request.commandScope == None || row.commandScope == request.commandScope.value)
  }

  function Filtered(rows: seq<Row>, request: Request): (kept: seq<Row>)
    ensures forall row :: row in kept <==> row in rows && Matches(row, request)
  {
    if rows == [] then []
    else (if Matches(rows[0], request) then [rows[0]] else []) + Filtered(rows[1..], request)
  }

  /** What all pages together show. */
  function Listing(service: Service, rows: seq<Row>, request: Request): seq<Row> {
    Sort(Filtered(rows, request), service.hash)
  }

  // ---------- cursors ----------

  function HashOf(service: Service, repoId: Option<string>): Option<string> {
    if repoId == None then None else Some(service.hash(repoId.value))
  }

  /** `TrustCursorManager.issue`, at the clock reading `now`. */
  function IssueCursor(service: Service, request: Request, digest: Digest, offset: int, now: real, nonce: string): Token {
    Signed(service.secret,
           Payload(HashOf(service, request.repoId), request.commandScope, request.limit, digest, offset,
                   now.Floor, now.Floor + TRUST_CURSOR_EXPIRY_SECONDS, nonce))
  }

  /** `TrustCursorManager.consume`. */
  function ConsumeCursor(service: Service, token: Token, request: Request, digest: Digest, now: real)
    : Result<int, ListError>
  {
    if !token.Signed? || token.secret != service.secret then Err(CursorInvalid)
    else
      var payload := token.payload;
      if payload.repoIdHash != HashOf(service, request.repoId)
         || payload.commandScope != request.commandScope
         || payload.limit != request.limit
         || payload.digest != digest
         || payload.offset < 1
         || payload.expiresAt - payload.issuedAt != TRUST_CURSOR_EXPIRY_SECONDS
         || now >= payload.expiresAt as real
         || payload.nonce == ""
      then Err(CursorInvalid)
      else Ok(payload.offset)
  }

  // ---------- one page ----------

  /** The sorted entries of a request, and the digest of what they were selected from. */
  datatype Snapshot = Snapshot(listing: seq<Row>, digest: Digest)

  function SnapshotOf(service: Service, rows: seq<Row>, request: Request): Snapshot {
    Snapshot(Listing(service, rows, request), Digest(Filtered(rows, request)))
  }

  function PageFrom(service: Service, snapshot: Snapshot, request: Request, offset: nat, now: real, nonce: string): Page
    requires offset <= |snapshot.listing| && 1 <= request.limit
  {
    var end := Least(offset + request.limit, |snapshot.listing|);
    Page(snapshot.listing[offset..end],
         if end < |snapshot.listing| then Some(IssueCursor(service, request, snapshot.digest, end, now, nonce)) else None,
         snapshot.digest)
  }

  function Least(left: nat, right: nat): nat {
    if left < right then left else right
  }

  function ListPage(service: Service, snapshot: Snapshot, request: Request, cursor: Option<Token>, call: Call)
    : Result<Page, ListError>
  {
    if !(1 <= request.limit <= MAX_LIMIT) then Err(LimitExceeded)
    else if cursor == None then Ok(PageFrom(service, snapshot, request, 0, call.issueAt, call.nonce))
    else
      match ConsumeCursor(service, cursor.value, request, snapshot.digest, call.now)
      case Err(error) => Err(error)
      case Ok(offset) =>
        if offset > |snapshot.listing| then Err(CursorInvalid)
        else Ok(PageFrom(service, snapshot, request, offset, call.issueAt, call.nonce))
  }

  /** The two readings of the clock in one call of `list`, to check a cursor and to issue one, and the
      nonce of the latter. */
  datatype Call = Call(now: real, issueAt: real, nonce: string)

  /** `list`, for live entries `rows`. */
  method List(service: Service, rows: seq<Row>, request: Request, cursor: Option<Token>, call: Call)
    returns (r: Result<Page, ListError>)
    ensures r == ListPage(service, SnapshotOf(service, rows, request), request, cursor, call)
  {
    if !(1 <= request.limit <= MAX_LIMIT) {
      return Err(LimitExceeded);
    }
    var filtered := Filtered(rows, request);
    var entries := Sort(filtered, service.hash);
    var digest := Digest(filtered);
    var offset := 0;
    if cursor.Some? {
      var consumed := ConsumeCursor(service, cursor.value, request, digest, call.now);
      if consumed.Err? {
        return Err(consumed.error);
      }
      offset := consumed.value;
      if offset > |entries| {
        return Err(CursorInvalid);
      }
    }
    var page := CutPage(service, request, entries, digest, offset, call);
    return Ok(page);
  }

  method CutPage(service: Service, request: Request, entries: seq<Row>, digest: Digest, offset: nat, call: Call)
    returns (page: Page)
    requires offset <= |entries| && 1 <= request.limit
    ensures page == PageFrom(service, Snapshot(entries, digest), request, offset, call.issueAt, call.nonce)
  {
    var end := if offset + request.limit < |entries| then offset + request.limit else |entries|;
    var shown := entries[offset..end];
    var nextOffset := offset + |shown|;
    var next := None;
    if nextOffset < |entries| {
      next := Some(IssueCursor(service, request, digest, nextOffset, call.issueAt, call.nonce));
    }
    return Page(shown, next, digest);
  }

  // ---------- properties ----------

  /** A cursor that the service issued is accepted exactly for the same filters, the same limit and the
      same snapshot, within its lifetime. */
  lemma WhenACursorIsAccepted(
    service: Service, rows: seq<Row>, request: Request, offset: nat, issueAt: real, nonce: string,
    rows': seq<Row>, request': Request, now: real)
    requires Injective(service.hash) && nonce != "" && offset >= 1
    ensures var cursor := IssueCursor(service, request, Digest(Filtered(rows, request)), offset, issueAt, nonce);
            ConsumeCursor(service, cursor, request', Digest(Filtered(rows', request')), now).Ok? <==>
              && request' == request
              && Filtered(rows', request') == Filtered(rows, request)
              && now < (issueAt.Floor + TRUST_CURSOR_EXPIRY_SECONDS) as real
  {
    if request.repoId.Some? && request'.repoId.Some? {
      assert service.hash(request.repoId.value) == service.hash(request'.repoId.value) ==>
          request.repoId.value == request'.repoId.value;
    }
  }

  /** A way through the pages: the first page, and then one page after the other. */
  datatype Walk =
    | First(call: Call, page: Page)
    | Then(before: Walk, call: Call, page: Page)

  /** The snapshot stays as it is, and each page is asked for with the cursor of the page before it. */
  predicate IsWalk(service: Service, snapshot: Snapshot, request: Request, walk: Walk) {
    && walk.call.nonce != ""
    && match walk
       case First(call, page) => ListPage(service, snapshot, request, None, call) == Ok(page)
       case Then(before, call, page) =>
         && IsWalk(service, snapshot, request, before)
         && before.page.next.Some?
         && ListPage(service, snapshot, request, before.page.next, call) == Ok(page)
  }

  function Entries(walk: Walk): seq<Row> {
    match walk
    case First(_, page) => page.entries
    case Then(before, _, page) => Entries(before) + page.entries
  }

  function Pages(walk: Walk): (pages: nat)
    ensures pages >= 1
  {
    match walk
    case First(_, _) => 1
    case Then(before, _, _) => Pages(before) + 1
  }

  /** How many entries the first pages show. */
  function Shown(pages: nat, limit: nat, entries: nat): (shown: nat)
    ensures shown <= entries
  {
    if pages == 0 then 0 else Least(Shown(pages - 1, limit, entries) + limit, entries)
  }

  /** What the walk has shown, and where its last cursor stands. */
  predicate Stands(service: Service, snapshot: Snapshot, request: Request, walk: Walk, shown: nat) {
    && shown <= |snapshot.listing|
    && Entries(walk) == snapshot.listing[..shown]
    && walk.page.next == (
         if shown < |snapshot.listing|
         then Some(IssueCursor(service, request, snapshot.digest, shown, walk.call.issueAt, walk.call.nonce))
         else None)
  }

  lemma PrefixGrows<T>(all: seq<T>, start: nat, end: nat)
    requires start <= end <= |all|
    ensures all[..start] + all[start..end] == all[..end]
  {}

  lemma NextPageStands(
    service: Service, snapshot: Snapshot, request: Request, before: Walk, shown: nat, call: Call, page: Page)
    requires shown >= 1 && Stands(service, snapshot, request, before, shown) && before.page.next.Some?
    requires ListPage(service, snapshot, request, before.page.next, call) == Ok(page)
    ensures 1 <= request.limit && shown < |snapshot.listing|
    ensures Stands(service, snapshot, request, Then(before, call, page),
                   Least(shown + request.limit, |snapshot.listing|))
  {
    assert page == PageFrom(service, snapshot, request, shown, call.issueAt, call.nonce);
    PrefixGrows(snapshot.listing, shown, Least(shown + request.limit, |snapshot.listing|));
  }

  lemma {:induction false} WalkStands(service: Service, snapshot: Snapshot, request: Request, walk: Walk)
    requires IsWalk(service, snapshot, request, walk)
    ensures 1 <= request.limit
    ensures var entries := |snapshot.listing|;
            var shown := Shown(Pages(walk), request.limit, entries);
            && Stands(service, snapshot, request, walk, shown)
            && (entries > 0 ==> shown >= 1)
            && (Pages(walk) == 1 || Shown(Pages(walk) - 1, request.limit, entries) < entries)
  {
    var entries := |snapshot.listing|;
    match walk {
      case First(_, _) =>
        assert Shown(1, request.limit, entries) == Least(Shown(0, request.limit, entries) + request.limit, entries);
      case Then(before, call, page) =>
        WalkStands(service, snapshot, request, before);
        NextPageStands(service, snapshot, request, before, Shown(Pages(before), request.limit, entries), call, page);
    }
  }

  lemma {:induction false} ShownIsAMultiple(pages: nat, limit: nat, entries: nat)
    ensures Shown(pages, limit, entries) == Least(pages * limit, entries)
  {
    if pages > 0 {
      ShownIsAMultiple(pages - 1, limit, entries);
      assert (pages - 1) * limit + limit == pages * limit;
    }
  }

  /** The number of pages is the smallest positive one with room for all entries. */
  predicate IsPageCount(pages: nat, entries: nat, limit: nat) {
    pages >= 1 && pages * limit >= entries && (pages == 1 || (pages - 1) * limit < entries)
  }

  /** On an unchanged snapshot, following cursors to the last page yields the whole list in order, each
      entry once, in exactly as many pages as it takes. */
  lemma CursorsListEverythingOnce(service: Service, snapshot: Snapshot, request: Request, walk: Walk)
    requires IsWalk(service, snapshot, request, walk) && walk.page.next == None
    ensures Entries(walk) == snapshot.listing
    ensures 1 <= request.limit && IsPageCount(Pages(walk), |snapshot.listing|, request.limit)
  {
    WalkStands(service, snapshot, request, walk);
    assert snapshot.listing[..|snapshot.listing|] == snapshot.listing;
    ShownIsAMultiple(Pages(walk), request.limit, |snapshot.listing|);
    ShownIsAMultiple(Pages(walk) - 1, request.limit, |snapshot.listing|);
  }

  /** The list of a snapshot: the matching entries, no more and no fewer, sorted. */
  lemma ListingIsFilteredAndSorted(service: Service, rows: seq<Row>, request: Request)
    ensures var listing := SnapshotOf(service, rows, request).listing;
            && multiset(listing) == multiset(Filtered(rows, request))
            && Sorted(listing, service.hash)
  {
    SortSorts(Filtered(rows, request), service.hash);
  }

  /** No cursor within its lifetime is a dead end. */
  lemma WalkGoesOn(service: Service, snapshot: Snapshot, request: Request, walk: Walk, next: Call)
    requires IsWalk(service, snapshot, request, walk) && walk.page.next.Some?
    requires next.now < (walk.call.issueAt.Floor + TRUST_CURSOR_EXPIRY_SECONDS) as real
    ensures ListPage(service, snapshot, request, walk.page.next, next).Ok?
  {
    WalkStands(service, snapshot, request, walk);
  }
}
