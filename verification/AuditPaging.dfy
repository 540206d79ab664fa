/** Reading an org's audit log page by page, and the self-check endpoint (src/routes/audit.rs). */
module AuditPaging {
  import opened Wrappers
  import opened AuditChain
  import opened AuditTable
  import opened AuditAppend
  import opened Backfill

  const DEFAULT_LIMIT := 100
  const MAX_LIMIT := 1000
  const MAX_VERIFY_ROWS := 50_000

  datatype Query = Query(limit: Option<nat>, action: Option<string>, before: Option<int>)

  predicate KnownAction(action: string) {
    action in {"publish", "yank", "unyank", "org_claim"}
  }

  function PageSize(limit: Option<nat>): nat {
    var asked := limit.GetOr(DEFAULT_LIMIT);
    if asked < 1 then 1 else if asked > MAX_LIMIT then MAX_LIMIT else asked
  }

  predicate Selected(row: Row, action: Option<string>, before: Option<int>) {
    (action.Some? ==> row.action == action.value) && (before.Some? ==> row.seqNo < before.value)
  }

  /** The selected entries of an ascending log, newest first. */
  function Newest(log: seq<Row>, action: Option<string>, before: Option<int>): seq<Row> {
    if log == [] then []
    else
      var last := log[|log| - 1];
      (if Selected(last, action, before) then [last] else []) + Newest(log[..|log| - 1], action, before)
  }

  function Take(rows: seq<Row>, n: nat): seq<Row> {
    if |rows| <= n then rows else rows[..n]
  }

  /** `get_audit_log` on the committed table. */
  function GetAuditLog(table: seq<Row>, org: Uuid, query: Query): Result<seq<Row>, string> {
    if query.action.Some? && !KnownAction(query.action.value) then Err("invalid_action")
    else Ok(Take(Newest(OrgLog(table, org), query.action, query.before), PageSize(query.limit)))
  }

  /** The `seq` shown to the caller, who hands it back as the next `before`. */
  function ShownSeq(row: Row): int {
    if row.seqNo < 0 then 0 else row.seqNo
  }

  /** Entries may be appended between two reads; nothing else happens to the log. */
  ghost predicate OnlyAppended(before: seq<Row>, after: seq<Row>) {
    before <= after && StrictlyAscending(after)
  }

  /** One page: the table when it was read, the limit asked for, and what came back. */
  datatype Read = Read(table: seq<Row>, limit: Option<nat>, page: seq<Row>)

  /** The caller starts at the newest entry and hands back the last `seq` it was shown. */
  function Cursor(walk: seq<Read>, k: nat): Option<int>
    requires k < |walk| && (k > 0 ==> walk[k - 1].page != [])
  {
    if k == 0 then None else Some(ShownSeq(walk[k - 1].page[|walk[k - 1].page| - 1]))
  }

  ghost predicate Follows(walk: seq<Read>, org: Uuid, action: Option<string>, k: nat)
    requires k < |walk|
  {
    && OnlyAppended(OrgLog(walk[0].table, org), OrgLog(walk[k].table, org))
    && (k > 0 ==> walk[k - 1].page != [])
    && GetAuditLog(walk[k].table, org, Query(walk[k].limit, action, Cursor(walk, k))) == Ok(walk[k].page)
  }

  ghost predicate IsWalk(walk: seq<Read>, org: Uuid, action: Option<string>) {
    && walk != []
    && (forall k :: 0 <= k < |walk| ==> Follows(walk, org, action, k))
    && forall row :: row in OrgLog(walk[0].table, org) ==> row.seqNo >= 0
  }

  function Pages(walk: seq<Read>): seq<Row> {
    if walk == [] then [] else Pages(walk[..|walk| - 1]) + walk[|walk| - 1].page
  }

  lemma {:induction false} BeforeHidesNewer(log: seq<Row>, newer: seq<Row>, action: Option<string>, b: int)
    requires forall row :: row in newer ==> row.seqNo >= b
    ensures Newest(log + newer, action, Some(b)) == Newest(log, action, Some(b))
  {
    if newer == [] {
      assert log + newer == log;
    } else {
      assert (log + newer)[..|log + newer| - 1] == log + newer[..|newer| - 1];
      assert newer[|newer| - 1] in newer;
      BeforeHidesNewer(log, newer[..|newer| - 1], action, b);
    }
  }

  lemma {:induction false} BeforeKeepsOlder(log: seq<Row>, action: Option<string>, b: int)
    requires forall row :: row in log ==> row.seqNo < b
    ensures Newest(log, action, Some(b)) == Newest(log, action, None)
  {
    if log != [] {
      assert log[|log| - 1] in log;
      BeforeKeepsOlder(log[..|log| - 1], action, b);
    }
  }

  lemma {:induction false} NewestAreRows(log: seq<Row>, action: Option<string>, before: Option<int>)
    ensures forall row :: row in Newest(log, action, before) ==> row in log
  {
    if log != [] { NewestAreRows(log[..|log| - 1], action, before); }
  }

  lemma TopOfLog(log: seq<Row>)
    requires StrictlyAscending(log) && log != []
    ensures var front, last := log[..|log| - 1], log[|log| - 1];
            StrictlyAscending(front) && forall row :: row in front ==> row.seqNo < last.seqNo
  {
  }

  /** Nothing at or after the cursor is selected. */
  lemma CursorSkips(log: seq<Row>, action: Option<string>, b: int)
    requires log != [] && log[|log| - 1].seqNo >= b
    ensures Newest(log, action, Some(b)) == Newest(log[..|log| - 1], action, Some(b))
  {
  }

  /** Selecting strictly before an entry of the listing gives the rest of the listing. */
  lemma {:induction false} CursorResumes(log: seq<Row>, action: Option<string>, m: nat)
    requires StrictlyAscending(log) && 0 < m <= |Newest(log, action, None)|
    ensures var all := Newest(log, action, None);
            Newest(log, action, Some(all[m - 1].seqNo)) == all[m..]
  {
    var front, last := log[..|log| - 1], log[|log| - 1];
    var all, rest := Newest(log, action, None), Newest(front, action, None);
    TopOfLog(log);
    NewestAreRows(front, action, None);
    if !Selected(last, action, None) {
      assert all == rest && rest[m - 1] in rest;
      CursorResumes(front, action, m);
      CursorSkips(log, action, rest[m - 1].seqNo);
    } else if m == 1 {
      CursorSkips(log, action, last.seqNo);
      BeforeKeepsOlder(front, action, last.seqNo);
    } else {
      CursorResumes(front, action, m - 1);
      CursorInFront(log, action, m);
    }
  }

  lemma CursorInFront(log: seq<Row>, action: Option<string>, m: nat)
    requires log != [] && Selected(log[|log| - 1], action, None)
    requires var rest := Newest(log[..|log| - 1], action, None);
             && 1 < m <= |rest| + 1 && rest[m - 2].seqNo < log[|log| - 1].seqNo
             && Newest(log[..|log| - 1], action, Some(rest[m - 2].seqNo)) == rest[m - 1..]
    ensures var all := Newest(log, action, None);
            m <= |all| && Newest(log, action, Some(all[m - 1].seqNo)) == all[m..]
  {
    var all, rest := Newest(log, action, None), Newest(log[..|log| - 1], action, None);
    assert all == [log[|log| - 1]] + rest && all[m - 1] == rest[m - 2];
    CursorSkips(log, action, rest[m - 2].seqNo);
  }

  lemma ResumeOnGrownLog(log: seq<Row>, grown: seq<Row>, action: Option<string>, m: nat)
    requires OnlyAppended(log, grown) && 0 < m <= |Newest(log, action, None)|
    ensures var all := Newest(log, action, None);
            Newest(grown, action, Some(all[m - 1].seqNo)) == all[m..]
  {
    var b := Newest(log, action, None)[m - 1];
    NewestAreRows(log, action, None);
    assert b in Newest(log, action, None);
    var newer := grown[|log|..];
    assert grown == log + newer;
    forall row | row in newer ensures row.seqNo >= b.seqNo {
      var i :| 0 <= i < |newer| && newer[i] == row;
      var j :| 0 <= j < |log| && log[j] == b;
      assert grown[|log| + i] == row && grown[j] == b;
    }
    BeforeHidesNewer(log, newer, action, b.seqNo);
    forall i, j | 0 <= i < j < |log| ensures log[i].seqNo < log[j].seqNo { assert grown[i] == log[i] && grown[j] == log[j]; }
    CursorResumes(log, action, m);
  }

  /** What page k is, given that everything up to `m` entries of the listing was read before it. */
  lemma PageContinues(walk: seq<Read>, org: Uuid, action: Option<string>, k: nat, m: nat)
    requires IsWalk(walk, org, action) && k < |walk|
    requires m <= |Newest(OrgLog(walk[0].table, org), action, None)|
    requires if k == 0 then m == 0 else
               && m > 0 && walk[k - 1].page != []
               && walk[k - 1].page[|walk[k - 1].page| - 1] == Newest(OrgLog(walk[0].table, org), action, None)[m - 1]
    ensures walk[k].page == Take(Newest(OrgLog(walk[0].table, org), action, None)[m..], PageSize(walk[k].limit))
  {
    var log := OrgLog(walk[0].table, org);
    var all := Newest(log, action, None);
    assert Follows(walk, org, action, k);
    if k > 0 {
      NewestAreRows(log, action, None);
      assert all[m - 1] in all;
      ResumeOnGrownLog(log, OrgLog(walk[k].table, org), action, m);
    } else {
      assert all[m..] == all;
    }
  }

  /** `read` is the start of the listing, all of it once a page is empty, and each page makes progress. */
  predicate Progress(all: seq<Row>, read: seq<Row>, page: seq<Row>, k: nat) {
    && read <= all
    && if page == [] then read == all && |read| >= k
       else |read| > k && page[|page| - 1] == read[|read| - 1]
  }

  lemma ReadOn(all: seq<Row>, read: seq<Row>, n: nat, k: nat)
    requires read <= all && n >= 1 && |read| >= k
    ensures var page := Take(all[|read|..], n); Progress(all, read + page, page, k)
  {
    var page := Take(all[|read|..], n);
    assert read + page == all[..|read| + |page|];
  }

  lemma PageExtends(walk: seq<Read>, org: Uuid, action: Option<string>, k: nat, all: seq<Row>, read: seq<Row>)
    requires IsWalk(walk, org, action) && k < |walk|
    requires all == Newest(OrgLog(walk[0].table, org), action, None)
    requires if k == 0 then read == [] else Progress(all, read, walk[k - 1].page, k - 1)
    ensures Progress(all, read + walk[k].page, walk[k].page, k)
  {
    assert Follows(walk, org, action, k);
    PageContinues(walk, org, action, k, |read|);
    ReadOn(all, read, PageSize(walk[k].limit), k);
  }

  lemma PagesStep(walk: seq<Read>, k: nat)
    requires k < |walk|
    ensures Pages(walk[..k + 1]) == Pages(walk[..k]) + walk[k].page
  {
    assert walk[..k + 1][..k] == walk[..k];
  }

  /** The pages read so far are the first entries of the listing as it stood at the first page. */
  lemma {:induction false} WalkSoFar(walk: seq<Read>, org: Uuid, action: Option<string>, k: nat)
    requires IsWalk(walk, org, action) && k < |walk|
    ensures Progress(Newest(OrgLog(walk[0].table, org), action, None), Pages(walk[..k + 1]), walk[k].page, k)
  {
    if k > 0 {
      WalkSoFar(walk, org, action, k - 1);
    }
    PagesStep(walk, k);
    PageExtends(walk, org, action, k, Newest(OrgLog(walk[0].table, org), action, None), Pages(walk[..k]));
  }

  /** Following the cursor to an empty page returns every matching entry that was there at the first page, once,
      newest first, for any page sizes and filter, whatever is appended meanwhile; and it takes at most one page
      per entry and one more. */
  lemma PagingIsExact(walk: seq<Read>, org: Uuid, action: Option<string>)
    requires IsWalk(walk, org, action)
    ensures var all := Newest(OrgLog(walk[0].table, org), action, None);
            && Pages(walk) <= all
            && (walk[|walk| - 1].page == [] ==> Pages(walk) == all)
            && |walk| <= |all| + 1
  {
    WalkSoFar(walk, org, action, |walk| - 1);
    assert walk[..|walk|] == walk;
  }

  // ---- Single pages, and that there is always a next one ----

  /** How many entries a caller may get at once: 100 unless it asks, then what it asks within 1 and 1000. */
  lemma PageSizeIsClamped(limit: Option<nat>)
    ensures limit == None ==> PageSize(limit) == 100
    ensures limit.Some? ==> (1 <= limit.value <= 1000 ==> PageSize(limit) == limit.value)
    ensures limit.Some? ==> (limit.value == 0 ==> PageSize(limit) == 1) && (limit.value > 1000 ==> PageSize(limit) == 1000)
  {
  }

  /** What the filter and the cursor ask for. */
  ghost predicate Asked(log: seq<Row>, query: Query, row: Row) {
    row in log && (query.action.Some? ==> row.action == query.action.value) && (query.before.Some? ==> row.seqNo < query.before.value)
  }

  lemma {:induction false} NewestIsAsked(log: seq<Row>, query: Query)
    requires StrictlyAscending(log)
    ensures forall row :: row in Newest(log, query.action, query.before) <==> Asked(log, query, row)
    ensures NewestFirst(Newest(log, query.action, query.before))
  {
    if log != [] {
      var front, last := log[..|log| - 1], log[|log| - 1];
      var all, rest := Newest(log, query.action, query.before), Newest(front, query.action, query.before);
      TopOfLog(log);
      NewestIsAsked(front, query);
      assert log == front + [last];
      assert all == (if Selected(last, query.action, query.before) then [last] else []) + rest;
      forall row ensures row in all <==> Asked(log, query, row) {
        assert row in all <==> row in rest || (row == last && Selected(last, query.action, query.before));
      }
      forall i | 0 <= i < |rest| ensures rest[i].seqNo < last.seqNo {
        assert rest[i] in rest;
        assert Asked(front, query, rest[i]);
      }
    }
  }

  ghost predicate NewestFirst(rows: seq<Row>) {
    forall i, j :: 0 <= i < j < |rows| ==> rows[i].seqNo > rows[j].seqNo
  }

  /** The listing itself: exactly the matching entries of the org, strictly newest first. */
  lemma ListingIsComplete(log: seq<Row>, action: Option<string>)
    requires StrictlyAscending(log)
    ensures var all := Newest(log, action, None);
            && (forall row :: row in all <==> row in log && (action.Some? ==> row.action == action.value))
            && forall i, j :: 0 <= i < j < |all| ==> all[i].seqNo > all[j].seqNo
  {
    var query := Query(None, action, None);
    NewestIsAsked(log, query);
    forall row ensures row in Newest(log, action, None) <==> row in log && (action.Some? ==> row.action == action.value) {
      assert row in Newest(log, action, None) <==> Asked(log, query, row);
    }
  }

  /** A page is the newest of what was asked for, newest first, as many as the limit lets through. */
  ghost predicate IsPage(log: seq<Row>, query: Query, page: seq<Row>) {
    && |page| <= PageSize(query.limit)
    && (forall row :: row in page ==> Asked(log, query, row))
    && NewestFirst(page)
    && forall row :: Asked(log, query, row) && row !in page ==>
         |page| == PageSize(query.limit) && forall shown :: shown in page ==> row.seqNo < shown.seqNo
  }

  /** A request is refused exactly for an action that is none of the four, and otherwise answered with its page. */
  lemma RequestIsAnswered(table: seq<Row>, org: Uuid, query: Query)
    requires StrictlyAscending(OrgLog(table, org))
    ensures var answer := GetAuditLog(table, org, query);
            && (answer.Ok? <==> query.action in {None, Some("publish"), Some("yank"), Some("unyank"), Some("org_claim")})
            && (answer.Ok? ==> IsPage(OrgLog(table, org), query, answer.value))
            && (answer.Err? ==> answer.error == "invalid_action")
  {
    NewestIsAsked(OrgLog(table, org), query);
    FrontOfNewest(OrgLog(table, org), query, Newest(OrgLog(table, org), query.action, query.before));
  }

  lemma FrontOfNewest(log: seq<Row>, query: Query, all: seq<Row>)
    requires NewestFirst(all) && forall row :: row in all <==> Asked(log, query, row)
    ensures IsPage(log, query, Take(all, PageSize(query.limit)))
  {
    var page := Take(all, PageSize(query.limit));
    assert page == all[..|page|];
    assert forall row :: row in page ==> row in all;
    forall row, shown | Asked(log, query, row) && row !in page && shown in page ensures row.seqNo < shown.seqNo {
      LeftOutIsOlder(all, |page|, row, shown);
    }
  }

  lemma LeftOutIsOlder(all: seq<Row>, n: nat, row: Row, shown: Row)
    requires n <= |all| && NewestFirst(all) && row in all && row !in all[..n] && shown in all[..n]
    ensures row.seqNo < shown.seqNo
  {
    var j :| 0 <= j < n && all[..n][j] == shown;
    assert all == all[..n] + all[n..];
    assert row in all[n..];
    var i :| 0 <= i < |all| - n && all[n..][i] == row;
    assert all[n + i] == row && all[j] == shown;
  }

  /** The four actions, and no filter at all. */
  ghost predicate MayFilter(action: Option<string>) {
    action in {None, Some("publish"), Some("yank"), Some("unyank"), Some("org_claim")}
  }

  /** A listing under any of them can be begun on any log. */
  lemma WalkBegins(table: seq<Row>, org: Uuid, action: Option<string>, limit: Option<nat>) returns (page: seq<Row>)
    requires MayFilter(action) && StrictlyAscending(OrgLog(table, org))
    requires forall row :: row in OrgLog(table, org) ==> row.seqNo >= 0
    ensures IsWalk([Read(table, limit, page)], org, action)
  {
    RequestIsAnswered(table, org, Query(limit, action, None));
    page := GetAuditLog(table, org, Query(limit, action, None)).value;
    var walk := [Read(table, limit, page)];
    assert Follows(walk, org, action, 0);
  }

  /** And followed until a page is empty, whatever has been appended by then and whatever limit is asked for next;
      `PagingIsExact` bounds how long that takes. */
  lemma WalkGoesOn(walk: seq<Read>, org: Uuid, action: Option<string>, table: seq<Row>, limit: Option<nat>) returns (page: seq<Row>)
    requires IsWalk(walk, org, action) && MayFilter(action) && walk[|walk| - 1].page != []
    requires OnlyAppended(OrgLog(walk[0].table, org), OrgLog(table, org))
    ensures IsWalk(walk + [Read(table, limit, page)], org, action)
  {
    var n := |walk|;
    var before := Some(ShownSeq(walk[n - 1].page[|walk[n - 1].page| - 1]));
    RequestIsAnswered(table, org, Query(limit, action, before));
    page := GetAuditLog(table, org, Query(limit, action, before)).value;
    var longer := walk + [Read(table, limit, page)];
    forall k | 0 <= k < |longer| ensures Follows(longer, org, action, k) {
      if k < n { assert Follows(walk, org, action, k); }
    }
  }

  lemma GoodLogIsStrict(log: seq<Row>)
    requires GoodLog(log)
    ensures StrictlyAscending(log) && forall row :: row in log ==> row.seqNo >= 0
  {
    forall i, j | 0 <= i < j < |log| ensures log[i].seqNo < log[j].seqNo {
      assert GoodEntry(log, i) && GoodEntry(log, j);
    }
    forall i | 0 <= i < |log| ensures log[i].seqNo >= 0 {
      assert GoodEntry(log, i);
    }
  }

  /** Concurrent appends only ever extend the log, so the cursor can be followed over any run of them. */
  lemma {:induction false} RunsOnlyAppend(run: seq<State>, events: seq<Event>, i: nat, j: nat, org: Uuid)
    requires IsRun(run, events) && i <= j < |run|
    ensures OnlyAppended(OrgLog(run[i].table, org), OrgLog(run[j].table, org))
    ensures forall row :: row in OrgLog(run[i].table, org) ==> row.seqNo >= 0
    decreases j
  {
    RunKeepsGoodLogs(run, events, j, org);
    GoodLogIsStrict(OrgLog(run[j].table, org));
    if i < j {
      RunsOnlyAppend(run, events, i, j - 1, org);
      RunStepExtendsLog(run, events, j - 1, org);
    }
  }

  // ---- The self-check endpoint ----

  /** The rows `verify_audit_log` walks. */
  function VerifiedRows(table: seq<Row>, org: Uuid): seq<Row> {
    Take(OrgLog(table, org), MAX_VERIFY_ROWS)
  }

  lemma GoodLogPrefix(log: seq<Row>, n: nat)
    requires GoodLog(log) && n <= |log|
    ensures GoodLog(log[..n])
  {
    var front := log[..n];
    forall i | 0 <= i < n ensures GoodEntry(front, i) {
      assert GoodEntry(log, i);
    }
  }

  /** The chain of the log is the chain of the window, and what the window leaves out. */
  lemma ChainPastTheWindow(table: seq<Row>, org: Uuid) returns (rest: seq<Row>)
    ensures ChainedRows(OrgLog(table, org)) == ChainedRows(VerifiedRows(table, org)) + rest
    ensures rest == ChainedRows(OrgLog(table, org)[|VerifiedRows(table, org)|..])
    ensures |OrgLog(table, org)| <= MAX_VERIFY_ROWS ==> rest == []
  {
    var log, window := OrgLog(table, org), VerifiedRows(table, org);
    assert log == window + log[|window|..];
    ChainedConcat(window, log[|window|..]);
    rest := ChainedRows(log[|window|..]);
  }

  /** Damage found in the front of a chain is what the whole chain is reported for. */
  lemma DamageInFront(front: seq<Row>, rest: seq<Row>, seen: ChainReport)
    requires IsVerdict(front, seen) && !seen.intact
    ensures IsVerdict(front + rest, seen)
  {
    var n, c := seen.entriesChecked, front + rest;
    assert c[..n] == front[..n] && c[n] == front[n];
    assert n > 0 ==> c[n - 1] == front[n - 1];
    assert Linked(c, n) <==> Linked(front, n);
  }

  /** The endpoint walks a window, and its answer is the log's exactly when the window is already damaged or holds
      every chained row there is; a log of at most the window's size always gets its own answer. */
  lemma WindowAnswersForTheLogIff(table: seq<Row>, org: Uuid, seen: ChainReport, whole: ChainReport)
    requires IsVerdict(ChainedRows(VerifiedRows(table, org)), seen)
    requires IsVerdict(ChainedRows(OrgLog(table, org)), whole)
    ensures seen == whole <==>
            !Intact(ChainedRows(VerifiedRows(table, org))) || ChainedRows(VerifiedRows(table, org)) == ChainedRows(OrgLog(table, org))
    ensures |OrgLog(table, org)| <= MAX_VERIFY_ROWS ==> seen == whole
  {
    var w, c := ChainedRows(VerifiedRows(table, org)), ChainedRows(OrgLog(table, org));
    var rest := ChainPastTheWindow(table, org);
    VerdictIsExact(w, seen);
    if !seen.intact {
      DamageInFront(w, rest, seen);
      VerdictIsUnique(c, seen, whole);
    } else if w == c {
      VerdictIsUnique(c, seen, whole);
    } else {
      assert |w| < |c|;
      VerdictIsExact(c, whole);
      assert c[..|c|] == c && w[..|w|] == w;
    }
  }

  /** Nothing past the window reaches the answer: logs that agree on it are answered alike, whatever was appended,
      edited or deleted behind it. */
  lemma PastTheWindowIsNotSeen(a: seq<Row>, b: seq<Row>, org: Uuid, ra: ChainReport, rb: ChainReport)
    requires VerifiedRows(a, org) == VerifiedRows(b, org)
    requires IsVerdict(ChainedRows(VerifiedRows(a, org)), ra) && IsVerdict(ChainedRows(VerifiedRows(b, org)), rb)
    ensures ra == rb
  {
    VerdictIsUnique(ChainedRows(VerifiedRows(a, org)), ra, rb);
  }

  /** On an undamaged log longer than the window the endpoint answers intact, with the log's own head exactly when
      nothing has been chained yet: an operator comparing heads is not comparing the newest entry. */
  lemma LongChainReportsAStaleHead(table: seq<Row>, org: Uuid, seen: ChainReport, whole: ChainReport)
    requires GoodLog(OrgLog(table, org)) && |OrgLog(table, org)| > MAX_VERIFY_ROWS
    requires IsVerdict(ChainedRows(VerifiedRows(table, org)), seen)
    requires IsVerdict(ChainedRows(OrgLog(table, org)), whole)
    ensures seen.intact && whole.intact
    ensures seen.headHash == whole.headHash <==> OrgLog(table, org)[|OrgLog(table, org)| - 1].entryHash == Empty
  {
    var log, window := OrgLog(table, org), VerifiedRows(table, org);
    var rest := ChainPastTheWindow(table, org);
    GoodLogPrefix(log, MAX_VERIFY_ROWS);
    GoodLogIsIntact(window, seen);
    GoodLogIsIntact(log, whole);
    var last := log[|log| - 1];
    if last.entryHash == Empty {
      LegacyUnchained(log);
      VerdictIsUnique([], seen, whole);
    } else {
      assert GoodEntry(log, |log| - 1);
      var tail := log[|window|..];
      ChainedRowsAreChained(tail);
      assert tail[|tail| - 1] == last && last in tail;
      assert rest != [];
      if seen.headHash == whole.headHash {
        HeadPinsHistory(log, window, whole, seen);
      }
    }
  }

  /** `n` honest appends by one caller to an empty log. */
  function Honest(call: Call, n: nat): (log: seq<Row>)
    ensures |log| == n
  {
    if n == 0 then []
    else
      var log := Honest(call, n - 1);
      log + [NextRow(call, if log == [] then None else Some(log[|log| - 1]), 0, n)]
  }

  lemma {:induction false} HonestIsGood(call: Call, n: nat)
    ensures GoodLog(Honest(call, n)) && OrgLog(Honest(call, n), call.orgId) == Honest(call, n)
    ensures forall row :: row in Honest(call, n) ==> row.seqNo <= n
  {
    if n > 0 {
      var log := Honest(call, n - 1);
      HonestIsGood(call, n - 1);
      var row := NextRow(call, if log == [] then None else Some(log[|log| - 1]), 0, n);
      NextRowFits(log, call, 0, n);
      GoodLogExtends(log, row);
      OrgLogOfCommit(log, row, call.orgId);
    }
  }

  /** A log whose one damaged row lies behind the window: its subject was rewritten under the old hash, the endpoint
      answers intact all the same, and a walk of the whole log reports the row. */
  lemma DamagePastTheWindow(call: Call, subject: string, seen: ChainReport, whole: ChainReport)
    requires subject != call.subject
    requires var log := Honest(call, MAX_VERIFY_ROWS + 1);
             var table := log[MAX_VERIFY_ROWS := log[MAX_VERIFY_ROWS].(subject := subject)];
             && IsVerdict(ChainedRows(VerifiedRows(table, call.orgId)), seen)
             && IsVerdict(ChainedRows(OrgLog(table, call.orgId)), whole)
    ensures seen.intact && !whole.intact && whole.problem == Some(HashMismatch) && whole.firstBadSeq == Some(MAX_VERIFY_ROWS + 1)
  {
    var n := MAX_VERIFY_ROWS;
    HonestBackRowDamaged(call, n, subject);
    var log := Honest(call, n);
    var table := Honest(call, n + 1)[n := Honest(call, n + 1)[n].(subject := subject)];
    assert VerifiedRows(table, call.orgId) == log;
    HonestIsGood(call, n);
    GoodLogIsIntact(log, seen);
    LastLink(log);
    DamagedLastRow(log, table[n], whole);
  }

  lemma HonestBackRowDamaged(call: Call, n: nat, subject: string)
    requires subject != call.subject
    ensures var row := Honest(call, n + 1)[n].(subject := subject);
            && Honest(call, n + 1)[n := row] == Honest(call, n) + [row]
            && OrgLog(Honest(call, n) + [row], call.orgId) == Honest(call, n) + [row]
            && row.seqNo == n + 1 && IsChained(row)
            && forall prev :: ExpectedHash(row, prev) != row.entryHash
  {
    var log := Honest(call, n);
    var row := Honest(call, n + 1)[n].(subject := subject);
    HonestIsGood(call, n);
    NextRowFits(log, call, 0, n + 1);
    OrgLogOfCommit(log, row, call.orgId);
  }

  lemma DamagedLastRow(log: seq<Row>, row: Row, r: ChainReport)
    requires var c := ChainedRows(log); Intact(c) && (c != [] ==> row.seqNo == c[|c| - 1].seqNo + 1)
    requires IsChained(row) && forall prev :: ExpectedHash(row, prev) != row.entryHash
    requires IsVerdict(ChainedRows(log + [row]), r)
    ensures !r.intact && r.problem == Some(HashMismatch) && r.firstBadSeq == Some(row.seqNo)
  {
    assert (log + [row])[..|log|] == log;
    DamagedLastLink(ChainedRows(log), row, r);
  }

  lemma LastLink(log: seq<Row>)
    requires GoodLog(log)
    ensures var c := ChainedRows(log); Intact(c) && (c != [] ==> c[|c| - 1].seqNo == |log|)
  {
    GoodLogVerifies(log);
    if ChainedRows(log) != [] { assert GoodEntry(log, |log| - 1); }
  }

  lemma DamagedLastLink(c: seq<Row>, row: Row, r: ChainReport)
    requires Intact(c) && (c != [] ==> row.seqNo == c[|c| - 1].seqNo + 1)
    requires forall prev :: ExpectedHash(row, prev) != row.entryHash
    requires IsVerdict(c + [row], r)
    ensures !r.intact && r.problem == Some(HashMismatch) && r.firstBadSeq == Some(row.seqNo)
  {
    var d := c + [row];
    assert d[..|c|] == c && d[|c|] == row;
    assert !Linked(d, |c|);
    StopsAt(d, |c|, r);
  }
}
