/** Concurrent appends to the audit log (`record` and `append_chained`, src/audit.rs) as a state machine:
    any number of appenders, each attempt split at every database round trip, with crashes in between. */
module AuditAppend {
  import opened Wrappers
  import opened AuditChain
  import opened AuditTable

  type Pid = nat

  const APPEND_ATTEMPTS := 4
  const ADMIN_ROLE := "admin"

  datatype Token = Token(id: Uuid, name: string, orgId: Option<Uuid>, role: string)

  function ActorRole(token: Token): string {
    if token.orgId == None then ADMIN_ROLE else token.role
  }

  /** The arguments of one `record` call. */
  datatype Call = Call(orgId: Uuid, token: Token, action: string, subject: string, detail: Option<string>)

  /** How a `prev_hash` column shows a predecessor's hash; an empty one is "nothing before this". */
  function AsColumn(hash: Digest): Option<Digest> {
    if hash == Empty then None else Some(hash)
  }

  /** The row an attempt hashes and inserts, given the tip it read. */
  function NextRow(call: Call, tip: Option<Row>, now: int, id: Uuid): Row {
    var seqNo := (match tip case Some(t) => t.seqNo case None => 0) + 1;
    var prevHash := match tip case Some(t) => AsColumn(t.entryHash) case None => None;
    var row := Row(id, call.orgId, ChainTimestamp(now), call.action, call.subject, Some(call.token.id),
                   call.token.name, ActorRole(call.token), call.detail, seqNo, Empty, prevHash);
    row.(entryHash := ExpectedHash(row, prevHash.GetOr(Empty)))
  }

  /** The row says what its call was asked to record, under the token's own role or, for an unscoped token, as admin. */
  predicate Records(row: Row, call: Call) {
    && row.orgId == call.orgId && row.action == call.action && row.subject == call.subject
    && row.detail == call.detail && row.actorTokenId == Some(call.token.id)
    && row.actorTokenName == call.token.name
    && row.actorRole == if call.token.orgId.None? then ADMIN_ROLE else call.token.role
  }

  /** Where a `record` call stands: between attempts, inside an attempt's transaction, or finished. */
  datatype Phase =
    | Ready
    | Begun
    | Planned(row: Row)
    | Inserted(row: Row)
    | Appended
    | GaveUp
    | Failed
  {
    predicate InTransaction() { Begun? || Planned? || Inserted? }
    predicate Finished() { Appended? || GaveUp? || Failed? }
  }

  /** `lost` counts attempts beaten to their position. `base` and `since` are history: the org's height and
      the number of commits when the call started. */
  datatype Appender = Appender(call: Call, phase: Phase, lost: nat, base: nat, since: nat)

  /** `writers` is history: who committed each row after the `legacy` ones. `locking` says whether the
      advisory lock is in use (it is on Postgres). */
  datatype State = State(
    locking: bool, legacy: nat, table: seq<Row>, writers: seq<Pid>, appenders: map<Pid, Appender>)

  datatype Event =
    | Start(pid: Pid, call: Call)
    | Begin(pid: Pid)
    | ReadTip(pid: Pid, tip: Option<Row>, now: int, id: Uuid)
    | Insert(pid: Pid)
    | LosePosition(pid: Pid)
    | Commit(pid: Pid)
    | CommitUnacknowledged(pid: Pid)
    | Fail(pid: Pid)

  predicate Taken(table: seq<Row>, org: Uuid, seqNo: int) {
    exists row :: row in table && row.orgId == org && row.seqNo == seqNo
  }

  /** ORDER BY seq DESC LIMIT 1. */
  predicate IsTip(table: seq<Row>, org: Uuid, tip: Option<Row>) {
    match tip
    case None => forall row :: row in table ==> row.orgId != org
    case Some(t) => t in table && t.orgId == org && forall row :: row in table && row.orgId == org ==> row.seqNo <= t.seqNo
  }

  /** ORDER BY seq DESC LIMIT 1, computed. */
  function Tip(table: seq<Row>, org: Uuid): (tip: Option<Row>)
    ensures IsTip(table, org, tip)
  {
    var log := OrgLog(table, org);
    OrgLogIsOrderedSelection(table, org);
    if log == [] then
      assert forall row :: row in table && row.orgId == org ==> row in log;
      None
    else
      assert log[|log| - 1] in log;
      Some(log[|log| - 1])
  }

  /** Another transaction has an uncommitted row at this position; the index makes the insert wait for it. */
  predicate Contended(s: State, pid: Pid, row: Row) {
    exists q :: q in s.appenders && q != pid && s.appenders[q].phase.Inserted?
                && s.appenders[q].phase.row.orgId == row.orgId && s.appenders[q].phase.row.seqNo == row.seqNo
  }

  predicate LockFree(s: State, pid: Pid, org: Uuid) {
    forall q :: q in s.appenders && q != pid && s.appenders[q].call.orgId == org ==> !s.appenders[q].phase.InTransaction()
  }

  predicate Enabled(s: State, e: Event) {
    if e.Start? then e.pid !in s.appenders
    else e.pid in s.appenders &&
         var a := s.appenders[e.pid];
         match e
         case Begin(pid) => a.phase.Ready? && (s.locking ==> LockFree(s, pid, a.call.orgId))
         case ReadTip(_, tip, _, _) => a.phase.Begun? && IsTip(s.table, a.call.orgId, tip)
         case Insert(pid) =>
           && a.phase.Planned? && !Contended(s, pid, a.phase.row)
           && !Taken(s.table, a.phase.row.orgId, a.phase.row.seqNo)
         case LosePosition(_) => a.phase.Planned? && Taken(s.table, a.phase.row.orgId, a.phase.row.seqNo)
         case Commit(_) => a.phase.Inserted?
         case CommitUnacknowledged(_) => a.phase.Inserted?
         case Fail(_) => !a.phase.Finished()
  }

  function SetPhase(s: State, pid: Pid, phase: Phase): State
    requires pid in s.appenders
  {
    s.(appenders := s.appenders[pid := s.appenders[pid].(phase := phase)])
  }

  /** A committed row is the row as the database stores it. */
  function CommitRow(s: State, pid: Pid, phase: Phase): State
    requires pid in s.appenders && s.appenders[pid].phase.Inserted?
  {
    SetPhase(s, pid, phase).(table := s.table + [ReadBack(s.appenders[pid].phase.row)], writers := s.writers + [pid])
  }

  function Apply(s: State, e: Event): State
    requires Enabled(s, e)
  {
    match e
    case Start(pid, call) =>
      s.(appenders := s.appenders[pid := Appender(call, Ready, 0, |OrgLog(s.table, call.orgId)|, |s.writers|)])
    case Begin(pid) => SetPhase(s, pid, Begun)
    case ReadTip(pid, tip, now, id) => SetPhase(s, pid, Planned(NextRow(s.appenders[pid].call, tip, now, id)))
    case Insert(pid) => SetPhase(s, pid, Inserted(s.appenders[pid].phase.row))
    case LosePosition(pid) =>
      var a := s.appenders[pid];
      var next := if a.lost + 1 < APPEND_ATTEMPTS then Ready else GaveUp;
      s.(appenders := s.appenders[pid := a.(lost := a.lost + 1, phase := next)])
    case Commit(pid) => CommitRow(s, pid, Appended)
    case CommitUnacknowledged(pid) => CommitRow(s, pid, Failed)
    case Fail(pid) => SetPhase(s, pid, Failed)
  }

  // ---- What every step keeps ----

  /** Positions 1, 2, 3, ..: unchained legacy entries first, then entries each hashed over its predecessor. */
  ghost predicate GoodEntry(log: seq<Row>, i: nat)
    requires i < |log|
  {
    && log[i].seqNo == i + 1
    && if log[i].entryHash == Empty then forall j :: 0 <= j < i ==> log[j].entryHash == Empty
       else
         && log[i].entryHash == ExpectedHash(log[i], PrevHashAt(log, i))
         && log[i].prevHash == AsColumn(PrevHashAt(log, i))
  }

  ghost predicate GoodLog(log: seq<Row>) {
    forall i :: 0 <= i < |log| ==> GoodEntry(log, i)
  }

  /** A backfilled table: every org's legacy rows numbered 1..n and unchained. */
  ghost predicate Backfilled(table: seq<Row>) {
    forall org :: var log := OrgLog(table, org);
                  forall i :: 0 <= i < |log| ==> log[i].seqNo == i + 1 && log[i].entryHash == Empty && log[i].prevHash == None
  }

  ghost predicate Init(s: State) {
    s.legacy == |s.table| && Backfilled(s.table) && s.writers == [] && s.appenders == map[]
  }

  /** A planned row fits on top of the log as it was when its tip was read. */
  ghost predicate Fits(log: seq<Row>, row: Row) {
    && 1 <= row.seqNo <= |log| + 1
    && row.entryHash == ExpectedHash(row, PrevHashAt(log, row.seqNo - 1))
    && row.prevHash == AsColumn(PrevHashAt(log, row.seqNo - 1))
    && row.at % 1000 == 0
  }

  /** How many rows other writers committed to `org` after the first `since` commits. */
  function OthersSince(rows: seq<Row>, writers: seq<Pid>, org: Uuid, pid: Pid, since: nat): nat
    requires |rows| == |writers|
  {
    if |rows| <= since then 0
    else
      OthersSince(rows[..|rows| - 1], writers[..|rows| - 1], org, pid, since)
      + (if rows[|rows| - 1].orgId == org && writers[|rows| - 1] != pid then 1 else 0)
  }

  function Competing(s: State, pid: Pid): nat
    requires pid in s.appenders && |s.table| == s.legacy + |s.writers|
  {
    var a := s.appenders[pid];
    OthersSince(s.table[s.legacy..], s.writers, a.call.orgId, pid, a.since)
  }

  ghost predicate AppenderOk(s: State, pid: Pid)
    requires pid in s.appenders && |s.table| == s.legacy + |s.writers|
  {
    var a := s.appenders[pid];
    var log := OrgLog(s.table, a.call.orgId);
    && a.since <= |s.writers|
    && |log| == a.base + Competing(s, pid) + (if pid in s.writers then 1 else 0)
    && a.lost <= Competing(s, pid)
    && (a.phase.GaveUp? ==> a.lost == APPEND_ATTEMPTS)
    && (!a.phase.GaveUp? ==> a.lost < APPEND_ATTEMPTS)
    && (a.phase.Appended? ==> pid in s.writers)
    && (pid in s.writers ==> a.phase.Appended? || a.phase.Failed?)
    && (a.phase.Planned? || a.phase.Inserted? ==>
          && Records(a.phase.row, a.call)
          && Fits(log, a.phase.row)
          && a.base + a.lost <= a.phase.row.seqNo - 1)
    && (a.phase.Inserted? ==> a.phase.row.seqNo == |log| + 1)
    && (a.phase.Planned? && s.locking ==> a.phase.row.seqNo == |log| + 1)
  }

  ghost predicate Exclusive(s: State) {
    forall p, q :: p in s.appenders && q in s.appenders && p != q && s.appenders[p].call.orgId == s.appenders[q].call.orgId
      ==> && !(s.appenders[p].phase.Inserted? && s.appenders[q].phase.Inserted?)
          && (s.locking ==> !(s.appenders[p].phase.InTransaction() && s.appenders[q].phase.InTransaction()))
  }

  ghost predicate WritersOk(s: State) {
    && |s.table| == s.legacy + |s.writers|
    && (forall i, j :: 0 <= i < j < |s.writers| ==> s.writers[i] != s.writers[j])
    && (forall i :: 0 <= i < |s.writers| ==>
          s.writers[i] in s.appenders && Records(s.table[s.legacy + i], s.appenders[s.writers[i]].call))
  }

  ghost predicate Inv(s: State) {
    && (forall org :: GoodLog(OrgLog(s.table, org)))
    && WritersOk(s)
    && (forall pid :: pid in s.appenders ==> AppenderOk(s, pid))
    && Exclusive(s)
  }

  lemma TakenIffCovered(table: seq<Row>, org: Uuid, seqNo: int)
    requires GoodLog(OrgLog(table, org))
    ensures Taken(table, org, seqNo) <==> 1 <= seqNo <= |OrgLog(table, org)|
  {
    var log := OrgLog(table, org);
    OrgLogIsOrderedSelection(table, org);
    if 1 <= seqNo <= |log| {
      assert GoodEntry(log, seqNo - 1) && log[seqNo - 1] in log;
    }
    if Taken(table, org, seqNo) {
      var row :| row in table && row.orgId == org && row.seqNo == seqNo;
      assert row in log;
      var i :| 0 <= i < |log| && log[i] == row;
      assert GoodEntry(log, i);
    }
  }

  lemma NoRowsNoLog(table: seq<Row>, org: Uuid)
    requires forall row :: row in table ==> row.orgId != org
    ensures OrgLog(table, org) == []
  {
    if table != [] { assert table[|table| - 1] in table; }
  }

  lemma TipIsLast(table: seq<Row>, org: Uuid, tip: Option<Row>)
    requires GoodLog(OrgLog(table, org)) && IsTip(table, org, tip)
    ensures var log := OrgLog(table, org);
            tip == if log == [] then None else Some(log[|log| - 1])
  {
    var log := OrgLog(table, org);
    OrgLogIsOrderedSelection(table, org);
    match tip
    case None => NoRowsNoLog(table, org);
    case Some(t) =>
      assert t in log;
      var last := log[|log| - 1];
      assert last in log && GoodEntry(log, |log| - 1);
      var i :| 0 <= i < |log| && log[i] == t;
      assert GoodEntry(log, i);
  }

  lemma OrgLogOfCommit(table: seq<Row>, row: Row, org: Uuid)
    requires row.orgId == org ==> forall r :: r in OrgLog(table, org) ==> r.seqNo <= row.seqNo
    ensures OrgLog(table + [row], org) == OrgLog(table, org) + (if row.orgId == org then [row] else [])
  {
    assert (table + [row])[..|table|] == table;
    if row.orgId == org && OrgLog(table, org) != [] {
      assert OrgLog(table, org)[|OrgLog(table, org)| - 1] in OrgLog(table, org);
    }
  }

  lemma GoodLogExtends(log: seq<Row>, row: Row)
    requires GoodLog(log) && Fits(log, row) && row.seqNo == |log| + 1
    ensures GoodLog(log + [row])
  {
    var longer := log + [row];
    forall i | 0 <= i < |longer| ensures GoodEntry(longer, i) {
      if i < |log| { assert GoodEntry(log, i); }
    }
  }

  lemma OthersSinceStep(rows: seq<Row>, writers: seq<Pid>, row: Row, writer: Pid, org: Uuid, pid: Pid, since: nat)
    requires |rows| == |writers| && since <= |rows|
    ensures OthersSince(rows + [row], writers + [writer], org, pid, since)
            == OthersSince(rows, writers, org, pid, since) + (if row.orgId == org && writer != pid then 1 else 0)
  {
    assert (rows + [row])[..|rows|] == rows && (writers + [writer])[..|rows|] == writers;
  }

  lemma InitHolds(s: State)
    requires Init(s)
    ensures Inv(s)
  {
    forall org ensures GoodLog(OrgLog(s.table, org)) {
      var log := OrgLog(s.table, org);
      forall i | 0 <= i < |log| ensures GoodEntry(log, i) {}
    }
  }

  lemma CompetingAfterCommit(s: State, pid: Pid, phase: Phase, q: Pid)
    requires WritersOk(s) && pid in s.appenders && s.appenders[pid].phase.Inserted? && q in s.appenders
    requires s.appenders[q].since <= |s.writers|
    ensures Competing(CommitRow(s, pid, phase), q)
            == Competing(s, q)
               + (if s.appenders[pid].phase.row.orgId == s.appenders[q].call.orgId && q != pid then 1 else 0)
  {
    var row, a := ReadBack(s.appenders[pid].phase.row), s.appenders[q];
    assert CommitRow(s, pid, phase).table[s.legacy..] == s.table[s.legacy..] + [row];
    OthersSinceStep(s.table[s.legacy..], s.writers, row, pid, a.call.orgId, q, a.since);
  }

  lemma CommitKeepsAppender(s: State, pid: Pid, phase: Phase, q: Pid)
    requires Inv(s) && pid in s.appenders && s.appenders[pid].phase.Inserted?
    requires phase.Appended? || phase.Failed?
    requires q in s.appenders
    ensures var t := CommitRow(s, pid, phase);
            |t.table| == t.legacy + |t.writers| && AppenderOk(t, q)
  {
    var t, row := CommitRow(s, pid, phase), s.appenders[pid].phase.row;
    var a := s.appenders[q];
    var org := a.call.orgId;
    var log := OrgLog(s.table, org);
    assert AppenderOk(s, pid) && AppenderOk(s, q);
    assert ReadBack(row) == row;
    LogsAfterCommit(s, pid);
    CompetingAfterCommit(s, pid, phase, q);
    assert q in t.writers <==> q == pid || q in s.writers;
    if (a.phase.Planned? || a.phase.Inserted?) && q != pid && row.orgId == org {
      assert PrevHashAt(log + [row], a.phase.row.seqNo - 1) == PrevHashAt(log, a.phase.row.seqNo - 1);
    }
  }

  lemma LogsAfterCommit(s: State, pid: Pid)
    requires Inv(s) && pid in s.appenders && s.appenders[pid].phase.Inserted?
    ensures var row := s.appenders[pid].phase.row;
            forall org :: && OrgLog(s.table + [row], org) == OrgLog(s.table, org) + (if row.orgId == org then [row] else [])
                          && GoodLog(OrgLog(s.table + [row], org))
  {
    var row := s.appenders[pid].phase.row;
    assert AppenderOk(s, pid);
    forall org ensures OrgLog(s.table + [row], org) == OrgLog(s.table, org) + (if row.orgId == org then [row] else [])
               ensures GoodLog(OrgLog(s.table + [row], org))
    {
      var log := OrgLog(s.table, org);
      forall r | r in log ensures row.orgId == org ==> r.seqNo <= row.seqNo {
        var i :| 0 <= i < |log| && log[i] == r;
        assert GoodEntry(log, i);
      }
      OrgLogOfCommit(s.table, row, org);
      if row.orgId == org { GoodLogExtends(log, row); }
    }
  }

  lemma CommitKeepsWriters(s: State, pid: Pid, phase: Phase)
    requires WritersOk(s) && pid in s.appenders && pid !in s.writers && s.appenders[pid].phase.Inserted?
    requires Records(s.appenders[pid].phase.row, s.appenders[pid].call)
    ensures WritersOk(CommitRow(s, pid, phase))
  {
    var t := CommitRow(s, pid, phase);
    forall i | 0 <= i < |t.writers|
      ensures t.writers[i] in t.appenders && Records(t.table[t.legacy + i], t.appenders[t.writers[i]].call)
    {
      if i < |s.writers| {
        assert s.writers[i] in s.appenders && Records(s.table[s.legacy + i], s.appenders[s.writers[i]].call);
      }
    }
  }

  lemma CommitKeepsInv(s: State, pid: Pid, phase: Phase)
    requires Inv(s) && pid in s.appenders && s.appenders[pid].phase.Inserted?
    requires phase.Appended? || phase.Failed?
    ensures Inv(CommitRow(s, pid, phase))
  {
    var t := CommitRow(s, pid, phase);
    assert AppenderOk(s, pid);
    assert ReadBack(s.appenders[pid].phase.row) == s.appenders[pid].phase.row;
    LogsAfterCommit(s, pid);
    CommitKeepsWriters(s, pid, phase);
    forall q | q in t.appenders ensures AppenderOk(t, q) {
      CommitKeepsAppender(s, pid, phase, q);
    }
    assert Exclusive(t);
  }

  function Update(s: State, pid: Pid, a: Appender): State {
    s.(appenders := s.appenders[pid := a])
  }

  /** A step that leaves the table alone has to answer only for the appender that took it. */
  lemma LocalStep(s: State, pid: Pid, a: Appender)
    requires Inv(s) && (pid in s.appenders ==> a.call == s.appenders[pid].call)
    requires AppenderOk(Update(s, pid, a), pid)
    requires Exclusive(Update(s, pid, a))
    ensures Inv(Update(s, pid, a))
  {
    var t := Update(s, pid, a);
    forall q | q in t.appenders ensures AppenderOk(t, q) {
      if q != pid { assert AppenderOk(s, q); }
    }
  }

  /** Moving within, or out of, a transaction excludes nobody new, unless it is the insert. */
  lemma StaysExclusive(s: State, pid: Pid, a: Appender)
    requires Exclusive(s) && pid in s.appenders && a.call == s.appenders[pid].call
    requires !a.phase.Inserted? && (a.phase.InTransaction() ==> s.appenders[pid].phase.InTransaction())
    ensures Exclusive(Update(s, pid, a))
  {
  }

  lemma StartKeepsInv(s: State, pid: Pid, call: Call)
    requires Inv(s) && Enabled(s, Start(pid, call))
    ensures Inv(Apply(s, Start(pid, call)))
  {
    assert pid !in s.writers;
    NoneSince(s.table[s.legacy..], s.writers, call.orgId, pid);
    LocalStep(s, pid, Apply(s, Start(pid, call)).appenders[pid]);
  }

  lemma BeginKeepsInv(s: State, pid: Pid)
    requires Inv(s) && Enabled(s, Begin(pid))
    ensures Inv(Apply(s, Begin(pid)))
  {
    assert AppenderOk(s, pid);
    LocalStep(s, pid, s.appenders[pid].(phase := Begun));
  }

  lemma NextRowFits(log: seq<Row>, call: Call, now: int, id: Uuid)
    requires GoodLog(log)
    ensures var row := NextRow(call, if log == [] then None else Some(log[|log| - 1]), now, id);
            Fits(log, row) && row.seqNo == |log| + 1
  {
    if log != [] { assert GoodEntry(log, |log| - 1); }
  }

  lemma PlannedFits(s: State, pid: Pid, tip: Option<Row>, now: int, id: Uuid)
    requires Inv(s) && Enabled(s, ReadTip(pid, tip, now, id))
    ensures var a := s.appenders[pid];
            AppenderOk(Update(s, pid, a.(phase := Planned(NextRow(a.call, tip, now, id)))), pid)
  {
    var a := s.appenders[pid];
    assert AppenderOk(s, pid);
    TipIsLast(s.table, a.call.orgId, tip);
    NextRowFits(OrgLog(s.table, a.call.orgId), a.call, now, id);
    PlanKeepsAppender(s, pid, NextRow(a.call, tip, now, id));
  }

  lemma PlanKeepsAppender(s: State, pid: Pid, row: Row)
    requires WritersOk(s) && pid in s.appenders && s.appenders[pid].phase.Begun? && AppenderOk(s, pid)
    requires var a := s.appenders[pid];
             var log := OrgLog(s.table, a.call.orgId);
             Records(row, a.call) && Fits(log, row) && row.seqNo == |log| + 1
    ensures AppenderOk(Update(s, pid, s.appenders[pid].(phase := Planned(row))), pid)
  {
  }

  lemma ReadTipKeepsInv(s: State, pid: Pid, tip: Option<Row>, now: int, id: Uuid)
    requires Inv(s) && Enabled(s, ReadTip(pid, tip, now, id))
    ensures Inv(Apply(s, ReadTip(pid, tip, now, id)))
  {
    var a := s.appenders[pid];
    var b := a.(phase := Planned(NextRow(a.call, tip, now, id)));
    PlannedFits(s, pid, tip, now, id);
    StaysExclusive(s, pid, b);
    LocalStep(s, pid, b);
  }

  lemma OnlyOneInserts(s: State, pid: Pid)
    requires Inv(s) && Enabled(s, Insert(pid))
    ensures Exclusive(Update(s, pid, s.appenders[pid].(phase := Inserted(s.appenders[pid].phase.row))))
    ensures s.appenders[pid].phase.row.seqNo == |OrgLog(s.table, s.appenders[pid].call.orgId)| + 1
  {
    var row := s.appenders[pid].phase.row;
    assert AppenderOk(s, pid);
    TakenIffCovered(s.table, row.orgId, row.seqNo);
    forall q | q in s.appenders && q != pid && s.appenders[q].call.orgId == row.orgId
      ensures !s.appenders[q].phase.Inserted?
    {
      assert AppenderOk(s, q);
    }
  }

  lemma InsertKeepsInv(s: State, pid: Pid)
    requires Inv(s) && Enabled(s, Insert(pid))
    ensures Inv(Apply(s, Insert(pid)))
  {
    assert AppenderOk(s, pid);
    OnlyOneInserts(s, pid);
    LocalStep(s, pid, s.appenders[pid].(phase := Inserted(s.appenders[pid].phase.row)));
  }

  lemma LoseKeepsInv(s: State, pid: Pid)
    requires Inv(s) && Enabled(s, LosePosition(pid))
    ensures Inv(Apply(s, LosePosition(pid)))
  {
    var row, b := s.appenders[pid].phase.row, Apply(s, LosePosition(pid)).appenders[pid];
    assert AppenderOk(s, pid);
    TakenIffCovered(s.table, row.orgId, row.seqNo);
    StaysExclusive(s, pid, b);
    LocalStep(s, pid, b);
  }

  lemma FailKeepsInv(s: State, pid: Pid)
    requires Inv(s) && Enabled(s, Fail(pid))
    ensures Inv(Apply(s, Fail(pid)))
  {
    var b := s.appenders[pid].(phase := Failed);
    assert AppenderOk(s, pid);
    StaysExclusive(s, pid, b);
    LocalStep(s, pid, b);
  }

  lemma StepKeepsInv(s: State, e: Event)
    requires Inv(s) && Enabled(s, e)
    ensures Inv(Apply(s, e))
  {
    match e
    case Start(pid, call) => StartKeepsInv(s, pid, call);
    case Begin(pid) => BeginKeepsInv(s, pid);
    case ReadTip(pid, tip, now, id) => ReadTipKeepsInv(s, pid, tip, now, id);
    case Insert(pid) => InsertKeepsInv(s, pid);
    case LosePosition(pid) => LoseKeepsInv(s, pid);
    case Commit(pid) => CommitKeepsInv(s, pid, Appended);
    case CommitUnacknowledged(pid) => CommitKeepsInv(s, pid, Failed);
    case Fail(pid) => FailKeepsInv(s, pid);
  }

  lemma NoneSince(rows: seq<Row>, writers: seq<Pid>, org: Uuid, pid: Pid)
    requires |rows| == |writers|
    ensures OthersSince(rows, writers, org, pid, |writers|) == 0
  {
  }

  // ---- What holds over every run ----

  ghost predicate Stepped(run: seq<State>, events: seq<Event>, i: nat)
    requires |run| == |events| + 1 && i < |events|
  {
    Enabled(run[i], events[i]) && run[i + 1] == Apply(run[i], events[i])
  }

  ghost predicate IsRun(run: seq<State>, events: seq<Event>) {
    && |run| == |events| + 1
    && Init(run[0])
    && forall i :: 0 <= i < |events| ==> Stepped(run, events, i)
  }

  lemma {:induction false} RunKeepsInv(run: seq<State>, events: seq<Event>, n: nat)
    requires IsRun(run, events) && n < |run|
    ensures Inv(run[n])
  {
    if n == 0 {
      InitHolds(run[0]);
    } else {
      RunKeepsInv(run, events, n - 1);
      assert Stepped(run, events, n - 1);
      StepKeepsInv(run[n - 1], events[n - 1]);
    }
  }

  lemma RunKeepsGoodLogs(run: seq<State>, events: seq<Event>, n: nat, org: Uuid)
    requires IsRun(run, events) && n < |run|
    ensures GoodLog(OrgLog(run[n].table, org))
  {
    RunKeepsInv(run, events, n);
  }

  /** A step appends at most one entry to an org's log, a chained one, and rewrites nothing. */
  lemma StepExtendsLog(s: State, e: Event, org: Uuid)
    requires Inv(s) && Enabled(s, e)
    ensures ExtendsBy(OrgLog(s.table, org), OrgLog(Apply(s, e).table, org))
  {
    if e.Commit? || e.CommitUnacknowledged? { CommitExtendsLog(s, e.pid, if e.Commit? then Appended else Failed, org); }
  }

  lemma CommitExtendsLog(s: State, pid: Pid, phase: Phase, org: Uuid)
    requires Inv(s) && pid in s.appenders && s.appenders[pid].phase.Inserted?
    ensures ExtendsBy(OrgLog(s.table, org), OrgLog(CommitRow(s, pid, phase).table, org))
  {
    assert AppenderOk(s, pid);
    LogsAfterCommit(s, pid);
    assert ReadBack(s.appenders[pid].phase.row) == s.appenders[pid].phase.row;
  }

  ghost predicate ExtendsBy(before: seq<Row>, after: seq<Row>) {
    after == before || (|after| == |before| + 1 && after[..|before|] == before && IsChained(after[|before|]))
  }

  lemma RunStepExtendsLog(run: seq<State>, events: seq<Event>, n: nat, org: Uuid)
    requires IsRun(run, events) && n < |events|
    ensures GoodLog(OrgLog(run[n].table, org))
    ensures ExtendsBy(OrgLog(run[n].table, org), OrgLog(run[n + 1].table, org))
  {
    RunKeepsInv(run, events, n);
    assert Stepped(run, events, n);
    StepExtendsLog(run[n], events[n], org);
  }

  lemma {:induction false} LogOnlyGrows(run: seq<State>, events: seq<Event>, n: nat, org: Uuid)
    requires IsRun(run, events) && n < |run|
    ensures OrgLog(run[0].table, org) <= OrgLog(run[n].table, org)
    ensures |ChainedRows(OrgLog(run[n].table, org))| == |OrgLog(run[n].table, org)| - |OrgLog(run[0].table, org)|
  {
    if n == 0 {
      NothingChained(OrgLog(run[0].table, org));
    } else {
      LogOnlyGrows(run, events, n - 1, org);
      RunStepExtendsLog(run, events, n - 1, org);
      var before, after := OrgLog(run[n - 1].table, org), OrgLog(run[n].table, org);
      if after != before { assert after[..|after| - 1] == before; }
    }
  }

  lemma {:induction false} NothingChained(log: seq<Row>)
    requires forall i :: 0 <= i < |log| ==> log[i].entryHash == Empty
    ensures ChainedRows(log) == []
  {
    if log != [] { NothingChained(log[..|log| - 1]); }
  }

  lemma GoodPrefix(log: seq<Row>)
    requires GoodLog(log) && log != []
    ensures GoodLog(log[..|log| - 1]) && GoodEntry(log, |log| - 1)
  {
    var front := log[..|log| - 1];
    forall i | 0 <= i < |front| ensures GoodEntry(front, i) { assert GoodEntry(log, i); }
  }

  /** A chained entry continues the chain of the entries before it. */
  lemma ChainedEntryLinks(log: seq<Row>, c: seq<Row>)
    requires GoodLog(log) && log != [] && log[|log| - 1].entryHash != Empty
    requires var front := log[..|log| - 1];
             c == ChainedRows(front) && |c| <= |front| && c == front[|front| - |c|..]
    ensures Linked(c + [log[|log| - 1]], |c|)
  {
    var n := |log| - 1;
    assert GoodEntry(log, n);
    if n > 0 {
      assert GoodEntry(log, n - 1);
      assert log[..n][..n - 1] == log[..n - 1];
      assert c != [] ==> c[|c| - 1] == log[n - 1];
      ChainedRowsAreChained(log[..n]);
      assert c != [] ==> c[|c| - 1] in c;
    }
  }

  lemma IntactWithOneMore(c: seq<Row>, last: Row)
    requires Intact(c) && Linked(c + [last], |c|)
    ensures Intact(c + [last])
  {
    var longer := c + [last];
    assert longer[..|c|] == c;
    IntactExtends(longer, |c|);
    assert longer[..|c| + 1] == longer;
  }

  /** A good log is legacy entries followed by an intact chain. */
  lemma {:induction false} GoodLogVerifies(log: seq<Row>)
    requires GoodLog(log)
    ensures Intact(ChainedRows(log))
    ensures |ChainedRows(log)| <= |log| && ChainedRows(log) == log[|log| - |ChainedRows(log)|..]
  {
    if log != [] {
      var front, last := log[..|log| - 1], log[|log| - 1];
      var c := ChainedRows(front);
      GoodPrefix(log);
      GoodLogVerifies(front);
      if last.entryHash != Empty {
        ChainedEntryLinks(log, c);
        IntactWithOneMore(c, last);
      } else {
        LegacyUnchained(log);
      }
    }
  }

  lemma GoodLogIsIntact(log: seq<Row>, report: ChainReport)
    requires GoodLog(log) && IsVerdict(ChainedRows(log), report)
    ensures report.intact && report.entriesChecked == |ChainedRows(log)| <= |log|
    ensures ChainedRows(log) != [] ==> report.headHash == Some(log[|log| - 1].entryHash)
  {
    var c := ChainedRows(log);
    GoodLogVerifies(log);
    VerdictIsExact(c, report);
    assert c[..|c|] == c;
  }

  lemma LegacyUnchained(log: seq<Row>)
    requires GoodLog(log) && log != [] && log[|log| - 1].entryHash == Empty
    ensures ChainedRows(log) == []
  {
    assert GoodEntry(log, |log| - 1);
    NothingChained(log);
  }

  /** No forks: whatever the interleaving, with or without the lock, and wherever appenders crash, each org's
      log keeps positions 1, 2, 3, .., its old entries stay, and the verifier vouches for exactly the rows
      appended since. */
  lemma NoForks(run: seq<State>, events: seq<Event>, org: Uuid, report: ChainReport)
    requires IsRun(run, events)
    requires IsVerdict(ChainedRows(OrgLog(run[|events|].table, org)), report)
    ensures var old_, log := OrgLog(run[0].table, org), OrgLog(run[|events|].table, org);
            && old_ <= log
            && (forall i :: 0 <= i < |log| ==> log[i].seqNo == i + 1)
            && report.intact && report.entriesChecked == |log| - |old_|
            && (|log| > |old_| ==> report.headHash == Some(log[|log| - 1].entryHash) && log[|old_|].prevHash == None)
            && forall i :: |old_| < i < |log| ==> log[i].prevHash == Some(log[i - 1].entryHash)
  {
    var old_, log := OrgLog(run[0].table, org), OrgLog(run[|events|].table, org);
    RunKeepsInv(run, events, |events|);
    LogOnlyGrows(run, events, |events|, org);
    GoodLogIsIntact(log, report);
    forall i | 0 <= i < |log| ensures log[i].seqNo == i + 1 { assert GoodEntry(log, i); }
    forall i | |old_| < i < |log| ensures log[i].prevHash == Some(log[i - 1].entryHash) {
      LinkRecorded(log, i);
    }
    if |log| > |old_| { NoPredecessorRecorded(run[0], log, |old_|, org); }
  }

  /** The first row appended after the backfill has nothing before it. */
  lemma NoPredecessorRecorded(start: State, log: seq<Row>, n: nat, org: Uuid)
    requires Init(start) && GoodLog(log) && n < |log| && log[..n] == OrgLog(start.table, org)
    requires |ChainedRows(log)| == |log| - n
    ensures log[n].prevHash == None
  {
    GoodLogVerifies(log);
    ChainedRowsAreChained(log);
    assert log[n] == ChainedRows(log)[0] && ChainedRows(log)[0] in ChainedRows(log);
    assert GoodEntry(log, n);
    if n > 0 {
      assert log[n - 1] == OrgLog(start.table, org)[n - 1];
    }
  }

  lemma LinkRecorded(log: seq<Row>, i: nat)
    requires GoodLog(log) && 0 < i < |log| && |log| - |ChainedRows(log)| < i
    ensures log[i].prevHash == Some(log[i - 1].entryHash)
  {
    var c := ChainedRows(log);
    GoodLogVerifies(log);
    ChainedRowsAreChained(log);
    var k := i - (|log| - |c|);
    assert log[i] == c[k] && c[k] in c && log[i - 1] == c[k - 1] && c[k - 1] in c;
    assert GoodEntry(log, i);
  }

  /** Every lost attempt is paid for by another writer's commit to the same org since the call began. So a call
      gives up only after `APPEND_ATTEMPTS` of them, a call that meets fewer and no other error appends, and
      no call ever appends twice. */
  lemma BoundedRetrySuffices(run: seq<State>, events: seq<Event>, pid: Pid)
    requires IsRun(run, events) && pid in run[|events|].appenders
    ensures var s := run[|events|];
            var a := s.appenders[pid];
            && |s.table| == s.legacy + |s.writers|
            && a.lost <= Competing(s, pid)
            && (a.phase.GaveUp? ==> Competing(s, pid) >= APPEND_ATTEMPTS && pid !in s.writers)
            && (a.phase.Finished() && !a.phase.Failed? && Competing(s, pid) < APPEND_ATTEMPTS ==> a.phase.Appended?)
            && (a.phase.Appended? ==> exists i :: 0 <= i < |s.writers| && s.writers[i] == pid && Records(s.table[s.legacy + i], a.call))
            && forall i, j :: 0 <= i < j < |s.writers| ==> !(s.writers[i] == pid && s.writers[j] == pid)
  {
    RunKeepsInv(run, events, |events|);
    assert AppenderOk(run[|events|], pid);
    AppendedOnce(run[|events|], pid);
  }

  lemma AppendedOnce(s: State, pid: Pid)
    requires WritersOk(s) && pid in s.appenders && AppenderOk(s, pid)
    ensures s.appenders[pid].phase.Appended? ==>
              exists i :: 0 <= i < |s.writers| && s.writers[i] == pid && Records(s.table[s.legacy + i], s.appenders[pid].call)
    ensures forall i, j :: 0 <= i < j < |s.writers| ==> !(s.writers[i] == pid && s.writers[j] == pid)
  {
    if s.appenders[pid].phase.Appended? {
      var i :| 0 <= i < |s.writers| && s.writers[i] == pid;
      assert Records(s.table[s.legacy + i], s.appenders[pid].call);
    }
  }

  // ---- Each lost attempt is charged to one commit ----

  /** At step `k` another caller's row for the org was committed, at position `seqNo`. */
  ghost predicate CommitsAt(run: seq<State>, events: seq<Event>, k: nat, org: Uuid, seqNo: int)
    requires |run| == |events| + 1 && k < |events|
  {
    && (events[k].Commit? || events[k].CommitUnacknowledged?)
    && |OrgLog(run[k].table, org)| + 1 == seqNo == |OrgLog(run[k + 1].table, org)|
    && events[k].pid in run[k].appenders && run[k].appenders[events[k].pid].call.orgId == org
  }

  ghost predicate QuietBetween(events: seq<Event>, pid: Pid, i: nat, j: nat)
    requires j <= |events|
  {
    forall k :: i < k < j ==> events[k].pid != pid
  }

  /** A planned row was planned by the caller's last step, which read the tip. */
  lemma {:induction false} PlannedByReading(run: seq<State>, events: seq<Event>, pid: Pid, j: nat) returns (i: nat)
    requires IsRun(run, events) && j < |run| && pid in run[j].appenders && run[j].appenders[pid].phase.Planned?
    ensures i < j && events[i].ReadTip? && events[i].pid == pid && QuietBetween(events, pid, i, j)
    ensures pid in run[i + 1].appenders && run[i + 1].appenders[pid] == run[j].appenders[pid]
    ensures |OrgLog(run[i].table, run[j].appenders[pid].call.orgId)| + 1 == run[j].appenders[pid].phase.row.seqNo
  {
    assert j > 0;
    assert Stepped(run, events, j - 1);
    if events[j - 1].pid == pid {
      i := j - 1;
      ReadPlansTheNext(run, events, i);
    } else {
      i := PlannedByReading(run, events, pid, j - 1);
    }
  }

  lemma ReadPlansTheNext(run: seq<State>, events: seq<Event>, i: nat)
    requires IsRun(run, events) && i < |events| && events[i].ReadTip?
    ensures events[i].pid in run[i + 1].appenders
    ensures var a := run[i + 1].appenders[events[i].pid];
            a.phase.Planned? && |OrgLog(run[i].table, a.call.orgId)| + 1 == a.phase.row.seqNo
  {
    var s, e := run[i], events[i];
    assert Stepped(run, events, i);
    RunKeepsInv(run, events, i);
    var org := s.appenders[e.pid].call.orgId;
    TipIsLast(s.table, org, e.tip);
    NextRowFits(OrgLog(s.table, org), s.appenders[e.pid].call, e.now, e.id);
  }

  /** A log that came to hold position `seqNo` did so at one commit. */
  lemma {:induction false} SomeCommitFilled(run: seq<State>, events: seq<Event>, org: Uuid, seqNo: int, i: nat, j: nat)
      returns (k: nat)
    requires IsRun(run, events) && i <= j < |run|
    requires |OrgLog(run[i].table, org)| < seqNo <= |OrgLog(run[j].table, org)|
    ensures i <= k < j && CommitsAt(run, events, k, org, seqNo)
  {
    RunStepExtendsLog(run, events, j - 1, org);
    if |OrgLog(run[j - 1].table, org)| >= seqNo {
      k := SomeCommitFilled(run, events, org, seqNo, i, j - 1);
    } else {
      k := j - 1;
      OnlyCommitsExtend(run, events, k, org);
    }
  }

  lemma OnlyCommitsExtend(run: seq<State>, events: seq<Event>, k: nat, org: Uuid)
    requires IsRun(run, events) && k < |events|
    requires |OrgLog(run[k + 1].table, org)| == |OrgLog(run[k].table, org)| + 1
    ensures CommitsAt(run, events, k, org, |OrgLog(run[k].table, org)| + 1)
  {
    var s, e := run[k], events[k];
    assert Stepped(run, events, k);
    RunKeepsInv(run, events, k);
    if e.Commit? || e.CommitUnacknowledged? {
      assert AppenderOk(s, e.pid);
      LogsAfterCommit(s, e.pid);
    }
  }

  /** At step `k` somebody else committed at the position this caller lost at step `j`. */
  ghost predicate IsChargedTo(run: seq<State>, events: seq<Event>, pid: Pid, j: nat, k: nat)
    requires |run| == |events| + 1 && j < |events| && k < |events|
  {
    && events[k].pid != pid && pid in run[j].appenders && run[j].appenders[pid].phase.Planned?
    && CommitsAt(run, events, k, run[j].appenders[pid].call.orgId, run[j].appenders[pid].phase.row.seqNo)
  }

  /** Each attempt that loses its position loses it to a commit by another caller during that very attempt: after it
      read the tip, and at exactly the position it had planned. An attempt nobody commits during cannot lose. */
  lemma LossIsCharged(run: seq<State>, events: seq<Event>, pid: Pid, j: nat) returns (i: nat, k: nat)
    requires IsRun(run, events) && j < |events| && events[j] == LosePosition(pid)
    ensures i < k < j && events[i].ReadTip? && events[i].pid == pid && QuietBetween(events, pid, i, j)
    ensures IsChargedTo(run, events, pid, j, k)
  {
    LoserIsCovered(run, events, pid, j);
    var org, seqNo := run[j].appenders[pid].call.orgId, run[j].appenders[pid].phase.row.seqNo;
    i := PlannedByReading(run, events, pid, j);
    assert Stepped(run, events, i);
    k := SomeCommitFilled(run, events, org, seqNo, i + 1, j);
  }

  lemma LoserIsCovered(run: seq<State>, events: seq<Event>, pid: Pid, j: nat)
    requires IsRun(run, events) && j < |events| && events[j] == LosePosition(pid)
    ensures pid in run[j].appenders && run[j].appenders[pid].phase.Planned?
    ensures var a := run[j].appenders[pid]; a.phase.row.seqNo <= |OrgLog(run[j].table, a.call.orgId)|
  {
    assert Stepped(run, events, j);
    RunKeepsInv(run, events, j);
    assert AppenderOk(run[j], pid);
    var a := run[j].appenders[pid];
    TakenIffCovered(run[j].table, a.call.orgId, a.phase.row.seqNo);
  }

  /** Different losses are charged to different commits: the later attempt begins after the earlier one lost. */
  lemma LossesAreChargedApart(run: seq<State>, events: seq<Event>, pid: Pid, j: nat, j': nat) returns (k: nat, k': nat)
    requires IsRun(run, events) && j < j' < |events|
    requires events[j] == LosePosition(pid) && events[j'] == LosePosition(pid)
    ensures k < j < k' < j'
    ensures IsChargedTo(run, events, pid, j, k) && IsChargedTo(run, events, pid, j', k')
  {
    var i;
    i, k := LossIsCharged(run, events, pid, j);
    i, k' := LossIsCharged(run, events, pid, j');
    assert events[j].pid == pid;
  }

  /** While every writer takes the advisory lock, nobody is ever beaten to a position. */
  lemma LockedAppendersNeverLose(run: seq<State>, events: seq<Event>, pid: Pid)
    requires IsRun(run, events) && run[|events|].locking
    ensures !Enabled(run[|events|], LosePosition(pid))
  {
    var s := run[|events|];
    RunKeepsInv(run, events, |events|);
    if pid in s.appenders && s.appenders[pid].phase.Planned? {
      assert AppenderOk(s, pid);
      TakenIffCovered(s.table, s.appenders[pid].phase.row.orgId, s.appenders[pid].phase.row.seqNo);
    }
  }

  // ---- What each committed row says ----

  /** The row was planned by this caller at a clock reading that it keeps to the microsecond. */
  ghost predicate PlannedAt(events: seq<Event>, n: nat, pid: Pid, row: Row)
    requires n <= |events|
  {
    exists k :: 0 <= k < n && events[k].ReadTip? && events[k].pid == pid && events[k].id == row.id
                && row.at <= events[k].now < row.at + 1000 && row.at % 1000 == 0
  }

  lemma {:induction false} PendingRow(run: seq<State>, events: seq<Event>, n: nat, pid: Pid)
    requires IsRun(run, events) && n < |run| && pid in run[n].appenders
    ensures var phase := run[n].appenders[pid].phase;
            phase.Planned? || phase.Inserted? ==> PlannedAt(events, n, pid, phase.row)
  {
    if n > 0 {
      assert Stepped(run, events, n - 1);
      if pid in run[n - 1].appenders { PendingRow(run, events, n - 1, pid); }
      if events[n - 1].ReadTip? && events[n - 1].pid == pid {
        assert PlannedAt(events, n, pid, run[n].appenders[pid].phase.row);
      }
    }
  }

  lemma RunKeepsWriters(run: seq<State>, events: seq<Event>, n: nat)
    requires IsRun(run, events) && n < |run|
    ensures WritersOk(run[n])
  {
    RunKeepsInv(run, events, n);
  }

  ghost predicate WrittenWhenPlanned(s: State, events: seq<Event>, n: nat, i: nat)
    requires n <= |events| && i < |s.writers| && |s.table| == s.legacy + |s.writers|
  {
    PlannedAt(events, n, s.writers[i], s.table[s.legacy + i])
  }

  lemma NewRowWhenPlanned(run: seq<State>, events: seq<Event>, n: nat)
    requires IsRun(run, events) && n < |events| && WritersOk(run[n]) && WritersOk(run[n + 1])
    requires |run[n + 1].writers| > |run[n].writers|
    ensures WrittenWhenPlanned(run[n + 1], events, n + 1, |run[n].writers|)
  {
    var s, pid := run[n], events[n].pid;
    assert Stepped(run, events, n);
    PendingRow(run, events, n, pid);
    var row := s.appenders[pid].phase.row;
    assert ReadBack(row) == row;
    assert PlannedAt(events, n + 1, pid, row);
  }

  lemma RowsStay(s: State, e: Event)
    requires Enabled(s, e)
    ensures var t := Apply(s, e);
            t.legacy == s.legacy && s.table <= t.table && s.writers <= t.writers && |t.writers| <= |s.writers| + 1
  {
  }

  lemma PlannedBefore(events: seq<Event>, n: nat, m: nat, pid: Pid, row: Row)
    requires n <= m <= |events| && PlannedAt(events, n, pid, row)
    ensures PlannedAt(events, m, pid, row)
  {
  }

  lemma {:induction false} RowsWhenPlanned(run: seq<State>, events: seq<Event>, n: nat, i: nat)
    requires IsRun(run, events) && n < |run| && i < |run[n].writers| && WritersOk(run[n])
    ensures WrittenWhenPlanned(run[n], events, n, i)
  {
    assert n > 0;
    assert Stepped(run, events, n - 1);
    var s := run[n - 1];
    RowsStay(s, events[n - 1]);
    RunKeepsWriters(run, events, n - 1);
    if i < |s.writers| {
      RowsWhenPlanned(run, events, n - 1, i);
      PlannedBefore(events, n - 1, n, s.writers[i], s.table[s.legacy + i]);
    } else {
      NewRowWhenPlanned(run, events, n - 1);
    }
  }

  /** Over every run, each committed row says what its own call was asked to record, and when it did. */
  lemma CommittedRowsSayWhatTheyRecord(run: seq<State>, events: seq<Event>, n: nat, i: nat)
    requires IsRun(run, events) && n < |run| && i < |run[n].writers|
    ensures var s := run[n];
            && |s.table| == s.legacy + |s.writers| && s.writers[i] in s.appenders
            && var call, row := s.appenders[s.writers[i]].call, s.table[s.legacy + i];
               && Records(row, call)
               && row.actorRole == (if call.token.orgId.None? then "admin" else call.token.role)
               && PlannedAt(events, n, s.writers[i], row)
  {
    RunKeepsWriters(run, events, n);
    RowsWhenPlanned(run, events, n, i);
  }

  // ---- Nobody waits forever ----

  /** A step that takes an appender on: nothing failed, and nobody new came. */
  predicate GoesOn(e: Event) {
    e.Begin? || e.ReadTip? || e.Insert? || e.LosePosition? || e.Commit?
  }

  /** Four round trips an attempt. */
  function StepsLeft(a: Appender): int {
    var attempts := 4 * (APPEND_ATTEMPTS - a.lost);
    match a.phase
    case Ready => attempts
    case Begun => attempts - 1
    case Planned(_) => attempts - 2
    case Inserted(_) => attempts - 3
    case Appended => 0
    case GaveUp => 0
    case Failed => 0
  }

  /** Waiting for the lock or for another's uncommitted row never ends in a deadlock: while an appender is unfinished,
      it or the one it waits for can take a step that needs nothing to fail. */
  lemma SomeAppenderGoesOn(s: State, pid: Pid) returns (e: Event)
    requires Inv(s) && pid in s.appenders && !s.appenders[pid].phase.Finished()
    ensures Enabled(s, e) && GoesOn(e)
  {
    var a := s.appenders[pid];
    if !a.phase.Ready? {
      e := InsideGoesOn(s, pid);
    } else if !s.locking || LockFree(s, pid, a.call.orgId) {
      e := Begin(pid);
    } else {
      var q :| q in s.appenders && q != pid && s.appenders[q].call.orgId == a.call.orgId && s.appenders[q].phase.InTransaction();
      e := InsideGoesOn(s, q);
    }
  }

  lemma InsideGoesOn(s: State, pid: Pid) returns (e: Event)
    requires pid in s.appenders && s.appenders[pid].phase.InTransaction()
    ensures Enabled(s, e) && GoesOn(e)
  {
    match s.appenders[pid].phase
    case Begun =>
      e := ReadTip(pid, Tip(s.table, s.appenders[pid].call.orgId), 0, 0);
    case Planned(row) =>
      if Taken(s.table, row.orgId, row.seqNo) {
        e := LosePosition(pid);
      } else if Contended(s, pid, row) {
        var q :| q in s.appenders && q != pid && s.appenders[q].phase.Inserted?
                 && s.appenders[q].phase.row.orgId == row.orgId && s.appenders[q].phase.row.seqNo == row.seqNo;
        e := Commit(q);
      } else {
        e := Insert(pid);
      }
    case Inserted(_) => e := Commit(pid);
  }

  /** And going on comes to an end: each such step brings its appender closer to its end and sets back no other. */
  lemma GoingOnEnds(s: State, e: Event)
    requires Inv(s) && Enabled(s, e) && GoesOn(e)
    ensures var t := Apply(s, e);
            && t.appenders.Keys == s.appenders.Keys
            && 0 <= StepsLeft(t.appenders[e.pid]) < StepsLeft(s.appenders[e.pid])
            && forall q :: q in s.appenders && q != e.pid ==> t.appenders[q] == s.appenders[q]
  {
    assert AppenderOk(s, e.pid);
    StepsFall(s, e);
  }

  lemma StepsFall(s: State, e: Event)
    requires Enabled(s, e) && GoesOn(e) && s.appenders[e.pid].lost < APPEND_ATTEMPTS
    ensures var t := Apply(s, e);
            && t.appenders.Keys == s.appenders.Keys
            && 0 <= StepsLeft(t.appenders[e.pid]) < StepsLeft(s.appenders[e.pid])
            && forall q :: q in s.appenders && q != e.pid ==> t.appenders[q] == s.appenders[q]
  {
  }
}
