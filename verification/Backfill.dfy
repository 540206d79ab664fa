/** The upgrade that numbers the rows written before the audit chain existed
    (migration/src/m20260726_000008_audit_chain.rs), and why the chain can start on top of it. */
module Backfill {
  import opened Wrappers
  import opened AuditChain
  import opened AuditTable
  import AuditAppend

  /** Recorded no later than `b`, ids breaking ties. */
  predicate NoLater(a: Row, b: Row) {
    a.at < b.at || (a.at == b.at && a.id <= b.id)
  }

  predicate Earlier(a: Row, b: Row) {
    a.at < b.at || (a.at == b.at && a.id < b.id)
  }

  /** The correlated count of the UPDATE statement: rows of the same org recorded no later. */
  function Rank(table: seq<Row>, row: Row): nat {
    if table == [] then 0
    else
      var last := table[|table| - 1];
      Rank(table[..|table| - 1], row) + (if last.orgId == row.orgId && NoLater(last, row) then 1 else 0)
  }

  /** The table after the statement; every other column is as it was. */
  function Renumbered(table: seq<Row>): seq<Row> {
    seq(|table|, i requires 0 <= i < |table| => table[i].(seqNo := Rank(table, table[i])))
  }

  predicate UniqueIds(table: seq<Row>) {
    forall i, j :: 0 <= i < j < |table| ==> table[i].id != table[j].id
  }

  /** What the added columns default to. */
  predicate Unchained(table: seq<Row>) {
    forall row :: row in table ==> row.entryHash == Empty && row.prevHash == None
  }

  /** The UPDATE, row by row and in place. The count reads no `seq`, so rows already
      renumbered do not disturb the ones still to come. */
  method BackfillLegacySeq(table: array<Row>)
    modifies table
    ensures table[..] == Renumbered(old(table[..]))
  {
    ghost var was := table[..];
    for i := 0 to table.Length
      invariant forall k :: 0 <= k < i ==> table[k] == Renumbered(was)[k]
      invariant forall k :: i <= k < table.Length ==> table[k] == was[k]
    {
      var count: nat := 0;
      for j := 0 to table.Length
        invariant count == Rank(table[..j], table[i])
      {
        assert table[..j + 1][..j] == table[..j];
        if table[j].orgId == table[i].orgId && NoLater(table[j], table[i]) {
          count := count + 1;
        }
      }
      assert table[..table.Length] == table[..];
      RankIgnoresSeq(table[..], was, table[i]);
      table[i] := table[i].(seqNo := count);
    }
    assert |Renumbered(was)| == table.Length;
  }

  lemma {:induction false} RankIgnoresSeq(s: seq<Row>, t: seq<Row>, row: Row)
    requires |s| == |t| && forall k :: 0 <= k < |s| ==> s[k] == t[k].(seqNo := s[k].seqNo)
    ensures Rank(s, row) == Rank(t, row)
  {
    if s != [] {
      RankIgnoresSeq(s[..|s| - 1], t[..|t| - 1], row);
    }
  }

  lemma {:induction false} RankMonotone(table: seq<Row>, a: Row, b: Row, k: int)
    requires a.orgId == b.orgId && Earlier(a, b)
    requires k < |table| && (k >= 0 ==> table[k] == b)
    ensures Rank(table, a) + (if k >= 0 then 1 else 0) <= Rank(table, b)
  {
    if table != [] {
      var n := |table| - 1;
      RankMonotone(table[..n], a, b, if k == n then -1 else k);
    }
  }

  lemma {:induction false} RankBounds(table: seq<Row>, row: Row, k: int)
    requires k < |table| && (k >= 0 ==> table[k] == row)
    ensures (if k >= 0 then 1 else 0) <= Rank(table, row) <= |OrgRows(table, row.orgId)|
  {
    if table != [] {
      var n := |table| - 1;
      RankBounds(table[..n], row, if k == n then -1 else k);
    }
  }

  /** The numbering follows the order entries were recorded in. */
  lemma RankFollowsTime(table: seq<Row>, i: nat, j: nat)
    requires UniqueIds(table) && i < |table| && j < |table| && i != j && table[i].orgId == table[j].orgId
    ensures Renumbered(table)[i].seqNo < Renumbered(table)[j].seqNo <==>
            table[i].at < table[j].at || (table[i].at == table[j].at && table[i].id < table[j].id)
    ensures Renumbered(table)[i].seqNo != Renumbered(table)[j].seqNo
  {
    if Earlier(table[i], table[j]) {
      RankMonotone(table, table[i], table[j], j);
    } else {
      assert table[i].id != table[j].id by { assert i < j || j < i; }
      RankMonotone(table, table[j], table[i], i);
    }
  }

  /** The unique (org_id, seq) index can be built on the renumbered table. */
  lemma IndexCanBeBuilt(table: seq<Row>)
    requires UniqueIds(table)
    ensures UniqueIndex(Renumbered(table))
  {
    var t := Renumbered(table);
    forall i, j | 0 <= i < j < |t| && t[i].orgId == t[j].orgId ensures t[i].seqNo != t[j].seqNo {
      RankFollowsTime(table, i, j);
    }
  }

  predicate StrictlyAscending(log: seq<Row>) {
    forall i, j :: 0 <= i < j < |log| ==> log[i].seqNo < log[j].seqNo
  }

  lemma {:induction false} InsertStrictly(log: seq<Row>, row: Row)
    requires StrictlyAscending(log) && forall r :: r in log ==> r.seqNo != row.seqNo
    ensures StrictlyAscending(InsertBySeq(log, row))
  {
    if log != [] {
      assert log[|log| - 1] in log;
      if log[|log| - 1].seqNo > row.seqNo {
        var front, last := log[..|log| - 1], log[|log| - 1];
        InsertStrictly(front, row);
        InsertAddsRow(front, row);
        var r := InsertBySeq(front, row);
        forall k | 0 <= k < |r| ensures r[k].seqNo < last.seqNo {
          assert r[k] in multiset(r);
          assert r[k] == row || r[k] in front;
        }
      }
    }
  }

  lemma {:induction false} IndexedLogIsStrict(table: seq<Row>, org: Uuid)
    requires UniqueIndex(table)
    ensures StrictlyAscending(OrgLog(table, org))
  {
    if table != [] {
      var front, last := table[..|table| - 1], table[|table| - 1];
      IndexedLogIsStrict(front, org);
      OrgLogIsOrderedSelection(front, org);
      if last.orgId == org {
        InsertStrictly(OrgLog(front, org), last);
      }
    }
  }

  predicate Dense(log: seq<Row>) {
    forall i :: 0 <= i < |log| ==> log[i].seqNo == i + 1
  }

  /** n increasing numbers within 1..n leave no choice. */
  lemma {:induction false} DensePositions(log: seq<Row>, n: nat)
    requires StrictlyAscending(log) && |log| == n && forall i :: 0 <= i < n ==> 1 <= log[i].seqNo <= n
    ensures Dense(log)
  {
    forall i | 0 <= i < n ensures log[i].seqNo == i + 1 {
      AtLeast(log, i);
      AtMost(log, n, i);
    }
  }

  lemma {:induction false} AtLeast(log: seq<Row>, i: nat)
    requires StrictlyAscending(log) && i < |log| && log[0].seqNo >= 1
    ensures log[i].seqNo >= i + 1
  {
    if i > 0 { AtLeast(log, i - 1); }
  }

  lemma {:induction false} AtMost(log: seq<Row>, n: nat, i: nat)
    requires StrictlyAscending(log) && i < |log| == n && log[n - 1].seqNo <= n
    ensures log[i].seqNo <= i + 1
    decreases n - i
  {
    if i < n - 1 { AtMost(log, n, i + 1); }
  }

  lemma {:induction false} SameOrgRows(s: seq<Row>, t: seq<Row>, org: Uuid)
    requires |s| == |t| && forall k :: 0 <= k < |s| ==> s[k].orgId == t[k].orgId
    ensures |OrgRows(s, org)| == |OrgRows(t, org)|
  {
    if s != [] { SameOrgRows(s[..|s| - 1], t[..|t| - 1], org); }
  }

  /** Rank bijection: each org's n rows get exactly the positions 1..n, in recorded order. */
  lemma BackfillNumbersDensely(table: seq<Row>, org: Uuid)
    requires UniqueIds(table)
    ensures var log := OrgLog(Renumbered(table), org);
            && |log| == |OrgRows(table, org)|
            && Dense(log)
            && forall i, j :: 0 <= i < j < |log| ==> log[i].at < log[j].at || (log[i].at == log[j].at && log[i].id < log[j].id)
  {
    var t := Renumbered(table);
    var log := OrgLog(t, org);
    IndexCanBeBuilt(table);
    IndexedLogIsStrict(t, org);
    OrgLogIsOrderedSelection(t, org);
    assert |log| == |multiset(log)| == |OrgRows(t, org)|;
    SameOrgRows(t, table, org);
    forall i | 0 <= i < |log| ensures 1 <= log[i].seqNo <= |log| {
      assert log[i] in log;
      var k :| 0 <= k < |t| && t[k] == log[i];
      RankBounds(table, table[k], k);
    }
    DensePositions(log, |log|);
    forall i, j | 0 <= i < j < |log| ensures Earlier(log[i], log[j]) {
      RenumberedByTime(table, org, log[i], log[j]);
    }
  }

  lemma RenumberedByTime(table: seq<Row>, org: Uuid, a: Row, b: Row)
    requires UniqueIds(table) && a in OrgLog(Renumbered(table), org) && b in OrgLog(Renumbered(table), org)
    requires a.seqNo < b.seqNo
    ensures Earlier(a, b)
  {
    var t := Renumbered(table);
    OrgLogIsOrderedSelection(t, org);
    var k :| 0 <= k < |t| && t[k] == a;
    var l :| 0 <= l < |t| && t[l] == b;
    RankFollowsTime(table, k, l);
  }

  /** A retried migration renumbers nothing. */
  lemma BackfillIsIdempotent(table: seq<Row>)
    ensures Renumbered(Renumbered(table)) == Renumbered(table)
  {
    var t := Renumbered(table);
    forall i | 0 <= i < |t| ensures Renumbered(t)[i] == t[i] {
      RankIgnoresSeq(t, table, t[i]);
      RankSameRow(table, t[i], table[i]);
    }
  }

  lemma {:induction false} RankSameRow(table: seq<Row>, a: Row, b: Row)
    requires a == b.(seqNo := a.seqNo)
    ensures Rank(table, a) == Rank(table, b)
  {
    if table != [] { RankSameRow(table[..|table| - 1], a, b); }
  }

  /** The upgraded table is where concurrent appends may start. */
  lemma UpgradeIsAppendable(table: seq<Row>)
    requires UniqueIds(table) && Unchained(table)
    ensures AuditAppend.Backfilled(Renumbered(table))
  {
    var t := Renumbered(table);
    forall org, i | 0 <= i < |OrgLog(t, org)|
      ensures var row := OrgLog(t, org)[i]; row.seqNo == i + 1 && row.entryHash == Empty && row.prevHash == None
    {
      var log := OrgLog(t, org);
      BackfillNumbersDensely(table, org);
      OrgLogIsOrderedSelection(t, org);
      assert log[i] in log;
      var k :| 0 <= k < |t| && t[k] == log[i];
      assert table[k] in table;
    }
  }

  /** The first append after the upgrade takes position n + 1, has no predecessor, and verifies alone. */
  lemma FirstAppendStartsTheChain(table: seq<Row>, call: AuditAppend.Call, now: int, id: Uuid, report: ChainReport)
    requires UniqueIds(table) && Unchained(table)
    requires var log := OrgLog(Renumbered(table), call.orgId);
             var tip := if log == [] then None else Some(log[|log| - 1]);
             IsVerdict(ChainedRows(log + [AuditAppend.NextRow(call, tip, now, id)]), report)
    ensures var log := OrgLog(Renumbered(table), call.orgId);
            var row := AuditAppend.NextRow(call, if log == [] then None else Some(log[|log| - 1]), now, id);
            && row.seqNo == |OrgRows(table, call.orgId)| + 1 && row.prevHash == None
            && report == ChainReport(true, 1, None, None, Some(row.entryHash))
  {
    var log := OrgLog(Renumbered(table), call.orgId);
    LegacyLog(table, call.orgId);
    FirstRow(log, call, now, id);
    ChainOfOne(log, AuditAppend.NextRow(call, if log == [] then None else Some(log[|log| - 1]), now, id), report);
  }

  lemma LegacyLog(table: seq<Row>, org: Uuid)
    requires UniqueIds(table) && Unchained(table)
    ensures var log := OrgLog(Renumbered(table), org);
            && |log| == |OrgRows(table, org)|
            && ChainedRows(log) == []
            && (log != [] ==> log[|log| - 1].seqNo == |log| && log[|log| - 1].entryHash == Empty)
  {
    var log := OrgLog(Renumbered(table), org);
    BackfillNumbersDensely(table, org);
    UpgradeIsAppendable(table);
    AuditAppend.NothingChained(log);
  }

  /** The row appended to legacy rows only. */
  lemma FirstRow(log: seq<Row>, call: AuditAppend.Call, now: int, id: Uuid)
    requires log != [] ==> log[|log| - 1].seqNo == |log| && log[|log| - 1].entryHash == Empty
    ensures var row := AuditAppend.NextRow(call, if log == [] then None else Some(log[|log| - 1]), now, id);
            row.seqNo == |log| + 1 && row.prevHash == None && IsChained(row) && row.entryHash == ExpectedHash(row, Empty)
  {
  }

  lemma ChainOfOne(log: seq<Row>, row: Row, report: ChainReport)
    requires ChainedRows(log) == []
    requires IsChained(row) && row.entryHash == ExpectedHash(row, Empty)
    requires IsVerdict(ChainedRows(log + [row]), report)
    ensures report == ChainReport(true, 1, None, None, Some(row.entryHash))
  {
    assert (log + [row])[..|log|] == log;
    assert ChainedRows(log + [row]) == [row];
    OnlyLink(row, report);
  }

  lemma OnlyLink(row: Row, report: ChainReport)
    requires row.entryHash == ExpectedHash(row, Empty) && IsVerdict([row], report)
    ensures report == ChainReport(true, 1, None, None, Some(row.entryHash))
  {
    var c := [row];
    assert Linked(c, 0);
    VerdictIsExact(c, report);
    assert c[..1] == c;
  }

  /** Positions agree with recorded time, org by org. */
  predicate ClockOrdered(table: seq<Row>) {
    forall i, j :: 0 <= i < |table| && 0 <= j < |table| && table[i].orgId == table[j].orgId && table[i].seqNo < table[j].seqNo
      ==> table[i].at < table[j].at || (table[i].at == table[j].at && table[i].id < table[j].id)
  }

  /** Re-applying the statement to a log that has grown since is harmless exactly when the appenders' clocks
      never ran backwards along the chain: the positions of a chained row come from the tip, not the clock. */
  lemma RerunIsHarmlessIff(table: seq<Row>)
    requires UniqueIds(table)
    requires forall org :: Dense(OrgLog(table, org))
    ensures Renumbered(table) == table <==> ClockOrdered(table)
  {
    if Renumbered(table) == table {
      forall i, j | 0 <= i < |table| && 0 <= j < |table| && table[i].orgId == table[j].orgId && table[i].seqNo < table[j].seqNo
        ensures Earlier(table[i], table[j])
      {
        RankFollowsTime(table, i, j);
      }
    }
    if ClockOrdered(table) {
      forall k | 0 <= k < |table| ensures Rank(table, table[k]) == table[k].seqNo {
        RankOfClockOrdered(table, table[k]);
      }
      assert Renumbered(table) == table;
    }
  }

  function Ranked(table: seq<Row>, log: seq<Row>): seq<Row> {
    seq(|log|, i requires 0 <= i < |log| => log[i].(seqNo := Rank(table, log[i])))
  }

  lemma RankInLog(table: seq<Row>, org: Uuid, i: nat)
    requires i < |OrgLog(table, org)|
    ensures 1 <= Rank(table, OrgLog(table, org)[i]) <= |OrgLog(table, org)|
  {
    var log := OrgLog(table, org);
    OrgLogIsOrderedSelection(table, org);
    assert |log| == |multiset(log)| == |OrgRows(table, org)|;
    assert log[i] in log;
    var k :| 0 <= k < |table| && table[k] == log[i];
    RankBounds(table, log[i], k);
  }

  lemma RankAlongLog(table: seq<Row>, org: Uuid, i: nat, j: nat)
    requires ClockOrdered(table) && i < |OrgLog(table, org)| && j < |OrgLog(table, org)|
    requires OrgLog(table, org)[i].seqNo < OrgLog(table, org)[j].seqNo
    ensures Rank(table, OrgLog(table, org)[i]) < Rank(table, OrgLog(table, org)[j])
  {
    var log := OrgLog(table, org);
    OrgLogIsOrderedSelection(table, org);
    assert log[i] in log && log[j] in log;
    var k :| 0 <= k < |table| && table[k] == log[i];
    var l :| 0 <= l < |table| && table[l] == log[j];
    RankMonotone(table, log[i], log[j], l);
  }

  lemma RanksAreDense(table: seq<Row>, org: Uuid)
    requires ClockOrdered(table) && StrictlyAscending(OrgLog(table, org))
    ensures Dense(Ranked(table, OrgLog(table, org)))
  {
    var log := OrgLog(table, org);
    var ranked := Ranked(table, log);
    forall i | 0 <= i < |log| ensures 1 <= ranked[i].seqNo <= |log| {
      RankInLog(table, org, i);
    }
    forall i, j | 0 <= i < j < |log| ensures ranked[i].seqNo < ranked[j].seqNo {
      RankAlongLog(table, org, i, j);
    }
    DensePositions(ranked, |log|);
  }

  lemma RankOfClockOrdered(table: seq<Row>, row: Row)
    requires row in table && ClockOrdered(table) && Dense(OrgLog(table, row.orgId))
    ensures Rank(table, row) == row.seqNo
  {
    var log := OrgLog(table, row.orgId);
    RanksAreDense(table, row.orgId);
    OrgLogIsOrderedSelection(table, row.orgId);
    assert row in log;
    var i :| 0 <= i < |log| && log[i] == row;
    assert Ranked(table, log)[i].seqNo == i + 1;
  }

  /** Two appends, the second on a replica whose clock is behind: re-applying the statement swaps them. */
  lemma RerunCanRenumberHistory(call: AuditAppend.Call)
    ensures var first := AuditAppend.NextRow(call, None, 2000, 1);
            var second := AuditAppend.NextRow(call, Some(first), 1000, 2);
            var renumbered := Renumbered([first, second]);
            && (first.seqNo, second.seqNo) == (1, 2)
            && (renumbered[0].seqNo, renumbered[1].seqNo) == (2, 1)
  {
    var first := AuditAppend.NextRow(call, None, 2000, 1);
    var second := AuditAppend.NextRow(call, Some(first), 1000, 2);
    var table := [first, second];
    assert table[..1] == [first] && [first][..0] == [];
    assert Rank([first], first) == 1 && Rank([first], second) == 0;
  }
}
