/** The `audit_log` table as the server queries it: rows in any physical order, read per org by `seq`. */
module AuditTable {
  import opened AuditChain

  function InsertBySeq(log: seq<Row>, row: Row): seq<Row> {
    if log == [] || log[|log| - 1].seqNo <= row.seqNo then log + [row]
    else InsertBySeq(log[..|log| - 1], row) + [log[|log| - 1]]
  }

  /** WHERE org_id = org ORDER BY seq. The unique (org_id, seq) index leaves no ties to break. */
  function OrgLog(table: seq<Row>, org: Uuid): seq<Row> {
    if table == [] then []
    else
      var rest := OrgLog(table[..|table| - 1], org);
      if table[|table| - 1].orgId == org then InsertBySeq(rest, table[|table| - 1]) else rest
  }

  predicate Ascending(log: seq<Row>) {
    forall i, j :: 0 <= i < j < |log| ==> log[i].seqNo <= log[j].seqNo
  }

  /** The unique index on (org_id, seq). */
  predicate UniqueIndex(table: seq<Row>) {
    forall i, j :: 0 <= i < j < |table| && table[i].orgId == table[j].orgId ==> table[i].seqNo != table[j].seqNo
  }

  lemma {:induction false} InsertAddsRow(log: seq<Row>, row: Row)
    ensures multiset(InsertBySeq(log, row)) == multiset(log) + multiset{row}
  {
    if log != [] && log[|log| - 1].seqNo > row.seqNo {
      assert log == log[..|log| - 1] + [log[|log| - 1]];
      InsertAddsRow(log[..|log| - 1], row);
    }
  }

  lemma {:induction false} InsertKeepsOrder(log: seq<Row>, row: Row)
    requires Ascending(log)
    ensures Ascending(InsertBySeq(log, row))
  {
    if log != [] && log[|log| - 1].seqNo > row.seqNo {
      var front, last := log[..|log| - 1], log[|log| - 1];
      InsertKeepsOrder(front, row);
      InsertAddsRow(front, row);
      var r := InsertBySeq(front, row);
      forall k | 0 <= k < |r| ensures r[k].seqNo <= last.seqNo {
        assert r[k] in multiset(r);
        assert r[k] == row || r[k] in front;
      }
    }
  }

  function OrgRows(table: seq<Row>, org: Uuid): seq<Row> {
    if table == [] then []
    else OrgRows(table[..|table| - 1], org) + (if table[|table| - 1].orgId == org then [table[|table| - 1]] else [])
  }

  lemma {:induction false} OrgLogIsOrderedSelection(table: seq<Row>, org: Uuid)
    ensures Ascending(OrgLog(table, org))
    ensures multiset(OrgLog(table, org)) == multiset(OrgRows(table, org))
    ensures forall row :: row in OrgLog(table, org) <==> row in table && row.orgId == org
  {
    if table != [] {
      var front, last := table[..|table| - 1], table[|table| - 1];
      assert table == front + [last];
      OrgLogIsOrderedSelection(front, org);
      if last.orgId == org {
        InsertKeepsOrder(OrgLog(front, org), last);
        InsertAddsRow(OrgLog(front, org), last);
      }
      forall row ensures row in OrgLog(table, org) <==> row in table && row.orgId == org {
        assert row in OrgLog(table, org) <==> row in multiset(OrgLog(table, org));
        assert row in OrgLog(front, org) <==> row in multiset(OrgLog(front, org));
      }
    }
  }
}
