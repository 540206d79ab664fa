/** The tamper-evident audit chain: how an entry is hashed (src/audit.rs), how a stored
    log is verified, and what a verdict lets a reader conclude about the history. */
module AuditChain {
  import opened Wrappers

  type Uuid = nat

  /** A hash column. `Of` stands for the hex SHA-256 of a canonical preimage; hashing is
      collision-free because `Of` is a constructor. `Unknown` is any other text. */
  datatype Digest = Empty | Of(input: ChainInput) | Unknown(text: nat)

  /** Everything the digest covers. Times are nanoseconds, and stand for their RFC 3339 rendering. */
  datatype ChainInput = ChainInput(
    orgId: Uuid, seqNo: int, at: int, action: string, subject: string,
    actorTokenId: Option<Uuid>, actorTokenName: string, actorRole: string,
    detail: Option<string>, prevHash: Digest)

  /** One row of the `audit_log` table. */
  datatype Row = Row(
    id: Uuid, orgId: Uuid, at: int, action: string, subject: string,
    actorTokenId: Option<Uuid>, actorTokenName: string, actorRole: string,
    detail: Option<string>, seqNo: int, entryHash: Digest, prevHash: Option<Digest>)

  datatype ChainProblem = HashMismatch | BrokenLink | SequenceGap

  datatype ChainReport = ChainReport(
    intact: bool, entriesChecked: nat, firstBadSeq: Option<int>,
    problem: Option<ChainProblem>, headHash: Option<Digest>)

  /** The `as u64` cast of a signed 64-bit value. */
  function AsU64(n: int): int {
    if n < 0 then n + 0x1_0000_0000_0000_0000 else n
  }

  function ExpectedHash(row: Row, prevHash: Digest): Digest {
    Of(ChainInput(row.orgId, AsU64(row.seqNo), row.at, row.action, row.subject,
                  row.actorTokenId, row.actorTokenName, row.actorRole, row.detail, prevHash))
  }

  /** Legacy rows were never chained; the verifier passes over them. */
  predicate IsChained(row: Row) {
    row.seqNo > 0 && row.entryHash != Empty
  }

  function ChainedRows(rows: seq<Row>): seq<Row> {
    if rows == [] then []
    else ChainedRows(rows[..|rows| - 1]) + (if IsChained(rows[|rows| - 1]) then [rows[|rows| - 1]] else [])
  }

  /** The hash the row at position `i` has to build on. */
  function PrevHashAt(chain: seq<Row>, i: nat): Digest
    requires i <= |chain|
  {
    if i == 0 then Empty else chain[i - 1].entryHash
  }

  ghost predicate Linked(chain: seq<Row>, i: nat)
    requires i < |chain|
  {
    && (i > 0 ==> chain[i].seqNo == chain[i - 1].seqNo + 1)
    && chain[i].entryHash == ExpectedHash(chain[i], PrevHashAt(chain, i))
  }

  /** Consecutive positions, each entry hashing over its contents and its true predecessor. */
  ghost predicate Intact(chain: seq<Row>) {
    forall i :: 0 <= i < |chain| ==> Linked(chain, i)
  }

  function Head(chain: seq<Row>): Option<Digest> {
    if chain == [] then None else Some(chain[|chain| - 1].entryHash)
  }

  /** What a report on `chain` has to say: the prefix it vouches for, and why it stopped there. */
  ghost predicate IsVerdict(chain: seq<Row>, r: ChainReport) {
    var n := r.entriesChecked;
    && n <= |chain|
    && Intact(chain[..n])
    && r.headHash == Head(chain[..n])
    && (r.intact <==> n == |chain|)
    && if r.intact then r.firstBadSeq == None && r.problem == None
       else
         && !Linked(chain, n)
         && if n > 0 && chain[n].seqNo != chain[n - 1].seqNo + 1 then
              r.firstBadSeq == Some(chain[n - 1].seqNo + 1) && r.problem == Some(SequenceGap)
            else
              && r.firstBadSeq == Some(chain[n].seqNo)
              && r.problem == Some(if ExpectedHash(chain[n], chain[n].prevHash.GetOr(Empty)) == chain[n].entryHash
                                   then BrokenLink else HashMismatch)
  }

  /** `verify_chain`: walk the rows, oldest first, and report the first thing that does not line up. */
  method VerifyChain(rows: seq<Row>) returns (report: ChainReport)
    ensures IsVerdict(ChainedRows(rows), report)
  {
    var prevHash := Empty;
    var expectedSeq: Option<int> := None;
    var checked: nat := 0;
    var head: Option<Digest> := None;
    ghost var chain := ChainedRows(rows);
    for i := 0 to |rows|
      invariant checked <= |chain| && ChainedRows(rows[..i]) == chain[..checked]
      invariant Intact(chain[..checked])
      invariant prevHash == PrevHashAt(chain, checked)
      invariant expectedSeq == if checked == 0 then None else Some(chain[checked - 1].seqNo + 1)
      invariant head == Head(chain[..checked])
    {
      var row := rows[i];
      ChainedStep(rows, i);
      if row.seqNo > 0 && row.entryHash != Empty {
        if expectedSeq.Some? && row.seqNo != expectedSeq.value {
          return ChainReport(false, checked, expectedSeq, Some(SequenceGap), head);
        }
        if ExpectedHash(row, prevHash) != row.entryHash {
          var problem :=
            if ExpectedHash(row, row.prevHash.GetOr(Empty)) == row.entryHash then BrokenLink else HashMismatch;
          return ChainReport(false, checked, Some(row.seqNo), Some(problem), head);
        }
        IntactExtends(chain, checked);
        prevHash := row.entryHash;
        head := Some(row.entryHash);
        expectedSeq := Some(row.seqNo + 1);
        checked := checked + 1;
      }
    }
    assert rows[..|rows|] == rows;
    return ChainReport(true, checked, None, None, head);
  }

  lemma {:induction false} ChainedConcat(a: seq<Row>, b: seq<Row>)
    ensures ChainedRows(a + b) == ChainedRows(a) + ChainedRows(b)
  {
    if b == [] {
      assert a + b == a;
    } else {
      assert (a + b)[..|a + b| - 1] == a + b[..|b| - 1];
      ChainedConcat(a, b[..|b| - 1]);
    }
  }

  /** Row `i` is passed over, or is the next row of the chain. */
  lemma ChainedStep(rows: seq<Row>, i: nat)
    requires i < |rows|
    ensures var chain, done := ChainedRows(rows), ChainedRows(rows[..i]);
            if IsChained(rows[i]) then
              |done| < |chain| && chain[|done|] == rows[i] && ChainedRows(rows[..i + 1]) == chain[..|done| + 1]
            else ChainedRows(rows[..i + 1]) == done
  {
    assert rows[..i + 1][..i] == rows[..i];
    ChainedConcat(rows[..i + 1], rows[i + 1..]);
    assert rows[..i + 1] + rows[i + 1..] == rows;
  }

  lemma IntactExtends(chain: seq<Row>, n: nat)
    requires n < |chain| && Intact(chain[..n]) && Linked(chain, n)
    ensures Intact(chain[..n + 1])
  {
    var longer := chain[..n + 1];
    forall i | 0 <= i < |longer| ensures Linked(longer, i) {
      if i < n { assert Linked(chain[..n], i); }
    }
  }

  // ---- What a verdict means ----

  lemma IntactPrefix(chain: seq<Row>, m: nat)
    requires Intact(chain) && m <= |chain|
    ensures Intact(chain[..m])
  {
    forall i | 0 <= i < m ensures Linked(chain[..m], i) {
      assert Linked(chain, i);
    }
  }

  /** The verdict is exact: the vouched-for prefix is the longest good one, and only a good chain is intact. */
  lemma VerdictIsExact(chain: seq<Row>, r: ChainReport)
    requires IsVerdict(chain, r)
    ensures r.intact <==> Intact(chain)
    ensures forall m :: 0 <= m <= |chain| ==> (Intact(chain[..m]) <==> m <= r.entriesChecked)
  {
    var n := r.entriesChecked;
    forall m | 0 <= m <= |chain| ensures Intact(chain[..m]) <==> m <= n {
      if m <= n {
        IntactPrefix(chain[..n], m);
        assert chain[..n][..m] == chain[..m];
      } else {
        assert Linked(chain[..m], n) <==> Linked(chain, n);
      }
    }
    assert chain[..|chain|] == chain;
  }

  /** There is only one verdict per chain, so a lemma about any verdict is about `VerifyChain`'s. */
  lemma VerdictIsUnique(chain: seq<Row>, r1: ChainReport, r2: ChainReport)
    requires IsVerdict(chain, r1) && IsVerdict(chain, r2)
    ensures r1 == r2
  {
    VerdictIsExact(chain, r1);
    VerdictIsExact(chain, r2);
  }

  /** A good prefix followed by a row that is not linked fixes where the walk stops. */
  lemma StopsAt(chain: seq<Row>, n: nat, r: ChainReport)
    requires IsVerdict(chain, r) && n < |chain|
    requires Intact(chain[..n]) && !Linked(chain, n)
    ensures r.entriesChecked == n && !r.intact
  {
    VerdictIsExact(chain, r);
    assert Linked(chain[..n + 1], n) <==> Linked(chain, n);
  }

  // ---- The head hash pins the history ----

  /** Equal in everything the digest covers, and in the digest itself. */
  predicate SameEntry(a: Row, b: Row) {
    a.(id := b.id, prevHash := b.prevHash) == b
  }

  lemma {:induction false} SameHeadSameHistory(c: seq<Row>, d: seq<Row>)
    requires Intact(c) && Intact(d) && Head(c) == Head(d)
    requires forall row :: row in c || row in d ==> IsChained(row)
    ensures |c| == |d| && forall i :: 0 <= i < |c| ==> SameEntry(c[i], d[i])
    decreases |c|
  {
    if c != [] {
      var m, n := |c| - 1, |d| - 1;
      assert Linked(c, m) && Linked(d, n);
      assert c[m] in c && d[n] in d;
      assert SameEntry(c[m], d[n]);
      assert m == 0 <==> n == 0 by {
        assert m > 0 ==> c[m - 1] in c;
        assert n > 0 ==> d[n - 1] in d;
      }
      IntactPrefix(c, m);
      IntactPrefix(d, n);
      SameHeadSameHistory(c[..m], d[..n]);
      forall i | 0 <= i < |c| ensures SameEntry(c[i], d[i]) {
        if i < m { assert c[i] == c[..m][i] && d[i] == d[..n][i]; }
      }
    }
  }

  lemma {:induction false} ChainedRowsAreChained(rows: seq<Row>)
    ensures forall row :: row in ChainedRows(rows) <==> row in rows && IsChained(row)
  {
    if rows != [] {
      ChainedRowsAreChained(rows[..|rows| - 1]);
      assert rows == rows[..|rows| - 1] + [rows[|rows| - 1]];
    }
  }

  /** Two logs that both verify with the same head hold the same chained history, field for field. So
      any edit, deletion, insertion or re-chaining of hashed content is reported or moves the head. */
  lemma HeadPinsHistory(honest: seq<Row>, found: seq<Row>, hr: ChainReport, fr: ChainReport)
    requires IsVerdict(ChainedRows(honest), hr) && hr.intact
    requires IsVerdict(ChainedRows(found), fr) && fr.intact && fr.headHash == hr.headHash
    ensures var h, f := ChainedRows(honest), ChainedRows(found);
            |h| == |f| == fr.entriesChecked && forall i :: 0 <= i < |h| ==> SameEntry(h[i], f[i])
  {
    var h, f := ChainedRows(honest), ChainedRows(found);
    ChainedRowsAreChained(honest);
    ChainedRowsAreChained(found);
    assert h[..|h|] == h && f[..|f|] == f;
    SameHeadSameHistory(h, f);
  }

  /** Cutting the tail off leaves a log that verifies, but never with the old head. */
  lemma TruncationMovesTheHead(rows: seq<Row>, m: nat, full: ChainReport, cut: ChainReport)
    requires m <= |rows| && |ChainedRows(rows[..m])| < |ChainedRows(rows)|
    requires IsVerdict(ChainedRows(rows), full) && full.intact
    requires IsVerdict(ChainedRows(rows[..m]), cut)
    ensures cut.intact && cut.headHash != full.headHash
  {
    assert rows[..m] + rows[m..] == rows;
    ChainedConcat(rows[..m], rows[m..]);
    var c, d := ChainedRows(rows), ChainedRows(rows[..m]);
    assert d == c[..|d|];
    VerdictIsExact(c, full);
    IntactPrefix(c, |d|);
    VerdictIsExact(d, cut);
    if cut.headHash == full.headHash {
      HeadPinsHistory(rows, rows[..m], full, cut);
    }
  }

  // ---- Damage is classified ----

  /** A row numbered 0 or less, or one without a hash, is passed over; every other row is an entry of the chain. */
  lemma UnchainedRowsArePassedOver(a: seq<Row>, x: Row, b: seq<Row>)
    ensures ChainedRows(a + [x] + b) ==
            ChainedRows(a) + (if x.seqNo <= 0 || x.entryHash == Empty then [] else [x]) + ChainedRows(b)
  {
    ChainedConcat(a + [x], b);
    assert (a + [x])[..|a|] == a;
  }

  /** Deleting one chained row of an intact log: a middle row leaves a gap at its own position, the first
      one orphans its successor (a broken link if the successor recorded its predecessor, as appends do),
      and only the last can go unreported, moving the head. */
  lemma DeletionIsReported(a: seq<Row>, x: Row, b: seq<Row>, whole: ChainReport, r: ChainReport)
    requires IsVerdict(ChainedRows(a + [x] + b), whole) && whole.intact && IsChained(x)
    requires IsVerdict(ChainedRows(a + b), r)
    ensures var p, q := ChainedRows(a), ChainedRows(b);
            if q == [] then r.intact && r.headHash != whole.headHash
            else if p != [] then
              r == ChainReport(false, |p|, Some(x.seqNo), Some(SequenceGap), Head(p))
            else
              r == ChainReport(false, 0, Some(q[0].seqNo),
                               Some(if q[0].prevHash == Some(x.entryHash) then BrokenLink else HashMismatch), None)
  {
    var p, q := ChainedRows(a), ChainedRows(b);
    SplitRow(a, x, b);
    ChainedConcat(a, b);
    if q == [] {
      assert a + [x] + b == (a + [x]) + b;
      assert p + [x] + q == p + [x] && p + q == p;
      LastRowGone(a, x, b, whole, r);
    } else {
      VerdictIsExact(p + [x] + q, whole);
      InnerRowGone(p, x, q, r);
    }
  }

  lemma LastRowGone(a: seq<Row>, x: Row, b: seq<Row>, whole: ChainReport, r: ChainReport)
    requires ChainedRows(a + [x] + b) == ChainedRows(a) + [x] && ChainedRows(a + b) == ChainedRows(a)
    requires IsVerdict(ChainedRows(a + [x] + b), whole) && whole.intact
    requires IsVerdict(ChainedRows(a + b), r)
    ensures r.intact && r.headHash != whole.headHash
  {
    var p := ChainedRows(a);
    VerdictIsExact(p + [x], whole);
    IntactPrefix(p + [x], |p|);
    assert (p + [x])[..|p|] == p;
    VerdictIsExact(p, r);
    if r.headHash == whole.headHash {
      HeadPinsHistory(a + [x] + b, a + b, whole, r);
    }
  }

  lemma InnerRowGone(p: seq<Row>, x: Row, q: seq<Row>, r: ChainReport)
    requires Intact(p + [x] + q) && q != [] && x.entryHash != Empty
    requires IsVerdict(p + q, r)
    ensures if p != [] then
              r == ChainReport(false, |p|, Some(x.seqNo), Some(SequenceGap), Head(p))
            else
              r == ChainReport(false, 0, Some(q[0].seqNo),
                               Some(if q[0].prevHash == Some(x.entryHash) then BrokenLink else HashMismatch), None)
  {
    var c, d, n := p + [x] + q, p + q, |p|;
    assert c[..n] == p && d[..n] == p && d[n] == q[0];
    IntactPrefix(c, n);
    MissingLink(p, x, q);
    StopsAt(d, n, r);
  }

  /** What followed the missing row does not follow what came before it. */
  lemma MissingLink(p: seq<Row>, x: Row, q: seq<Row>)
    requires Intact(p + [x] + q) && q != [] && x.entryHash != Empty
    ensures !Linked(p + q, |p|)
    ensures p != [] ==> x.seqNo == p[|p| - 1].seqNo + 1 && q[0].seqNo == x.seqNo + 1
    ensures q[0].entryHash == ExpectedHash(q[0], x.entryHash)
  {
    var c, d, n := p + [x] + q, p + q, |p|;
    assert c[n] == x && c[n + 1] == q[0] && d[n] == q[0];
    assert Linked(c, n) && Linked(c, n + 1);
    assert n > 0 ==> d[n - 1] == c[n - 1];
  }

  lemma SplitRow(a: seq<Row>, x: Row, b: seq<Row>)
    requires IsChained(x)
    ensures ChainedRows(a + [x] + b) == ChainedRows(a) + [x] + ChainedRows(b)
  {
    ChainedConcat(a + [x], b);
    ChainedConcat(a, [x]);
    assert [x][..0] == [];
    assert ChainedRows([x]) == [x];
  }

  /** Editing any hashed field of one row and leaving its hash alone is reported at that row: as a
      mismatch, or as a gap when the edit moved its position away from its predecessor's. */
  lemma EditIsReported(a: seq<Row>, x: Row, y: Row, b: seq<Row>, whole: ChainReport, r: ChainReport)
    requires IsVerdict(ChainedRows(a + [x] + b), whole) && whole.intact
    requires IsChained(x) && IsChained(y) && y.entryHash == x.entryHash && !SameEntry(x, y)
    requires IsVerdict(ChainedRows(a + [y] + b), r)
    ensures var p := ChainedRows(a);
            if y.seqNo != x.seqNo && p != [] then
              r == ChainReport(false, |p|, Some(x.seqNo), Some(SequenceGap), Head(p))
            else
              r == ChainReport(false, |p|, Some(y.seqNo), Some(HashMismatch), Head(p))
  {
    var p, q := ChainedRows(a), ChainedRows(b);
    var c, d, n := p + [x] + q, p + [y] + q, |p|;
    SplitRow(a, x, b);
    SplitRow(a, y, b);
    VerdictIsExact(c, whole);
    assert c[..n] == d[..n] == p && c[n] == x && d[n] == y;
    IntactPrefix(c, n);
    assert Linked(c, n);
    assert n > 0 ==> d[n - 1] == c[n - 1];
    assert !Linked(d, n);
    StopsAt(d, n, r);
  }

  /** Editing a row and recomputing its own hash only pushes the damage to the next link. */
  lemma RehashedEditBreaksTheNextLink(a: seq<Row>, x: Row, y: Row, b: seq<Row>, whole: ChainReport, r: ChainReport)
    requires IsVerdict(ChainedRows(a + [x] + b), whole) && whole.intact
    requires IsChained(x) && y.seqNo == x.seqNo && !SameEntry(x, y)
    requires y.entryHash == ExpectedHash(y, PrevHashAt(ChainedRows(a), |ChainedRows(a)|))
    requires IsVerdict(ChainedRows(a + [y] + b), r)
    ensures var p, q := ChainedRows(a), ChainedRows(b);
            if q == [] then r.intact && r.headHash != whole.headHash
            else r == ChainReport(false, |p| + 1, Some(q[0].seqNo),
                                  Some(if q[0].prevHash == Some(x.entryHash) then BrokenLink else HashMismatch),
                                  Some(y.entryHash))
  {
    var p, q := ChainedRows(a), ChainedRows(b);
    SplitRow(a, x, b);
    SplitRow(a, y, b);
    VerdictIsExact(p + [x] + q, whole);
    RehashedPrefix(p, x, y, q);
    if q == [] {
      LastRowRehashed(p, x, y, whole, r);
    } else {
      InnerRowRehashed(p, x, y, q, r);
    }
  }

  lemma RehashedPrefix(p: seq<Row>, x: Row, y: Row, q: seq<Row>)
    requires Intact(p + [x] + q) && y.seqNo == x.seqNo && y.entryHash == ExpectedHash(y, PrevHashAt(p, |p|))
    ensures Intact(p + [y])
  {
    var c, e := p + [x] + q, p + [y];
    forall i | 0 <= i < |e| ensures Linked(e, i) {
      assert Linked(c, i);
    }
  }

  lemma LastRowRehashed(p: seq<Row>, x: Row, y: Row, whole: ChainReport, r: ChainReport)
    requires IsVerdict(p + [x] + [], whole) && Intact(p + [x] + []) && !SameEntry(x, y)
    requires y.entryHash == ExpectedHash(y, PrevHashAt(p, |p|)) && y.seqNo == x.seqNo
    requires IsVerdict(p + [y] + [], r) && Intact(p + [y])
    ensures r.intact && r.headHash == Some(y.entryHash) && r.headHash != whole.headHash
  {
    var c, d := p + [x], p + [y];
    assert c + [] == c && d + [] == d;
    VerdictIsExact(c, whole);
    VerdictIsExact(d, r);
    assert d[..|d|] == d && c[..|c|] == c;
    assert Linked(c, |p|);
  }

  lemma InnerRowRehashed(p: seq<Row>, x: Row, y: Row, q: seq<Row>, r: ChainReport)
    requires q != [] && Intact(p + [x] + q) && Intact(p + [y]) && !SameEntry(x, y)
    requires y.entryHash == ExpectedHash(y, PrevHashAt(p, |p|)) && y.seqNo == x.seqNo
    requires IsVerdict(p + [y] + q, r)
    ensures r == ChainReport(false, |p| + 1, Some(q[0].seqNo),
                             Some(if q[0].prevHash == Some(x.entryHash) then BrokenLink else HashMismatch),
                             Some(y.entryHash))
  {
    var c, d, n := p + [x] + q, p + [y] + q, |p|;
    assert Linked(c, n) && Linked(c, n + 1);
    assert d[..n + 1] == p + [y];
    assert !Linked(d, n + 1);
    StopsAt(d, n + 1, r);
    assert d[n + 1] == q[0] && d[..n + 1][n] == y;
  }

  /** The `id` and `prev_hash` columns are not themselves verified: logs that differ only there get the same
      verdict, except that a mismatch may be told apart differently. In particular rewriting a `prev_hash`
      column alone goes unreported, although it is documented as a broken link. */
  lemma UncoveredColumnsGoUnreported(c: seq<Row>, d: seq<Row>, rc: ChainReport, rd: ChainReport)
    requires |c| == |d| && forall i :: 0 <= i < |c| ==> SameEntry(c[i], d[i])
    requires IsVerdict(c, rc) && IsVerdict(d, rd)
    ensures rd == rc.(problem := rd.problem)
    ensures rc.intact || rc.problem == Some(SequenceGap) ==> rd == rc
  {
    forall m | 0 <= m <= |c| ensures Intact(c[..m]) <==> Intact(d[..m]) {
      forall i | 0 <= i < m ensures Linked(c[..m], i) <==> Linked(d[..m], i) {
        assert SameEntry(c[i], d[i]) && (i > 0 ==> SameEntry(c[i - 1], d[i - 1]));
      }
    }
    VerdictIsExact(c, rc);
    VerdictIsExact(d, rd);
    var n := rc.entriesChecked;
    assert rd.entriesChecked == n;
    if n > 0 { assert SameEntry(c[n - 1], d[n - 1]); }
    if n < |c| { assert SameEntry(c[n], d[n]); }
  }

  // ---- Timestamps and read-back ----

  /** `chain_timestamp`: nanoseconds dropped before hashing. */
  function ChainTimestamp(now: int): (at: int)
    ensures at % 1000 == 0 && at <= now < at + 1000
  {
    now - now % 1000
  }

  /** A row as Postgres gives it back: `timestamptz` keeps microseconds. */
  function ReadBack(row: Row): Row {
    row.(at := row.at - row.at % 1000)
  }

  /** A hash survives the database exactly when the hashed time was already in whole microseconds. */
  lemma HashSurvivesReadBackIff(row: Row, prev: Digest)
    requires row.entryHash == ExpectedHash(row, prev)
    ensures ReadBack(row).entryHash == ExpectedHash(ReadBack(row), prev) <==> row.at % 1000 == 0
  {
    assert ReadBack(row).at == row.at <==> row.at % 1000 == 0;
  }
}
