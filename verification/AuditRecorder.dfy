/** The `record` call itself (src/audit.rs), run against a database that other callers use at the same time: its
    retry loop, and one attempt's transaction, round trip by round trip. */
module AuditRecorder {
  import opened Wrappers
  import opened AuditChain
  import opened AuditTable
  import opened AuditAppend

  /** How an attempt, or its insert, ends. */
  datatype Attempt = Added | PositionTaken | DbError

  /** The shared database. `run` and `events` are history: how it came to be as it is. `errors` counts the errors
      this caller was given. */
  class Database {
    var s: State
    ghost var run: seq<State>
    ghost var events: seq<Event>
    ghost var errors: nat

    ghost predicate Valid() reads this {
      IsRun(run, events) && run[|events|] == s
    }

    constructor (locking: bool, legacy: seq<Row>)
      requires Backfilled(legacy)
      ensures Valid() && events == [] && s == State(locking, |legacy|, legacy, [], map[])
    {
      s := State(locking, |legacy|, legacy, [], map[]);
      run, events, errors := [State(locking, |legacy|, legacy, [], map[])], [], 0;
    }

    /** One round trip. */
    method Step(e: Event)
      requires Valid() && Enabled(s, e)
      modifies this
      ensures Valid() && s == Apply(old(s), e) && events == old(events) + [e]
      ensures errors == old(errors) + (if e.Fail? || e.CommitUnacknowledged? then 1 else 0)
    {
      s := Apply(s, e);
      ghost var before, past := run, events;
      run, events := run + [s], events + [e];
      errors := errors + (if e.Fail? || e.CommitUnacknowledged? then 1 else 0);
      forall i | 0 <= i < |events| ensures Stepped(run, events, i) {
        if i < |past| { assert Stepped(before, past, i); }
      }
    }

    /** Whatever every other caller does while this one waits for the database. */
    method Meanwhile(pid: Pid)
      requires Valid() && pid in s.appenders
      modifies this
      ensures Valid() && pid in s.appenders && s.appenders[pid] == old(s.appenders[pid])
      ensures s.locking == old(s.locking) && errors == old(errors)
      ensures old(events) <= events && forall i :: |old(events)| <= i < |events| ==> events[i].pid != pid
    {
      var steps: int := *;
      var i := 0;
      while i < steps
        invariant Valid() && pid in s.appenders && s.appenders[pid] == old(s.appenders[pid])
        invariant s.locking == old(s.locking) && errors == old(errors)
        invariant old(events) <= events && forall i :: |old(events)| <= i < |events| ==> events[i].pid != pid
      {
        var e: Event := *;
        if e.pid != pid && Enabled(s, e) {
          ghost var mine := errors;
          Step(e);
          errors := mine;
        }
        i := i + 1;
      }
    }

    /** Every round trip below first lets the others go on, may fail, and on failure ends the call. */
    ghost predicate At(pid: Pid, a: Appender) reads this {
      Valid() && pid in s.appenders && s.appenders[pid] == a
    }

    /** BEGIN and the advisory lock, waited for until it is free or the wait ends in an error. */
    method BeginAndLock(pid: Pid) returns (ok: bool)
      requires Valid() && pid in s.appenders && s.appenders[pid].phase.Ready?
      modifies this
      ensures errors == old(errors) + (if ok then 0 else 1)
      ensures old(events) <= events && At(pid, old(s.appenders[pid]).(phase := if ok then Begun else Failed))
    {
      Meanwhile(pid);
      ok := *;
      ok := ok && (s.locking ==> LockFree(s, pid, s.appenders[pid].call.orgId));
      Step(if ok then Begin(pid) else Fail(pid));
    }

    /** The tip query, and the row hashed on top of what it returned. */
    method PlanRow(pid: Pid) returns (ok: bool)
      requires Valid() && pid in s.appenders && s.appenders[pid].phase.Begun?
      modifies this
      ensures errors == old(errors) + (if ok then 0 else 1)
      ensures old(events) <= events && pid in s.appenders
      ensures At(pid, old(s.appenders[pid]).(phase := if ok then s.appenders[pid].phase else Failed))
      ensures ok ==> s.appenders[pid].phase.Planned?
    {
      Meanwhile(pid);
      ok := *;
      var now: int := *;
      var id: Uuid := *;
      Step(if ok then ReadTip(pid, Tip(s.table, s.appenders[pid].call.orgId), now, id) else Fail(pid));
    }

    /** The INSERT, which waits for an uncommitted row at its position and loses to a committed one. */
    method InsertRow(pid: Pid) returns (r: Attempt)
      requires Valid() && pid in s.appenders && s.appenders[pid].phase.Planned?
      modifies this
      ensures errors == old(errors) + (if !r.DbError? then 0 else 1)
      ensures old(events) <= events && pid in s.appenders
      ensures var was := old(s.appenders[pid]);
              At(pid, match r
                      case Added => was.(phase := Inserted(was.phase.row))
                      case DbError => was.(phase := Failed)
                      case PositionTaken =>
                        was.(lost := was.lost + 1, phase := if was.lost + 1 < APPEND_ATTEMPTS then Ready else GaveUp))
      ensures var row := old(s.appenders[pid]).phase.row;
              && (r.PositionTaken? ==> Taken(s.table, row.orgId, row.seqNo))
              && (r.Added? ==> !Taken(s.table, row.orgId, row.seqNo))
    {
      Meanwhile(pid);
      var row := s.appenders[pid].phase.row;
      var ok: bool := *;
      if !ok || Contended(s, pid, row) {
        Step(Fail(pid));
        return DbError;
      }
      if Taken(s.table, row.orgId, row.seqNo) {
        Step(LosePosition(pid));
        return PositionTaken;
      }
      Step(Insert(pid));
      return Added;
    }

    /** COMMIT, whose error does not say whether it took effect. */
    method CommitRecord(pid: Pid) returns (ok: bool)
      requires Valid() && pid in s.appenders && s.appenders[pid].phase.Inserted?
      modifies this
      ensures errors == old(errors) + (if ok then 0 else 1)
      ensures old(events) <= events && At(pid, old(s.appenders[pid]).(phase := if ok then Appended else Failed))
    {
      Meanwhile(pid);
      ok := *;
      var tookEffect: bool := *;
      Step(if ok then Commit(pid) else if tookEffect then CommitUnacknowledged(pid) else Fail(pid));
    }
  }

  /** One attempt: lock, read the tip, insert the next link and commit, in one transaction. */
  method AppendChained(db: Database, pid: Pid) returns (r: Attempt)
    requires db.Valid() && pid in db.s.appenders && db.s.appenders[pid].phase.Ready?
    modifies db
    ensures db.errors == old(db.errors) + (if r.DbError? then 1 else 0)
    ensures old(db.events) <= db.events
    ensures var was := old(db.s.appenders[pid]);
            db.At(pid, match r
                       case Added => was.(phase := Appended)
                       case DbError => was.(phase := Failed)
                       case PositionTaken =>
                         was.(lost := was.lost + 1, phase := if was.lost + 1 < APPEND_ATTEMPTS then Ready else GaveUp))
  {
    var ok := db.BeginAndLock(pid);
    if !ok {
      return DbError;
    }
    ok := db.PlanRow(pid);
    if !ok {
      return DbError;
    }
    r := db.InsertRow(pid);
    if !r.Added? {
      return r;
    }
    ok := db.CommitRecord(pid);
    return if ok then Added else DbError;
  }

  lemma {:induction false} CountOf(writers: seq<Pid>, pid: Pid)
    requires forall i, j :: 0 <= i < j < |writers| ==> writers[i] != writers[j]
    ensures multiset(writers)[pid] == if pid in writers then 1 else 0
  {
    if writers != [] {
      var n := |writers| - 1;
      CountOf(writers[..n], pid);
      assert writers == writers[..n] + [writers[n]];
    }
  }

  /** Append one record: retry while positions are lost, give up on anything else. With no database error it adds
      exactly one row, saying what was asked, unless other writers got in at least `APPEND_ATTEMPTS` rows for the
      org during the call, and then it adds none. */
  method Record(db: Database, pid: Pid, call: Call)
    requires db.Valid() && pid !in db.s.appenders
    modifies db
    ensures db.Valid() && old(db.events) <= db.events && pid in db.s.appenders
    ensures db.s.appenders[pid].call == call && db.s.appenders[pid].phase.Finished()
    ensures db.s.appenders[pid].phase.Appended? ==> multiset(db.s.writers)[pid] == 1
    ensures db.s.appenders[pid].phase.GaveUp? ==> multiset(db.s.writers)[pid] == 0
    ensures db.errors == old(db.errors) ==> !db.s.appenders[pid].phase.Failed?
    ensures multiset(db.s.writers)[pid] <= 1
    ensures WritersOk(db.s) && (db.s.appenders[pid].phase.GaveUp? ==> Competing(db.s, pid) >= APPEND_ATTEMPTS)
    ensures forall i :: 0 <= i < |db.s.writers| && db.s.writers[i] == pid ==>
              var row := db.s.table[db.s.legacy + i];
              Records(row, call) && row.actorRole == if call.token.orgId.None? then "admin" else call.token.role
  {
    db.Step(Start(pid, call));
    var attempt := 0;
    while attempt < APPEND_ATTEMPTS
      invariant db.Valid() && old(db.events) <= db.events && pid in db.s.appenders && 0 <= attempt <= APPEND_ATTEMPTS
      invariant db.errors == old(db.errors)
      invariant db.s.appenders[pid].call == call && db.s.appenders[pid].lost == attempt
      invariant db.s.appenders[pid].phase == if attempt < APPEND_ATTEMPTS then Ready else GaveUp
    {
      var r := AppendChained(db, pid);
      if !r.PositionTaken? {
        break;
      }
      attempt := attempt + 1;
    }
    RunKeepsInv(db.run, db.events, |db.events|);
    assert AppenderOk(db.s, pid);
    CountOf(db.s.writers, pid);
  }
}
