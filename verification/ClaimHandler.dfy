/** The org-claim handler itself (src/routes/orgs.rs), run against a database that any number of other claims, on
    any replica, use at the same time. */
module ClaimHandler {
  import opened Wrappers
  import opened OrgQuota

  predicate IsOf(e: Event, pid: Pid) {
    !e.OperatorCreates? && e.pid == pid
  }

  predicate Failure(e: Event) {
    e.DependencyFails? || e.CommitUnacknowledged?
  }

  /** Nothing else touches a claim, what was inserted before, or who inserted it. */
  lemma OthersOnly(c: Config, s: State, e: Event, pid: Pid)
    requires Enabled(c, s, e) && !IsOf(e, pid) && pid in s.claims
    ensures var t := Apply(c, s, e);
            && pid in t.claims && t.claims[pid] == s.claims[pid]
            && s.orgs <= t.orgs && s.writers <= t.writers
            && (Some(pid) in t.writers <==> Some(pid) in s.writers)
  {
  }

  /** What the answer to a claim means once it is given. A slug that is found before the transaction is reported
      with the caller's own org told apart; one that is lost to a race inside it is just taken. */
  ghost predicate AnswerHolds(c: Config, s: State, claim: Claim, outcome: Outcome) {
    match outcome
    case InvalidSlug => !claim.wellFormed
    case AlreadyYours =>
      claim.wellFormed && exists org :: org in s.orgs && org.slug == claim.slug && c.scope(claim.token) == Some(org.id)
    case OrgTaken => claim.wellFormed && SlugTaken(s.orgs, claim.slug)
    case QuotaExceeded => claim.wellFormed && c.scope(claim.token).Some? && CountBy(s.orgs, claim.token) >= c.maxOrgs
    case Created => claim.wellFormed && exists org :: org in s.orgs && org.slug == claim.slug && org.createdBy == Some(claim.token)
    case InternalError => true
  }

  /** `run` and `events` are history: how the database came to be as it is. `errors` counts the failures this
      claim was given. */
  class Database {
    const c: Config
    var s: State
    ghost var run: seq<State>
    ghost var events: seq<Event>
    ghost var errors: nat

    ghost predicate Valid() reads this {
      IsRun(c, run, events) && run[|events|] == s
    }

    ghost predicate At(pid: Pid, claim: Claim) reads this {
      Valid() && pid in s.claims && s.claims[pid] == claim
    }

    constructor (c: Config, orgs: seq<Org>)
      requires UniqueSlugs(orgs)
      ensures Valid() && events == [] && this.c == c && s == State(orgs, orgs, [], map[])
    {
      this.c := c;
      s := State(orgs, orgs, [], map[]);
      run, events, errors := [State(orgs, orgs, [], map[])], [], 0;
    }

    /** One round trip. */
    method Step(e: Event)
      requires Valid() && Enabled(c, s, e)
      modifies this
      ensures Valid() && s == Apply(c, old(s), e) && events == old(events) + [e]
      ensures errors == old(errors) + (if Failure(e) then 1 else 0)
    {
      s := Apply(c, s, e);
      errors := errors + (if Failure(e) then 1 else 0);
      ghost var before, past := run, events;
      run, events := run + [s], events + [e];
      forall i | 0 <= i < |events| ensures Stepped(c, run, events, i) {
        if i < |past| { assert Stepped(c, before, past, i); }
      }
    }

    /** Whatever every other claim does while this one waits. */
    method Meanwhile(pid: Pid)
      requires Valid() && pid in s.claims
      modifies this
      ensures At(pid, old(s.claims[pid]))
      ensures errors == old(errors) && old(events) <= events && old(s.orgs) <= s.orgs
      ensures Some(pid) in s.writers <==> Some(pid) in old(s.writers)
    {
      var steps: int := *;
      var i := 0;
      while i < steps
        invariant At(pid, old(s.claims[pid]))
        invariant errors == old(errors) && old(events) <= events && old(s.orgs) <= s.orgs
        invariant Some(pid) in s.writers <==> Some(pid) in old(s.writers)
      {
        var e: Event := *;
        if !IsOf(e, pid) && Enabled(c, s, e) {
          OthersOnly(c, s, e, pid);
          ghost var mine := errors;
          Step(e);
          errors := mine;
        }
        i := i + 1;
      }
    }

    /** The checks before the transaction. */
    method CheckSlug(pid: Pid) returns (refusal: Option<Outcome>)
      requires Valid() && pid in s.claims && s.claims[pid].phase.Requested?
      modifies this
      ensures old(events) <= events && errors == old(errors) + (if refusal == Some(InternalError) then 1 else 0)
      ensures At(pid, old(s.claims[pid]).(phase := if refusal.Some? then Done(refusal.value) else Prechecked))
      ensures old(s.orgs) <= s.orgs
      ensures refusal.Some? && refusal.value != InternalError ==> AnswerHolds(c, s, old(s.claims[pid]), refusal.value)
      ensures refusal in {Some(AlreadyYours), Some(InternalError)} ||
              !(s.claims[pid].wellFormed && OwnSlug(c, s.orgs, s.claims[pid].token, s.claims[pid].slug))
      ensures refusal.None? ==> s.claims[pid].wellFormed && !SlugTaken(s.orgs, s.claims[pid].slug)
      ensures refusal != Some(Created) && (Some(pid) in s.writers <==> Some(pid) in old(s.writers))
    {
      Meanwhile(pid);
      var ok: bool := *;
      RunKeepsInv(c, run, events, |events|);
      PrecheckIsExact(c, s, pid);
      Step(if ok then Precheck(pid) else DependencyFails(pid));
      var phase := s.claims[pid].phase;
      return if phase.Done? then Some(phase.outcome) else None;
    }

    /** BEGIN and the per-token lock, waited for until it is free or the wait ends in an error. */
    method BeginAndLock(pid: Pid) returns (ok: bool)
      requires Valid() && pid in s.claims && s.claims[pid].phase.Prechecked?
      modifies this
      ensures old(events) <= events && errors == old(errors) + (if ok then 0 else 1)
      ensures At(pid, old(s.claims[pid]).(phase := if ok then Locked else Done(InternalError)))
      ensures Some(pid) in s.writers <==> Some(pid) in old(s.writers)
    {
      Meanwhile(pid);
      ok := *;
      ok := ok && (c.locking ==> !LockHeld(c, s, pid, s.claims[pid].token));
      Step(if ok then Event.BeginAndLock(pid) else DependencyFails(pid));
    }

    /** The count, for a scoped token, held against the quota. */
    method CheckQuota(pid: Pid) returns (refusal: Option<Outcome>)
      requires Valid() && pid in s.claims && s.claims[pid].phase.Locked?
      modifies this
      ensures old(events) <= events && errors == old(errors) + (if refusal == Some(InternalError) then 1 else 0)
      ensures At(pid, old(s.claims[pid]).(phase := if refusal.Some? then Done(refusal.value) else WithinQuota))
      ensures refusal.Some? ==> refusal.value in {QuotaExceeded, InternalError}
      ensures refusal == Some(QuotaExceeded) && s.claims[pid].wellFormed ==> AnswerHolds(c, s, old(s.claims[pid]), QuotaExceeded)
      ensures Some(pid) in s.writers <==> Some(pid) in old(s.writers)
    {
      Meanwhile(pid);
      var ok: bool := *;
      Step(if ok then CountClaimed(pid) else DependencyFails(pid));
      var phase := s.claims[pid].phase;
      return if phase.Done? then Some(phase.outcome) else None;
    }

    /** The INSERT, which waits for an uncommitted row with the slug and loses to a committed one. */
    method InsertOrg(pid: Pid) returns (refusal: Option<Outcome>)
      requires Valid() && pid in s.claims && s.claims[pid].phase.WithinQuota?
      modifies this
      ensures old(events) <= events && errors == old(errors) + (if refusal == Some(InternalError) then 1 else 0)
      ensures pid in s.claims
      ensures refusal.None? ==> s.claims[pid].phase.Inserted? && s.claims[pid].phase.org.slug == s.claims[pid].slug
                                && s.claims[pid].phase.org.createdBy == Some(s.claims[pid].token)
      ensures At(pid, old(s.claims[pid]).(phase := if refusal.Some? then Done(refusal.value) else s.claims[pid].phase))
      ensures refusal.Some? ==> refusal.value in {OrgTaken, InternalError}
      ensures refusal == Some(OrgTaken) && s.claims[pid].wellFormed ==> AnswerHolds(c, s, old(s.claims[pid]), OrgTaken)
      ensures Some(pid) in s.writers <==> Some(pid) in old(s.writers)
    {
      Meanwhile(pid);
      var ok: bool := *;
      var freshId: Id := *;
      var claim := s.claims[pid];
      ok := ok && (SlugTaken(s.orgs, claim.slug) || !SlugPending(s, claim.slug));
      Step(if ok then Event.InsertOrg(pid, freshId) else DependencyFails(pid));
      var phase := s.claims[pid].phase;
      return if phase.Done? then Some(phase.outcome) else None;
    }

    /** COMMIT, whose error does not say whether it took effect. */
    method CommitClaim(pid: Pid) returns (ok: bool)
      requires Valid() && pid in s.claims && s.claims[pid].phase.Inserted?
      modifies this
      ensures old(events) <= events && errors == old(errors) + (if ok then 0 else 1)
      ensures At(pid, old(s.claims[pid]).(phase := Done(if ok then Created else InternalError)))
      ensures ok ==> old(s.claims[pid]).phase.org in s.orgs
    {
      Meanwhile(pid);
      ok := *;
      var tookEffect: bool := *;
      Step(if ok then Commit(pid) else if tookEffect then CommitUnacknowledged(pid) else DependencyFails(pid));
    }
  }

  /** The critical section: lock, count, insert and commit in one transaction. */
  method ClaimSerialized(db: Database, pid: Pid) returns (outcome: Outcome)
    requires db.Valid() && pid in db.s.claims && db.s.claims[pid].phase.Prechecked? && db.s.claims[pid].wellFormed
    modifies db
    ensures old(db.events) <= db.events
    ensures db.At(pid, old(db.s.claims[pid]).(phase := Done(outcome)))
    ensures AnswerHolds(db.c, db.s, old(db.s.claims[pid]), outcome)
    ensures db.errors == old(db.errors) + (if outcome == InternalError then 1 else 0)
  {
    var ok := db.BeginAndLock(pid);
    if !ok {
      return InternalError;
    }
    var refusal := db.CheckQuota(pid);
    if refusal.Some? {
      return refusal.value;
    }
    refusal := db.InsertOrg(pid);
    if refusal.Some? {
      return refusal.value;
    }
    ok := db.CommitClaim(pid);
    return if ok then Created else InternalError;
  }

  lemma ClaimSettled(c: Config, run: seq<State>, events: seq<Event>, pid: Pid)
    requires IsRun(c, run, events) && pid in run[|events|].claims && run[|events|].claims[pid].phase.Done?
    ensures var s := run[|events|];
            var claim := s.claims[pid];
            && (claim.phase.outcome == Created ==> Some(pid) in s.writers)
            && (Some(pid) in s.writers ==> claim.phase.outcome in {Created, InternalError})
            && (c.locking && c.scope(claim.token).Some? && CountBy(s.initial, claim.token) <= c.maxOrgs ==>
                  CountBy(s.orgs, claim.token) <= c.maxOrgs)
  {
    RunKeepsInv(c, run, events, |events|);
    assert ClaimOk(c, run[|events|], pid);
    var token := run[|events|].claims[pid].token;
    if c.locking && c.scope(token).Some? {
      QuotaHolds(c, run, events, |events|, token);
    }
  }

  /** `claim_org` with `claim_org_serialized`. Its answer holds when it is given; only a claim told that it created
      the org, or given a failure, can have added a row; and with the lock in use the token is within its quota. */
  method ClaimOrg(db: Database, pid: Pid, token: Id, slug: string, wellFormed: bool) returns (outcome: Outcome)
    requires db.Valid() && pid !in db.s.claims
    modifies db
    ensures old(db.events) <= db.events
    ensures db.At(pid, Claim(token, slug, wellFormed, Done(outcome)))
    ensures AnswerHolds(db.c, db.s, Claim(token, slug, wellFormed, Done(outcome)), outcome)
    ensures db.errors == old(db.errors) + (if outcome == InternalError then 1 else 0)
    ensures !wellFormed ==> outcome in {InvalidSlug, InternalError}
    ensures wellFormed && OwnSlug(db.c, old(db.s.orgs), token, slug) ==> outcome in {AlreadyYours, InternalError}
    ensures outcome == Created ==> Some(pid) in db.s.writers
    ensures outcome != Created && outcome != InternalError ==> Some(pid) !in db.s.writers
    ensures db.c.locking && db.c.scope(token).Some? && CountBy(db.s.initial, token) <= db.c.maxOrgs ==>
              CountBy(db.s.orgs, token) <= db.c.maxOrgs
  {
    db.Step(Submit(pid, token, slug, wellFormed));
    var refusal := db.CheckSlug(pid);
    outcome := refusal.GetOr(Created);
    if refusal.None? {
      outcome := ClaimSerialized(db, pid);
    }
    ClaimSettled(db.c, db.run, db.events, pid);
  }
}
