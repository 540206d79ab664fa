/** Claiming an org (src/routes/orgs.rs): a count and an insert that no index backs up, kept together by a
    per-token lock, interleaved over any number of claims on any number of replicas. */
module OrgQuota {
  import opened Wrappers

  type Id = nat
  type Pid = nat

  /** `lockKey` is the hash the advisory lock is taken on; it may collide (a constant one serializes everything,
      as a single database connection does). `scope` gives a token's org, `None` for an admin token. */
  datatype Config = Config(locking: bool, maxOrgs: nat, lockKey: Id -> int, scope: Id -> Option<Id>)

  datatype Org = Org(id: Id, slug: string, createdBy: Option<Id>)

  datatype Outcome = Created | AlreadyYours | OrgTaken | QuotaExceeded | InvalidSlug | InternalError

  datatype Phase =
    | Requested
    | Prechecked
    | Locked
    | WithinQuota
    | Inserted(org: Org)
    | Done(outcome: Outcome)
    | Crashed
  {
    predicate HoldsLock() { Locked? || WithinQuota? || Inserted? }
    predicate Counted() { WithinQuota? || Inserted? }
    predicate Over() { Done? || Crashed? }
    predicate PastCheck() {
      Prechecked? || HoldsLock() || (Done? && outcome != InvalidSlug && outcome != InternalError)
    }
  }

  datatype Claim = Claim(token: Id, slug: string, wellFormed: bool, phase: Phase)

  /** `writers` is history: which claim, if any, committed each org after the `initial` ones. */
  datatype State = State(initial: seq<Org>, orgs: seq<Org>, writers: seq<Option<Pid>>, claims: map<Pid, Claim>)

  datatype Event =
    | Submit(pid: Pid, token: Id, slug: string, wellFormed: bool)
    | Precheck(pid: Pid)
    | BeginAndLock(pid: Pid)
    | CountClaimed(pid: Pid)
    | InsertOrg(pid: Pid, freshId: Id)
    | Commit(pid: Pid)
    | CommitUnacknowledged(pid: Pid)
    | DependencyFails(pid: Pid)
    | Crash(pid: Pid)
    | OperatorCreates(org: Org)

  /** The quota query: orgs created by the token. */
  function CountBy(orgs: seq<Org>, token: Id): nat {
    if orgs == [] then 0
    else CountBy(orgs[..|orgs| - 1], token) + (if orgs[|orgs| - 1].createdBy == Some(token) then 1 else 0)
  }

  predicate SlugTaken(orgs: seq<Org>, slug: string) {
    exists org :: org in orgs && org.slug == slug
  }

  /** The lookup by slug. */
  function FindOrg(orgs: seq<Org>, slug: string): (found: Option<Org>)
    ensures found.Some? <==> SlugTaken(orgs, slug)
    ensures found.Some? ==> found.value in orgs && found.value.slug == slug
  {
    if orgs == [] then None
    else if orgs[|orgs| - 1].slug == slug then Some(orgs[|orgs| - 1])
    else
      assert orgs == orgs[..|orgs| - 1] + [orgs[|orgs| - 1]];
      FindOrg(orgs[..|orgs| - 1], slug)
  }

  /** An uncommitted row with this slug makes other inserts of it wait. */
  predicate SlugPending(s: State, slug: string) {
    exists q :: q in s.claims && s.claims[q].phase.Inserted? && s.claims[q].phase.org.slug == slug
  }

  predicate LockHeld(c: Config, s: State, pid: Pid, token: Id) {
    exists q :: q in s.claims && q != pid && s.claims[q].phase.HoldsLock() && c.lockKey(s.claims[q].token) == c.lockKey(token)
  }

  predicate Enabled(c: Config, s: State, e: Event) {
    if e.Submit? then e.pid !in s.claims
    else if e.OperatorCreates? then
      e.org.createdBy == None && !SlugTaken(s.orgs, e.org.slug) && !SlugPending(s, e.org.slug)
    else e.pid in s.claims &&
         var claim := s.claims[e.pid];
         match e
         case Precheck(_) => claim.phase.Requested?
         case BeginAndLock(pid) => claim.phase.Prechecked? && (c.locking ==> !LockHeld(c, s, pid, claim.token))
         case CountClaimed(_) => claim.phase.Locked?
         case InsertOrg(_, _) => claim.phase.WithinQuota? && (!SlugTaken(s.orgs, claim.slug) ==> !SlugPending(s, claim.slug))
         case Commit(_) => claim.phase.Inserted?
         case CommitUnacknowledged(_) => claim.phase.Inserted?
         case DependencyFails(_) => !claim.phase.Over()
         case Crash(_) => !claim.phase.Over()
  }

  function PrecheckOutcome(c: Config, s: State, claim: Claim): Phase {
    if !claim.wellFormed then Done(InvalidSlug)
    else
      match FindOrg(s.orgs, claim.slug)
      case Some(org) => if c.scope(claim.token) == Some(org.id) then Done(AlreadyYours) else Done(OrgTaken)
      case None => Prechecked
  }

  function Move(s: State, pid: Pid, phase: Phase): State
    requires pid in s.claims
  {
    s.(claims := s.claims[pid := s.claims[pid].(phase := phase)])
  }

  function CommitOrg(s: State, pid: Pid, outcome: Outcome): State
    requires pid in s.claims && s.claims[pid].phase.Inserted?
  {
    Move(s, pid, Done(outcome)).(orgs := s.orgs + [s.claims[pid].phase.org], writers := s.writers + [Some(pid)])
  }

  function Apply(c: Config, s: State, e: Event): State
    requires Enabled(c, s, e)
  {
    match e
    case Submit(pid, token, slug, wellFormed) => s.(claims := s.claims[pid := Claim(token, slug, wellFormed, Requested)])
    case Precheck(pid) => Move(s, pid, PrecheckOutcome(c, s, s.claims[pid]))
    case BeginAndLock(pid) => Move(s, pid, Locked)
    case CountClaimed(pid) =>
      var token := s.claims[pid].token;
      Move(s, pid, if c.scope(token).Some? && CountBy(s.orgs, token) >= c.maxOrgs then Done(QuotaExceeded) else WithinQuota)
    case InsertOrg(pid, freshId) =>
      var claim := s.claims[pid];
      Move(s, pid, if SlugTaken(s.orgs, claim.slug) then Done(OrgTaken)
                   else Inserted(Org(freshId, claim.slug, Some(claim.token))))
    case Commit(pid) => CommitOrg(s, pid, Created)
    case CommitUnacknowledged(pid) => CommitOrg(s, pid, InternalError)
    case DependencyFails(pid) => Move(s, pid, Done(InternalError))
    case Crash(pid) => Move(s, pid, Crashed)
    case OperatorCreates(org) => s.(orgs := s.orgs + [org], writers := s.writers + [None])
  }

  // ---- What every step keeps ----

  predicate UniqueSlugs(orgs: seq<Org>) {
    forall i, j :: 0 <= i < j < |orgs| ==> orgs[i].slug != orgs[j].slug
  }

  ghost predicate Init(s: State) {
    s.initial == s.orgs && UniqueSlugs(s.orgs) && s.writers == [] && s.claims == map[]
  }

  ghost predicate Exclusive(c: Config, s: State) {
    forall p, q :: p in s.claims && q in s.claims && p != q && s.claims[p].phase.HoldsLock() && s.claims[q].phase.HoldsLock()
      ==> && (c.locking ==> c.lockKey(s.claims[p].token) != c.lockKey(s.claims[q].token))
          && (s.claims[p].phase.Inserted? && s.claims[q].phase.Inserted? ==> s.claims[p].phase.org.slug != s.claims[q].phase.org.slug)
  }

  ghost predicate ClaimOk(c: Config, s: State, pid: Pid)
    requires pid in s.claims
  {
    var claim := s.claims[pid];
    && (claim.phase.Inserted? ==>
          && claim.phase.org.slug == claim.slug && claim.phase.org.createdBy == Some(claim.token)
          && !SlugTaken(s.orgs, claim.slug))
    && (c.locking && c.scope(claim.token).Some? && claim.phase.Counted() ==> CountBy(s.orgs, claim.token) < c.maxOrgs)
    && (claim.phase.PastCheck() ==> claim.wellFormed)
    && (claim.phase == Done(Created) ==> Some(pid) in s.writers)
    && (Some(pid) in s.writers ==> claim.wellFormed && (claim.phase == Done(Created) || claim.phase == Done(InternalError)))
  }

  /** The org at this place of the history is what its claim asked for. */
  ghost predicate WrittenAt(s: State, i: nat)
    requires i < |s.writers| && |s.orgs| == |s.initial| + |s.writers|
  {
    s.writers[i].Some? ==>
      var pid, org := s.writers[i].value, s.orgs[|s.initial| + i];
      pid in s.claims && org.slug == s.claims[pid].slug && org.createdBy == Some(s.claims[pid].token)
  }

  ghost predicate OrgsOk(s: State) {
    && |s.orgs| == |s.initial| + |s.writers| && s.orgs[..|s.initial|] == s.initial
    && UniqueSlugs(s.orgs)
    && (forall i :: 0 <= i < |s.writers| ==> WrittenAt(s, i))
    && (forall i, j :: 0 <= i < j < |s.writers| && s.writers[i].Some? ==> s.writers[i] != s.writers[j])
  }

  /** The quota, with whatever a token already had grandfathered in. */
  ghost predicate QuotaKept(c: Config, s: State) {
    c.locking ==> forall token :: c.scope(token).Some? ==>
      CountBy(s.orgs, token) <= c.maxOrgs || CountBy(s.orgs, token) <= CountBy(s.initial, token)
  }

  ghost predicate Inv(c: Config, s: State) {
    OrgsOk(s) && QuotaKept(c, s) && Exclusive(c, s) && forall pid :: pid in s.claims ==> ClaimOk(c, s, pid)
  }

  lemma CountAfter(orgs: seq<Org>, org: Org, token: Id)
    ensures CountBy(orgs + [org], token) == CountBy(orgs, token) + (if org.createdBy == Some(token) then 1 else 0)
  {
    assert (orgs + [org])[..|orgs|] == orgs;
  }

  lemma NewSlugIsUnique(orgs: seq<Org>, org: Org)
    requires UniqueSlugs(orgs) && !SlugTaken(orgs, org.slug)
    ensures UniqueSlugs(orgs + [org])
    ensures forall slug :: SlugTaken(orgs + [org], slug) <==> SlugTaken(orgs, slug) || slug == org.slug
  {
    forall i | 0 <= i < |orgs| ensures orgs[i].slug != org.slug { assert orgs[i] in orgs; }
    forall slug ensures SlugTaken(orgs + [org], slug) <==> SlugTaken(orgs, slug) || slug == org.slug {
      assert org in orgs + [org];
      if SlugTaken(orgs, slug) {
        var o :| o in orgs && o.slug == slug;
        assert o in orgs + [org];
      }
    }
  }

  /** A step that writes no org has to answer only for the claim that took it. */
  lemma MoveKeepsInv(c: Config, s: State, pid: Pid, phase: Phase)
    requires Inv(c, s) && pid in s.claims && !s.claims[pid].phase.Over()
    requires phase.HoldsLock() && c.locking ==> s.claims[pid].phase.HoldsLock() || !LockHeld(c, s, pid, s.claims[pid].token)
    requires phase.Inserted? ==> !SlugPending(s, phase.org.slug)
    requires ClaimOk(c, Move(s, pid, phase), pid)
    ensures Inv(c, Move(s, pid, phase))
  {
    var t := Move(s, pid, phase);
    forall i | 0 <= i < |s.writers| ensures WrittenAt(t, i) {
      assert WrittenAt(s, i);
    }
    forall q | q in t.claims ensures ClaimOk(c, t, q) {
      if q != pid { assert ClaimOk(c, s, q); }
    }
    assert Exclusive(c, t);
  }

  lemma SubmitKeepsInv(c: Config, s: State, e: Event)
    requires Inv(c, s) && e.Submit? && Enabled(c, s, e)
    ensures Inv(c, Apply(c, s, e))
  {
    var t := Apply(c, s, e);
    forall i | 0 <= i < |s.writers| ensures s.writers[i] != Some(e.pid) && WrittenAt(t, i) {
      assert WrittenAt(s, i);
    }
    forall q | q in t.claims ensures ClaimOk(c, t, q) {
      if q != e.pid { assert ClaimOk(c, s, q); }
    }
  }

  /** One more org, with a slug nobody has: what it does to the table and to the other claims. */
  lemma RowAddedKeepsOthers(c: Config, s: State, t: State, org: Org, writer: Option<Pid>, q: Pid)
    requires Inv(c, s) && q in s.claims && q in t.claims && t.claims[q] == s.claims[q] && Some(q) != writer
    requires t.orgs == s.orgs + [org] && t.writers == s.writers + [writer]
    requires UniqueSlugs(s.orgs) && !SlugTaken(s.orgs, org.slug)
    requires s.claims[q].phase.Inserted? ==> s.claims[q].phase.org.slug != org.slug
    requires c.locking && org.createdBy == Some(s.claims[q].token) ==> !s.claims[q].phase.HoldsLock()
    ensures ClaimOk(c, t, q)
  {
    assert ClaimOk(c, s, q);
    CountAfter(s.orgs, org, s.claims[q].token);
    NewSlugIsUnique(s.orgs, org);
  }

  lemma RowAddedKeepsOrgs(s: State, t: State, org: Org, writer: Option<Pid>)
    requires OrgsOk(s) && !SlugTaken(s.orgs, org.slug)
    requires t.initial == s.initial && t.orgs == s.orgs + [org] && t.writers == s.writers + [writer]
    requires forall q :: q in s.claims ==> q in t.claims && t.claims[q].slug == s.claims[q].slug && t.claims[q].token == s.claims[q].token
    requires writer.Some? ==> writer !in s.writers && writer.value in t.claims
                              && org.slug == t.claims[writer.value].slug && org.createdBy == Some(t.claims[writer.value].token)
    ensures OrgsOk(t)
  {
    NewSlugIsUnique(s.orgs, org);
    forall i | 0 <= i < |t.writers| ensures WrittenAt(t, i) {
      if i < |s.writers| { assert WrittenAt(s, i); }
    }
  }

  lemma RowAddedKeepsQuota(c: Config, s: State, t: State, org: Org)
    requires QuotaKept(c, s) && t.initial == s.initial && t.orgs == s.orgs + [org]
    requires c.locking && org.createdBy.Some? ==>
               c.scope(org.createdBy.value).None? || CountBy(s.orgs, org.createdBy.value) < c.maxOrgs
    ensures QuotaKept(c, t)
  {
    forall token: Id ensures CountBy(t.orgs, token) == CountBy(s.orgs, token) + (if org.createdBy == Some(token) then 1 else 0) {
      CountAfter(s.orgs, org, token);
    }
  }

  lemma CommitKeepsInv(c: Config, s: State, pid: Pid, outcome: Outcome)
    requires Inv(c, s) && pid in s.claims && s.claims[pid].phase.Inserted?
    requires outcome.Created? || outcome.InternalError?
    ensures Inv(c, CommitOrg(s, pid, outcome))
  {
    var t, org := CommitOrg(s, pid, outcome), s.claims[pid].phase.org;
    assert ClaimOk(c, s, pid);
    RowAddedKeepsOrgs(s, t, org, Some(pid));
    RowAddedKeepsQuota(c, s, t, org);
    forall q | q in t.claims ensures ClaimOk(c, t, q) {
      if q != pid { RowAddedKeepsOthers(c, s, t, org, Some(pid), q); }
    }
    assert Exclusive(c, t);
  }

  lemma OperatorKeepsInv(c: Config, s: State, e: Event)
    requires Inv(c, s) && e.OperatorCreates? && Enabled(c, s, e)
    ensures Inv(c, Apply(c, s, e))
  {
    var t := Apply(c, s, e);
    RowAddedKeepsOrgs(s, t, e.org, None);
    RowAddedKeepsQuota(c, s, t, e.org);
    forall q | q in t.claims ensures ClaimOk(c, t, q) {
      RowAddedKeepsOthers(c, s, t, e.org, None, q);
    }
  }

  lemma DecisionKeepsInv(c: Config, s: State, e: Event)
    requires Inv(c, s) && Enabled(c, s, e) && (e.Precheck? || e.CountClaimed? || e.InsertOrg?)
    ensures Inv(c, Apply(c, s, e))
  {
    assert ClaimOk(c, s, e.pid);
    MoveKeepsInv(c, s, e.pid, Apply(c, s, e).claims[e.pid].phase);
  }

  lemma StopKeepsInv(c: Config, s: State, pid: Pid, phase: Phase)
    requires Inv(c, s) && pid in s.claims && !s.claims[pid].phase.Over()
    requires phase == Done(InternalError) || phase == Crashed
    ensures Inv(c, Move(s, pid, phase))
  {
    assert ClaimOk(c, s, pid);
    MoveKeepsInv(c, s, pid, phase);
  }

  lemma LockKeepsInv(c: Config, s: State, pid: Pid)
    requires Inv(c, s) && Enabled(c, s, BeginAndLock(pid))
    ensures Inv(c, Move(s, pid, Locked))
  {
    assert ClaimOk(c, s, pid);
    MoveKeepsInv(c, s, pid, Locked);
  }

  lemma StepKeepsInv(c: Config, s: State, e: Event)
    requires Inv(c, s) && Enabled(c, s, e)
    ensures Inv(c, Apply(c, s, e))
  {
    match e
    case Submit(_, _, _, _) => SubmitKeepsInv(c, s, e);
    case Commit(pid) => CommitKeepsInv(c, s, pid, Created);
    case CommitUnacknowledged(pid) => CommitKeepsInv(c, s, pid, InternalError);
    case OperatorCreates(_) => OperatorKeepsInv(c, s, e);
    case BeginAndLock(pid) => LockKeepsInv(c, s, pid);
    case DependencyFails(pid) => StopKeepsInv(c, s, pid, Done(InternalError));
    case Crash(pid) => StopKeepsInv(c, s, pid, Crashed);
    case _ => DecisionKeepsInv(c, s, e);
  }

  // ---- What holds over every run ----

  ghost predicate Stepped(c: Config, run: seq<State>, events: seq<Event>, i: nat)
    requires |run| == |events| + 1 && i < |events|
  {
    Enabled(c, run[i], events[i]) && run[i + 1] == Apply(c, run[i], events[i])
  }

  ghost predicate IsRun(c: Config, run: seq<State>, events: seq<Event>) {
    && |run| == |events| + 1 && Init(run[0])
    && forall i :: 0 <= i < |events| ==> Stepped(c, run, events, i)
  }

  lemma {:induction false} RunKeepsInv(c: Config, run: seq<State>, events: seq<Event>, n: nat)
    requires IsRun(c, run, events) && n < |run|
    ensures Inv(c, run[n]) && run[n].initial == run[0].orgs
  {
    if n > 0 {
      RunKeepsInv(c, run, events, n - 1);
      assert Stepped(c, run, events, n - 1);
      StepKeepsInv(c, run[n - 1], events[n - 1]);
    }
  }

  /** The token is scoped to an org with this slug. */
  ghost predicate OwnSlug(c: Config, orgs: seq<Org>, token: Id, slug: string) {
    exists org :: org in orgs && org.slug == slug && c.scope(token) == Some(org.id)
  }

  /** The first checks turn away exactly the malformed slugs and the taken ones, and tell the caller's own org apart. */
  lemma PrecheckIsExact(c: Config, s: State, pid: Pid)
    requires OrgsOk(s) && Enabled(c, s, Precheck(pid))
    ensures var claim, phase := s.claims[pid], Apply(c, s, Precheck(pid)).claims[pid].phase;
            && (phase == Done(InvalidSlug) <==> !claim.wellFormed)
            && (phase == Done(AlreadyYours) <==> claim.wellFormed && OwnSlug(c, s.orgs, claim.token, claim.slug))
            && (phase == Done(OrgTaken) <==>
                claim.wellFormed && !OwnSlug(c, s.orgs, claim.token, claim.slug) && exists org :: org in s.orgs && org.slug == claim.slug)
            && (phase == Prechecked <==> claim.wellFormed && forall org :: org in s.orgs ==> org.slug != claim.slug)
  {
    var claim := s.claims[pid];
    if OwnSlug(c, s.orgs, claim.token, claim.slug) {
      var org :| org in s.orgs && org.slug == claim.slug && c.scope(claim.token) == Some(org.id);
      assert SlugTaken(s.orgs, claim.slug);
      OnlyOneHasTheSlug(s.orgs, org, FindOrg(s.orgs, claim.slug).value);
    } else if claim.wellFormed && SlugTaken(s.orgs, claim.slug) {
      assert FindOrg(s.orgs, claim.slug).value in s.orgs;
    }
  }

  lemma OnlyOneHasTheSlug(orgs: seq<Org>, a: Org, b: Org)
    requires UniqueSlugs(orgs) && a in orgs && b in orgs && a.slug == b.slug
    ensures a == b
  {
    var i :| 0 <= i < |orgs| && orgs[i] == a;
    var j :| 0 <= j < |orgs| && orgs[j] == b;
  }

  /** Over every interleaving, a scoped token never owns more orgs than the quota or, if larger, than it started with. */
  lemma QuotaHolds(c: Config, run: seq<State>, events: seq<Event>, n: nat, token: Id)
    requires IsRun(c, run, events) && n < |run| && c.locking && c.scope(token).Some?
    ensures var had := CountBy(run[0].orgs, token);
            CountBy(run[n].orgs, token) <= if had > c.maxOrgs then had else c.maxOrgs
  {
    RunKeepsInv(c, run, events, n);
  }

  /** Slugs stay unique; a claim told it created the org did, once, and a claim told anything else about the slug
      or the quota added no row. */
  lemma LosersAddNothing(c: Config, run: seq<State>, events: seq<Event>, n: nat, pid: Pid)
    requires IsRun(c, run, events) && n < |run| && pid in run[n].claims
    ensures var s := run[n];
            var claim := s.claims[pid];
            && UniqueSlugs(s.orgs)
            && |s.orgs| == |s.initial| + |s.writers|
            && (claim.phase.Done? && !claim.phase.outcome.Created? && !claim.phase.outcome.InternalError? ==> Some(pid) !in s.writers)
            && (!claim.wellFormed ==> Some(pid) !in s.writers
                                      && (claim.phase.Done? ==> claim.phase.outcome == InvalidSlug || claim.phase.outcome == InternalError))
            && (claim.phase == Done(Created) ==>
                  exists i :: 0 <= i < |s.writers| && s.writers[i] == Some(pid) && WrittenAt(s, i))
            && forall i, j :: 0 <= i < j < |s.writers| ==> !(s.writers[i] == Some(pid) && s.writers[j] == Some(pid))
  {
    var s := run[n];
    RunKeepsInv(c, run, events, n);
    assert ClaimOk(c, s, pid);
    if s.claims[pid].phase == Done(Created) {
      var i :| 0 <= i < |s.writers| && s.writers[i] == Some(pid);
      assert WrittenAt(s, i);
    }
  }

  // ---- Nobody waits forever ----

  /** A step that takes a claim on: nothing failed, and nobody new came. */
  predicate GoesOn(e: Event) {
    e.Precheck? || e.BeginAndLock? || e.CountClaimed? || e.InsertOrg? || e.Commit?
  }

  function StepsLeft(phase: Phase): nat {
    match phase
    case Requested => 5
    case Prechecked => 4
    case Locked => 3
    case WithinQuota => 2
    case Inserted(_) => 1
    case Done(_) => 0
    case Crashed => 0
  }

  /** Waiting for the lock or for a slug never ends in a deadlock: while a claim is unfinished, it or the one it waits
      for can take a step that needs nothing to fail. */
  lemma SomeClaimGoesOn(c: Config, s: State, pid: Pid) returns (e: Event)
    requires pid in s.claims && !s.claims[pid].phase.Over()
    ensures Enabled(c, s, e) && GoesOn(e)
  {
    if s.claims[pid].phase.Requested? {
      e := Precheck(pid);
    } else if !s.claims[pid].phase.Prechecked? {
      e := HolderGoesOn(c, s, pid);
    } else if !c.locking || !LockHeld(c, s, pid, s.claims[pid].token) {
      e := BeginAndLock(pid);
    } else {
      var q :| q in s.claims && q != pid && s.claims[q].phase.HoldsLock() && c.lockKey(s.claims[q].token) == c.lockKey(s.claims[pid].token);
      e := HolderGoesOn(c, s, q);
    }
  }

  lemma HolderGoesOn(c: Config, s: State, pid: Pid) returns (e: Event)
    requires pid in s.claims && s.claims[pid].phase.HoldsLock()
    ensures Enabled(c, s, e) && GoesOn(e)
  {
    if s.claims[pid].phase.Locked? {
      e := CountClaimed(pid);
    } else if s.claims[pid].phase.Inserted? {
      e := Commit(pid);
    } else if SlugTaken(s.orgs, s.claims[pid].slug) || !SlugPending(s, s.claims[pid].slug) {
      e := InsertOrg(pid, 0);
    } else {
      var q :| q in s.claims && s.claims[q].phase.Inserted? && s.claims[q].phase.org.slug == s.claims[pid].slug;
      e := Commit(q);
    }
  }

  /** And going on comes to an end: each such step brings its claim closer to its answer and sets back no other. */
  lemma GoingOnEnds(c: Config, s: State, e: Event)
    requires Enabled(c, s, e) && GoesOn(e)
    ensures var t := Apply(c, s, e);
            && t.claims.Keys == s.claims.Keys
            && StepsLeft(t.claims[e.pid].phase) < StepsLeft(s.claims[e.pid].phase)
            && forall q :: q in s.claims && q != e.pid ==> t.claims[q] == s.claims[q]
  {
  }

  // ---- What the lock is for ----

  /** Two claims by one token, for "a" and "b", where there was `base` before. */
  function Two(token: Id, base: seq<Org>, made: seq<Org>, writers: seq<Option<Pid>>, a: Phase, b: Phase): State {
    State(base, base + made, writers, map[0 := Claim(token, "a", true, a), 1 := Claim(token, "b", true, b)])
  }

  /** A table to start from: the token is one org short of its quota, and neither slug is taken. */
  ghost predicate OneShort(c: Config, base: seq<Org>, token: Id) {
    UniqueSlugs(base) && !SlugTaken(base, "a") && !SlugTaken(base, "b") && CountBy(base, token) + 1 == c.maxOrgs
  }

  /** Both claims pass the quota check before either inserts. */
  lemma BothCount(c: Config, base: seq<Org>, token: Id)
    requires !c.locking && OneShort(c, base, token)
    ensures var s := (a: Phase, b: Phase) => Two(token, base, [], [], a, b);
            && Leads(c, s(Requested, Requested), Precheck(0), s(Prechecked, Requested))
            && Leads(c, s(Prechecked, Requested), Precheck(1), s(Prechecked, Prechecked))
            && Leads(c, s(Prechecked, Prechecked), BeginAndLock(0), s(Locked, Prechecked))
            && Leads(c, s(Locked, Prechecked), BeginAndLock(1), s(Locked, Locked))
            && Leads(c, s(Locked, Locked), CountClaimed(0), s(WithinQuota, Locked))
            && Leads(c, s(WithinQuota, Locked), CountClaimed(1), s(WithinQuota, WithinQuota))
  {
    assert base + [] == base;
  }

  lemma BothInsert(c: Config, base: seq<Org>, token: Id)
    requires !c.locking && OneShort(c, base, token)
    ensures var a, b := Org(10, "a", Some(token)), Org(11, "b", Some(token));
            && Leads(c, Two(token, base, [], [], WithinQuota, WithinQuota), InsertOrg(0, 10), Two(token, base, [], [], Inserted(a), WithinQuota))
            && Leads(c, Two(token, base, [], [], Inserted(a), WithinQuota), InsertOrg(1, 11), Two(token, base, [], [], Inserted(a), Inserted(b)))
  {
    assert base + [] == base;
  }

  lemma BothCommit(c: Config, base: seq<Org>, token: Id)
    ensures var a, b := Org(10, "a", Some(token)), Org(11, "b", Some(token));
            && Leads(c, Two(token, base, [], [], Inserted(a), Inserted(b)), Commit(0), Two(token, base, [a], [Some(0)], Done(Created), Inserted(b)))
            && Leads(c, Two(token, base, [a], [Some(0)], Done(Created), Inserted(b)), Commit(1),
                     Two(token, base, [a, b], [Some(0), Some(1)], Done(Created), Done(Created)))
  {
    var a, b := Org(10, "a", Some(token)), Org(11, "b", Some(token));
    assert base + [] + [a] == base + [a] && base + [a] + [b] == base + [a, b];
  }

  ghost predicate Leads(c: Config, s: State, e: Event, t: State) {
    Enabled(c, s, e) && Apply(c, s, e) == t
  }

  ghost predicate LeadsAt(c: Config, s: State, es: seq<Event>, ts: seq<State>, i: nat)
    requires i < |es| == |ts|
  {
    Leads(c, if i == 0 then s else ts[i - 1], es[i], ts[i])
  }

  ghost predicate RunTo(c: Config, base: seq<Org>, run: seq<State>, events: seq<Event>, s: State) {
    IsRun(c, run, events) && run[0].orgs == base && run[|events|] == s
  }

  lemma RunExtends(c: Config, base: seq<Org>, run: seq<State>, events: seq<Event>, s: State, e: Event, t: State)
    requires RunTo(c, base, run, events, s) && Leads(c, s, e, t)
    ensures RunTo(c, base, run + [t], events + [e], t)
  {
    forall i | 0 <= i < |events| + 1 ensures Stepped(c, run + [t], events + [e], i) {
      if i < |events| { assert Stepped(c, run, events, i); }
    }
  }

  lemma Extend(c: Config, base: seq<Org>, run: seq<State>, events: seq<Event>, s: State, es: seq<Event>, ts: seq<State>)
      returns (run': seq<State>, events': seq<Event>)
    requires RunTo(c, base, run, events, s) && |es| == |ts|
    requires forall i :: 0 <= i < |es| ==> LeadsAt(c, s, es, ts, i)
    ensures RunTo(c, base, run', events', if ts == [] then s else ts[|ts| - 1])
  {
    run', events' := run, events;
    for i := 0 to |es|
      invariant RunTo(c, base, run', events', if i == 0 then s else ts[i - 1])
    {
      assert LeadsAt(c, s, es, ts, i);
      RunExtends(c, base, run', events', if i == 0 then s else ts[i - 1], es[i], ts[i]);
      run', events' := run' + [ts[i]], events' + [es[i]];
    }
  }

  lemma BothSubmit(c: Config, base: seq<Org>, token: Id) returns (run: seq<State>, events: seq<Event>)
    requires UniqueSlugs(base)
    ensures RunTo(c, base, run, events, Two(token, base, [], [], Requested, Requested))
  {
    var start := State(base, base, [], map[]);
    var half := State(base, base, [], map[0 := Claim(token, "a", true, Requested)]);
    assert base + [] == base;
    RunExtends(c, base, [start], [], start, Submit(0, token, "a", true), half);
    RunExtends(c, base, [start] + [half], [] + [Submit(0, token, "a", true)], half, Submit(1, token, "b", true),
               Two(token, base, [], [], Requested, Requested));
    run := [start] + [half] + [Two(token, base, [], [], Requested, Requested)];
    events := [] + [Submit(0, token, "a", true)] + [Submit(1, token, "b", true)];
  }

  /** The lock is what enforces the quota. Without it, for every quota that lets a token claim at all, two claims by one
      scoped token that is one short, both counting before either commits, go past it. */
  lemma WithoutTheLockTheQuotaFails(c: Config, token: Id) returns (run: seq<State>, events: seq<Event>)
    requires !c.locking && c.maxOrgs >= 1 && c.scope(token).Some?
    ensures IsRun(c, run, events)
    ensures CountBy(run[0].orgs, token) == c.maxOrgs - 1 && CountBy(run[|events|].orgs, token) == c.maxOrgs + 1
  {
    var base := Owned(token, c.maxOrgs - 1);
    OwnedIsOneShort(c, token);
    run, events := BothPass(c, base, token);
    run, events := BothGetIn(c, base, token, run, events);
    var a, b := Org(10, "a", Some(token)), Org(11, "b", Some(token));
    assert base + [a, b] == base + [a] + [b];
    CountAfter(base, a, token);
    CountAfter(base + [a], b, token);
  }

  /** `n` orgs created by the token, with slugs of different lengths. */
  function Owned(token: Id, n: nat): (base: seq<Org>)
    ensures |base| == n
  {
    if n == 0 then [] else Owned(token, n - 1) + [Org(n, seq(n + 1, _ => 'x'), Some(token))]
  }

  lemma {:induction false} OwnedAreDistinct(token: Id, n: nat)
    ensures CountBy(Owned(token, n), token) == n
    ensures forall i :: 0 <= i < n ==> |Owned(token, n)[i].slug| == i + 2
  {
    if n > 0 {
      OwnedAreDistinct(token, n - 1);
      CountAfter(Owned(token, n - 1), Org(n, seq(n + 1, _ => 'x'), Some(token)), token);
    }
  }

  lemma OwnedIsOneShort(c: Config, token: Id)
    requires c.maxOrgs >= 1
    ensures OneShort(c, Owned(token, c.maxOrgs - 1), token)
  {
    var base := Owned(token, c.maxOrgs - 1);
    OwnedAreDistinct(token, c.maxOrgs - 1);
    forall i, j | 0 <= i < j < |base| ensures base[i].slug != base[j].slug {
      assert |base[i].slug| != |base[j].slug|;
    }
  }

  lemma BothPass(c: Config, base: seq<Org>, token: Id) returns (run: seq<State>, events: seq<Event>)
    requires !c.locking && OneShort(c, base, token)
    ensures RunTo(c, base, run, events, Two(token, base, [], [], WithinQuota, WithinQuota))
  {
    var s := (x: Phase, y: Phase) => Two(token, base, [], [], x, y);
    run, events := BothSubmit(c, base, token);
    BothCount(c, base, token);
    run, events := Extend(c, base, run, events, s(Requested, Requested),
      [Precheck(0), Precheck(1), BeginAndLock(0), BeginAndLock(1), CountClaimed(0), CountClaimed(1)],
      [s(Prechecked, Requested), s(Prechecked, Prechecked), s(Locked, Prechecked), s(Locked, Locked),
       s(WithinQuota, Locked), s(WithinQuota, WithinQuota)]);
  }

  lemma BothGetIn(c: Config, base: seq<Org>, token: Id, before: seq<State>, past: seq<Event>)
      returns (run: seq<State>, events: seq<Event>)
    requires !c.locking && OneShort(c, base, token)
    requires RunTo(c, base, before, past, Two(token, base, [], [], WithinQuota, WithinQuota))
    ensures var a, b := Org(10, "a", Some(token)), Org(11, "b", Some(token));
            RunTo(c, base, run, events, Two(token, base, [a, b], [Some(0), Some(1)], Done(Created), Done(Created)))
  {
    var a, b := Org(10, "a", Some(token)), Org(11, "b", Some(token));
    BothInsert(c, base, token);
    BothCommit(c, base, token);
    run, events := Extend(c, base, before, past, Two(token, base, [], [], WithinQuota, WithinQuota),
      [InsertOrg(0, 10), InsertOrg(1, 11), Commit(0), Commit(1)],
      [Two(token, base, [], [], Inserted(a), WithinQuota), Two(token, base, [], [], Inserted(a), Inserted(b)),
       Two(token, base, [a], [Some(0)], Done(Created), Inserted(b)),
       Two(token, base, [a, b], [Some(0), Some(1)], Done(Created), Done(Created))]);
  }
}
