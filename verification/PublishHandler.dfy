/** The publish and yank handlers themselves (src/routes/publish.rs, src/routes/yank.rs), each run against a server
    that any number of other requests use at the same time. */
module PublishHandler {
  import opened Wrappers
  import opened Registry
  import opened PublishPipeline

  predicate IsOf(e: Event, pid: Pid) {
    !e.SetYanked? && e.pid == pid
  }

  predicate Failure(e: Event) {
    e.DependencyFails? || e.CommitUnacknowledged?
  }

  ghost predicate NothingBy(history: seq<Op>, pid: Pid) {
    forall i :: 0 <= i < |history| ==> !(history[i].Publish? && history[i].writer == pid)
  }

  lemma OthersOnly(s: State, e: Event, pid: Pid)
    requires Enabled(s, e) && !IsOf(e, pid) && pid in s.flights
    ensures var t := Apply(s, e);
            && pid in t.flights && t.flights[pid] == s.flights[pid] && t.orgs == s.orgs
            && (NothingBy(s.history, pid) ==> NothingBy(t.history, pid))
  {
  }

  /** Packages keep their ids, and versions everything but their yank flags. */
  ghost predicate Grown(s: State, t: State) {
    && t.orgs == s.orgs
    && (forall key :: key in s.packages ==> key in t.packages && t.packages[key].id == s.packages[key].id)
    && forall vk :: vk in s.versions ==> vk in t.versions && t.versions[vk].(yanked := false) == s.versions[vk].(yanked := false)
  }

  lemma StepGrows(run: seq<State>, events: seq<Event>, e: Event)
    requires IsRun(run, events) && Enabled(run[|events|], e)
    ensures Grown(run[|events|], Apply(run[|events|], e))
  {
    RunKeepsInv(run, events, |events|);
    RowsOnlyYanked(run[|events|], e);
    PackagesStay(run[|events|], e);
  }

  lemma PackagesStay(s: State, e: Event)
    requires FlightsOk(s) && Enabled(s, e)
    ensures var t := Apply(s, e);
            t.orgs == s.orgs && forall key :: key in s.packages ==> key in t.packages && t.packages[key].id == s.packages[key].id
  {
    if e.Commit? || e.CommitUnacknowledged? { assert FlightOk(s, e.pid); }
  }

  function Decision(s: State, req: Request, e: Event): Phase {
    match e
    case Authorise(_) => AuthoriseOutcome(s, req)
    case Check(_, tagFound) => CheckOutcome(req, tagFound)
    case _ => if req.slug in s.orgs && HasVersion(s, KeyOf(s, req), req.version) then Done(VersionExists) else Vacant
  }

  /** The blob store and the database. `run` and `events` are history: how they came to be as they are. `errors`
      counts the failures this request was given, and `own` its steps. */
  class Server {
    var s: State
    ghost var run: seq<State>
    ghost var events: seq<Event>
    ghost var errors: nat
    ghost var own: seq<Event>

    ghost predicate Valid() reads this {
      IsRun(run, events) && run[|events|] == s
    }

    constructor (orgs: map<string, Id>)
      ensures Valid() && events == [] && s == State(orgs, map[], map[], map[], map[], [])
    {
      s := State(orgs, map[], map[], map[], map[], []);
      run, events, errors := [State(orgs, map[], map[], map[], map[], [])], [], 0;
      own := [];
    }

    /** One round trip. */
    method Step(e: Event)
      requires Valid() && Enabled(s, e)
      modifies this
      ensures Valid() && s == Apply(old(s), e) && events == old(events) + [e]
      ensures errors == old(errors) + (if Failure(e) then 1 else 0) && own == old(own) + [e]
    {
      s := Apply(s, e);
      own := own + [e];
      errors := errors + (if Failure(e) then 1 else 0);
      ghost var before, past := run, events;
      run, events := run + [s], events + [e];
      forall i | 0 <= i < |events| ensures Stepped(run, events, i) {
        if i < |past| { assert Stepped(before, past, i); }
      }
    }

    /** Whatever every other request does while this one waits. */
    method Meanwhile(pid: Pid)
      requires Valid() && pid in s.flights
      modifies this
      ensures At(pid, old(s.flights[pid]))
      ensures s.orgs == old(s.orgs) && errors == old(errors) && old(events) <= events
      ensures NothingBy(old(s.history), pid) ==> NothingBy(s.history, pid)
    {
      var steps: int := *;
      var i := 0;
      while i < steps
        invariant At(pid, old(s.flights[pid]))
        invariant s.orgs == old(s.orgs) && errors == old(errors) && old(events) <= events
        invariant NothingBy(old(s.history), pid) ==> NothingBy(s.history, pid)
      {
        var e: Event := *;
        if !IsOf(e, pid) && Enabled(s, e) {
          OthersOnly(s, e, pid);
          ghost var mine := errors;
          Step(e);
          errors := mine;
        }
        i := i + 1;
      }
    }

    /** A round trip for a request that is not a publish: everyone else goes on, and it may fail. */
    method RoundTrip() returns (ok: bool)
      requires Valid()
      modifies this
      ensures Valid() && old(events) <= events && own == old(own) && Grown(old(s), s)
      ensures errors == old(errors) + (if ok then 0 else 1)
    {
      var steps: int := *;
      var i := 0;
      while i < steps
        invariant Valid() && old(events) <= events && own == old(own) && Grown(old(s), s) && errors == old(errors)
      {
        var e: Event := *;
        if Enabled(s, e) {
          StepGrows(run, events, e);
          ghost var mine, done := errors, own;
          Step(e);
          errors, own := mine, done;
        }
        i := i + 1;
      }
      ok := *;
      errors := errors + (if ok then 0 else 1);
    }

    ghost predicate At(pid: Pid, f: Flight) reads this {
      Valid() && pid in s.flights && s.flights[pid] == f
    }

    /** Authorise, check or preflight: a step that only decides how the request goes on. */
    method Decide(pid: Pid, e: Event) returns (phase: Phase)
      requires Valid() && pid in s.flights && IsOf(e, pid) && Enabled(s, e)
      requires e.Authorise? || e.Check? || e.Preflight?
      modifies this
      ensures old(events) <= events && s.orgs == old(s.orgs)
      ensures At(pid, old(s.flights[pid]).(phase := phase))
      ensures phase == Done(InternalError) <==> errors == old(errors) + 1
      ensures phase != Done(InternalError) ==> errors == old(errors) && phase == Decision(s, old(s.flights[pid]).req, e)
      ensures NothingBy(old(s.history), pid) ==> NothingBy(s.history, pid)
    {
      Meanwhile(pid);
      var ok: bool := *;
      Step(if ok then e else DependencyFails(pid));
      phase := s.flights[pid].phase;
    }

    /** The upload, which must be in place before anything refers to it. */
    method PutBlob(pid: Pid) returns (ok: bool)
      requires Valid() && pid in s.flights && s.flights[pid].phase.Vacant?
      modifies this
      ensures old(events) <= events && s.orgs == old(s.orgs) && errors == old(errors) + (if ok then 0 else 1)
      ensures At(pid, old(s.flights[pid]).(phase := if ok then Stored else Done(InternalError)))
      ensures NothingBy(old(s.history), pid) ==> NothingBy(s.history, pid)
    {
      Meanwhile(pid);
      ok := *;
      Step(if ok then Event.PutBlob(pid) else DependencyFails(pid));
    }

    /** BEGIN and the upsert, which waits for the package's row; a wait ends in getting it or in an error. */
    method UpsertPackage(pid: Pid) returns (ok: bool)
      requires Valid() && pid in s.flights && s.flights[pid].phase.Stored? && s.flights[pid].req.slug in s.orgs
      modifies this
      ensures old(events) <= events && s.orgs == old(s.orgs) && errors == old(errors) + (if ok then 0 else 1)
      ensures pid in s.flights && At(pid, old(s.flights[pid]).(phase := if ok then s.flights[pid].phase else Done(InternalError)))
      ensures ok ==> s.flights[pid].phase.Upserted?
      ensures NothingBy(old(s.history), pid) ==> NothingBy(s.history, pid)
    {
      Meanwhile(pid);
      ok := *;
      var freshId: Id := *;
      var now: int := *;
      ok := ok && !RowLocked(s, pid, KeyOf(s, s.flights[pid].req)) && FreshId(s, freshId);
      Step(if ok then Event.UpsertPackage(pid, freshId, now) else DependencyFails(pid));
    }

    /** The version's INSERT: in, or beaten to the unique index, or failed; unless it is in, all is rolled back. */
    method InsertVersion(pid: Pid) returns (refusal: Option<Response>)
      requires Valid() && pid in s.flights && s.flights[pid].phase.Upserted?
      modifies this
      ensures old(events) <= events && s.orgs == old(s.orgs)
      ensures pid in s.flights
      ensures refusal == None ==> s.flights[pid].phase.Inserted? && At(pid, old(s.flights[pid]).(phase := s.flights[pid].phase))
      ensures refusal.Some? ==> refusal.value in {VersionExists, InternalError} && At(pid, old(s.flights[pid]).(phase := Done(refusal.value)))
      ensures errors == old(errors) + (if refusal == Some(InternalError) then 1 else 0)
      ensures NothingBy(old(s.history), pid) ==> NothingBy(s.history, pid)
    {
      Meanwhile(pid);
      var ok: bool := *;
      var now: int := *;
      Step(if ok then Event.InsertVersion(pid, now) else DependencyFails(pid));
      var phase := s.flights[pid].phase;
      return if phase.Done? then Some(phase.response) else None;
    }

    /** COMMIT, whose error does not say whether it took effect. */
    method CommitPublish(pid: Pid) returns (ok: bool)
      requires Valid() && pid in s.flights && s.flights[pid].phase.Inserted? && s.flights[pid].req.slug in s.orgs
      modifies this
      ensures old(events) <= events && s.orgs == old(s.orgs) && errors == old(errors) + (if ok then 0 else 1)
      ensures var f := old(s.flights[pid]);
              && At(pid, f.(phase := Done(if ok then Published(Sha256(f.req.artifact)) else InternalError)))
              && (ok ==>
                    && KeyOf(s, f.req) in s.packages && s.packages[KeyOf(s, f.req)] == f.phase.pkg
                    && VersionKey(f.phase.pkg.id, f.req.version) in s.versions
                    && s.versions[VersionKey(f.phase.pkg.id, f.req.version)] == f.phase.row)
    {
      Meanwhile(pid);
      ok := *;
      var tookEffect: bool := *;
      Step(if ok then Commit(pid) else if tookEffect then CommitUnacknowledged(pid) else DependencyFails(pid));
    }
  }

  /** The org exists, and the token is unscoped, or scoped to it with a publishing role. */
  predicate MayWrite(s: State, req: Request) {
    && req.slug in s.orgs
    && (req.token.orgId == None || (req.token.orgId == Some(s.orgs[req.slug]) && req.token.role in {Owner, Publisher}))
  }

  /** The manifest is valid and names what the URL does, the digest is the artifact's, and the tag is there. */
  predicate Acceptable(req: Request, tagFound: bool) {
    && req.manifest.valid
    && req.manifest.org == req.slug && req.manifest.name == req.name && req.manifest.version == req.version
    && Sha256(req.artifact) == req.declaredSha && tagFound
  }

  /** What the answer of a publish means once it is given. */
  ghost predicate AnswerHolds(s: State, req: Request, tagFound: bool, response: Response) {
    match response
    case OrgNotFound => req.slug !in s.orgs
    case NotAllowed => req.slug in s.orgs && !MayWrite(s, req)
    case BadRequest => MayWrite(s, req) && !Acceptable(req, tagFound)
    case VersionExists =>
      MayWrite(s, req) && Acceptable(req, tagFound) && HasVersion(s, PackageKey(s.orgs[req.slug], req.name), req.version)
    case Published(sha) =>
      && MayWrite(s, req) && Acceptable(req, tagFound) && sha == req.declaredSha
      && var key := PackageKey(s.orgs[req.slug], req.name);
         && HasVersion(s, key, req.version)
         && var row := s.versions[VersionKey(s.packages[key].id, req.version)];
            && row.sha256 == sha && row.size == |req.artifact| && row.format == req.format
            && row.vcsTag == req.vcsTag && row.vcsCommit == req.vcsCommit
            && row.artifactKey in s.blobs && s.blobs[row.artifactKey] == req.artifact
    case InternalError => true
  }

  /** The first half of `publish`: everything that can turn the request away before it writes. */
  method Vet(server: Server, pid: Pid, req: Request, tagFound: bool) returns (refusal: Option<Response>)
    requires server.Valid() && pid !in server.s.flights
    modifies server
    ensures old(server.events) <= server.events && server.s.orgs == old(server.s.orgs)
    ensures NothingBy(server.s.history, pid)
    ensures server.At(pid, Flight(req, if refusal.Some? then Done(refusal.value) else Vacant))
    ensures refusal.Some? ==> !refusal.value.Published? && AnswerHolds(server.s, req, tagFound, refusal.value)
    ensures refusal.None? ==>
              MayWrite(server.s, req) && Acceptable(req, tagFound)
              && !HasVersion(server.s, PackageKey(server.s.orgs[req.slug], req.name), req.version)
    ensures server.errors == old(server.errors) + (if refusal == Some(InternalError) then 1 else 0)
  {
    NewcomerWroteNothing(server.run, server.events, pid);
    server.Step(Receive(pid, req));
    var phase := server.Decide(pid, Authorise(pid));
    if phase.Done? {
      return Some(phase.response);
    }
    phase := server.Decide(pid, Check(pid, tagFound));
    if phase.Done? {
      return Some(phase.response);
    }
    phase := server.Decide(pid, Preflight(pid));
    return if phase.Done? then Some(phase.response) else None;
  }

  /** `publish`. Its answer holds when it is given, whatever else was going on; a refused publish changed neither
      table; and only a failing dependency makes it an internal error. */
  method Publish(server: Server, pid: Pid, req: Request, tagFound: bool) returns (response: Response)
    requires server.Valid() && pid !in server.s.flights
    modifies server
    ensures old(server.events) <= server.events && server.s.orgs == old(server.s.orgs)
    ensures server.At(pid, Flight(req, Done(response)))
    ensures AnswerHolds(server.s, req, tagFound, response)
    ensures !response.Published? && !response.InternalError? ==> NothingBy(server.s.history, pid)
    ensures server.errors == old(server.errors) + (if response.InternalError? then 1 else 0)
  {
    var refusal := Vet(server, pid, req, tagFound);
    if refusal.Some? {
      return refusal.value;
    }
    var ok := server.PutBlob(pid);
    if !ok {
      return InternalError;
    }
    ok := server.UpsertPackage(pid);
    if !ok {
      return InternalError;
    }
    refusal := server.InsertVersion(pid);
    if refusal.Some? {
      RefusedMeansTaken(server.run, server.events, pid);
      return refusal.value;
    }
    ok := server.CommitPublish(pid);
    if !ok {
      return InternalError;
    }
    PublishedMeansStored(server.run, server.events, pid, tagFound);
    return Published(Sha256(req.artifact));
  }

  lemma RefusedMeansTaken(run: seq<State>, events: seq<Event>, pid: Pid)
    requires IsRun(run, events) && pid in run[|events|].flights
    ensures var s := run[|events|];
            var f := s.flights[pid];
            f.phase == Done(VersionExists) ==> f.req.slug in s.orgs && HasVersion(s, KeyOf(s, f.req), f.req.version)
  {
    RunKeepsInv(run, events, |events|);
    assert FlightOk(run[|events|], pid);
  }

  lemma PublishedMeansStored(run: seq<State>, events: seq<Event>, pid: Pid, tagFound: bool)
    requires IsRun(run, events) && tagFound
    requires pid in run[|events|].flights
    requires run[|events|].flights[pid].phase == Done(Published(Sha256(run[|events|].flights[pid].req.artifact)))
    requires Acceptable(run[|events|].flights[pid].req, tagFound) && MayWrite(run[|events|], run[|events|].flights[pid].req)
    ensures var s := run[|events|];
            AnswerHolds(s, s.flights[pid].req, tagFound, s.flights[pid].phase.response)
  {
    var s := run[|events|];
    var req := s.flights[pid].req;
    RunKeepsInv(run, events, |events|);
    assert FlightOk(s, pid);
    PublishedRow(s, pid);
    CommittedArtifactsAreAvailable(run, events, |events|, VersionKey(s.packages[KeyOf(s, req)].id, req.version));
  }

  lemma NewcomerWroteNothing(run: seq<State>, events: seq<Event>, pid: Pid)
    requires IsRun(run, events) && pid !in run[|events|].flights
    ensures NothingBy(run[|events|].history, pid)
  {
    var s := run[|events|];
    RunKeepsInv(run, events, |events|);
    forall i | 0 <= i < |s.history| ensures !(s.history[i].Publish? && s.history[i].writer == pid) {
      assert Accounted(s, s.history[i]);
    }
  }

  datatype YankAnswer = Yanked(yanked: bool) | NoSuchOrg | Forbidden | NoSuchPackage | NoSuchVersion | YankFailed

  /** What the answer of a yank means, between the moment the request came and the moment it is answered. */
  ghost predicate YankAnswerHolds(before: State, after: State, token: Token, slug: string, name: string, version: string,
                                  yanked: bool, answer: YankAnswer) {
    var allowed := slug in after.orgs
                   && (token.orgId == None || (token.orgId == Some(after.orgs[slug]) && token.role in {Owner, Publisher}));
    match answer
    case NoSuchOrg => slug !in after.orgs
    case Forbidden => slug in after.orgs && !allowed
    case NoSuchPackage => allowed && PackageKey(after.orgs[slug], name) !in before.packages
    case NoSuchVersion => allowed && !(slug in before.orgs && HasVersion(before, PackageKey(after.orgs[slug], name), version))
    case Yanked(flag) =>
      && allowed && HasVersion(after, PackageKey(after.orgs[slug], name), version) && flag == yanked
      && after.versions[VersionKey(after.packages[PackageKey(after.orgs[slug], name)].id, version)].yanked == yanked
    case YankFailed => true
  }

  /** The lookups of a yank, one after the other while everyone else goes on. What is found missing was missing when
      the request came, and what is found is still there afterwards. */
  method FindForYank(server: Server, token: Token, slug: string, name: string, version: string) returns (refusal: Option<YankAnswer>)
    requires server.Valid()
    modifies server
    ensures server.Valid() && old(server.events) <= server.events && Grown(old(server.s), server.s)
    ensures server.errors == old(server.errors) + (if refusal == Some(YankFailed) then 1 else 0) && server.own == old(server.own)
    ensures refusal.None? ==> forall yanked :: Enabled(server.s, SetYanked(token, slug, name, version, yanked))
    ensures refusal.Some? ==> !refusal.value.Yanked?
    ensures refusal.Some? ==> YankAnswerHolds(old(server.s), server.s, token, slug, name, version, false, refusal.value)
  {
    var ok := server.RoundTrip();
    if !ok {
      return Some(YankFailed);
    }
    if slug !in server.s.orgs {
      return Some(NoSuchOrg);
    }
    if !MayPublish(token, server.s.orgs[slug]) {
      return Some(Forbidden);
    }
    var key := PackageKey(server.s.orgs[slug], name);
    ok := server.RoundTrip();
    if !ok {
      return Some(YankFailed);
    }
    if key !in server.s.packages {
      return Some(NoSuchPackage);
    }
    var vk := VersionKey(server.s.packages[key].id, version);
    ok := server.RoundTrip();
    if !ok {
      return Some(YankFailed);
    }
    return if vk in server.s.versions then None else Some(NoSuchVersion);
  }

  /** `yank`: the same authority as publishing, and the one change a committed version row ever sees. Its answer holds
      when given, and an error of the update does not say whether it took effect. */
  method YankVersion(server: Server, token: Token, slug: string, name: string, version: string, yanked: bool)
      returns (answer: YankAnswer)
    requires server.Valid()
    modifies server
    ensures server.Valid() && old(server.events) <= server.events && Grown(old(server.s), server.s)
    ensures server.errors == old(server.errors) + (if answer.YankFailed? then 1 else 0)
    ensures YankAnswerHolds(old(server.s), server.s, token, slug, name, version, yanked, answer)
    ensures answer.Yanked? ==> server.own == old(server.own) + [SetYanked(token, slug, name, version, yanked)]
    ensures answer.YankFailed? ==>
              server.own == old(server.own) || server.own == old(server.own) + [SetYanked(token, slug, name, version, yanked)]
    ensures !answer.Yanked? && !answer.YankFailed? ==> server.own == old(server.own)
  {
    var refusal := FindForYank(server, token, slug, name, version);
    if refusal.Some? {
      return refusal.value;
    }
    var ok := server.RoundTrip();
    var tookEffect: bool := *;
    if ok || tookEffect {
      StepGrows(server.run, server.events, SetYanked(token, slug, name, version, yanked));
      server.Step(SetYanked(token, slug, name, version, yanked));
    }
    return if ok then Yanked(yanked) else YankFailed;
  }
}
