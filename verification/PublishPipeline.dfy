/** The publish handler (src/routes/publish.rs) and yank (src/routes/yank.rs) as interleaved steps over the blob
    store and the database: any number of requests, each between two round trips, any of which may crash. */
module PublishPipeline {
  import opened Wrappers
  import opened ByteStrings
  import opened Registry

  type Pid = nat

  datatype Role = Owner | Publisher | Reader

  datatype Token = Token(orgId: Option<Id>, role: Role)

  /** `authorize_publish`, as a guard. */
  predicate MayPublish(token: Token, org: Id) {
    token.orgId == None || (token.orgId == Some(org) && !token.role.Reader?)
  }

  datatype Manifest = Manifest(valid: bool, org: string, name: string, version: string, info: Info)

  datatype Request = Request(
    token: Token, slug: string, name: string, version: string, manifest: Manifest,
    declaredSha: Sha, artifact: Bytes, format: Format, vcsTag: string, vcsCommit: Option<string>)

  datatype Response =
    | Published(sha: Sha)
    | VersionExists
    | OrgNotFound
    | NotAllowed
    | BadRequest
    | InternalError

  /** Rows as the tables hold them, keyed by their unique indexes. */
  datatype PackageRow = PackageRow(id: Id, info: Info, createdAt: int)
  datatype VersionKey = VersionKey(packageId: Id, version: string)

  /** Where a request stands. `Upserted` and `Inserted` are inside its transaction, whose writes are its own. */
  datatype Phase =
    | Received
    | Authorised
    | Checked
    | Vacant
    | Stored
    | Upserted(pkg: PackageRow, now: int)
    | Inserted(pkg: PackageRow, now: int, row: Version)
    | Done(response: Response)
    | Crashed
  {
    predicate InTransaction() { Upserted? || Inserted? }
    predicate PastAuthorisation() { Authorised? || PastCheck() }
    predicate PastCheck() { Checked? || Vacant? || Stored? || InTransaction() }
    predicate Over() { Done? || Crashed? }
  }

  datatype Flight = Flight(req: Request, phase: Phase)

  /** `history` records every committed change, in commit order. */
  datatype State = State(
    orgs: map<string, Id>, packages: map<PackageKey, PackageRow>, versions: map<VersionKey, Version>,
    blobs: map<BlobKey, Bytes>, flights: map<Pid, Flight>, history: seq<Op>)

  datatype Event =
    | Receive(pid: Pid, req: Request)
    | Authorise(pid: Pid)
    | Check(pid: Pid, tagFound: bool)
    | Preflight(pid: Pid)
    | PutBlob(pid: Pid)
    | UpsertPackage(pid: Pid, freshId: Id, now: int)
    | InsertVersion(pid: Pid, now: int)
    | Commit(pid: Pid)
    | CommitUnacknowledged(pid: Pid)
    | DependencyFails(pid: Pid)
    | Crash(pid: Pid)
    | SetYanked(token: Token, slug: string, name: string, version: string, yanked: bool)

  function KeyOf(s: State, req: Request): PackageKey
    requires req.slug in s.orgs
  {
    PackageKey(s.orgs[req.slug], req.name)
  }

  predicate HasVersion(s: State, key: PackageKey, version: string) {
    key in s.packages && VersionKey(s.packages[key].id, version) in s.versions
  }

  /** The upserted row stays locked until its transaction ends. */
  predicate RowLocked(s: State, pid: Pid, key: PackageKey) {
    exists q :: q in s.flights && q != pid && s.flights[q].phase.InTransaction()
                && s.flights[q].req.slug in s.orgs && KeyOf(s, s.flights[q].req) == key
  }

  predicate FreshId(s: State, id: Id) {
    && (forall k :: k in s.packages ==> s.packages[k].id != id)
    && (forall q :: q in s.flights && s.flights[q].phase.InTransaction() ==> s.flights[q].phase.pkg.id != id)
  }

  predicate Enabled(s: State, e: Event) {
    if e.Receive? then e.pid !in s.flights
    else if e.SetYanked? then
      && e.slug in s.orgs && MayPublish(e.token, s.orgs[e.slug])
      && HasVersion(s, PackageKey(s.orgs[e.slug], e.name), e.version)
    else e.pid in s.flights &&
         var f := s.flights[e.pid];
         match e
         case Authorise(_) => f.phase.Received?
         case Check(_, _) => f.phase.Authorised?
         case Preflight(_) => f.phase.Checked? && f.req.slug in s.orgs
         case PutBlob(_) => f.phase.Vacant?
         case UpsertPackage(pid, freshId, _) =>
           f.phase.Stored? && f.req.slug in s.orgs && !RowLocked(s, pid, KeyOf(s, f.req)) && FreshId(s, freshId)
         case InsertVersion(_, _) => f.phase.Upserted?
         case Commit(_) => f.phase.Inserted? && f.req.slug in s.orgs
         case CommitUnacknowledged(_) => f.phase.Inserted? && f.req.slug in s.orgs
         case DependencyFails(_) => !f.phase.Over()
         case Crash(_) => !f.phase.Over()
  }

  function Move(s: State, pid: Pid, phase: Phase): State
    requires pid in s.flights
  {
    s.(flights := s.flights[pid := s.flights[pid].(phase := phase)])
  }

  function AuthoriseOutcome(s: State, req: Request): Phase {
    if req.slug !in s.orgs then Done(OrgNotFound)
    else if !MayPublish(req.token, s.orgs[req.slug]) then Done(NotAllowed)
    else Authorised
  }

  predicate ManifestMatches(req: Request) {
    var m := req.manifest;
    m.valid && m.org == req.slug && m.name == req.name && m.version == req.version
  }

  function CheckOutcome(req: Request, tagFound: bool): Phase {
    if !ManifestMatches(req) then Done(BadRequest)
    else if Sha256(req.artifact) != req.declaredSha then Done(BadRequest)
    else if !tagFound then Done(BadRequest)
    else Checked
  }

  /** ON CONFLICT DO UPDATE, then the row read back: everything but `id` and `created_at` is rewritten. */
  function UpsertedRow(s: State, req: Request, freshId: Id, now: int): PackageRow
    requires req.slug in s.orgs
  {
    var key := KeyOf(s, req);
    if key in s.packages then s.packages[key].(info := req.manifest.info)
    else PackageRow(freshId, req.manifest.info, now)
  }

  function NewVersion(req: Request, now: int): Version {
    var sha := Sha256(req.artifact);
    Version(sha, |req.artifact|, req.format, req.vcsTag, req.vcsCommit, ArtifactKey(sha, req.format), false, now)
  }

  function OpOf(s: State, pid: Pid): Op
    requires pid in s.flights && s.flights[pid].phase.Inserted? && s.flights[pid].req.slug in s.orgs
  {
    var f := s.flights[pid];
    Publish(KeyOf(s, f.req), f.req.version, f.req.manifest.info, f.phase.row, f.phase.now, pid)
  }

  /** Both pending rows become visible at once. */
  function CommitRows(s: State, pid: Pid, response: Response): State
    requires pid in s.flights && s.flights[pid].phase.Inserted? && s.flights[pid].req.slug in s.orgs
  {
    var f := s.flights[pid];
    Move(s, pid, Done(response)).(
      packages := s.packages[KeyOf(s, f.req) := f.phase.pkg],
      versions := s.versions[VersionKey(f.phase.pkg.id, f.req.version) := f.phase.row],
      history := s.history + [OpOf(s, pid)])
  }

  function Apply(s: State, e: Event): State
    requires Enabled(s, e)
  {
    match e
    case Receive(pid, req) => s.(flights := s.flights[pid := Flight(req, Received)])
    case Authorise(pid) => Move(s, pid, AuthoriseOutcome(s, s.flights[pid].req))
    case Check(pid, tagFound) => Move(s, pid, CheckOutcome(s.flights[pid].req, tagFound))
    case Preflight(pid) =>
      var req := s.flights[pid].req;
      Move(s, pid, if HasVersion(s, KeyOf(s, req), req.version) then Done(VersionExists) else Vacant)
    case PutBlob(pid) =>
      var req := s.flights[pid].req;
      Move(s, pid, Stored).(blobs := s.blobs[ArtifactKey(Sha256(req.artifact), req.format) := req.artifact])
    case UpsertPackage(pid, freshId, now) =>
      Move(s, pid, Upserted(UpsertedRow(s, s.flights[pid].req, freshId, now), now))
    case InsertVersion(pid, now) =>
      var f := s.flights[pid];
      Move(s, pid, if VersionKey(f.phase.pkg.id, f.req.version) in s.versions then Done(VersionExists)
                   else Inserted(f.phase.pkg, f.phase.now, NewVersion(f.req, now)))
    case Commit(pid) => CommitRows(s, pid, Published(Sha256(s.flights[pid].req.artifact)))
    case CommitUnacknowledged(pid) => CommitRows(s, pid, InternalError)
    case DependencyFails(pid) => Move(s, pid, Done(InternalError))
    case Crash(pid) => Move(s, pid, Crashed)
    case SetYanked(_, slug, name, version, yanked) =>
      var key := PackageKey(s.orgs[slug], name);
      var vk := VersionKey(s.packages[key].id, version);
      s.(versions := s.versions[vk := s.versions[vk].(yanked := yanked)], history := s.history + [Yank(key, version, yanked)])
  }

  // ---- What every step keeps ----

  ghost predicate Init(s: State) {
    s.packages == map[] && s.versions == map[] && s.blobs == map[] && s.flights == map[] && s.history == []
  }

  ghost predicate ContentAddressed(blobs: map<BlobKey, Bytes>) {
    forall k :: k in blobs ==> k.sha == Sha256(blobs[k])
  }

  /** The row's bytes are in the store, and are the bytes the row describes. */
  predicate Available(blobs: map<BlobKey, Bytes>, row: Version) {
    && row.artifactKey == ArtifactKey(row.sha256, row.format)
    && row.artifactKey in blobs
    && Sha256(blobs[row.artifactKey]) == row.sha256
    && |blobs[row.artifactKey]| == row.size
  }

  ghost predicate DistinctIds(packages: map<PackageKey, PackageRow>) {
    forall j, k :: j in packages && k in packages && j != k ==> packages[j].id != packages[k].id
  }

  ghost predicate Owned(packages: map<PackageKey, PackageRow>, vk: VersionKey) {
    exists k :: k in packages && packages[k].id == vk.packageId
  }

  ghost predicate TablesOk(s: State) {
    && DistinctIds(s.packages)
    && (forall vk :: vk in s.versions ==> Owned(s.packages, vk))
    && ContentAddressed(s.blobs)
    && (forall vk :: vk in s.versions ==> Available(s.blobs, s.versions[vk]))
  }

  ghost predicate Mirrors(p: Package, row: PackageRow, versions: map<VersionKey, Version>) {
    && p.info == row.info && p.createdAt == row.createdAt
    && (forall v :: v in p.versions <==> VersionKey(row.id, v) in versions)
    && (forall v :: v in p.versions ==> p.versions[v] == versions[VersionKey(row.id, v)])
  }

  /** The tables hold exactly this catalog. */
  ghost predicate Represents(s: State, c: Catalog) {
    && c.Keys == s.packages.Keys
    && forall k :: k in c ==> Mirrors(c[k], s.packages[k], s.versions)
  }

  /** What a pending package row is worth at commit: still the committed row with new metadata, or still new. */
  ghost predicate PendingOk(s: State, key: PackageKey, pkg: PackageRow, now: int) {
    if key in s.packages then pkg.id == s.packages[key].id && pkg.createdAt == s.packages[key].createdAt
    else pkg.createdAt == now && forall k :: k in s.packages ==> s.packages[k].id != pkg.id
  }

  /** The change at position `i` of the history is this request's publish, of these bytes. */
  ghost predicate RecordedAt(s: State, pid: Pid, sha: Sha, i: nat)
    requires i < |s.history| && pid in s.flights
  {
    var op, req := s.history[i], s.flights[pid].req;
    && op.Publish? && op.writer == pid && op.row.sha256 == sha
    && req.slug in s.orgs && op.key == KeyOf(s, req) && op.version == req.version
  }

  ghost predicate Recorded(s: State, pid: Pid, sha: Sha)
    requires pid in s.flights
  {
    exists i :: 0 <= i < |s.history| && RecordedAt(s, pid, sha, i)
  }

  ghost predicate FlightOk(s: State, pid: Pid)
    requires pid in s.flights
  {
    var req, phase := s.flights[pid].req, s.flights[pid].phase;
    && (phase.PastAuthorisation() ==> req.slug in s.orgs && MayPublish(req.token, s.orgs[req.slug]))
    && (phase.PastCheck() ==> ManifestMatches(req) && Sha256(req.artifact) == req.declaredSha)
    && (phase.Stored? || phase.InTransaction() ==> ArtifactKey(Sha256(req.artifact), req.format) in s.blobs)
    && (phase.InTransaction() ==> phase.pkg.info == req.manifest.info && PendingOk(s, KeyOf(s, req), phase.pkg, phase.now))
    && (phase.Inserted? ==>
          && phase.row == NewVersion(req, phase.row.publishedAt)
          && VersionKey(phase.pkg.id, req.version) !in s.versions)
    && (phase == Done(VersionExists) ==> req.slug in s.orgs && HasVersion(s, KeyOf(s, req), req.version))
    && (phase.Done? && phase.response.Published? ==> phase.response.sha == Sha256(req.artifact) && Recorded(s, pid, phase.response.sha))
  }

  ghost predicate Exclusive(s: State) {
    forall p, q :: p in s.flights && q in s.flights && p != q
                   && s.flights[p].phase.InTransaction() && s.flights[q].phase.InTransaction()
      ==> && s.flights[p].phase.pkg.id != s.flights[q].phase.pkg.id
          && (s.flights[p].req.slug in s.orgs && s.flights[q].req.slug in s.orgs
              ==> KeyOf(s, s.flights[p].req) != KeyOf(s, s.flights[q].req))
  }

  /** Every committed publish was some request's own, by a token allowed to publish there. */
  ghost predicate Accounted(s: State, op: Op) {
    op.Publish? ==>
      && op.writer in s.flights && s.flights[op.writer].phase.Over()
      && var req := s.flights[op.writer].req;
         && req.slug in s.orgs && op.key == KeyOf(s, req) && op.version == req.version
         && MayPublish(req.token, op.key.orgId) && op.info == req.manifest.info
         && ManifestMatches(req) && Sha256(req.artifact) == req.declaredSha
         && op.row == NewVersion(req, op.row.publishedAt)
  }

  ghost predicate FlightsOk(s: State) {
    forall pid :: pid in s.flights ==> FlightOk(s, pid)
  }

  ghost predicate AllAccounted(s: State) {
    forall i :: 0 <= i < |s.history| ==> Accounted(s, s.history[i])
  }

  /** The tables are what replaying the committed changes, one whole operation at a time, would give. */
  ghost predicate Faithful(s: State) {
    LegalHistory(s.history) && Represents(s, Replay(s.history))
  }

  ghost predicate Inv(s: State) {
    TablesOk(s) && FlightsOk(s) && Exclusive(s) && Faithful(s) && AllAccounted(s)
  }

  lemma InitHolds(s: State)
    requires Init(s)
    ensures Inv(s)
  {
  }

  function Update(s: State, pid: Pid, f: Flight): State {
    s.(flights := s.flights[pid := f])
  }

  /** A step that writes no table has to answer only for the request that took it. */
  lemma LocalStep(s: State, pid: Pid, f: Flight)
    requires Inv(s)
    requires pid in s.flights ==> !s.flights[pid].phase.Over() && f.req == s.flights[pid].req
    requires FlightOk(Update(s, pid, f), pid)
    requires Exclusive(Update(s, pid, f))
    ensures Inv(Update(s, pid, f))
  {
    var t := Update(s, pid, f);
    forall q | q in t.flights ensures FlightOk(t, q) {
      if q != pid { OtherFlightKept(s, t, q); }
    }
    AccountsKept(s, t);
  }

  /** Accounts are settled: requests that are over stay as they are. */
  lemma AccountsKept(s: State, t: State)
    requires AllAccounted(s)
    requires t.orgs == s.orgs
    requires forall q :: q in s.flights && s.flights[q].phase.Over() ==> q in t.flights && t.flights[q] == s.flights[q]
    ensures forall i :: 0 <= i < |s.history| ==> Accounted(t, s.history[i])
  {
    forall i | 0 <= i < |s.history| ensures Accounted(t, s.history[i]) {
      assert Accounted(s, s.history[i]);
    }
  }

  lemma OtherFlightKept(s: State, t: State, q: Pid)
    requires q in s.flights && q in t.flights && FlightOk(s, q) && t.flights[q] == s.flights[q]
    requires t.orgs == s.orgs && t.packages == s.packages && t.versions == s.versions && t.history == s.history
    requires s.blobs.Keys <= t.blobs.Keys
    ensures FlightOk(t, q)
  {
    if s.flights[q].phase.Done? && s.flights[q].phase.response.Published? {
      var i :| 0 <= i < |s.history| && RecordedAt(s, q, s.flights[q].phase.response.sha, i);
      assert RecordedAt(t, q, s.flights[q].phase.response.sha, i);
    }
  }

  lemma StaysExclusive(s: State, pid: Pid, f: Flight)
    requires Exclusive(s)
    requires f.phase.InTransaction() ==>
               pid in s.flights && s.flights[pid].phase.InTransaction() && f.req == s.flights[pid].req
               && f.phase.pkg == s.flights[pid].phase.pkg
    ensures Exclusive(Update(s, pid, f))
  {
  }

  /** A step that only moves its request on, and starts no transaction. */
  lemma MoveKeepsInv(s: State, pid: Pid, phase: Phase)
    requires Inv(s) && pid in s.flights && !s.flights[pid].phase.Over()
    requires phase.InTransaction() ==> s.flights[pid].phase.InTransaction() && phase.pkg == s.flights[pid].phase.pkg
    requires FlightOk(Move(s, pid, phase), pid)
    ensures Inv(Move(s, pid, phase))
  {
    StaysExclusive(s, pid, s.flights[pid].(phase := phase));
    LocalStep(s, pid, s.flights[pid].(phase := phase));
  }

  lemma ReceiveKeepsInv(s: State, pid: Pid, req: Request)
    requires Inv(s) && Enabled(s, Receive(pid, req))
    ensures Inv(Apply(s, Receive(pid, req)))
  {
    StaysExclusive(s, pid, Flight(req, Received));
    LocalStep(s, pid, Flight(req, Received));
  }

  /** Overwriting a content-addressed key stores the bytes that were already there. */
  lemma PutChangesNothingStored(blobs: map<BlobKey, Bytes>, artifact: Bytes, format: Format)
    requires ContentAddressed(blobs)
    ensures var after := blobs[ArtifactKey(Sha256(artifact), format) := artifact];
            ContentAddressed(after) && forall k :: k in blobs ==> after[k] == blobs[k]
  {
  }

  lemma PutKeepsInv(s: State, pid: Pid)
    requires Inv(s) && Enabled(s, PutBlob(pid))
    ensures Inv(Apply(s, PutBlob(pid)))
  {
    var t, req := Apply(s, PutBlob(pid)), s.flights[pid].req;
    StaysExclusive(s, pid, t.flights[pid]);
    PutKeepsFlights(s, pid);
    AccountsKept(s, t);
    PutKeepsTables(s, t, req);
  }

  lemma PutKeepsFlights(s: State, pid: Pid)
    requires FlightsOk(s) && Enabled(s, PutBlob(pid))
    ensures FlightsOk(Apply(s, PutBlob(pid)))
  {
    var t := Apply(s, PutBlob(pid));
    assert FlightOk(s, pid);
    forall q | q in t.flights ensures FlightOk(t, q) {
      if q != pid { OtherFlightKept(s, t, q); }
    }
  }

  lemma PutKeepsTables(s: State, t: State, req: Request)
    requires TablesOk(s) && t.packages == s.packages && t.versions == s.versions
    requires t.blobs == s.blobs[ArtifactKey(Sha256(req.artifact), req.format) := req.artifact]
    ensures TablesOk(t)
  {
    PutChangesNothingStored(s.blobs, req.artifact, req.format);
    forall vk | vk in t.versions ensures Available(t.blobs, t.versions[vk]) {
      assert Available(s.blobs, s.versions[vk]);
    }
  }

  lemma UpsertKeepsInv(s: State, pid: Pid, freshId: Id, now: int)
    requires Inv(s) && Enabled(s, UpsertPackage(pid, freshId, now))
    ensures Inv(Apply(s, UpsertPackage(pid, freshId, now)))
  {
    var f := s.flights[pid].(phase := Upserted(UpsertedRow(s, s.flights[pid].req, freshId, now), now));
    assert FlightOk(s, pid);
    UpsertIsExclusive(s, pid, freshId, now);
    LocalStep(s, pid, f);
  }

  lemma UpsertIsExclusive(s: State, pid: Pid, freshId: Id, now: int)
    requires Inv(s) && Enabled(s, UpsertPackage(pid, freshId, now))
    ensures Exclusive(Move(s, pid, Upserted(UpsertedRow(s, s.flights[pid].req, freshId, now), now)))
  {
    var req := s.flights[pid].req;
    var key := KeyOf(s, req);
    forall q | q in s.flights && q != pid && s.flights[q].phase.InTransaction()
      ensures s.flights[q].phase.pkg.id != UpsertedRow(s, req, freshId, now).id
      ensures s.flights[q].req.slug in s.orgs && KeyOf(s, s.flights[q].req) != key
    {
      assert FlightOk(s, q);
    }
  }

  lemma InsertKeepsInv(s: State, pid: Pid, now: int)
    requires Inv(s) && Enabled(s, InsertVersion(pid, now))
    ensures Inv(Apply(s, InsertVersion(pid, now)))
  {
    var f := s.flights[pid];
    assert FlightOk(s, pid);
    if VersionKey(f.phase.pkg.id, f.req.version) in s.versions {
      TakenMeansExists(s, pid);
      MoveKeepsInv(s, pid, Done(VersionExists));
    } else {
      MoveKeepsInv(s, pid, Inserted(f.phase.pkg, f.phase.now, NewVersion(f.req, now)));
    }
  }

  /** A taken index entry under the pending package's id is a committed version of that package. */
  lemma TakenMeansExists(s: State, pid: Pid)
    requires Inv(s) && pid in s.flights && s.flights[pid].phase.InTransaction()
    requires VersionKey(s.flights[pid].phase.pkg.id, s.flights[pid].req.version) in s.versions
    ensures s.flights[pid].req.slug in s.orgs && HasVersion(s, KeyOf(s, s.flights[pid].req), s.flights[pid].req.version)
  {
    assert FlightOk(s, pid);
    assert Owned(s.packages, VersionKey(s.flights[pid].phase.pkg.id, s.flights[pid].req.version));
  }

  // ---- Commit ----

  ghost predicate CanCommit(s: State, pid: Pid) {
    pid in s.flights && s.flights[pid].phase.Inserted? && s.flights[pid].req.slug in s.orgs
  }

  lemma CommitKeepsTables(s: State, pid: Pid, response: Response)
    requires TablesOk(s) && CanCommit(s, pid) && FlightOk(s, pid)
    ensures TablesOk(CommitRows(s, pid, response))
  {
    var t, f := CommitRows(s, pid, response), s.flights[pid];
    var key := KeyOf(s, f.req);
    forall vk | vk in t.versions ensures Owned(t.packages, vk) {
      if vk in s.versions {
        assert Owned(s.packages, vk);
        var k :| k in s.packages && s.packages[k].id == vk.packageId;
        assert t.packages[k].id == vk.packageId;
      } else {
        assert t.packages[key].id == vk.packageId;
      }
    }
    assert Available(s.blobs, f.phase.row) by {
      assert ArtifactKey(Sha256(f.req.artifact), f.req.format) in s.blobs;
    }
  }

  lemma MirrorUntouched(p: Package, row: PackageRow, versions: map<VersionKey, Version>, vk: VersionKey, v: Version)
    requires Mirrors(p, row, versions) && vk.packageId != row.id
    ensures Mirrors(p, row, versions[vk := v])
  {
  }

  lemma MirrorUpdated(p: Package, row: PackageRow, row': PackageRow, versions: map<VersionKey, Version>, name: string, v: Version)
    requires Mirrors(p, row, versions) && row'.id == row.id && row'.createdAt == row.createdAt
    ensures Mirrors(Package(row'.info, p.createdAt, p.versions[name := v]), row', versions[VersionKey(row'.id, name) := v])
  {
  }

  lemma CommitSimulates(s: State, pid: Pid, response: Response)
    requires TablesOk(s) && Faithful(s) && CanCommit(s, pid) && FlightOk(s, pid)
    ensures var c, op := Replay(s.history), OpOf(s, pid);
            Legal(c, op) && Represents(CommitRows(s, pid, response), Perform(c, op))
  {
    var c, op, t, f := Replay(s.history), OpOf(s, pid), CommitRows(s, pid, response), s.flights[pid];
    var key, pkg := op.key, f.phase.pkg;
    assert key in c ==> Mirrors(c[key], s.packages[key], s.versions);
    var d := Perform(c, op);
    assert d.Keys == t.packages.Keys;
    forall k | k in d ensures Mirrors(d[k], t.packages[k], t.versions) {
      if k != key {
        assert Mirrors(c[k], s.packages[k], s.versions);
        MirrorUntouched(c[k], s.packages[k], s.versions, VersionKey(pkg.id, op.version), op.row);
      } else if key in c {
        MirrorUpdated(c[key], s.packages[key], pkg, s.versions, op.version, op.row);
      } else {
        NothingUnder(s, pkg.id);
      }
    }
  }

  lemma NothingUnder(s: State, id: Id)
    requires TablesOk(s) && forall k :: k in s.packages ==> s.packages[k].id != id
    ensures forall v :: VersionKey(id, v) !in s.versions
  {
    forall v ensures VersionKey(id, v) !in s.versions {
      assert VersionKey(id, v) in s.versions ==> Owned(s.packages, VersionKey(id, v));
    }
  }

  lemma CommitterIsDone(s: State, pid: Pid, response: Response)
    requires CanCommit(s, pid) && FlightOk(s, pid)
    requires response == Published(Sha256(s.flights[pid].req.artifact)) || response == InternalError
    ensures FlightOk(CommitRows(s, pid, response), pid)
  {
    assert RecordedAt(CommitRows(s, pid, response), pid, Sha256(s.flights[pid].req.artifact), |s.history|);
  }

  lemma CommitKeepsFlight(s: State, pid: Pid, response: Response, q: Pid)
    requires Exclusive(s) && CanCommit(s, pid) && q in s.flights && q != pid && FlightOk(s, pid) && FlightOk(s, q)
    ensures FlightOk(CommitRows(s, pid, response), q)
  {
    var t := CommitRows(s, pid, response);
    if s.flights[q].phase.Done? && s.flights[q].phase.response.Published? {
      var i :| 0 <= i < |s.history| && RecordedAt(s, q, s.flights[q].phase.response.sha, i);
      assert RecordedAt(t, q, s.flights[q].phase.response.sha, i);
    }
  }

  lemma CommitIsExclusive(s: State, pid: Pid, response: Response)
    requires Exclusive(s) && CanCommit(s, pid)
    ensures Exclusive(CommitRows(s, pid, response))
  {
  }

  lemma CommitIsAccounted(s: State, pid: Pid, response: Response)
    requires CanCommit(s, pid) && FlightOk(s, pid)
    ensures Accounted(CommitRows(s, pid, response), OpOf(s, pid))
  {
  }

  lemma CommitIsFaithful(s: State, pid: Pid, response: Response)
    requires Inv(s) && CanCommit(s, pid)
    ensures Faithful(CommitRows(s, pid, response))
  {
    CommitSimulates(s, pid, response);
    ReplayStep(s.history, OpOf(s, pid));
  }

  lemma CommitKeepsFlights(s: State, pid: Pid, response: Response)
    requires Inv(s) && CanCommit(s, pid)
    requires response == Published(Sha256(s.flights[pid].req.artifact)) || response == InternalError
    ensures FlightsOk(CommitRows(s, pid, response))
  {
    forall q | q in s.flights ensures FlightOk(CommitRows(s, pid, response), q) {
      if q == pid { CommitterIsDone(s, pid, response); } else { CommitKeepsFlight(s, pid, response, q); }
    }
  }

  lemma CommitKeepsAccounts(s: State, pid: Pid, response: Response)
    requires AllAccounted(s) && CanCommit(s, pid) && FlightOk(s, pid)
    ensures AllAccounted(CommitRows(s, pid, response))
  {
    AccountsKept(s, CommitRows(s, pid, response));
    CommitIsAccounted(s, pid, response);
  }

  lemma CommitKeepsInv(s: State, pid: Pid, response: Response)
    requires Inv(s) && CanCommit(s, pid)
    requires response == Published(Sha256(s.flights[pid].req.artifact)) || response == InternalError
    ensures Inv(CommitRows(s, pid, response))
  {
    CommitKeepsTables(s, pid, response);
    CommitIsFaithful(s, pid, response);
    CommitKeepsFlights(s, pid, response);
    CommitIsExclusive(s, pid, response);
    CommitKeepsAccounts(s, pid, response);
  }

  // ---- Yank ----

  lemma YankSimulates(s: State, e: Event)
    requires TablesOk(s) && Faithful(s) && e.SetYanked? && Enabled(s, e)
    ensures var c, op := Replay(s.history), Yank(PackageKey(s.orgs[e.slug], e.name), e.version, e.yanked);
            Legal(c, op) && Represents(Apply(s, e), Perform(c, op))
  {
    var key := PackageKey(s.orgs[e.slug], e.name);
    YankApplied(s, e);
    FlagSimulates(s, Apply(s, e), Replay(s.history), key, e.version, e.yanked);
  }

  lemma YankApplied(s: State, e: Event)
    requires e.SetYanked? && Enabled(s, e)
    ensures var key, t := PackageKey(s.orgs[e.slug], e.name), Apply(s, e);
            && HasVersion(s, key, e.version)
            && var vk := VersionKey(s.packages[key].id, e.version);
               t.packages == s.packages && t.versions == s.versions[vk := s.versions[vk].(yanked := e.yanked)]
  {
  }

  /** Setting one version's flag in the table is setting it in the catalog. */
  lemma FlagSimulates(s: State, t: State, c: Catalog, key: PackageKey, version: string, yanked: bool)
    requires DistinctIds(s.packages) && Represents(s, c) && HasVersion(s, key, version)
    requires var vk := VersionKey(s.packages[key].id, version);
             t.packages == s.packages && t.versions == s.versions[vk := s.versions[vk].(yanked := yanked)]
    ensures Legal(c, Yank(key, version, yanked)) && Represents(t, Perform(c, Yank(key, version, yanked)))
  {
    assert Mirrors(c[key], s.packages[key], s.versions);
    var vk := VersionKey(s.packages[key].id, version);
    var d := Perform(c, Yank(key, version, yanked));
    forall k | k in d ensures Mirrors(d[k], t.packages[k], t.versions) {
      assert Mirrors(c[k], s.packages[k], s.versions);
      if k != key {
        MirrorUntouched(c[k], s.packages[k], s.versions, vk, t.versions[vk]);
      } else {
        MirrorUpdated(c[k], s.packages[k], s.packages[k], s.versions, version, t.versions[vk]);
      }
    }
  }

  lemma YankKeepsTables(s: State, e: Event)
    requires TablesOk(s) && e.SetYanked? && Enabled(s, e)
    ensures TablesOk(Apply(s, e))
  {
    var t := Apply(s, e);
    assert t.versions.Keys == s.versions.Keys;
    forall vk | vk in t.versions ensures Owned(t.packages, vk) && Available(t.blobs, t.versions[vk]) {
      assert Owned(s.packages, vk) && Available(s.blobs, s.versions[vk]);
    }
  }

  lemma YankKeepsFlight(s: State, t: State, q: Pid)
    requires q in s.flights && FlightOk(s, q) && t.flights == s.flights && t.orgs == s.orgs && t.packages == s.packages
    requires t.versions.Keys == s.versions.Keys && t.blobs == s.blobs && s.history <= t.history
    ensures FlightOk(t, q)
  {
    if s.flights[q].phase.Done? && s.flights[q].phase.response.Published? {
      var i :| 0 <= i < |s.history| && RecordedAt(s, q, s.flights[q].phase.response.sha, i);
      assert RecordedAt(t, q, s.flights[q].phase.response.sha, i);
    }
  }

  lemma YankIsFaithful(s: State, e: Event)
    requires Inv(s) && e.SetYanked? && Enabled(s, e)
    ensures Faithful(Apply(s, e))
  {
    YankSimulates(s, e);
    ReplayStep(s.history, Yank(PackageKey(s.orgs[e.slug], e.name), e.version, e.yanked));
  }

  lemma YankKeepsRequests(s: State, e: Event)
    requires FlightsOk(s) && Exclusive(s) && AllAccounted(s) && e.SetYanked? && Enabled(s, e)
    ensures var t := Apply(s, e); FlightsOk(t) && Exclusive(t) && AllAccounted(t)
  {
    var t := Apply(s, e);
    assert t.versions.Keys == s.versions.Keys;
    forall q | q in t.flights ensures FlightOk(t, q) {
      YankKeepsFlight(s, t, q);
    }
    AccountsKept(s, t);
  }

  lemma YankKeepsInv(s: State, e: Event)
    requires Inv(s) && e.SetYanked? && Enabled(s, e)
    ensures Inv(Apply(s, e))
  {
    YankIsFaithful(s, e);
    YankKeepsTables(s, e);
    YankKeepsRequests(s, e);
  }

  lemma AuthoriseKeepsInv(s: State, pid: Pid)
    requires Inv(s) && Enabled(s, Authorise(pid))
    ensures Inv(Apply(s, Authorise(pid)))
  {
    MoveKeepsInv(s, pid, AuthoriseOutcome(s, s.flights[pid].req));
  }

  lemma CheckKeepsInv(s: State, pid: Pid, tagFound: bool)
    requires Inv(s) && Enabled(s, Check(pid, tagFound))
    ensures Inv(Apply(s, Check(pid, tagFound)))
  {
    assert FlightOk(s, pid);
    MoveKeepsInv(s, pid, CheckOutcome(s.flights[pid].req, tagFound));
  }

  /** A request that fails or crashes leaves nothing behind but what it had already stored. */
  lemma StopKeepsInv(s: State, pid: Pid, phase: Phase)
    requires Inv(s) && pid in s.flights && !s.flights[pid].phase.Over()
    requires phase == Done(InternalError) || phase == Crashed
    ensures Inv(Move(s, pid, phase))
  {
    MoveKeepsInv(s, pid, phase);
  }

  lemma PreflightKeepsInv(s: State, pid: Pid)
    requires Inv(s) && Enabled(s, Preflight(pid))
    ensures Inv(Apply(s, Preflight(pid)))
  {
    var req := s.flights[pid].req;
    assert FlightOk(s, pid);
    MoveKeepsInv(s, pid, if HasVersion(s, KeyOf(s, req), req.version) then Done(VersionExists) else Vacant);
  }

  lemma StepKeepsInv(s: State, e: Event)
    requires Inv(s) && Enabled(s, e)
    ensures Inv(Apply(s, e))
  {
    match e
    case Receive(pid, req) => ReceiveKeepsInv(s, pid, req);
    case PutBlob(pid) => PutKeepsInv(s, pid);
    case UpsertPackage(pid, freshId, now) => UpsertKeepsInv(s, pid, freshId, now);
    case InsertVersion(pid, now) => InsertKeepsInv(s, pid, now);
    case Commit(pid) => CommitKeepsInv(s, pid, Published(Sha256(s.flights[pid].req.artifact)));
    case CommitUnacknowledged(pid) => CommitKeepsInv(s, pid, InternalError);
    case SetYanked(_, _, _, _, _) => YankKeepsInv(s, e);
    case Authorise(pid) => AuthoriseKeepsInv(s, pid);
    case Check(pid, tagFound) => CheckKeepsInv(s, pid, tagFound);
    case Preflight(pid) => PreflightKeepsInv(s, pid);
    case DependencyFails(pid) => StopKeepsInv(s, pid, Done(InternalError));
    case Crash(pid) => StopKeepsInv(s, pid, Crashed);
  }

  // ---- What holds over every run ----

  ghost predicate Stepped(run: seq<State>, events: seq<Event>, i: nat)
    requires |run| == |events| + 1 && i < |events|
  {
    Enabled(run[i], events[i]) && run[i + 1] == Apply(run[i], events[i])
  }

  ghost predicate IsRun(run: seq<State>, events: seq<Event>) {
    && |run| == |events| + 1
    && Init(run[0])
    && forall i :: 0 <= i < |events| ==> Stepped(run, events, i)
  }

  lemma {:induction false} RunKeepsInv(run: seq<State>, events: seq<Event>, n: nat)
    requires IsRun(run, events) && n < |run|
    ensures Inv(run[n])
  {
    if n == 0 {
      InitHolds(run[0]);
    } else {
      RunKeepsInv(run, events, n - 1);
      assert Stepped(run, events, n - 1);
      StepKeepsInv(run[n - 1], events[n - 1]);
    }
  }

  /** Refinement: at every moment the tables are the catalog that replaying the committed changes gives, and each
      step either leaves that catalog alone or performs exactly one whole operation on it. */
  lemma PipelineRefinesRegistry(run: seq<State>, events: seq<Event>, n: nat)
    requires IsRun(run, events) && n < |events|
    ensures var s, t := run[n], run[n + 1];
            && LegalHistory(s.history) && Represents(s, Replay(s.history))
            && LegalHistory(t.history) && Represents(t, Replay(t.history))
            && (t.history == s.history
                || (t.history != [] && t.history[..|t.history| - 1] == s.history
                    && Legal(Replay(s.history), t.history[|s.history|])
                    && Replay(t.history) == Perform(Replay(s.history), t.history[|s.history|])))
  {
    RunKeepsInv(run, events, n);
    assert Stepped(run, events, n);
    StepKeepsInv(run[n], events[n]);
    StepRecordsOne(run[n], events[n]);
    LastOperation(run[n].history, run[n + 1].history);
  }

  /** `after` is `before`, or `before` and one more committed change. */
  predicate OneMore(before: seq<Op>, after: seq<Op>) {
    after == before || (after != [] && after[..|after| - 1] == before)
  }

  lemma StepRecordsOne(s: State, e: Event)
    requires Enabled(s, e)
    ensures OneMore(s.history, Apply(s, e).history)
  {
  }

  lemma LastOperation(before: seq<Op>, after: seq<Op>)
    requires OneMore(before, after) && LegalHistory(after) && LegalHistory(before)
    ensures after == before
            || (after != [] && after[..|after| - 1] == before && Legal(Replay(before), after[|before|])
                && Replay(after) == Perform(Replay(before), after[|before|]))
  {
  }

  /** A package's metadata is the last committed publish's; its creation time is the first's. */
  lemma MetadataFollowsCommits(run: seq<State>, events: seq<Event>, n: nat, key: PackageKey)
    requires IsRun(run, events) && n < |run|
    ensures var s := run[n];
            var first, last := FirstPublish(s.history, key), LastPublish(s.history, key);
            && (key in s.packages <==> first.Some? && first.value.Publish? && last.Some? && last.value.Publish?)
            && (key in s.packages ==> s.packages[key].createdAt == first.value.now && s.packages[key].info == last.value.info)
  {
    var s := run[n];
    RunKeepsInv(run, events, n);
    MetadataIsLastPublish(s.history, key);
    if key in s.packages { assert Mirrors(Replay(s.history)[key], s.packages[key], s.versions); }
  }

  /** Every committed version can be downloaded: its blob is stored, hashes to its digest and has its size. */
  lemma CommittedArtifactsAreAvailable(run: seq<State>, events: seq<Event>, n: nat, vk: VersionKey)
    requires IsRun(run, events) && n < |run| && vk in run[n].versions
    ensures Available(run[n].blobs, run[n].versions[vk])
  {
    RunKeepsInv(run, events, n);
  }

  /** The second half of `get_artifact`: the blob of whatever row the lookup found, if it found one. */
  function Download(found: Option<Version>, blobs: map<BlobKey, Bytes>): Result<Bytes, string> {
    match found
    case None => Err("not_found")
    case Some(row) => if row.artifactKey in blobs then Ok(blobs[row.artifactKey]) else Err("internal")
  }

  lemma {:induction false} BlobsStay(run: seq<State>, events: seq<Event>, i: nat, j: nat, key: BlobKey)
    requires IsRun(run, events) && i <= j < |run| && key in run[i].blobs
    ensures key in run[j].blobs && run[j].blobs[key] == run[i].blobs[key]
    decreases j
  {
    if i < j {
      BlobsStay(run, events, i, j - 1, key);
      RunKeepsInv(run, events, j - 1);
      assert Stepped(run, events, j - 1);
      BlobsOnlyGrow(run[j - 1], events[j - 1]);
    }
  }

  /** What the lookup may find: any row with the digest, and nothing only when there is none. */
  ghost predicate IsLookup(versions: map<VersionKey, Version>, sha: Sha, found: Option<Version>) {
    match found
    case None => forall vk :: vk in versions ==> versions[vk].sha256 != sha
    case Some(row) => row.sha256 == sha && exists vk :: vk in versions && versions[vk] == row
  }

  /** A lookup by digest serves the bytes with that digest, whichever matching row it finds and however long after
      finding it the download comes, and says "not found" exactly when no version has it. */
  lemma LookupServesTheDigest(run: seq<State>, events: seq<Event>, i: nat, j: nat, bytes: Bytes, found: Option<Version>)
    requires IsRun(run, events) && i <= j < |run|
    requires IsLookup(run[i].versions, Sha256(bytes), found)
    ensures Download(found, run[j].blobs) ==
      if exists vk :: vk in run[i].versions && run[i].versions[vk].sha256 == Sha256(bytes) then Ok(bytes) else Err("not_found")
  {
    if found.Some? {
      var vk :| vk in run[i].versions && run[i].versions[vk] == found.value;
      CommittedArtifactsAreAvailable(run, events, i, vk);
      BlobsStay(run, events, i, j, found.value.artifactKey);
    }
  }

  lemma {:induction false} AnswersAreFinal(run: seq<State>, events: seq<Event>, i: nat, j: nat, pid: Pid)
    requires IsRun(run, events) && i <= j < |run|
    requires pid in run[i].flights && run[i].flights[pid].phase.Over()
    ensures run[j].orgs == run[i].orgs && pid in run[j].flights && run[j].flights[pid] == run[i].flights[pid]
    decreases j
  {
    if i < j {
      AnswersAreFinal(run, events, i, j - 1, pid);
      assert Stepped(run, events, j - 1);
    }
  }

  /** `version_exists` is true when answered and stays true. */
  lemma VersionExistsStaysTrue(run: seq<State>, events: seq<Event>, i: nat, j: nat, pid: Pid)
    requires IsRun(run, events) && i <= j < |run|
    requires pid in run[i].flights && run[i].flights[pid].phase == Done(VersionExists)
    ensures var req := run[i].flights[pid].req;
            req.slug in run[j].orgs && HasVersion(run[j], KeyOf(run[j], req), req.version)
  {
    AnswersAreFinal(run, events, i, j, pid);
    RunKeepsInv(run, events, j);
    assert FlightOk(run[j], pid);
  }

  /** A success answer means the version row is the request's own, now and for good, but for its yank flag. */
  lemma PublishedStaysPublished(run: seq<State>, events: seq<Event>, i: nat, j: nat, pid: Pid)
    requires IsRun(run, events) && i <= j < |run|
    requires pid in run[i].flights && run[i].flights[pid].phase.Done? && run[i].flights[pid].phase.response.Published?
    ensures var s, req := run[j], run[i].flights[pid].req;
            && req.slug in s.orgs && HasVersion(s, KeyOf(s, req), req.version)
            && var row := s.versions[VersionKey(s.packages[KeyOf(s, req)].id, req.version)];
               row.(yanked := false) == NewVersion(req, row.publishedAt)
  {
    AnswersAreFinal(run, events, i, j, pid);
    RunKeepsInv(run, events, j);
    PublishedRow(run[j], pid);
  }

  lemma PublishedRow(s: State, pid: Pid)
    requires Inv(s) && pid in s.flights && s.flights[pid].phase.Done? && s.flights[pid].phase.response.Published?
    ensures var req := s.flights[pid].req;
            && req.slug in s.orgs && HasVersion(s, KeyOf(s, req), req.version)
            && var row := s.versions[VersionKey(s.packages[KeyOf(s, req)].id, req.version)];
               row.(yanked := false) == NewVersion(req, row.publishedAt)
  {
    var req := s.flights[pid].req;
    assert FlightOk(s, pid);
    var i :| 0 <= i < |s.history| && RecordedAt(s, pid, s.flights[pid].phase.response.sha, i);
    assert Accounted(s, s.history[i]);
    PublishedStays(s.history, i);
    var key := KeyOf(s, req);
    assert Mirrors(Replay(s.history)[key], s.packages[key], s.versions);
  }

  /** Of all the requests to publish one version, at most one is ever told it succeeded. */
  lemma OneSuccessPerVersion(run: seq<State>, events: seq<Event>, n: nat, p: Pid, q: Pid)
    requires IsRun(run, events) && n < |run| && p in run[n].flights && q in run[n].flights
    requires run[n].flights[p].phase.Done? && run[n].flights[p].phase.response.Published?
    requires run[n].flights[q].phase.Done? && run[n].flights[q].phase.response.Published?
    requires var a, b := run[n].flights[p].req, run[n].flights[q].req;
             a.slug == b.slug && a.name == b.name && a.version == b.version
    ensures p == q
  {
    var s := run[n];
    RunKeepsInv(run, events, n);
    assert FlightOk(s, p) && FlightOk(s, q);
    var i :| 0 <= i < |s.history| && RecordedAt(s, p, s.flights[p].phase.response.sha, i);
    var j :| 0 <= j < |s.history| && RecordedAt(s, q, s.flights[q].phase.response.sha, j);
    SingleWinner(s.history, i, j);
  }

  /** Authorisation fails closed: only a token allowed to publish to the org makes a step that writes anything. */
  lemma OnlyAuthorisedWrites(run: seq<State>, events: seq<Event>, n: nat)
    requires IsRun(run, events) && n < |events|
    requires var s, t := run[n], run[n + 1];
             t.blobs != s.blobs || t.packages != s.packages || t.versions != s.versions
    ensures var s, e := run[n], events[n];
            && (!e.SetYanked? ==> !e.Receive? && e.pid in s.flights)
            && var token := if e.SetYanked? then e.token else s.flights[e.pid].req.token;
               var slug := if e.SetYanked? then e.slug else s.flights[e.pid].req.slug;
               && slug in s.orgs
               && (token.orgId == None || (token.orgId == Some(s.orgs[slug]) && token.role in {Owner, Publisher}))
  {
    var s, e := run[n], events[n];
    RunKeepsInv(run, events, n);
    assert Stepped(run, events, n);
    if !e.SetYanked? && !e.Receive? { assert FlightOk(s, e.pid); }
  }

  /** `pid` asked for this version of this package: its token is unscoped, or scoped to the org with a publishing role;
      its manifest is valid and names what the URL does; and the row describes the artifact it sent. */
  ghost predicate RequestedBy(s: State, pid: Pid, key: PackageKey, version: string, row: Version) {
    && pid in s.flights
    && var req := s.flights[pid].req;
       && req.slug in s.orgs && key == PackageKey(s.orgs[req.slug], req.name) && version == req.version
       && (req.token.orgId == None || (req.token.orgId == Some(s.orgs[req.slug]) && req.token.role in {Owner, Publisher}))
       && req.manifest.valid && req.manifest.org == req.slug && req.manifest.name == key.name && req.manifest.version == version
       && row.sha256 == Sha256(req.artifact) == req.declaredSha && row.size == |req.artifact|
       && row.format == req.format && row.artifactKey == BlobKey(row.sha256, req.format)
       && row.vcsTag == req.vcsTag && row.vcsCommit == req.vcsCommit
  }

  /** Every committed publish is its own request's, with that request's metadata. */
  lemma CommitsAreRequested(run: seq<State>, events: seq<Event>, n: nat, i: nat)
    requires IsRun(run, events) && n < |run| && i < |run[n].history| && run[n].history[i].Publish?
    ensures var s, op := run[n], run[n].history[i];
            && RequestedBy(s, op.writer, op.key, op.version, op.row) && !op.row.yanked
            && op.info == s.flights[op.writer].req.manifest.info
  {
    RunKeepsInv(run, events, n);
    assert Accounted(run[n], run[n].history[i]);
  }

  /** Every version there is was some request's own, whatever has been yanked since. */
  lemma VersionsAreRequested(run: seq<State>, events: seq<Event>, n: nat, vk: VersionKey)
    requires IsRun(run, events) && n < |run| && vk in run[n].versions
    ensures var s := run[n];
            exists pid, key :: key in s.packages && s.packages[key].id == vk.packageId
                               && RequestedBy(s, pid, key, vk.version, s.versions[vk])
  {
    var s := run[n];
    RunKeepsInv(run, events, n);
    assert Owned(s.packages, vk);
    var key :| key in s.packages && s.packages[key].id == vk.packageId;
    var c := Replay(s.history);
    assert Mirrors(c[key], s.packages[key], s.versions);
    var i := PublishBehind(s.history, key, vk.version);
    PublishedStays(s.history, i);
    CommitsAreRequested(run, events, n, i);
    assert RequestedBy(s, s.history[i].writer, key, vk.version, s.versions[vk]);
  }

  // ---- The recorded times are the clock's ----

  ghost predicate UpsertedAt(events: seq<Event>, n: nat, pid: Pid, now: int)
    requires n <= |events|
  {
    exists k :: 0 <= k < n && events[k].UpsertPackage? && events[k].pid == pid && events[k].now == now
  }

  ghost predicate InsertedAt(events: seq<Event>, n: nat, pid: Pid, now: int)
    requires n <= |events|
  {
    exists k :: 0 <= k < n && events[k] == InsertVersion(pid, now)
  }

  lemma {:induction false} PendingTimes(run: seq<State>, events: seq<Event>, n: nat, pid: Pid)
    requires IsRun(run, events) && n < |run| && pid in run[n].flights
    ensures var phase := run[n].flights[pid].phase;
            && (phase.InTransaction() ==> UpsertedAt(events, n, pid, phase.now))
            && (phase.Inserted? ==> InsertedAt(events, n, pid, phase.row.publishedAt))
  {
    if n > 0 {
      assert Stepped(run, events, n - 1);
      if pid in run[n - 1].flights { PendingTimes(run, events, n - 1, pid); }
      assert events[n - 1].UpsertPackage? && events[n - 1].pid == pid ==> UpsertedAt(events, n, pid, events[n - 1].now);
    }
  }

  /** A committed version was published at the reading of its own insert, and the package row it came with was dated
      by its own upsert. */
  lemma {:induction false} TimesAreTheClocks(run: seq<State>, events: seq<Event>, n: nat, i: nat)
    requires IsRun(run, events) && n < |run| && i < |run[n].history| && run[n].history[i].Publish?
    ensures var op := run[n].history[i];
            UpsertedAt(events, n, op.writer, op.now) && InsertedAt(events, n, op.writer, op.row.publishedAt)
  {
    assert n > 0;
    assert Stepped(run, events, n - 1);
    StepRecordsOne(run[n - 1], events[n - 1]);
    if i < |run[n - 1].history| {
      TimesAreTheClocks(run, events, n - 1, i);
    } else {
      PendingTimes(run, events, n - 1, events[n - 1].pid);
    }
  }

  lemma BlobsOnlyGrow(s: State, e: Event)
    requires ContentAddressed(s.blobs) && Enabled(s, e)
    ensures forall k :: k in s.blobs ==> k in Apply(s, e).blobs && Apply(s, e).blobs[k] == s.blobs[k]
  {
    if e.PutBlob? {
      PutChangesNothingStored(s.blobs, s.flights[e.pid].req.artifact, s.flights[e.pid].req.format);
    }
  }

  predicate Targets(s: State, e: Event, vk: VersionKey) {
    && e.SetYanked? && e.slug in s.orgs && PackageKey(s.orgs[e.slug], e.name) in s.packages
    && vk == VersionKey(s.packages[PackageKey(s.orgs[e.slug], e.name)].id, e.version)
  }

  lemma RowsOnlyYanked(s: State, e: Event)
    requires FlightsOk(s) && Enabled(s, e)
    ensures var t := Apply(s, e);
            forall vk :: vk in s.versions ==>
              && vk in t.versions
              && t.versions[vk] == if Targets(s, e, vk) then s.versions[vk].(yanked := e.yanked) else s.versions[vk]
  {
    if e.Commit? || e.CommitUnacknowledged? {
      assert FlightOk(s, e.pid);
    }
  }

  /** Published content is immutable: no step removes a version or a stored blob, and only a yank aimed at a row
      changes it, and then nothing but its flag. */
  lemma VersionsAreImmutable(run: seq<State>, events: seq<Event>, n: nat)
    requires IsRun(run, events) && n < |events|
    ensures var s, t, e := run[n], run[n + 1], events[n];
            && (forall k :: k in s.blobs ==> k in t.blobs && t.blobs[k] == s.blobs[k])
            && forall vk :: vk in s.versions ==>
                 && vk in t.versions
                 && t.versions[vk] == if Targets(s, e, vk) then s.versions[vk].(yanked := e.yanked) else s.versions[vk]
  {
    RunKeepsInv(run, events, n);
    assert Stepped(run, events, n);
    BlobsOnlyGrow(run[n], events[n]);
    RowsOnlyYanked(run[n], events[n]);
  }

  // ---- Nobody waits forever ----

  /** A step that takes a request on: nothing failed, and nothing new came. */
  predicate GoesOn(e: Event) {
    e.Authorise? || e.Check? || e.Preflight? || e.PutBlob? || e.UpsertPackage? || e.InsertVersion? || e.Commit?
  }

  function StepsLeft(phase: Phase): nat {
    match phase
    case Received => 7
    case Authorised => 6
    case Checked => 5
    case Vacant => 4
    case Stored => 3
    case Upserted(_, _) => 2
    case Inserted(_, _, _) => 1
    case Done(_) => 0
    case Crashed => 0
  }

  /** Waiting for a package row never ends in a deadlock: while a request is unfinished, it or the one that holds its
      row can take a step that needs nothing to fail. */
  lemma SomeRequestGoesOn(s: State, pid: Pid) returns (e: Event)
    requires Inv(s) && pid in s.flights && !s.flights[pid].phase.Over()
    ensures Enabled(s, e) && GoesOn(e)
  {
    assert FlightOk(s, pid);
    match s.flights[pid].phase
    case Received => e := Authorise(pid);
    case Authorised => e := Check(pid, true);
    case Checked => e := Preflight(pid);
    case Vacant => e := PutBlob(pid);
    case Stored =>
      var key := KeyOf(s, s.flights[pid].req);
      if RowLocked(s, pid, key) {
        var q :| q in s.flights && q != pid && s.flights[q].phase.InTransaction()
                 && s.flights[q].req.slug in s.orgs && KeyOf(s, s.flights[q].req) == key;
        e := if s.flights[q].phase.Upserted? then InsertVersion(q, 0) else Commit(q);
      } else {
        var id := UnusedId(s);
        e := UpsertPackage(pid, id, 0);
      }
    case Upserted(_, _) => e := InsertVersion(pid, 0);
    case Inserted(_, _, _) => e := Commit(pid);
  }

  lemma UnusedId(s: State) returns (id: Id)
    ensures FreshId(s, id)
  {
    var ids := (set k | k in s.packages :: s.packages[k].id)
               + (set q | q in s.flights && s.flights[q].phase.InTransaction() :: s.flights[q].phase.pkg.id);
    id := AboveAll(ids);
    forall k | k in s.packages ensures s.packages[k].id in ids {}
    forall q | q in s.flights && s.flights[q].phase.InTransaction() ensures s.flights[q].phase.pkg.id in ids {}
  }

  lemma {:induction false} AboveAll(ids: set<Id>) returns (id: Id)
    ensures forall i :: i in ids ==> i < id
  {
    if ids == {} {
      return 0;
    }
    var i :| i in ids;
    var above := AboveAll(ids - {i});
    id := if i < above then above else i + 1;
    forall j | j in ids ensures j < id {
      assert j == i || j in ids - {i};
    }
  }

  /** And going on comes to an end: each such step brings its request closer to its answer and sets back no other. */
  lemma GoingOnEnds(s: State, e: Event)
    requires Enabled(s, e) && GoesOn(e)
    ensures var t := Apply(s, e);
            && t.flights.Keys == s.flights.Keys
            && StepsLeft(t.flights[e.pid].phase) < StepsLeft(s.flights[e.pid].phase)
            && forall q :: q in s.flights && q != e.pid ==> t.flights[q] == s.flights[q]
  {
  }
}
