/** The registry as its clients see it: packages holding immutable versions, changed one whole operation at a
    time. This is what the interleaved publish pipeline has to look like from outside. */
module Registry {
  import opened Wrappers
  import opened ByteStrings

  type Id = nat

  /** A sha256 column: the hex digest of some bytes, or any other text a client may have sent. Digests are
      collision-free because `Sha256` is a constructor. */
  datatype Sha = Sha256(content: Bytes) | OtherText(text: string)

  datatype Format = TarGz | Zip

  /** `artifacts/<sha>.<extension>`. */
  datatype BlobKey = BlobKey(sha: Sha, format: Format)

  function ArtifactKey(sha: Sha, format: Format): BlobKey {
    BlobKey(sha, format)
  }

  /** The package columns a publish rewrites. */
  datatype Info = Info(description: Option<string>, vcs: string, repoUrl: string, scheme: string, tags: seq<string>)

  datatype Version = Version(
    sha256: Sha, size: nat, format: Format, vcsTag: string, vcsCommit: Option<string>,
    artifactKey: BlobKey, yanked: bool, publishedAt: int)

  datatype PackageKey = PackageKey(orgId: Id, name: string)

  datatype Package = Package(info: Info, createdAt: int, versions: map<string, Version>)

  type Catalog = map<PackageKey, Package>

  datatype Op =
    | Publish(key: PackageKey, version: string, info: Info, row: Version, now: int, writer: nat)
    | Yank(key: PackageKey, version: string, yanked: bool)

  predicate Has(c: Catalog, key: PackageKey, version: string) {
    key in c && version in c[key].versions
  }

  /** A version can be published once; only a published one can be yanked or restored. */
  predicate Legal(c: Catalog, op: Op) {
    match op
    case Publish(key, version, _, row, _, _) => !Has(c, key, version) && !row.yanked
    case Yank(key, version, _) => Has(c, key, version)
  }

  /** One whole operation: metadata and version row together. */
  function Perform(c: Catalog, op: Op): Catalog
    requires Legal(c, op)
  {
    match op
    case Publish(key, version, info, row, now, _) =>
      if key in c then c[key := Package(info, c[key].createdAt, c[key].versions[version := row])]
      else c[key := Package(info, now, map[version := row])]
    case Yank(key, version, yanked) =>
      var p := c[key];
      c[key := p.(versions := p.versions[version := p.versions[version].(yanked := yanked)])]
  }

  predicate LegalHistory(h: seq<Op>)
    decreases |h|, 0
  {
    h == [] || (LegalHistory(h[..|h| - 1]) && Legal(Replay(h[..|h| - 1]), h[|h| - 1]))
  }

  function Replay(h: seq<Op>): Catalog
    requires LegalHistory(h)
    decreases |h|, 1
  {
    if h == [] then map[] else Perform(Replay(h[..|h| - 1]), h[|h| - 1])
  }

  lemma ReplayStep(h: seq<Op>, op: Op)
    requires LegalHistory(h) && Legal(Replay(h), op)
    ensures LegalHistory(h + [op]) && Replay(h + [op]) == Perform(Replay(h), op)
  {
    assert (h + [op])[..|h|] == h;
  }

  predicate IsPublishOf(op: Op, key: PackageKey) {
    op.Publish? && op.key == key
  }

  function FirstPublish(h: seq<Op>, key: PackageKey): Option<Op> {
    if h == [] then None
    else
      var earlier := FirstPublish(h[..|h| - 1], key);
      if earlier.Some? then earlier else if IsPublishOf(h[|h| - 1], key) then Some(h[|h| - 1]) else None
  }

  function LastPublish(h: seq<Op>, key: PackageKey): Option<Op> {
    if h == [] then None
    else if IsPublishOf(h[|h| - 1], key) then Some(h[|h| - 1])
    else LastPublish(h[..|h| - 1], key)
  }

  /** A package exists once it has a publish; its metadata is the last publish's and its creation time the first's. */
  lemma {:induction false} MetadataIsLastPublish(h: seq<Op>, key: PackageKey)
    requires LegalHistory(h)
    ensures var c, first, last := Replay(h), FirstPublish(h, key), LastPublish(h, key);
            && (key in c <==> first.Some?) && (key in c <==> last.Some?)
            && (key in c ==> first.value.Publish? && last.value.Publish?
                             && c[key].createdAt == first.value.now && c[key].info == last.value.info)
  {
    if h != [] {
      MetadataIsLastPublish(h[..|h| - 1], key);
    }
  }

  /** A version stays once published, and keeps everything but its yank flag. */
  lemma {:induction false} PublishedStays(h: seq<Op>, i: nat)
    requires LegalHistory(h) && i < |h| && h[i].Publish?
    ensures var c := Replay(h);
            Has(c, h[i].key, h[i].version)
            && c[h[i].key].versions[h[i].version].(yanked := false) == h[i].row
  {
    var n := |h| - 1;
    if i < n {
      PublishedStays(h[..n], i);
    }
  }

  /** And only publishing brings a version into being. */
  lemma {:induction false} PublishBehind(h: seq<Op>, key: PackageKey, version: string) returns (i: nat)
    requires LegalHistory(h) && Has(Replay(h), key, version)
    ensures i < |h| && h[i].Publish? && h[i].key == key && h[i].version == version
  {
    var n := |h| - 1;
    if h[n].Publish? && h[n].key == key && h[n].version == version {
      return n;
    }
    i := PublishBehind(h[..n], key, version);
  }

  /** At most one publish of a given version ever succeeds. */
  lemma SingleWinner(h: seq<Op>, i: nat, j: nat)
    requires LegalHistory(h) && i < |h| && j < |h| && h[i].Publish? && h[j].Publish?
    requires h[i].key == h[j].key && h[i].version == h[j].version
    ensures i == j
  {
    if i < j {
      NoSecondPublish(h, i, j);
    } else if j < i {
      NoSecondPublish(h, j, i);
    }
  }

  lemma {:induction false} NoSecondPublish(h: seq<Op>, i: nat, j: nat)
    requires LegalHistory(h) && i < j < |h| && h[i].Publish? && h[j].Publish?
    ensures h[i].key != h[j].key || h[i].version != h[j].version
  {
    var n := |h| - 1;
    if j < n {
      NoSecondPublish(h[..n], i, j);
    } else {
      PublishedStays(h[..n], i);
    }
  }
}
