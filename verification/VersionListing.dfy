/** Which versions of a package are visible, and which is latest (src/routes/mod.rs), over any publishing and
    yanking. The version comparator is a parameter: any total order on version identities. */
module VersionListing {
  import opened Wrappers
  import PublishPipeline
  import Registry

  datatype Row = Row(version: string, yanked: bool, publishedAt: int)

  type Order = (string, string) -> bool

  predicate Comparable(leq: Order, a: string, b: string) { leq(a, b) || leq(b, a) }
  predicate Antisymmetric(leq: Order, a: string, b: string) { leq(a, b) && leq(b, a) ==> a == b }
  predicate Transitive(leq: Order, a: string, b: string, c: string) { leq(a, b) && leq(b, c) ==> leq(a, c) }

  ghost predicate TotalOrder(leq: Order) {
    && (forall a, b :: Comparable(leq, a, b))
    && (forall a, b :: Antisymmetric(leq, a, b))
    && (forall a, b, c :: Transitive(leq, a, b, c))
  }

  ghost predicate Descending(leq: Order, vs: seq<string>) {
    forall i, j :: 0 <= i < j < |vs| ==> leq(vs[j], vs[i])
  }

  function Visible(rows: seq<Row>): seq<string> {
    if rows == [] then []
    else Visible(rows[..|rows| - 1]) + (if rows[|rows| - 1].yanked then [] else [rows[|rows| - 1].version])
  }

  /** The listing of a set of rows: their visible versions, highest first. */
  ghost predicate IsListing(leq: Order, rows: seq<Row>, vs: seq<string>) {
    multiset(vs) == multiset(Visible(rows)) && Descending(leq, vs)
  }

  /** Sort in place, highest first. */
  method SortVersionsDesc(versions: array<string>, leq: Order)
    requires TotalOrder(leq)
    modifies versions
    ensures multiset(versions[..]) == multiset(old(versions[..])) && Descending(leq, versions[..])
  {
    for i := 0 to versions.Length
      invariant multiset(versions[..]) == multiset(old(versions[..]))
      invariant Descending(leq, versions[..i])
    {
      Sink(versions, i, leq);
    }
    assert versions[..versions.Length] == versions[..];
  }

  /** The first `i` are in order but for the one at `j`, which is above everything after it. */
  ghost predicate Sinking(leq: Order, vs: seq<string>, i: nat, j: nat) {
    && j <= i < |vs|
    && (forall a, b :: 0 <= a < b <= i && a != j && b != j ==> leq(vs[b], vs[a]))
    && (forall b :: j < b <= i ==> leq(vs[b], vs[j]))
  }

  function Swap(vs: seq<string>, j: nat): seq<string>
    requires 0 < j < |vs|
  {
    vs[j := vs[j - 1]][j - 1 := vs[j]]
  }

  lemma SinkStep(leq: Order, vs: seq<string>, i: nat, j: nat)
    requires TotalOrder(leq) && Sinking(leq, vs, i, j) && j > 0 && !leq(vs[j], vs[j - 1])
    ensures Sinking(leq, Swap(vs, j), i, j - 1) && multiset(Swap(vs, j)) == multiset(vs)
  {
    assert Comparable(leq, vs[j], vs[j - 1]);
  }

  lemma Sunk(leq: Order, vs: seq<string>, i: nat, j: nat)
    requires TotalOrder(leq) && Sinking(leq, vs, i, j) && (j == 0 || leq(vs[j], vs[j - 1]))
    ensures Descending(leq, vs[..i + 1])
  {
    forall a | 0 <= a < j ensures leq(vs[j], vs[a]) {
      assert Transitive(leq, vs[j], vs[j - 1], vs[a]);
    }
  }

  /** Move the element at `i` to its place among the sorted ones before it. */
  method Sink(versions: array<string>, i: nat, leq: Order)
    requires TotalOrder(leq) && i < versions.Length && Descending(leq, versions[..i])
    modifies versions
    ensures multiset(versions[..]) == multiset(old(versions[..])) && Descending(leq, versions[..i + 1])
  {
    var j := i;
    while j > 0 && !leq(versions[j], versions[j - 1])
      invariant 0 <= j <= i
      invariant multiset(versions[..]) == multiset(old(versions[..]))
      invariant Sinking(leq, versions[..], i, j)
    {
      SinkStep(leq, versions[..], i, j);
      ghost var before := versions[..];
      versions[j], versions[j - 1] := versions[j - 1], versions[j];
      assert versions[..] == Swap(before, j);
      j := j - 1;
    }
    Sunk(leq, versions[..], i, j);
    assert versions[..][..i + 1] == versions[..i + 1];
  }

  /** `visible_versions_desc`. */
  method VisibleVersionsDesc(rows: seq<Row>, leq: Order) returns (versions: seq<string>)
    requires TotalOrder(leq)
    ensures IsListing(leq, rows, versions)
  {
    var visible: seq<string> := [];
    for i := 0 to |rows|
      invariant visible == Visible(rows[..i])
    {
      assert rows[..i + 1][..i] == rows[..i];
      if !rows[i].yanked {
        visible := visible + [rows[i].version];
      }
    }
    assert rows[..|rows|] == rows;
    var sorted := new string[|visible|](k requires 0 <= k < |visible| => visible[k]);
    assert sorted[..] == visible;
    SortVersionsDesc(sorted, leq);
    versions := sorted[..];
  }

  /** `latest_visible_version`. */
  method LatestVisibleVersion(rows: seq<Row>, leq: Order) returns (latest: Option<string>)
    requires TotalOrder(leq)
    ensures IsLatest(leq, rows, latest)
  {
    var versions := VisibleVersionsDesc(rows, leq);
    latest := if versions == [] then None else Some(versions[0]);
    ListingHead(leq, rows, versions);
  }

  ghost predicate IsVisible(rows: seq<Row>, v: string) {
    exists row :: row in rows && row.version == v && !row.yanked
  }

  /** The highest visible version, absent exactly when there is none. */
  ghost predicate IsLatest(leq: Order, rows: seq<Row>, latest: Option<string>) {
    match latest
    case None => forall v :: !IsVisible(rows, v)
    case Some(l) => IsVisible(rows, l) && forall v :: IsVisible(rows, v) ==> leq(v, l)
  }

  lemma {:induction false} VisibleMembers(rows: seq<Row>)
    ensures forall v :: v in Visible(rows) <==> IsVisible(rows, v)
  {
    if rows != [] {
      var front, last := rows[..|rows| - 1], rows[|rows| - 1];
      assert rows == front + [last];
      VisibleMembers(front);
      forall v ensures v in Visible(rows) <==> IsVisible(rows, v) {
        assert IsVisible(rows, v) <==> IsVisible(front, v) || (last.version == v && !last.yanked) by {
          assert last in rows;
        }
      }
    }
  }

  lemma ListingHead(leq: Order, rows: seq<Row>, vs: seq<string>)
    requires TotalOrder(leq) && IsListing(leq, rows, vs)
    ensures IsLatest(leq, rows, if vs == [] then None else Some(vs[0]))
  {
    VisibleMembers(rows);
    forall v ensures v in vs <==> IsVisible(rows, v) {
      assert v in vs <==> v in multiset(vs);
      assert v in Visible(rows) <==> v in multiset(Visible(rows));
    }
    forall v | v in vs ensures leq(v, vs[0]) {
      HeadIsTop(leq, vs, v);
    }
  }

  // ---- The listing does not depend on row order ----

  lemma {:induction false} DescendingPermutationsAgree(leq: Order, a: seq<string>, b: seq<string>)
    requires TotalOrder(leq) && Descending(leq, a) && Descending(leq, b) && multiset(a) == multiset(b)
    ensures a == b
  {
    assert |a| == |multiset(a)| == |multiset(b)| == |b|;
    if a != [] {
      assert a[0] in multiset(b) && b[0] in multiset(a);
      HeadIsTop(leq, b, a[0]);
      HeadIsTop(leq, a, b[0]);
      assert Antisymmetric(leq, a[0], b[0]);
      TailMultiset(a);
      TailMultiset(b);
      DescendingPermutationsAgree(leq, a[1..], b[1..]);
    }
  }

  lemma HeadIsTop(leq: Order, vs: seq<string>, v: string)
    requires TotalOrder(leq) && Descending(leq, vs) && v in vs
    ensures leq(v, vs[0])
  {
    assert Comparable(leq, v, v);
    var i :| 0 <= i < |vs| && vs[i] == v;
  }

  lemma TailMultiset(vs: seq<string>)
    requires vs != []
    ensures vs == [vs[0]] + vs[1..] && multiset(vs[1..]) == multiset(vs) - multiset{vs[0]}
  {
    assert vs == [vs[0]] + vs[1..];
  }

  lemma {:induction false} VisibleConcat(a: seq<Row>, b: seq<Row>)
    ensures Visible(a + b) == Visible(a) + Visible(b)
  {
    if b == [] {
      assert a + b == a;
    } else {
      assert (a + b)[..|a + b| - 1] == a + b[..|b| - 1];
      VisibleConcat(a, b[..|b| - 1]);
    }
  }

  lemma VisibleWithout(a: seq<Row>, x: Row, b: seq<Row>)
    ensures multiset(Visible(a + [x] + b)) == multiset(Visible(a + b)) + multiset(Visible([x]))
  {
    VisibleConcat(a + [x], b);
    VisibleConcat(a, [x]);
    VisibleConcat(a, b);
  }

  lemma WithoutOne(b: seq<Row>, i: nat)
    requires i < |b|
    ensures b == b[..i] + [b[i]] + b[i + 1..]
    ensures multiset(b[..i] + b[i + 1..]) == multiset(b) - multiset{b[i]}
  {
    assert b == b[..i] + [b[i]] + b[i + 1..];
  }

  lemma {:induction false} VisibleOfPermutation(a: seq<Row>, b: seq<Row>)
    requires multiset(a) == multiset(b)
    ensures multiset(Visible(a)) == multiset(Visible(b))
    decreases |a|
  {
    if a == [] {
      assert |multiset(b)| == 0;
    } else {
      var n := |a| - 1;
      assert a[n] in multiset(b);
      var i :| 0 <= i < |b| && b[i] == a[n];
      WithoutOne(a, n);
      assert a[..n] + a[n + 1..] == a[..n] && a == a[..n] + [a[n]];
      WithoutOne(b, i);
      VisibleOfPermutation(a[..n], b[..i] + b[i + 1..]);
      VisibleConcat(a[..n], [a[n]]);
      VisibleWithout(b[..i], b[i], b[i + 1..]);
    }
  }

  /** Every order of the same rows gives the same listing, so publication order and times never matter. */
  lemma ListingIsOrderFree(leq: Order, a: seq<Row>, b: seq<Row>, va: seq<string>, vb: seq<string>)
    requires TotalOrder(leq) && multiset(a) == multiset(b)
    requires IsListing(leq, a, va) && IsListing(leq, b, vb)
    ensures va == vb
  {
    VisibleOfPermutation(a, b);
    DescendingPermutationsAgree(leq, va, vb);
  }

  // ---- Over every run of publishes, yanks and restores ----

  type Versions = map<PublishPipeline.VersionKey, Registry.Version>

  ghost predicate IsRowIn(row: Row, versions: Versions, packageId: Registry.Id) {
    var vk := PublishPipeline.VersionKey(packageId, row.version);
    vk in versions && row == Row(row.version, versions[vk].yanked, versions[vk].publishedAt)
  }

  /** The package's version rows, each once, in whatever order a query returns them. */
  ghost predicate AreRowsOf(rows: seq<Row>, versions: Versions, packageId: Registry.Id) {
    && (forall i, j :: 0 <= i < j < |rows| ==> rows[i].version != rows[j].version)
    && (forall i :: 0 <= i < |rows| ==> IsRowIn(rows[i], versions, packageId))
    && forall v :: PublishPipeline.VersionKey(packageId, v) in versions ==> exists row :: row in rows && row.version == v
  }

  /** What became of a version in the committed changes: never published, or visible unless its last change yanked it. */
  function Fate(history: seq<Registry.Op>, key: Registry.PackageKey, v: string): Option<bool> {
    if history == [] then None
    else
      match history[|history| - 1]
      case Publish(k, w, _, _, _, _) => if k == key && w == v then Some(true) else Fate(history[..|history| - 1], key, v)
      case Yank(k, w, yanked) => if k == key && w == v then Some(!yanked) else Fate(history[..|history| - 1], key, v)
  }

  lemma {:induction false} FateIsReplayed(history: seq<Registry.Op>, key: Registry.PackageKey, v: string)
    requires Registry.LegalHistory(history)
    ensures var c := Registry.Replay(history);
            if Registry.Has(c, key, v) then Fate(history, key, v) == Some(!c[key].versions[v].yanked)
            else Fate(history, key, v) == None
  {
    if history != [] { FateIsReplayed(history[..|history| - 1], key, v); }
  }

  lemma VisibleByFate(run: seq<PublishPipeline.State>, events: seq<PublishPipeline.Event>, n: nat,
                      key: Registry.PackageKey, rows: seq<Row>, v: string)
    requires PublishPipeline.IsRun(run, events) && n < |run| && key in run[n].packages
    requires AreRowsOf(rows, run[n].versions, run[n].packages[key].id)
    ensures IsVisible(rows, v) <==> Fate(run[n].history, key, v) == Some(true)
  {
    var s := run[n];
    PublishPipeline.RunKeepsInv(run, events, n);
    var c, vk := Registry.Replay(s.history), PublishPipeline.VersionKey(s.packages[key].id, v);
    FateIsReplayed(s.history, key, v);
    assert PublishPipeline.Mirrors(c[key], s.packages[key], s.versions);
    if vk in s.versions {
      var row :| row in rows && row.version == v;
      assert IsRowIn(row, s.versions, s.packages[key].id);
    }
  }

  /** Over every interleaving of publishes, yanks and restores, a package's latest version is the highest that was
      published and is not currently yanked, whatever order its rows are read in, and there is none exactly when no
      version is visible. */
  lemma LatestOverEveryRun(leq: Order, run: seq<PublishPipeline.State>, events: seq<PublishPipeline.Event>, n: nat,
                           key: Registry.PackageKey, rows: seq<Row>, latest: Option<string>)
    requires TotalOrder(leq) && PublishPipeline.IsRun(run, events) && n < |run| && key in run[n].packages
    requires AreRowsOf(rows, run[n].versions, run[n].packages[key].id)
    requires IsLatest(leq, rows, latest)
    ensures match latest
            case None => forall v :: Fate(run[n].history, key, v) != Some(true)
            case Some(l) => Fate(run[n].history, key, l) == Some(true)
                            && forall v :: Fate(run[n].history, key, v) == Some(true) ==> leq(v, l)
  {
    forall v ensures IsVisible(rows, v) <==> Fate(run[n].history, key, v) == Some(true) {
      VisibleByFate(run, events, n, key, rows, v);
    }
  }

  /** Yanking hides exactly the version it names, and restoring it gives back the catalog there was. */
  lemma YankThenRestore(history: seq<Registry.Op>, key: Registry.PackageKey, v: string)
    requires Registry.LegalHistory(history) && Fate(history, key, v) == Some(true)
    ensures var yanked := history + [Registry.Yank(key, v, true)];
            var restored := yanked + [Registry.Yank(key, v, false)];
            && Registry.LegalHistory(restored) && Registry.Replay(restored) == Registry.Replay(history)
            && Fate(yanked, key, v) == Some(false)
            && forall k, w :: (k, w) != (key, v) ==> Fate(yanked, k, w) == Fate(history, k, w)
  {
    var yank, restore := Registry.Yank(key, v, true), Registry.Yank(key, v, false);
    FateIsReplayed(history, key, v);
    Registry.ReplayStep(history, yank);
    Registry.ReplayStep(history + [yank], restore);
    assert (history + [yank])[..|history|] == history;
    var p := Registry.Replay(history)[key];
    assert p.versions[v := p.versions[v].(yanked := true)][v := p.versions[v]] == p.versions;
    assert Registry.Replay(history)[key := p] == Registry.Replay(history);
  }
}
