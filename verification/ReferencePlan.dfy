/** Planning the reference index from frozen snapshots, internal/backfill/referenceindex/plan.go:59-174. */
module ReferencePlan {
  import opened Options
  import Strings

  datatype Kind = Expert | Team | Skill | Connector | OtherKind

  datatype RelationType = ExpertSkill | ExpertConnector | TeamExpert | OtherType

  datatype Resource = Resource(id: string, kind: Kind, embedded: bool)

  /** A frozen relation; a missing or null status is `None`. */
  datatype Relation = Relation(
    id: string, source: string, sourceKind: Kind, target: string, targetKind: Kind,
    pin: Option<string>, kind: RelationType, status: Option<int>, deleted: bool)

  /** `relations` is `None` when the stored document is not an unambiguous list of relations. */
  datatype Snapshot = Snapshot(pluginId: string, versionId: string, digest: string, relations: Option<seq<Relation>>)

  datatype Release = Release(pluginId: string, versionId: string)

  datatype Dataset = Dataset(resources: seq<Resource>, snapshots: seq<Snapshot>, releases: seq<Release>)

  datatype Edge = Edge(relationId: string, kind: RelationType, target: string, pin: Option<string>)

  datatype Plan = Plan(pluginId: string, versionId: string, digest: string, complete: bool, edges: seq<Edge>)

  // ------------------------------------------------------------ specification

  /** The only resource with this id. */
  ghost predicate OnlyResource(data: Dataset, id: string, r: Resource) {
    exists k :: 0 <= k < |data.resources| && data.resources[k] == r && r.id == id
                && forall j :: 0 <= j < |data.resources| && data.resources[j].id == id ==> j == k
  }

  /** At most one snapshot, and releases under one owner only. */
  ghost predicate VersionClear(data: Dataset, v: string) {
    && (forall i, j :: 0 <= i < j < |data.snapshots| ==> !(data.snapshots[i].versionId == v && data.snapshots[j].versionId == v))
    && (forall i, j :: 0 <= i < |data.releases| && 0 <= j < |data.releases| && data.releases[i].versionId == v && data.releases[j].versionId == v
          ==> data.releases[i].pluginId == data.releases[j].pluginId)
  }

  ghost predicate SavedBy(data: Dataset, v: string, owner: string) {
    exists k :: 0 <= k < |data.snapshots| && data.snapshots[k].versionId == v && data.snapshots[k].pluginId == owner
  }

  ghost predicate ReleasedBy(data: Dataset, v: string, owner: string) {
    exists k :: 0 <= k < |data.releases| && data.releases[k].versionId == v && data.releases[k].pluginId == owner
  }

  predicate Active(r: Relation) {
    !r.deleted && r.status == Some(1)
  }

  predicate WellFormed(s: Snapshot, source: Resource, r: Relation) {
    && (r.status == Some(0) || r.status == Some(1))
    && r.id != "" && r.source == s.pluginId && r.sourceKind == source.kind
    && r.target != "" && r.target != s.pluginId
  }

  predicate KindFits(source: Kind, target: Kind, kind: RelationType) {
    || (source == Expert && target == Skill && kind == ExpertSkill)
    || (source == Expert && target == Connector && kind == ExpertConnector)
    || (source == Team && target == Expert && kind == TeamExpert)
  }

  /** An active relation points to one known standalone resource of the right kind, and,
      unless that is a connector, to a saved and released version of it. */
  ghost predicate GoodEdge(data: Dataset, source: Resource, r: Relation) {
    exists target :: OnlyResource(data, r.target, target)
      && target.kind == r.targetKind && !target.embedded && KindFits(source.kind, target.kind, r.kind)
      && (if target.kind == Connector then r.pin.None?
          else r.pin.Some? && Strings.Trim(r.pin.value) != ""
               && VersionClear(data, r.pin.value) && SavedBy(data, r.pin.value, r.target) && ReleasedBy(data, r.pin.value, r.target))
  }

  ghost predicate GoodSource(data: Dataset, s: Snapshot, source: Resource) {
    && s.pluginId != "" && s.versionId != "" && OnlyResource(data, s.pluginId, source)
    && VersionClear(data, s.versionId) && !source.embedded && source.kind != OtherKind
  }

  ghost predicate GoodRelations(data: Dataset, s: Snapshot, source: Resource, rels: seq<Relation>) {
    && (forall i :: 0 <= i < |rels| ==> WellFormed(s, source, rels[i]) && (Active(rels[i]) ==> GoodEdge(data, source, rels[i])))
    && (forall i, j :: 0 <= i < j < |rels| ==> rels[i].id != rels[j].id)
  }

  ghost predicate Complete(data: Dataset, s: Snapshot) {
    s.relations.Some? && exists source :: GoodSource(data, s, source) && GoodRelations(data, s, source, s.relations.value)
  }

  function EdgeOf(r: Relation): Edge {
    Edge(r.id, r.kind, r.target, r.pin)
  }

  function ActiveEdges(rels: seq<Relation>): seq<Edge> {
    if rels == [] then []
    else
      var n := |rels| - 1;
      ActiveEdges(rels[..n]) + if Active(rels[n]) then [EdgeOf(rels[n])] else []
  }

  /** The edges are the active relations, no more and no less. */
  lemma {:induction false} ActiveEdgesMeaning(rels: seq<Relation>, e: Edge)
    ensures e in ActiveEdges(rels) <==> exists i :: 0 <= i < |rels| && Active(rels[i]) && EdgeOf(rels[i]) == e
  {
    if rels != [] {
      var n := |rels| - 1;
      ActiveEdgesMeaning(rels[..n], e);
      if i :| 0 <= i < n && Active(rels[..n][i]) && EdgeOf(rels[..n][i]) == e {
        assert Active(rels[i]) && EdgeOf(rels[i]) == e;
      }
      if i :| 0 <= i < |rels| && Active(rels[i]) && EdgeOf(rels[i]) == e {
        assert i < n ==> rels[..n][i] == rels[i];
      }
    }
  }

  ghost predicate DistinctEdges(edges: seq<Edge>) {
    forall i, j :: 0 <= i < j < |edges| ==> edges[i].relationId != edges[j].relationId
  }

  lemma {:induction false} ActiveEdgesDistinct(rels: seq<Relation>)
    requires forall i, j :: 0 <= i < j < |rels| ==> rels[i].id != rels[j].id
    ensures DistinctEdges(ActiveEdges(rels))
  {
    if rels != [] {
      var n := |rels| - 1;
      ActiveEdgesDistinct(rels[..n]);
      var front := ActiveEdges(rels[..n]);
      forall k | 0 <= k < |front|
        ensures front[k].relationId != rels[n].id
      {
        ActiveEdgesMeaning(rels[..n], front[k]);
        var i :| 0 <= i < n && Active(rels[..n][i]) && EdgeOf(rels[..n][i]) == front[k];
        assert rels[..n][i] == rels[i];
      }
    }
  }

  // -------------------------------------------------------------- the indexes

  datatype Index = Index(resources: map<string, Resource>, twice: set<string>, versions: map<string, string>, unclear: set<string>, releases: map<string, string>)

  ghost predicate ResourcesIndexed(rs: seq<Resource>, resources: map<string, Resource>, twice: set<string>) {
    && (forall k :: 0 <= k < |rs| ==> rs[k].id in resources)
    && (forall id :: id in resources ==> exists k :: 0 <= k < |rs| && rs[k] == resources[id] && rs[k].id == id)
    && (forall id :: id in twice <==> TwoResources(rs, id))
  }

  ghost predicate TwoResources(rs: seq<Resource>, id: string) {
    exists i, j :: 0 <= i < j < |rs| && rs[i].id == id && rs[j].id == id
  }

  lemma TwoResourcesStep(rs: seq<Resource>, r: Resource, id: string)
    ensures TwoResources(rs + [r], id) <==> TwoResources(rs, id) || (id == r.id && exists k :: 0 <= k < |rs| && rs[k].id == id)
  {
    var all := rs + [r];
    assert all[|rs|] == r && forall k :: 0 <= k < |rs| ==> all[k] == rs[k];
    if TwoResources(rs, id) {
      var i, j :| 0 <= i < j < |rs| && rs[i].id == id && rs[j].id == id;
      assert all[i].id == id && all[j].id == id;
    } else if k :| id == r.id && 0 <= k < |rs| && rs[k].id == id {
      assert all[k].id == id && all[|rs|].id == id;
    }
  }

  lemma ResourceStep(rs: seq<Resource>, resources: map<string, Resource>, twice: set<string>, r: Resource)
    requires ResourcesIndexed(rs, resources, twice)
    ensures ResourcesIndexed(rs + [r], resources[r.id := r], if r.id in resources then twice + {r.id} else twice)
  {
    hide TwoResources;
    var all := rs + [r];
    assert all[|rs|] == r && forall k :: 0 <= k < |rs| ==> all[k] == rs[k];
    var after := resources[r.id := r];
    forall id | id in after
      ensures exists k :: 0 <= k < |all| && all[k] == after[id] && all[k].id == id
    {
      if id == r.id {
        assert all[|rs|] == after[id];
      } else {
        var k :| 0 <= k < |rs| && rs[k] == resources[id] && rs[k].id == id;
        assert all[k] == after[id];
      }
    }
    forall id
      ensures TwoResources(all, id) <==> TwoResources(rs, id) || (id == r.id && id in resources)
    {
      TwoResourcesStep(rs, r, id);
    }
  }

  method IndexResources(rs: seq<Resource>) returns (resources: map<string, Resource>, twice: set<string>)
    ensures ResourcesIndexed(rs, resources, twice)
  {
    resources, twice := map[], {};
    for n := 0 to |rs|
      invariant ResourcesIndexed(rs[..n], resources, twice)
    {
      hide ResourcesIndexed;
      assert rs[..n + 1] == rs[..n] + [rs[n]];
      ResourceStep(rs[..n], resources, twice, rs[n]);
      if rs[n].id in resources {
        twice := twice + {rs[n].id};
      }
      resources := resources[rs[n].id := rs[n]];
    }
    assert rs[..|rs|] == rs;
  }

  ghost predicate SnapshotsIndexed(ss: seq<Snapshot>, versions: map<string, string>, twice: set<string>) {
    && (forall k :: 0 <= k < |ss| ==> ss[k].versionId in versions)
    && (forall v :: v in versions ==> exists k :: 0 <= k < |ss| && ss[k].versionId == v && ss[k].pluginId == versions[v])
    && (forall v :: v in twice <==> TwoSnapshots(ss, v))
  }

  ghost predicate TwoSnapshots(ss: seq<Snapshot>, v: string) {
    exists i, j :: 0 <= i < j < |ss| && ss[i].versionId == v && ss[j].versionId == v
  }

  lemma TwoSnapshotsStep(ss: seq<Snapshot>, s: Snapshot, v: string)
    ensures TwoSnapshots(ss + [s], v) <==> TwoSnapshots(ss, v) || (v == s.versionId && exists k :: 0 <= k < |ss| && ss[k].versionId == v)
  {
    var all := ss + [s];
    assert all[|ss|] == s && forall k :: 0 <= k < |ss| ==> all[k] == ss[k];
    if TwoSnapshots(ss, v) {
      var i, j :| 0 <= i < j < |ss| && ss[i].versionId == v && ss[j].versionId == v;
      assert all[i].versionId == v && all[j].versionId == v;
    } else if k :| v == s.versionId && 0 <= k < |ss| && ss[k].versionId == v {
      assert all[k].versionId == v && all[|ss|].versionId == v;
    }
  }

  lemma SnapshotStep(ss: seq<Snapshot>, versions: map<string, string>, twice: set<string>, s: Snapshot)
    requires SnapshotsIndexed(ss, versions, twice)
    ensures SnapshotsIndexed(ss + [s], versions[s.versionId := s.pluginId], if s.versionId in versions then twice + {s.versionId} else twice)
  {
    hide TwoSnapshots;
    var all := ss + [s];
    assert all[|ss|] == s && forall k :: 0 <= k < |ss| ==> all[k] == ss[k];
    var after := versions[s.versionId := s.pluginId];
    forall v | v in after
      ensures exists k :: 0 <= k < |all| && all[k].versionId == v && all[k].pluginId == after[v]
    {
      if v == s.versionId {
        assert all[|ss|].versionId == v;
      } else {
        var k :| 0 <= k < |ss| && ss[k].versionId == v && ss[k].pluginId == versions[v];
        assert all[k].versionId == v;
      }
    }
    forall v
      ensures TwoSnapshots(all, v) <==> TwoSnapshots(ss, v) || (v == s.versionId && v in versions)
    {
      TwoSnapshotsStep(ss, s, v);
    }
  }

  method IndexSnapshots(ss: seq<Snapshot>) returns (versions: map<string, string>, twice: set<string>)
    ensures SnapshotsIndexed(ss, versions, twice)
  {
    versions, twice := map[], {};
    for n := 0 to |ss|
      invariant SnapshotsIndexed(ss[..n], versions, twice)
    {
      hide SnapshotsIndexed;
      assert ss[..n + 1] == ss[..n] + [ss[n]];
      SnapshotStep(ss[..n], versions, twice, ss[n]);
      if ss[n].versionId in versions {
        twice := twice + {ss[n].versionId};
      }
      versions := versions[ss[n].versionId := ss[n].pluginId];
    }
    assert ss[..|ss|] == ss;
  }

  ghost predicate Contested(rs: seq<Release>, v: string) {
    exists i, j :: 0 <= i < |rs| && 0 <= j < |rs| && rs[i].versionId == v && rs[j].versionId == v && rs[i].pluginId != rs[j].pluginId
  }

  /** A version is unclear when it already was or when its releases disagree. */
  ghost predicate ReleasesIndexed(rs: seq<Release>, releases: map<string, string>, before: set<string>, unclear: set<string>) {
    && (forall k :: 0 <= k < |rs| ==> rs[k].versionId in releases)
    && (forall v :: v in releases ==> exists k :: 0 <= k < |rs| && rs[k].versionId == v && rs[k].pluginId == releases[v])
    && (forall v :: v in unclear <==> v in before || Contested(rs, v))
  }

  lemma ContestedStep(rs: seq<Release>, r: Release, owner: string, v: string)
    requires exists k :: 0 <= k < |rs| && rs[k] == Release(owner, r.versionId)
    ensures Contested(rs + [r], v) <==> Contested(rs, v) || (v == r.versionId && owner != r.pluginId)
  {
    var all := rs + [r];
    assert all[|rs|] == r && forall k :: 0 <= k < |rs| ==> all[k] == rs[k];
    var k :| 0 <= k < |rs| && rs[k] == Release(owner, r.versionId);
    if Contested(rs, v) {
      var i, j :| 0 <= i < |rs| && 0 <= j < |rs| && rs[i].versionId == v && rs[j].versionId == v && rs[i].pluginId != rs[j].pluginId;
      assert all[i].versionId == v && all[j].versionId == v;
    } else if v == r.versionId && owner != r.pluginId {
      assert all[k].versionId == v && all[|rs|].versionId == v;
    }
  }

  lemma ContestedFirst(rs: seq<Release>, r: Release, v: string)
    requires forall k :: 0 <= k < |rs| ==> rs[k].versionId != r.versionId
    ensures Contested(rs + [r], v) <==> Contested(rs, v)
  {
    var all := rs + [r];
    assert all[|rs|] == r && forall k :: 0 <= k < |rs| ==> all[k] == rs[k];
    if Contested(rs, v) {
      var i, j :| 0 <= i < |rs| && 0 <= j < |rs| && rs[i].versionId == v && rs[j].versionId == v && rs[i].pluginId != rs[j].pluginId;
      assert all[i].versionId == v && all[j].versionId == v;
    }
  }

  lemma ReleaseStep(rs: seq<Release>, releases: map<string, string>, before: set<string>, unclear: set<string>, r: Release)
    requires ReleasesIndexed(rs, releases, before, unclear)
    ensures ReleasesIndexed(rs + [r], releases[r.versionId := r.pluginId], before,
                            if r.versionId in releases && releases[r.versionId] != r.pluginId then unclear + {r.versionId} else unclear)
  {
    hide Contested;
    var all := rs + [r];
    assert all[|rs|] == r && forall k :: 0 <= k < |rs| ==> all[k] == rs[k];
    var after := releases[r.versionId := r.pluginId];
    forall v | v in after
      ensures exists k :: 0 <= k < |all| && all[k].versionId == v && all[k].pluginId == after[v]
    {
      if v == r.versionId {
        assert all[|rs|].versionId == v;
      } else {
        var k :| 0 <= k < |rs| && rs[k].versionId == v && rs[k].pluginId == releases[v];
        assert all[k].versionId == v;
      }
    }
    forall v
      ensures Contested(all, v) <==> Contested(rs, v) || (v == r.versionId && v in releases && releases[v] != r.pluginId)
    {
      if r.versionId in releases {
        var k :| 0 <= k < |rs| && rs[k].versionId == r.versionId && rs[k].pluginId == releases[r.versionId];
        assert rs[k] == Release(releases[r.versionId], r.versionId);
        ContestedStep(rs, r, releases[r.versionId], v);
      } else {
        ContestedFirst(rs, r, v);
      }
    }
  }

  method IndexReleases(rs: seq<Release>, before: set<string>) returns (releases: map<string, string>, unclear: set<string>)
    ensures ReleasesIndexed(rs, releases, before, unclear)
  {
    releases, unclear := map[], before;
    for n := 0 to |rs|
      invariant ReleasesIndexed(rs[..n], releases, before, unclear)
    {
      hide ReleasesIndexed;
      assert rs[..n + 1] == rs[..n] + [rs[n]];
      ReleaseStep(rs[..n], releases, before, unclear, rs[n]);
      if rs[n].versionId in releases && releases[rs[n].versionId] != rs[n].pluginId {
        unclear := unclear + {rs[n].versionId};
      }
      releases := releases[rs[n].versionId := rs[n].pluginId];
    }
    assert rs[..|rs|] == rs;
  }

  ghost predicate Indexed(data: Dataset, ix: Index) {
    && ResourcesIndexed(data.resources, ix.resources, ix.twice)
    && exists twice :: SnapshotsIndexed(data.snapshots, ix.versions, twice) && ReleasesIndexed(data.releases, ix.releases, twice, ix.unclear)
  }

  method BuildIndex(data: Dataset) returns (ix: Index)
    ensures Indexed(data, ix)
  {
    hide ResourcesIndexed, SnapshotsIndexed, ReleasesIndexed;
    var resources, twice := IndexResources(data.resources);
    var versions, again := IndexSnapshots(data.snapshots);
    var releases, unclear := IndexReleases(data.releases, again);
    ix := Index(resources, twice, versions, unclear, releases);
  }

  // ------------------------------------------------- what the lookups amount to

  lemma ResourceLookup(data: Dataset, ix: Index, id: string)
    requires ResourcesIndexed(data.resources, ix.resources, ix.twice)
    ensures id in ix.resources && id !in ix.twice ==> OnlyResource(data, id, ix.resources[id])
    ensures forall r :: OnlyResource(data, id, r) ==> id in ix.resources && id !in ix.twice && ix.resources[id] == r
  {
    if id in ix.resources && id !in ix.twice {
      var k :| 0 <= k < |data.resources| && data.resources[k] == ix.resources[id] && data.resources[k].id == id;
      forall j | 0 <= j < |data.resources| && data.resources[j].id == id
        ensures j == k
      {
      }
    }
  }

  lemma VersionLookup(data: Dataset, ix: Index, v: string)
    requires Indexed(data, ix)
    ensures v !in ix.unclear <==> VersionClear(data, v)
    ensures v !in ix.unclear ==> forall owner :: SavedBy(data, v, owner) <==> v in ix.versions && ix.versions[v] == owner
    ensures v !in ix.unclear ==> forall owner :: ReleasedBy(data, v, owner) <==> v in ix.releases && ix.releases[v] == owner
  {
    hide ResourcesIndexed;
    var twice :| SnapshotsIndexed(data.snapshots, ix.versions, twice) && ReleasesIndexed(data.releases, ix.releases, twice, ix.unclear);
    if v in twice {
      var i, j :| 0 <= i < j < |data.snapshots| && data.snapshots[i].versionId == v && data.snapshots[j].versionId == v;
      assert !VersionClear(data, v);
    }
    if Contested(data.releases, v) {
      assert !VersionClear(data, v);
    }
    if v !in twice && !Contested(data.releases, v) {
      OneSnapshot(data, ix, twice, v);
    }
  }

  lemma OneSnapshot(data: Dataset, ix: Index, twice: set<string>, v: string)
    requires SnapshotsIndexed(data.snapshots, ix.versions, twice) && ReleasesIndexed(data.releases, ix.releases, twice, ix.unclear)
    requires v !in twice && !Contested(data.releases, v)
    ensures VersionClear(data, v)
    ensures forall owner :: SavedBy(data, v, owner) <==> v in ix.versions && ix.versions[v] == owner
    ensures forall owner :: ReleasedBy(data, v, owner) <==> v in ix.releases && ix.releases[v] == owner
  {
    forall i, j | 0 <= i < |data.snapshots| && 0 <= j < |data.snapshots| && data.snapshots[i].versionId == v && data.snapshots[j].versionId == v
      ensures i == j
    {
    }
  }

  // ------------------------------------------------------------------ building

  /** The tests on an active relation, lines 123-152. */
  predicate EdgeFits(ix: Index, source: Resource, r: Relation) {
    && r.target in ix.resources && r.target !in ix.twice
    && var target := ix.resources[r.target];
    && target.kind == r.targetKind && !target.embedded && KindFits(source.kind, target.kind, r.kind)
    && if target.kind == Connector then r.pin.None?
       else
         && r.pin.Some? && Strings.Trim(r.pin.value) != "" && r.pin.value !in ix.unclear
         && r.pin.value in ix.versions && ix.versions[r.pin.value] == target.id
         && r.pin.value in ix.releases && ix.releases[r.pin.value] == target.id
  }

  lemma EdgeFitsMeans(data: Dataset, ix: Index, source: Resource, r: Relation)
    requires Indexed(data, ix)
    ensures EdgeFits(ix, source, r) <==> GoodEdge(data, source, r)
  {
    hide Indexed, OnlyResource, VersionClear, SavedBy, ReleasedBy, Strings.Trim, KindFits;
    IndexedResources(data, ix);
    ResourceLookup(data, ix, r.target);
    if r.pin.Some? {
      VersionLookup(data, ix, r.pin.value);
    }
    if r.target in ix.resources && r.target !in ix.twice {
      OnlyHasId(data, r.target, ix.resources[r.target]);
    }
  }

  lemma IndexedResources(data: Dataset, ix: Index)
    requires Indexed(data, ix)
    ensures ResourcesIndexed(data.resources, ix.resources, ix.twice)
  {
  }

  lemma OnlyHasId(data: Dataset, id: string, r: Resource)
    requires OnlyResource(data, id, r)
    ensures r.id == id
  {
  }

  predicate SourceFits(ix: Index, s: Snapshot, source: Resource) {
    && s.pluginId in ix.resources && s.pluginId != "" && s.versionId != "" && s.pluginId !in ix.twice && s.versionId !in ix.unclear
    && !source.embedded && source.kind != OtherKind
  }

  /** The source the plan works with; an unknown plugin gives the zero resource. */
  function SourceOf(ix: Index, s: Snapshot): Resource {
    if s.pluginId in ix.resources then ix.resources[s.pluginId] else Resource("", OtherKind, false)
  }

  lemma SourceFitsMeans(data: Dataset, ix: Index, s: Snapshot)
    requires Indexed(data, ix)
    ensures SourceFits(ix, s, SourceOf(ix, s)) <==> GoodSource(data, s, SourceOf(ix, s))
    ensures forall source :: GoodSource(data, s, source) ==> source == SourceOf(ix, s)
  {
    hide Indexed, OnlyResource, VersionClear, SavedBy, ReleasedBy;
    IndexedResources(data, ix);
    ResourceLookup(data, ix, s.pluginId);
    VersionLookup(data, ix, s.versionId);
  }

  ghost predicate IdsAre(seen: set<string>, rels: seq<Relation>) {
    forall id :: id in seen <==> exists i :: 0 <= i < |rels| && rels[i].id == id
  }

  lemma IdsStep(seen: set<string>, rels: seq<Relation>, r: Relation)
    requires IdsAre(seen, rels)
    ensures IdsAre(seen + {r.id}, rels + [r])
  {
    var all := rels + [r];
    assert all[|rels|] == r && forall i :: 0 <= i < |rels| ==> all[i] == rels[i];
    forall id
      ensures id in seen + {r.id} <==> exists i :: 0 <= i < |all| && all[i].id == id
    {
      if id in seen {
        var i :| 0 <= i < |rels| && rels[i].id == id;
        assert all[i].id == id;
      } else if id == r.id {
        assert all[|rels|].id == id;
      }
    }
  }

  lemma RelationsStep(data: Dataset, s: Snapshot, source: Resource, rels: seq<Relation>, n: nat, seen: set<string>)
    requires n < |rels| && GoodRelations(data, s, source, rels[..n]) && IdsAre(seen, rels[..n])
    ensures GoodRelations(data, s, source, rels[..n + 1]) <==>
              && WellFormed(s, source, rels[n]) && rels[n].id !in seen
              && (Active(rels[n]) ==> GoodEdge(data, source, rels[n]))
    ensures GoodRelations(data, s, source, rels) ==> GoodRelations(data, s, source, rels[..n + 1])
    ensures ActiveEdges(rels[..n + 1]) == ActiveEdges(rels[..n]) + if Active(rels[n]) then [EdgeOf(rels[n])] else []
    ensures IdsAre(seen + {rels[n].id}, rels[..n + 1])
  {
    hide GoodEdge, WellFormed, Active;
    var before, after := rels[..n], rels[..n + 1];
    assert after == before + [rels[n]] && after[..n] == before;
    IdsStep(seen, before, rels[n]);
    assert after[n] == rels[n] && forall i :: 0 <= i < n ==> after[i] == before[i];
    if rels[n].id in seen {
      var i :| 0 <= i < n && before[i].id == rels[n].id;
      assert after[i].id == after[n].id;
    }
  }

  /** One snapshot's plan, lines 87-165. */
  method BuildPlan(data: Dataset, ix: Index, s: Snapshot) returns (p: Plan)
    requires Indexed(data, ix)
    ensures p.pluginId == s.pluginId && p.versionId == s.versionId && p.digest == s.digest
    ensures p.complete <==> Complete(data, s)
    ensures p.edges == if p.complete then ActiveEdges(s.relations.value) else []
  {
    hide Indexed, GoodRelations, GoodSource, WellFormed, GoodEdge, EdgeFits, Active, IdsAre, SourceFits, ActiveEdges;
    var source := SourceOf(ix, s);
    SourceFitsMeans(data, ix, s);
    var complete := SourceFits(ix, s, source) && s.relations.Some?;
    var edges: seq<Edge> := [];
    if s.relations.Some? {
      var rels := s.relations.value;
      var seen: set<string> := {};
      NoRelations(data, s, source, rels);
      for n := 0 to |rels|
        invariant complete ==>
                    && SourceFits(ix, s, source) && GoodRelations(data, s, source, rels[..n])
                    && IdsAre(seen, rels[..n]) && edges == ActiveEdges(rels[..n])
        invariant !complete ==> !(SourceFits(ix, s, source) && GoodRelations(data, s, source, rels))
      {
        var r := rels[n];
        if complete {
          RelationsStep(data, s, source, rels, n, seen);
        }
        EdgeFitsMeans(data, ix, source, r);
        if !WellFormed(s, source, r) || r.id in seen {
          complete := false;
          continue;
        }
        seen := seen + {r.id};
        if !Active(r) {
          continue;
        }
        if !EdgeFits(ix, source, r) {
          complete := false;
          continue;
        }
        edges := edges + [EdgeOf(r)];
      }
      assert rels[..|rels|] == rels;
    }
    if !complete {
      edges := [];
    }
    p := Plan(s.pluginId, s.versionId, s.digest, complete, edges);
  }

  lemma NoRelations(data: Dataset, s: Snapshot, source: Resource, rels: seq<Relation>)
    ensures GoodRelations(data, s, source, rels[..0]) && IdsAre({}, rels[..0]) && ActiveEdges(rels[..0]) == []
  {
  }

  /** What each plan is, in snapshot order. */
  ghost predicate PlanFor(data: Dataset, s: Snapshot, p: Plan) {
    && p.pluginId == s.pluginId && p.versionId == s.versionId && p.digest == s.digest
    && (p.complete <==> Complete(data, s))
    && p.edges == if p.complete then ActiveEdges(s.relations.value) else []
  }

  /** internal/backfill/referenceindex/plan.go:59-174 */
  method Build(data: Dataset) returns (plans: seq<Plan>)
    ensures |plans| == |data.snapshots|
    ensures forall k :: 0 <= k < |plans| ==> PlanFor(data, data.snapshots[k], plans[k])
  {
    hide Complete, Indexed, ActiveEdges;
    var ix := BuildIndex(data);
    plans := [];
    for n := 0 to |data.snapshots|
      invariant |plans| == n
      invariant forall k :: 0 <= k < n ==> PlanFor(data, data.snapshots[k], plans[k])
    {
      var p := BuildPlan(data, ix, data.snapshots[n]);
      plans := plans + [p];
    }
  }

  /** A complete snapshot's version has no second snapshot. */
  lemma CompleteIsAlone(data: Dataset, k: nat, j: nat)
    requires k < |data.snapshots| && j < |data.snapshots| && data.snapshots[k].versionId == data.snapshots[j].versionId
    requires Complete(data, data.snapshots[k])
    ensures j == k
  {
    hide GoodRelations;
    var source :| GoodSource(data, data.snapshots[k], source) && GoodRelations(data, data.snapshots[k], source, data.snapshots[k].relations.value);
    assert VersionClear(data, data.snapshots[k].versionId);
  }
}
