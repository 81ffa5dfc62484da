/** Writing the reference index one version at a time, internal/backfill/referenceindex/store.go:107-191. */
module ReferenceStore {
  import opened ReferencePlan

  datatype Ref = Ref(owner: string, edge: Edge)

  datatype Marker = Marker(owner: string, count: nat, digest: string)

  /** The index rows by (source version, relation), and the coverage marker of each version. */
  type Refs = map<(string, string), Ref>

  type Markers = map<string, Marker>

  datatype Result = Inserted(count: nat) | Conflict | Limit

  // ------------------------------------------------------------ specification

  /** The edges by relation id. */
  function ByRelation(edges: seq<Edge>): map<string, Edge> {
    if edges == [] then map[] else ByRelation(edges[..|edges| - 1])[edges[|edges| - 1].relationId := edges[|edges| - 1]]
  }

  lemma {:induction false} ByRelationMeaning(edges: seq<Edge>, id: string)
    requires DistinctEdges(edges)
    ensures id in ByRelation(edges) <==> exists k :: 0 <= k < |edges| && edges[k].relationId == id
    ensures forall k :: 0 <= k < |edges| && edges[k].relationId == id ==> ByRelation(edges)[id] == edges[k]
  {
    if edges != [] {
      var n := |edges| - 1;
      ByRelationMeaning(edges[..n], id);
      if k :| 0 <= k < n && edges[..n][k].relationId == id {
        assert edges[k].relationId == id;
      }
      forall k | 0 <= k < |edges| && edges[k].relationId == id
        ensures id in ByRelation(edges) && ByRelation(edges)[id] == edges[k]
      {
        if k < n {
          assert edges[..n][k].relationId == id;
        }
      }
    }
  }

  /** The rows a snapshot stands for. */
  function Planned(s: Snapshot): Refs
    requires s.relations.Some?
  {
    var edges := ByRelation(ActiveEdges(s.relations.value));
    map id | id in edges :: (s.versionId, id) := Ref(s.pluginId, edges[id])
  }

  function MarkerOf(s: Snapshot): Marker
    requires s.relations.Some?
  {
    Marker(s.pluginId, |ActiveEdges(s.relations.value)|, s.digest)
  }

  /** The version's one complete snapshot, under the digest that was previewed. */
  ghost predicate Selected(data: Dataset, version: string, digest: string, s: Snapshot) {
    s in data.snapshots && s.versionId == version && s.digest == digest && Complete(data, s)
  }

  /** What the store already holds for the version agrees with the snapshot. */
  ghost predicate Compatible(refs: Refs, markers: Markers, s: Snapshot)
    requires s.relations.Some?
  {
    && (forall key :: key in refs && key.0 == s.versionId ==> key in Planned(s) && Planned(s)[key] == refs[key])
    && (s.versionId in markers ==> markers[s.versionId] == MarkerOf(s))
  }

  predicate WithinLimit(data: Dataset, limit: int) {
    1 <= limit <= 10000 && |data.resources| <= limit && |data.snapshots| <= limit && |data.releases| <= limit
  }

  function Missing(refs: Refs, s: Snapshot): set<(string, string)>
    requires s.relations.Some?
  {
    Planned(s).Keys - refs.Keys
  }

  // ------------------------------------------------------------------ theorems

  /** The rows of the version are exactly its active relations. */
  ghost predicate Covers(refs: Refs, s: Snapshot)
    requires s.relations.Some?
  {
    && (forall i :: 0 <= i < |s.relations.value| && Active(s.relations.value[i]) ==>
          (s.versionId, s.relations.value[i].id) in refs
          && refs[(s.versionId, s.relations.value[i].id)] == Ref(s.pluginId, EdgeOf(s.relations.value[i])))
    && (forall key :: key in refs && key.0 == s.versionId ==>
          exists i :: 0 <= i < |s.relations.value| && Active(s.relations.value[i]) && s.relations.value[i].id == key.1)
  }

  lemma CompleteEdges(data: Dataset, s: Snapshot)
    requires Complete(data, s)
    ensures DistinctEdges(ActiveEdges(s.relations.value))
  {
    var source :| GoodSource(data, s, source) && GoodRelations(data, s, source, s.relations.value);
    ActiveEdgesDistinct(s.relations.value);
  }

  /** After a successful run the version's rows are its active relations, no more and no less. */
  lemma AppliedCovers(data: Dataset, refs: Refs, markers: Markers, s: Snapshot)
    requires Complete(data, s) && Compatible(refs, markers, s)
    ensures Covers(refs + Planned(s), s)
  {
    hide GoodSource, GoodRelations, ActiveEdges, Active, ByRelation;
    var rels, edges := s.relations.value, ActiveEdges(s.relations.value);
    CompleteEdges(data, s);
    var after := refs + Planned(s);
    forall i | 0 <= i < |rels| && Active(rels[i])
      ensures (s.versionId, rels[i].id) in after && after[(s.versionId, rels[i].id)] == Ref(s.pluginId, EdgeOf(rels[i]))
    {
      ActiveEdgesMeaning(rels, EdgeOf(rels[i]));
      var k :| 0 <= k < |edges| && edges[k] == EdgeOf(rels[i]);
      ByRelationMeaning(edges, rels[i].id);
    }
    forall key | key in after && key.0 == s.versionId
      ensures exists i :: 0 <= i < |rels| && Active(rels[i]) && rels[i].id == key.1
    {
      assert key in Planned(s);
      ByRelationMeaning(edges, key.1);
      var k :| 0 <= k < |edges| && edges[k].relationId == key.1;
      ActiveEdgesMeaning(rels, edges[k]);
    }
  }

  lemma {:induction false} ByRelationSize(edges: seq<Edge>)
    requires DistinctEdges(edges)
    ensures |ByRelation(edges)| == |edges|
  {
    if edges != [] {
      var n := |edges| - 1;
      ByRelationSize(edges[..n]);
      ByRelationMeaning(edges[..n], edges[n].relationId);
    }
  }

  /** The relations the index holds for a version. */
  function RelationIds(refs: Refs, version: string): set<string> {
    set key | key in refs && key.0 == version :: key.1
  }

  /** The marker's count is the number of rows the version then has. */
  lemma MarkerCountsRows(data: Dataset, refs: Refs, markers: Markers, s: Snapshot)
    requires Complete(data, s) && Compatible(refs, markers, s)
    ensures MarkerOf(s).count == |RelationIds(refs + Planned(s), s.versionId)|
  {
    hide GoodSource, GoodRelations, ActiveEdges, ByRelation;
    var edges := ActiveEdges(s.relations.value);
    var after := refs + Planned(s);
    CompleteEdges(data, s);
    ByRelationSize(edges);
    forall id
      ensures id in RelationIds(after, s.versionId) <==> id in ByRelation(edges)
    {
      if id in ByRelation(edges) {
        assert (s.versionId, id) in after;
      }
    }
    assert RelationIds(after, s.versionId) == ByRelation(edges).Keys;
  }

  /** A second run finds everything in place: it is admitted, adds nothing and changes nothing. */
  lemma RerunChangesNothing(refs: Refs, markers: Markers, s: Snapshot)
    requires s.relations.Some? && Compatible(refs, markers, s)
    ensures var refs', markers' := refs + Planned(s), markers[s.versionId := MarkerOf(s)];
            && Compatible(refs', markers', s)
            && Missing(refs', s) == {}
            && refs' + Planned(s) == refs' && markers'[s.versionId := MarkerOf(s)] == markers'
  {
    hide Planned, MarkerOf;
    assert refs + Planned(s) + Planned(s) == refs + Planned(s);
  }

  // ---------------------------------------------------------------- the method

  class Store {
    var refs: Refs
    var markers: Markers

    constructor ()
      ensures refs == map[] && markers == map[]
    {
      refs, markers := map[], map[];
    }

    /** The transaction works on copies and replaces the tables when it commits. */
    method ApplyVersion(data: Dataset, limit: int, version: string, digest: string) returns (r: Result)
      modifies this
      ensures r.Inserted? <==> version != "" && |digest| == 64 && WithinLimit(data, limit)
                               && exists s :: Selected(data, version, digest, s) && Compatible(old(refs), old(markers), s)
      ensures !r.Inserted? ==> refs == old(refs) && markers == old(markers)
      ensures r.Limit? <==> version != "" && |digest| == 64 && !WithinLimit(data, limit)
      ensures r.Inserted? ==> forall s :: Selected(data, version, digest, s) ==>
                refs == old(refs) + Planned(s) && markers == old(markers)[version := MarkerOf(s)] && r.count == |Missing(old(refs), s)|
    {
      hide *;
      if version == "" || |digest| != 64 {
        return Conflict;
      }
      if !WithinLimit(data, limit) {
        return Limit;
      }
      var found, p := Select(data, version);
      if !found || !p.complete || p.digest != digest {
        forall s
          ensures !Selected(data, version, digest, s)
        {
          NotSelected(data, version, digest, found, p, s);
        }
        return Conflict;
      }
      ghost var s := Chosen(data, version, digest, p);
      ChosenParts(data, version, digest, p, s);
      forall t | Selected(data, version, digest, t)
        ensures t == s
      {
        SelectedOnce(data, version, digest, s, t);
      }
      var agrees, wanted := CompareRows(refs, p.pluginId, version, p.edges);
      CompareMeans(refs, markers, s, p.edges, wanted, agrees);
      if !agrees {
        return Conflict;
      }
      var refs', inserted := InsertRows(refs, p.pluginId, version, p.edges, wanted);
      InsertMeans(refs, s, p.edges, wanted);
      if version in markers {
        if markers[version] != Marker(p.pluginId, |p.edges|, p.digest) {
          return Conflict;
        }
      }
      ghost var marked := markers[version := MarkerOf(s)];
      MarkerKept(markers, version, MarkerOf(s));
      if version !in markers {
        markers := markers[version := Marker(p.pluginId, |p.edges|, p.digest)];
      }
      assert markers == marked;
      refs := refs';
      r := Inserted(inserted);
    }
  }

  lemma MarkerKept(markers: Markers, version: string, m: Marker)
    ensures version in markers && markers[version] == m ==> markers[version := m] == markers
  {
  }

  /** The last plan of the version, as the loop at lines 121-126 leaves it. */
  method Select(data: Dataset, version: string) returns (found: bool, p: Plan)
    ensures found <==> exists k :: 0 <= k < |data.snapshots| && data.snapshots[k].versionId == version
    ensures found ==> exists k :: 0 <= k < |data.snapshots| && data.snapshots[k].versionId == version && PlanFor(data, data.snapshots[k], p)
  {
    hide Complete, ActiveEdges;
    var plans := Build(data);
    found, p := false, Plan("", "", "", false, []);
    for n := 0 to |plans|
      invariant found <==> exists k :: 0 <= k < n && data.snapshots[k].versionId == version
      invariant found ==> exists k :: 0 <= k < n && data.snapshots[k].versionId == version && PlanFor(data, data.snapshots[k], p)
    {
      assert PlanFor(data, data.snapshots[n], plans[n]);
      if plans[n].versionId == version {
        found, p := true, plans[n];
      }
    }
  }

  lemma NotSelected(data: Dataset, version: string, digest: string, found: bool, p: Plan, s: Snapshot)
    requires found <==> exists k :: 0 <= k < |data.snapshots| && data.snapshots[k].versionId == version
    requires found ==> exists k :: 0 <= k < |data.snapshots| && data.snapshots[k].versionId == version && PlanFor(data, data.snapshots[k], p)
    requires !found || !p.complete || p.digest != digest
    ensures !Selected(data, version, digest, s)
  {
    hide Complete, ActiveEdges;
    if Selected(data, version, digest, s) {
      var j :| 0 <= j < |data.snapshots| && data.snapshots[j] == s;
      var k :| 0 <= k < |data.snapshots| && data.snapshots[k].versionId == version && PlanFor(data, data.snapshots[k], p);
      CompleteIsAlone(data, j, k);
    }
  }

  ghost function Chosen(data: Dataset, version: string, digest: string, p: Plan): (s: Snapshot)
    requires exists k :: 0 <= k < |data.snapshots| && data.snapshots[k].versionId == version && PlanFor(data, data.snapshots[k], p)
    ensures s in data.snapshots && s.versionId == version && PlanFor(data, s, p)
  {
    var k :| 0 <= k < |data.snapshots| && data.snapshots[k].versionId == version && PlanFor(data, data.snapshots[k], p);
    data.snapshots[k]
  }

  lemma ChosenParts(data: Dataset, version: string, digest: string, p: Plan, s: Snapshot)
    requires s in data.snapshots && s.versionId == version && PlanFor(data, s, p) && p.complete && p.digest == digest
    ensures Selected(data, version, digest, s) && s.relations.Some?
    ensures p.edges == ActiveEdges(s.relations.value) && DistinctEdges(p.edges)
    ensures MarkerOf(s) == Marker(p.pluginId, |p.edges|, p.digest) && s.pluginId == p.pluginId && s.versionId == version
  {
    hide ActiveEdges, DistinctEdges;
    CompleteEdges(data, s);
  }

  lemma SelectedOnce(data: Dataset, version: string, digest: string, s: Snapshot, t: Snapshot)
    requires Selected(data, version, digest, s) && Selected(data, version, digest, t)
    ensures s == t
  {
    hide Complete;
    var i :| 0 <= i < |data.snapshots| && data.snapshots[i] == s;
    var j :| 0 <= j < |data.snapshots| && data.snapshots[j] == t;
    CompleteIsAlone(data, i, j);
  }

  ghost predicate RowAgrees(refs: Refs, owner: string, edges: seq<Edge>, key: (string, string)) {
    key in refs && key.1 in ByRelation(edges) && refs[key] == Ref(owner, ByRelation(edges)[key.1])
  }

  ghost predicate RowsAgree(refs: Refs, owner: string, version: string, edges: seq<Edge>) {
    forall key :: key in refs && key.0 == version ==> RowAgrees(refs, owner, edges, key)
  }

  /** What is wanted and not there yet. */
  ghost predicate StillWanted(refs: Refs, version: string, edges: seq<Edge>, wanted: map<string, Edge>) {
    forall id :: id in wanted <==> id in ByRelation(edges) && (version, id) !in refs
  }

  /** Lines 130-158: rows that agree are crossed off, anything else is a conflict. */
  method CompareRows(refs: Refs, owner: string, version: string, edges: seq<Edge>) returns (agrees: bool, wanted: map<string, Edge>)
    ensures agrees <==> RowsAgree(refs, owner, version, edges)
    ensures agrees ==> StillWanted(refs, version, edges, wanted)
  {
    wanted := map[];
    for n := 0 to |edges|
      invariant wanted == ByRelation(edges[..n])
    {
      assert edges[..n + 1][..n] == edges[..n];
      wanted := wanted[edges[n].relationId := edges[n]];
    }
    assert edges[..|edges|] == edges;
    ghost var plan := wanted;
    var pending := set key | key in refs && key.0 == version;
    ghost var rows := pending;
    while pending != {}
      invariant pending <= rows
      invariant forall key :: key in rows && key !in pending ==> RowAgrees(refs, owner, edges, key)
      invariant forall id :: id in wanted <==> id in plan && ((version, id) in rows ==> (version, id) in pending)
      invariant forall id :: id in wanted ==> wanted[id] == plan[id]
      decreases |pending|
    {
      hide ByRelation;
      var key :| key in pending;
      if refs[key].owner != owner || key.1 !in wanted || wanted[key.1] != refs[key].edge {
        assert key in refs && key.0 == version && key == (version, key.1);
        return false, wanted;
      }
      wanted := wanted - {key.1};
      pending := pending - {key};
    }
    agrees := true;
  }

  lemma CompareMeans(refs: Refs, markers: Markers, s: Snapshot, edges: seq<Edge>, wanted: map<string, Edge>, agrees: bool)
    requires s.relations.Some? && edges == ActiveEdges(s.relations.value)
    requires agrees <==> RowsAgree(refs, s.pluginId, s.versionId, edges)
    ensures Compatible(refs, markers, s) <==> agrees && (s.versionId in markers ==> markers[s.versionId] == MarkerOf(s))
  {
    hide ByRelation, ActiveEdges;
    forall key | key in refs && key.0 == s.versionId
      ensures RowAgrees(refs, s.pluginId, edges, key) <==> key in Planned(s) && Planned(s)[key] == refs[key]
    {
      assert key == (s.versionId, key.1);
    }
  }

  /** The rows of the wanted edges. */
  ghost function Rows(owner: string, version: string, edges: seq<Edge>, wanted: map<string, Edge>): Refs {
    if edges == [] then map[]
    else
      var front := Rows(owner, version, edges[..|edges| - 1], wanted);
      var e := edges[|edges| - 1];
      if e.relationId in wanted then front[(version, e.relationId) := Ref(owner, e)] else front
  }

  lemma {:induction false} RowsMeaning(owner: string, version: string, edges: seq<Edge>, wanted: map<string, Edge>, key: (string, string))
    ensures key in Rows(owner, version, edges, wanted) <==> key.0 == version && key.1 in wanted && key.1 in ByRelation(edges)
    ensures key in Rows(owner, version, edges, wanted) ==> Rows(owner, version, edges, wanted)[key] == Ref(owner, ByRelation(edges)[key.1])
  {
    if edges != [] {
      RowsMeaning(owner, version, edges[..|edges| - 1], wanted, key);
    }
  }

  /** Lines 159-170: each wanted edge is written once. */
  method InsertRows(refs: Refs, owner: string, version: string, edges: seq<Edge>, wanted: map<string, Edge>) returns (refs': Refs, inserted: nat)
    requires DistinctEdges(edges)
    ensures refs' == refs + Rows(owner, version, edges, wanted)
    ensures inserted == |Rows(owner, version, edges, wanted)|
  {
    refs', inserted := refs, 0;
    assert Rows(owner, version, edges[..0], wanted) == map[];
    for n := 0 to |edges|
      invariant refs' == refs + Rows(owner, version, edges[..n], wanted)
      invariant inserted == |Rows(owner, version, edges[..n], wanted)|
    {
      hide ByRelation, Rows;
      RowsStep(owner, version, edges, n, wanted);
      if edges[n].relationId in wanted {
        AddRow(refs, Rows(owner, version, edges[..n], wanted), (version, edges[n].relationId), Ref(owner, edges[n]));
        refs' := refs'[(version, edges[n].relationId) := Ref(owner, edges[n])];
        inserted := inserted + 1;
      }
    }
    assert edges[..|edges|] == edges;
  }

  lemma RowsStep(owner: string, version: string, edges: seq<Edge>, n: nat, wanted: map<string, Edge>)
    requires n < |edges| && DistinctEdges(edges)
    ensures var before, after := Rows(owner, version, edges[..n], wanted), Rows(owner, version, edges[..n + 1], wanted);
            if edges[n].relationId in wanted
            then after == before[(version, edges[n].relationId) := Ref(owner, edges[n])] && |after| == |before| + 1
            else after == before
  {
    hide ByRelation;
    assert edges[..n + 1][..n] == edges[..n];
    ByRelationMeaning(edges[..n], edges[n].relationId);
    RowsMeaning(owner, version, edges[..n], wanted, (version, edges[n].relationId));
  }

  lemma AddRow(refs: Refs, rows: Refs, key: (string, string), row: Ref)
    ensures (refs + rows)[key := row] == refs + rows[key := row]
  {
  }

  /** Writing what is wanted on top of rows that agree is writing the whole plan. */
  lemma InsertMeans(refs: Refs, s: Snapshot, edges: seq<Edge>, wanted: map<string, Edge>)
    requires s.relations.Some? && edges == ActiveEdges(s.relations.value)
    requires RowsAgree(refs, s.pluginId, s.versionId, edges) && StillWanted(refs, s.versionId, edges, wanted)
    ensures refs + Rows(s.pluginId, s.versionId, edges, wanted) == refs + Planned(s)
    ensures |Rows(s.pluginId, s.versionId, edges, wanted)| == |Missing(refs, s)|
  {
    hide ByRelation, ActiveEdges, Rows;
    var rows := Rows(s.pluginId, s.versionId, edges, wanted);
    forall key
      ensures key in rows <==> key in Missing(refs, s)
      ensures key in rows ==> rows[key] == Planned(s)[key]
    {
      RowsMeaning(s.pluginId, s.versionId, edges, wanted, key);
    }
    assert rows.Keys == Missing(refs, s);
    forall key | key in Planned(s)
      ensures (refs + rows)[key] == Planned(s)[key]
    {
      if key in refs {
        assert RowAgrees(refs, s.pluginId, edges, key);
      }
    }
  }
}
