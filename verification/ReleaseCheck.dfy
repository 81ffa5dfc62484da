/** The release check of a plan, internal/migration/release_validation.go:32-61. */
module ReleaseCheck {
  import opened Options
  import opened Tables
  import opened MigrationPlan
  import opened PlannerTypes
  import opened PlannerNodes
  import opened PlanArrangement
  import opened PlanBuild
  import opened PlanMeaning
  import Quotients = ConnectorCanonical
  import VersionLabels

  /** The nodes by identity, the last one winning. */
  function ById(nodes: seq<Node>): map<Id, Node> {
    if nodes == [] then map[] else ById(nodes[..|nodes| - 1])[nodes[|nodes| - 1].id := nodes[|nodes| - 1]]
  }

  lemma {:induction false} ByIdMeaning(nodes: seq<Node>, k: nat)
    requires k < |nodes| && forall h, j :: 0 <= h < j < |nodes| ==> nodes[h].id != nodes[j].id
    ensures nodes[k].id in ById(nodes) && ById(nodes)[nodes[k].id] == nodes[k]
  {
    var n := |nodes| - 1;
    if k < n {
      ByIdMeaning(nodes[..n], k);
    }
  }

  /** A reference to anything but a connector names the saved, released version of a planned node. */
  predicate PinReleased(byId: map<Id, Node>, r: Relation) {
    r.kind == ExpertConnector ||
    (r.target in byId && byId[r.target].release && byId[r.target].versionId.Some? && r.targetVersion == byId[r.target].versionId)
  }

  ghost predicate LabelsValid(nodes: seq<Node>) {
    forall k :: 0 <= k < |nodes| && nodes[k].versionId.Some? ==> VersionLabels.ReleasableLabel(nodes[k].versionLabel)
  }

  ghost predicate PinsReleased(byId: map<Id, Node>, nodes: seq<Node>) {
    forall k, r :: 0 <= k < |nodes| && r in nodes[k].relations ==> PinReleased(byId, r)
  }

  /** What the check demands: every label can be released, every pin is released. */
  ghost predicate Releasable(p: Plan) {
    LabelsValid(p.nodes) && PinsReleased(ById(p.nodes), p.nodes)
  }

  method ValidateMigrationReleases(p: Plan) returns (issues: seq<Issue>)
    ensures issues == [] <==> Releasable(p)
  {
    hide VersionLabels.ReleasableLabel, PinReleased;
    issues := [];
    var byId: map<Id, Node> := map[];
    for k := 0 to |p.nodes|
      invariant byId == ById(p.nodes[..k])
      invariant issues == [] <==> LabelsValid(p.nodes[..k])
    {
      assert p.nodes[..k + 1][..k] == p.nodes[..k];
      var n := p.nodes[k];
      byId := byId[n.id := n];
      if n.versionId.Some? {
        var valid := VersionLabels.ValidReleaseLabel(n.versionLabel);
        if !valid {
          issues := issues + [Issue(n.sourceId, "invalid_declared_version")];
          assert !LabelsValid(p.nodes[..k + 1]);
        }
      }
      LabelsStep(p.nodes, k);
    }
    assert p.nodes[..|p.nodes|] == p.nodes;
    for k := 0 to |p.nodes|
      invariant issues == [] <==> LabelsValid(p.nodes) && PinsReleased(byId, p.nodes[..k])
    {
      PinsStep(byId, p.nodes, k);
      var relations := p.nodes[k].relations;
      ghost var before := issues;
      for h := 0 to |relations|
        invariant issues == [] <==> before == [] && forall j :: 0 <= j < h ==> PinReleased(byId, relations[j])
      {
        if !PinReleased(byId, relations[h]) {
          issues := issues + [Issue(p.nodes[k].sourceId, "released_version_required")];
        }
      }
    }
  }

  lemma LabelsStep(nodes: seq<Node>, k: nat)
    requires k < |nodes|
    ensures LabelsValid(nodes[..k + 1]) <==>
              LabelsValid(nodes[..k]) && (nodes[k].versionId.Some? ==> VersionLabels.ReleasableLabel(nodes[k].versionLabel))
  {
    hide VersionLabels.ReleasableLabel;
    var before, after := nodes[..k], nodes[..k + 1];
    assert after[k] == nodes[k] && forall j :: 0 <= j < k ==> after[j] == before[j];
  }

  lemma PinsStep(byId: map<Id, Node>, nodes: seq<Node>, k: nat)
    requires k < |nodes|
    ensures PinsReleased(byId, nodes[..k + 1]) <==> PinsReleased(byId, nodes[..k]) && forall r :: r in nodes[k].relations ==> PinReleased(byId, r)
  {
    hide PinReleased;
    var before, after := nodes[..k], nodes[..k + 1];
    assert after[k] == nodes[k] && forall j :: 0 <= j < k ==> after[j] == before[j];
  }

  /** Of a plan whose edges are pinned to their targets, the check asks only that every
      target other than a connector's is released and is no connector. */
  lemma PlannedPinsAreReleasedExactly(p: Plan)
    requires Safe(p) && PinsHold(p)
    ensures PinsReleased(ById(p.nodes), p.nodes) <==>
              forall n, r, k :: n in p.nodes && r in n.relations && r.kind != ExpertConnector && 0 <= k < |p.nodes| && p.nodes[k].id == r.target
                ==> p.nodes[k].release && p.nodes[k].plugin.kind != Connector
  {
    hide WritersLast, DependenciesFirst, TargetsPlanned, DistinctSources, ById;
    forall k | 0 <= k < |p.nodes|
      ensures p.nodes[k].id in ById(p.nodes) && ById(p.nodes)[p.nodes[k].id] == p.nodes[k]
      ensures p.nodes[k].versionId.Some? <==> p.nodes[k].plugin.kind != Connector
    {
      ByIdMeaning(p.nodes, k);
      assert NodeComplete(p, p.nodes[k]);
    }
    forall n, r | n in p.nodes && r in n.relations
      ensures exists k :: 0 <= k < |p.nodes| && p.nodes[k].id == r.target && p.nodes[k].versionId == r.targetVersion
    {
    }
    if PinsReleased(ById(p.nodes), p.nodes) {
      forall n, r, k | n in p.nodes && r in n.relations && r.kind != ExpertConnector && 0 <= k < |p.nodes| && p.nodes[k].id == r.target
        ensures p.nodes[k].release && p.nodes[k].plugin.kind != Connector
      {
        var h :| 0 <= h < |p.nodes| && p.nodes[h] == n;
        assert PinReleased(ById(p.nodes), r);
      }
    }
  }

  // ------------------------------------------------------------------ built plans

  /** In a built plan no label is missing, so all of them can be released. */
  lemma BuiltLabels(o: Oracles, i: Input, canonical: map<Id, Id>, nodes: map<Id, Draft>, remap: map<Id, Id>, kept: map<Id, Draft>,
                    final: map<Id, Draft>, order: seq<Id>, p: Plan)
    requires Built(o, i, canonical, nodes, remap, kept, final, order, p) && AllLabelled(nodes)
    ensures LabelsValid(p.nodes)
  {
    hide Built, Arranged, Kept, FinalMappings, WellFormed, Complete, Explained, Pinned, SameButKeys, VersionLabels.ReleasableLabel, LabelFor;
    forall k | 0 <= k < |p.nodes| && p.nodes[k].versionId.Some?
      ensures VersionLabels.ReleasableLabel(p.nodes[k].versionLabel)
    {
      var t := NodeAt(o, i, canonical, nodes, remap, kept, final, order, p, k);
      KeptFacts(o, i, canonical, nodes, remap, kept, t);
      KeptNode(o, nodes, remap, kept, t);
      OriginFacts(i, canonical, nodes, t);
      assert !Unlabelled(nodes[t]);
      LabelIsReleasable(i, nodes[t].sourceId, nodes[t].versionLabel);
    }
  }

  lemma LabelIsReleasable(i: Input, x: Id, text: string)
    requires x in i.byId && x.Source? && LabelFor(i, x, text) && text != ""
    ensures VersionLabels.ReleasableLabel(text)
  {
  }

  /** On a clean input an edge to anything but a connector leads to a released node. */
  lemma CleanEdgeReleased(o: Oracles, i: Input, chosen: set<Id>, canonical: map<Id, Id>, nodes: map<Id, Draft>, remap: map<Id, Id>, kept: map<Id, Draft>,
                          t: Id, r: Relation)
    requires WellFormed(i) && CanonicalMap(i, canonical) && Arranged(i, canonical, nodes) && Kept(o, nodes, remap, kept) && Clean(o, i, chosen)
    requires t in kept && r in kept[t].relations && r.kind != ExpertConnector
    ensures r.target in kept && kept[r.target].release && kept[r.target].plugin.kind != Connector
  {
    hide WellFormed, CanonicalMap, Arranged, Kept, TargetOf, Pinned, Complete, Clean, Quotients.Landing, CleanEdge, LabelFor;
    var r0 := EdgeBefore(o, nodes, remap, kept, t, r);
    OriginFacts(i, canonical, nodes, t);
    var x := nodes[t].sourceId;
    assert Explained(i, canonical, nodes[t], r0);
    var e :| !Unfinished(nodes[t]) && e in i.byId[x].relations && Rewrites(i, canonical, e, r0);
    CleanEdgeOf(o, i, chosen, x, e);
    TargetReleased(i, canonical, nodes, e.target);
    TargetKind(i, canonical, nodes, e.target);
    ExpertStays(o, nodes, remap, kept, r0.target);
    KeptNode(o, nodes, remap, kept, r0.target);
  }

  lemma CleanEdgeOf(o: Oracles, i: Input, chosen: set<Id>, x: Id, e: SourceEdge)
    requires Clean(o, i, chosen) && ActiveId(i, x) && BeyondDraft(i.byId[x]) && e in i.byId[x].relations && e.live && e.kind != ExpertConnector
    ensures ActiveId(i, e.target) && OffersVersion(i.byId[e.target]) && i.byId[e.target].plugin.kind != Connector
  {
    assert CleanEdge(i, x, e);
  }

  lemma KindStays(d: Draft, f: Draft)
    requires SameButKeys(d, f)
    ensures f.plugin.kind == d.plugin.kind
  {
  }

  /** The plan of a clean input passes the check. */
  lemma CleanIsReleasable(o: Oracles, i: Input, chosen: set<Id>, canonical: map<Id, Id>, nodes: map<Id, Draft>, remap: map<Id, Id>, kept: map<Id, Draft>,
                          final: map<Id, Draft>, order: seq<Id>, p: Plan)
    requires Built(o, i, canonical, nodes, remap, kept, final, order, p) && CanonicalMap(i, canonical) && AllLabelled(nodes)
    requires Clean(o, i, chosen) && Safe(p) && PinsHold(p)
    ensures Releasable(p)
  {
    hide Built, Arranged, Kept, FinalMappings, WellFormed, CanonicalMap, Clean, AllLabelled, LabelsValid, PinsReleased, PinsHold, Safe, SameButKeys;
    BuiltLabels(o, i, canonical, nodes, remap, kept, final, order, p);
    forall n, r, k | n in p.nodes && r in n.relations && r.kind != ExpertConnector && 0 <= k < |p.nodes| && p.nodes[k].id == r.target
      ensures p.nodes[k].release && p.nodes[k].plugin.kind != Connector
    {
      var h :| 0 <= h < |p.nodes| && p.nodes[h] == n;
      var t := NodeAt(o, i, canonical, nodes, remap, kept, final, order, p, h);
      CleanEdgeReleased(o, i, chosen, canonical, nodes, remap, kept, t, r);
      var u := NodeAt(o, i, canonical, nodes, remap, kept, final, order, p, k);
      KeptNode(o, nodes, remap, kept, u);
      assert p.nodes[k].plugin.kind == kept[u].plugin.kind by { assert SameButKeys(kept[u], final[u]); KindStays(kept[u], final[u]); }
    }
    PlannedPinsAreReleasedExactly(p);
  }
}
