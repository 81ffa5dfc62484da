/** The nodes before connectors are folded: what each of them is, where its edges lead and
    which servers it has. internal/migration/plan.go:151-422. */
module PlanArrangement {
  import opened Options
  import FiniteSets
  import opened Tables
  import opened MigrationPlan
  import opened PlannerTypes
  import opened PlannerNodes
  import SkillCanonical

  // ------------------------------------------------------------------- servers

  /** The servers captured for a resource. */
  function ServersIn(i: Input, x: Id): map<string, string> {
    if x in i.byId && i.byId[x].plugin.servers.Some? then i.byId[x].plugin.servers.value else map[]
  }

  // --------------------------------------------------------------- arrangement

  /** `t` was split off an expert that is itself planned and refers to it. */
  ghost predicate ServerOf(i: Input, canonical: map<Id, Id>, nodes: map<Id, Draft>, t: Id)
    requires t in nodes
  {
    var base := TargetOf(i, canonical, nodes[t].sourceId);
    && t.Extracted? && nodes[t].plugin.kind == Connector
    && base in nodes && nodes[base].plugin.kind == Expert
    && exists r :: r in nodes[base].relations && r.kind == ExpertConnector && r.target == t
  }

  /** A node made from its source, which stands for itself: its columns, the servers of an
      expert excepted, its publication and the label that follows all its labels. */
  ghost predicate FromSource(i: Input, canonical: map<Id, Id>, d: Draft) {
    && d.sourceId in i.byId && d.sourceId.Source? && Represents(canonical, d.sourceId)
    && d.id == TargetOf(i, canonical, d.sourceId) && !d.id.Extracted?
    && d.plugin == i.byId[d.sourceId].plugin.(embedded := false, servers := d.plugin.servers)
    && DraftServers(d) == (if d.plugin.kind == Expert then map[] else ServersIn(i, d.sourceId))
    && d.release == IsReleased(i.byId[d.sourceId]) && LabelFor(i, d.sourceId, d.versionLabel)
  }

  /** A node made from one server of an expert: the expert's columns, as a connector with
      that server. */
  ghost predicate FromServer(i: Input, d: Draft) {
    && d.sourceId in i.byId && i.byId[d.sourceId].plugin.kind == Expert
    && d.id.Extracted? && d.id.source == d.sourceId && d.id.server in ServersIn(i, d.sourceId)
    && d.plugin == i.byId[d.sourceId].plugin.(embedded := false, kind := Connector, name := d.id.server,
         servers := Some(map[d.id.server := ServersIn(i, d.sourceId)[d.id.server]]))
    && d.release == IsReleased(i.byId[d.sourceId]) && d.relations == []
  }

  /** Edge `r` of `d`: a live edge of its source, or the link to one of its servers. */
  ghost predicate Explained(i: Input, canonical: map<Id, Id>, d: Draft, r: Relation)
    requires d.sourceId in i.byId
  {
    || (!Unfinished(d) && exists e :: e in i.byId[d.sourceId].relations && Rewrites(i, canonical, e, r))
    || (d.plugin.kind == Expert && r.kind == ExpertConnector && r.target.Extracted? && r.target.source == d.sourceId)
  }

  /** Edge `r` leads to a planned node and is pinned to its version. */
  ghost predicate Pinned(nodes: map<Id, Draft>, r: Relation) {
    r.target in nodes && r.targetVersion == nodes[r.target].versionId
  }

  /** No live edge and no server of the source was forgotten; drafts keep no edges of their source. */
  ghost predicate Complete(i: Input, canonical: map<Id, Id>, d: Draft)
    requires d.sourceId in i.byId
  {
    && (!Unfinished(d) ==> forall e :: e in i.byId[d.sourceId].relations && e.live && ActiveId(i, e.target) ==>
          exists r :: r in d.relations && Rewrites(i, canonical, e, r))
    && (d.plugin.kind == Expert ==> forall s :: s in ServersIn(i, d.sourceId) ==>
          exists r :: r in d.relations && r.kind == ExpertConnector && r.target == Extracted(d.sourceId, s))
  }

  ghost predicate ArrangedNode(i: Input, canonical: map<Id, Id>, nodes: map<Id, Draft>, t: Id)
    requires t in nodes
  {
    var d := nodes[t];
    && d.id == t && ActiveId(i, d.sourceId) && d.merged == {} && d.source == i.byId[d.sourceId].plugin
    && (d.versionId == if d.plugin.kind == Connector then None else Some(Minted(t)))
    && ((FromSource(i, canonical, d) && Complete(i, canonical, d)) || (FromServer(i, d) && ServerOf(i, canonical, nodes, t)))
    && (forall r :: r in d.relations ==> Pinned(nodes, r) && Explained(i, canonical, d, r))
  }

  /** Every node is the target of its source or split off that target; every active
      resource has its target; every edge stays inside. */
  ghost predicate Arranged(i: Input, canonical: map<Id, Id>, nodes: map<Id, Draft>) {
    && (forall t :: t in nodes ==> ArrangedNode(i, canonical, nodes, t))
    && (forall x :: ActiveId(i, x) ==> TargetOf(i, canonical, x) in nodes)
  }

  // ----------------------------------------------------------------- base nodes

  lemma AllTargetsMade(i: Input, canonical: map<Id, Id>, nodes: map<Id, Draft>, x: Id)
    requires WellFormed(i) && CanonicalMap(i, canonical) && BaseNodes(i, canonical, i.order, nodes) && ActiveId(i, x)
    ensures TargetOf(i, canonical, x) in nodes
    ensures nodes[TargetOf(i, canonical, x)].versionId == VersionOf(i, canonical, x)
  {
    hide TargetOf, CanonicalMap;
    TargetOfRepresentative(i, canonical, x);
    var c, t := Representing(canonical, x), TargetOf(i, canonical, x);
    assert nodes[t] == BaseDraft(i, canonical, nodes[t].sourceId, nodes[t].versionLabel);
    TargetsDistinct(i, canonical, nodes[t].sourceId, c);
  }

  /** `connected` is `nodes` with the edges written. */
  ghost predicate AllConnected(i: Input, canonical: map<Id, Id>, nodes: map<Id, Draft>, connected: map<Id, Draft>) {
    && connected.Keys == nodes.Keys
    && forall t :: t in nodes ==> nodes[t].sourceId in i.byId && connected[t] == Connected(i, canonical, nodes[t])
  }

  lemma BaseFacts(i: Input, canonical: map<Id, Id>, nodes: map<Id, Draft>, t: Id)
    requires WellFormed(i) && CanonicalMap(i, canonical) && BaseNodes(i, canonical, i.order, nodes) && t in nodes
    ensures var d := nodes[t];
            && d.id == t && ActiveId(i, d.sourceId) && d.merged == {} && d.relations == [] && !t.Extracted?
            && Represents(canonical, d.sourceId) && t == TargetOf(i, canonical, d.sourceId)
            && d.source == i.byId[d.sourceId].plugin && d.plugin == d.source.(embedded := false)
            && (d.versionId == if d.plugin.kind == Connector then None else Some(Minted(t)))
            && d.release == IsReleased(i.byId[d.sourceId]) && d.sourceId.Source? && LabelFor(i, d.sourceId, d.versionLabel)
  {
    hide LabelFor;
    var x := nodes[t].sourceId;
    assert nodes[t] == BaseDraft(i, canonical, x, nodes[t].versionLabel) && Represents(canonical, x);
  }

  lemma BaseNodesOwnSources(i: Input, canonical: map<Id, Id>, nodes: map<Id, Draft>, connected: map<Id, Draft>)
    requires WellFormed(i) && CanonicalMap(i, canonical) && BaseNodes(i, canonical, i.order, nodes)
    requires AllConnected(i, canonical, nodes, connected)
    ensures OwnSources(connected)
  {
    hide Edges, BaseNodes, CanonicalMap, WellFormed, TargetOf;
    forall t | t in connected
      ensures !t.Extracted? && t == TargetOf(i, canonical, connected[t].sourceId)
    {
      BaseFacts(i, canonical, nodes, t);
    }
  }

  /** What is needed of a base node after its edges are written. */
  ghost predicate ConnectedNode(i: Input, canonical: map<Id, Id>, connected: map<Id, Draft>, t: Id)
    requires t in connected
  {
    var d := connected[t];
    && d.id == t && !t.Extracted? && ActiveId(i, d.sourceId) && d.merged == {}
    && Represents(canonical, d.sourceId) && t == TargetOf(i, canonical, d.sourceId)
    && d.source == i.byId[d.sourceId].plugin && d.plugin == d.source.(embedded := false)
    && (d.versionId == if d.plugin.kind == Connector then None else Some(Minted(t)))
    && d.release == IsReleased(i.byId[d.sourceId]) && d.sourceId.Source? && LabelFor(i, d.sourceId, d.versionLabel)
    && (forall r :: r in d.relations ==>
          Pinned(connected, r) && !Unfinished(d) && exists e :: e in i.byId[d.sourceId].relations && Rewrites(i, canonical, e, r))
    && (!Unfinished(d) ==> forall e :: e in i.byId[d.sourceId].relations && e.live && ActiveId(i, e.target) ==>
          exists r :: r in d.relations && Rewrites(i, canonical, e, r))
  }

  /** An edge written by the planner leads to a planned node, pinned to its version. */
  lemma EdgeInside(i: Input, canonical: map<Id, Id>, nodes: map<Id, Draft>, connected: map<Id, Draft>, e: SourceEdge, r: Relation)
    requires WellFormed(i) && CanonicalMap(i, canonical) && BaseNodes(i, canonical, i.order, nodes)
    requires AllConnected(i, canonical, nodes, connected) && Rewrites(i, canonical, e, r)
    ensures Pinned(connected, r)
  {
    hide TargetOf, VersionOf, BaseNodes, Edges, CanonicalMap, WellFormed;
    AllTargetsMade(i, canonical, nodes, e.target);
  }

  lemma BaseNodeConnected(i: Input, canonical: map<Id, Id>, nodes: map<Id, Draft>, connected: map<Id, Draft>, t: Id)
    requires WellFormed(i) && CanonicalMap(i, canonical) && BaseNodes(i, canonical, i.order, nodes)
    requires AllConnected(i, canonical, nodes, connected) && t in connected
    ensures ConnectedNode(i, canonical, connected, t)
  {
    hide Edges, BaseNodes, CanonicalMap, WellFormed, TargetOf, Rewrites, Pinned;
    BaseFacts(i, canonical, nodes, t);
    var d := connected[t];
    var edges := i.byId[d.sourceId].relations;
    forall r | r in d.relations
      ensures Pinned(connected, r) && !Unfinished(d) && exists e :: e in edges && Rewrites(i, canonical, e, r)
    {
      EdgeTargets(i, canonical, d.id, edges, r);
      var e :| e in edges && Rewrites(i, canonical, e, r);
      EdgeInside(i, canonical, nodes, connected, e, r);
    }
    if !Unfinished(d) {
      forall e | e in edges && e.live && ActiveId(i, e.target)
        ensures exists r :: r in d.relations && Rewrites(i, canonical, e, r)
      {
        EdgesComplete(i, canonical, d.id, edges, e);
      }
    }
  }

  // ------------------------------------------------------------------ splitting

  lemma AllSplit(connected: map<Id, Draft>, nodes: map<Id, Draft>)
    requires SplitNodes(connected, connected.Keys, nodes)
    ensures forall t :: t in connected ==> t in nodes && Split(connected[t], nodes[t])
  {
    hide Split;
  }

  /** The edges of a node after its servers have been split off. */
  lemma SplitEdges(d: Draft, after: Draft, r: Relation)
    requires Split(d, after)
    ensures r in after.relations <==> r in d.relations || exists s :: s in ServersOf(d) && r == LinkTo(d, s)
    ensures after.versionId == d.versionId && after.sourceId == d.sourceId && after.plugin.kind == d.plugin.kind
    ensures Unfinished(after) <==> Unfinished(d)
  {
    hide LinksAdded, LinkTo;
    if d.plugin.kind == Expert {
      LinksMeaning(d, ServersOf(d).Keys, after.relations, r);
    }
  }

  lemma PinnedStays(connected: map<Id, Draft>, nodes: map<Id, Draft>, r: Relation)
    requires SplitNodes(connected, connected.Keys, nodes) && Pinned(connected, r)
    ensures Pinned(nodes, r)
  {
    hide SplitNodes, Split;
    AllSplit(connected, nodes);
    SplitEdges(connected[r.target], nodes[r.target], r);
  }

  /** The node that a server link leads to. */
  lemma LinkPinned(connected: map<Id, Draft>, nodes: map<Id, Draft>, t: Id, s: string)
    requires SplitNodes(connected, connected.Keys, nodes) && t in connected && s in ServersOf(connected[t])
    requires forall e :: e in connected ==> !e.Extracted?
    ensures Pinned(nodes, LinkTo(connected[t], s))
  {
    hide BaseSplit;
    var x := Extracted(connected[t].sourceId, s);
    assert x in nodes && x !in connected;
    assert ServerNode(connected, connected.Keys, x, nodes[x]);
  }

  lemma SplitBaseArranged(i: Input, canonical: map<Id, Id>, connected: map<Id, Draft>, nodes: map<Id, Draft>, t: Id)
    requires t in connected && (forall e :: e in connected ==> ConnectedNode(i, canonical, connected, e))
    requires SplitNodes(connected, connected.Keys, nodes)
    ensures t in nodes && ArrangedNode(i, canonical, nodes, t)
  {
    hide SplitNodes, TargetOf, ServerOf, Rewrites, Pinned, Explained, Complete, LinksAdded;
    AllSplit(connected, nodes);
    assert ConnectedNode(i, canonical, connected, t);
    var d, after := connected[t], nodes[t];
    forall r | r in after.relations
      ensures Pinned(nodes, r) && Explained(i, canonical, after, r)
    {
      SplitEdgeArranged(i, canonical, connected, nodes, t, r);
    }
    SplitComplete(i, canonical, d, after);
    assert FromSource(i, canonical, after);
  }

  lemma SplitEdgeArranged(i: Input, canonical: map<Id, Id>, connected: map<Id, Draft>, nodes: map<Id, Draft>, t: Id, r: Relation)
    requires t in connected && (forall e :: e in connected ==> ConnectedNode(i, canonical, connected, e))
    requires SplitNodes(connected, connected.Keys, nodes) && t in nodes && Split(connected[t], nodes[t]) && r in nodes[t].relations
    ensures nodes[t].sourceId in i.byId && Pinned(nodes, r) && Explained(i, canonical, nodes[t], r)
  {
    hide SplitNodes, Split, TargetOf, Rewrites, Pinned;
    assert ConnectedNode(i, canonical, connected, t);
    SplitEdges(connected[t], nodes[t], r);
    if r in connected[t].relations {
      PinnedStays(connected, nodes, r);
    } else {
      var s :| s in ServersOf(connected[t]) && r == LinkTo(connected[t], s);
      LinkPinned(connected, nodes, t, s);
    }
  }

  lemma SplitComplete(i: Input, canonical: map<Id, Id>, d: Draft, after: Draft)
    requires d.sourceId in i.byId && Split(d, after) && d.plugin == i.byId[d.sourceId].plugin.(embedded := false)
    requires !Unfinished(d) ==> forall e :: e in i.byId[d.sourceId].relations && e.live && ActiveId(i, e.target) ==>
               exists r :: r in d.relations && Rewrites(i, canonical, e, r)
    ensures after.sourceId == d.sourceId && Complete(i, canonical, after)
  {
    hide Rewrites, LinksAdded;
    forall r
      ensures r in after.relations <==> r in d.relations || exists s :: s in ServersOf(d) && r == LinkTo(d, s)
    {
      SplitEdges(d, after, r);
    }
    if d.plugin.kind == Expert {
      forall s | s in ServersIn(i, d.sourceId)
        ensures exists r :: r in after.relations && r.kind == ExpertConnector && r.target == Extracted(d.sourceId, s)
      {
        assert LinkTo(d, s) in after.relations;
      }
    }
  }

  lemma ServerArranged(i: Input, canonical: map<Id, Id>, connected: map<Id, Draft>, nodes: map<Id, Draft>, t: Id)
    requires forall e :: e in connected ==> ConnectedNode(i, canonical, connected, e)
    requires t in nodes && t !in connected && SplitNodes(connected, connected.Keys, nodes)
    ensures ArrangedNode(i, canonical, nodes, t)
  {
    hide TargetOf, BaseSplit, AllServersAdded, Rewrites, Split, Pinned;
    assert ServerNode(connected, connected.Keys, t, nodes[t]);
    var e :| e in connected && t.Extracted? && t.source == connected[e].sourceId && t.server in ServersOf(connected[e])
             && nodes[t] == ServerDraft(connected[e], t.server, ServersOf(connected[e])[t.server]);
    AllSplit(connected, nodes);
    assert ConnectedNode(i, canonical, connected, e);
    SplitEdges(connected[e], nodes[e], LinkTo(connected[e], t.server));
    assert ServerOf(i, canonical, nodes, t);
    assert FromServer(i, nodes[t]);
  }

  lemma ArrangedFromSplit(i: Input, canonical: map<Id, Id>, connected: map<Id, Draft>, nodes: map<Id, Draft>)
    requires forall t :: t in connected ==> ConnectedNode(i, canonical, connected, t)
    requires forall x :: ActiveId(i, x) ==> TargetOf(i, canonical, x) in connected
    requires SplitNodes(connected, connected.Keys, nodes)
    ensures Arranged(i, canonical, nodes)
  {
    hide TargetOf, ConnectedNode, SplitNodes, ArrangedNode, Split;
    forall t | t in nodes
      ensures ArrangedNode(i, canonical, nodes, t)
    {
      if t in connected {
        SplitBaseArranged(i, canonical, connected, nodes, t);
      } else {
        ServerArranged(i, canonical, connected, nodes, t);
      }
    }
    AllSplit(connected, nodes);
  }

  /** Every live edge of every node that is no draft resolves. */
  ghost predicate AllResolve(i: Input, nodes: map<Id, Draft>) {
    forall t :: t in nodes && !t.Extracted? && !Unfinished(nodes[t]) ==> nodes[t].sourceId in i.byId && EdgesResolve(i, nodes[t])
  }

  lemma ResolveStays(i: Input, base: map<Id, Draft>, connected: map<Id, Draft>, nodes: map<Id, Draft>, canonical: map<Id, Id>)
    requires AllConnected(i, canonical, base, connected) && SplitNodes(connected, connected.Keys, nodes)
    requires forall t :: t in base && !Unfinished(base[t]) ==> EdgesResolve(i, base[t])
    ensures AllResolve(i, nodes)
  {
    hide Edges, ValidEdge, AllServersAdded, LinksAdded;
    AllSplit(connected, nodes);
    forall t | t in nodes && !t.Extracted? && !Unfinished(nodes[t])
      ensures nodes[t].sourceId in i.byId && EdgesResolve(i, nodes[t])
    {
      assert t in connected || t.Extracted?;
    }
  }

  /** An input that gives no reason to complain: nothing awaits review, every live edge of
      every finished resource leads to an active one of the right type, which offers a
      version unless it is a connector, labels are not used up, and policy settles the
      frontend skills. */
  ghost predicate Clean(o: Oracles, i: Input, chosen: set<Id>) {
    && (forall x :: x in i.byId && !Active(i.byId[x]) ==> i.byId[x].deleted)
    && (forall x, e :: ActiveId(i, x) && BeyondDraft(i.byId[x]) && e in i.byId[x].relations && e.live ==> CleanEdge(i, x, e))
    && (forall x :: ActiveId(i, x) && x.Source? && i.byId[x].plugin.kind != Connector ==> !LabelsExhausted(i, x))
    && SkillCanonical.FrontendSettled(o, i, chosen)
  }

  ghost predicate CleanEdge(i: Input, x: Id, e: SourceEdge)
    requires x in i.byId
  {
    && ActiveId(i, e.target) && ValidEdge(i, i.byId[x].plugin.kind, e) && Accessible(i.byId[x].plugin, i.byId[e.target].plugin)
    && (e.kind != ExpertConnector ==> OffersVersion(i.byId[e.target]))
  }

  /** Whatever represents the resource has a published version: a skill may be represented by
      another one, which is published if it is. */
  predicate OffersVersion(r: Resource) {
    r.plugin.listing == Published || (r.plugin.kind == Expert && r.published.Some?)
  }

  /** Not a draft that was never published. */
  predicate BeyondDraft(r: Resource) {
    r.plugin.listing != Unpublished || r.published.Some?
  }

  lemma CleanBase(o: Oracles, i: Input, chosen: set<Id>, canonical: map<Id, Id>, base: map<Id, Draft>)
    requires Clean(o, i, chosen) && BaseNodes(i, canonical, i.order, base)
    ensures forall x :: x in i.byId && !Active(i.byId[x]) ==> i.byId[x].deleted
    ensures forall t :: t in base && !Unfinished(base[t]) ==> base[t].sourceId in i.byId && EdgesResolve(i, base[t])
    ensures AllLabelled(base)
    ensures SkillCanonical.FrontendSettled(o, i, chosen)
  {
    hide SkillCanonical.FrontendSettled, EdgesResolve, Unfinished, CleanEdge, LabelsExhausted, Unlabelled, BaseDraft, LabelFor;
    forall t | t in base
      ensures base[t].sourceId in i.byId && !Unlabelled(base[t]) && (!Unfinished(base[t]) ==> EdgesResolve(i, base[t]))
    {
      var x := base[t].sourceId;
      assert ActiveId(i, x);
      CleanDraft(i, canonical, x, base[t].versionLabel);
    }
  }

  lemma CleanDraft(i: Input, canonical: map<Id, Id>, x: Id, text: string)
    requires ActiveId(i, x) && x.Source? && Represents(canonical, x) && LabelFor(i, x, text)
    requires i.byId[x].plugin.kind != Connector ==> !LabelsExhausted(i, x)
    requires BeyondDraft(i.byId[x]) ==> forall e :: e in i.byId[x].relations && e.live ==> CleanEdge(i, x, e)
    ensures var d := BaseDraft(i, canonical, x, text); !Unlabelled(d) && (!Unfinished(d) ==> EdgesResolve(i, d))
  {
    hide TargetOf, LabelsExhausted, ValidEdge, Accessible;
    var d := BaseDraft(i, canonical, x, text);
    forall e | e in i.byId[x].relations && e.live && CleanEdge(i, x, e)
      ensures Resolves(i, d, e)
    {
      AccessIgnoresEmbedding(i.byId[x].plugin, i.byId[e.target].plugin);
    }
  }

  lemma AccessIgnoresEmbedding(parent: Plugin, child: Plugin)
    ensures Accessible(parent.(embedded := false), child) == Accessible(parent, child)
  {
  }

  /** internal/migration/plan.go:151-422: everything up to the folding of connectors. */
  method Arrange(o: Oracles, i: Input, chosen: set<Id>)
    returns (canonical: map<Id, Id>, nodes: map<Id, Draft>, mappings: seq<Mapping>, issues: seq<Issue>)
    requires WellFormed(i)
    ensures CanonicalMap(i, canonical) && Arranged(i, canonical, nodes)
    ensures |mappings| == |i.order|
    ensures forall h :: 0 <= h < |i.order| ==> i.order[h] in i.byId && mappings[h] == MappingOf(i, canonical, i.order[h])
    ensures issues == [] ==> AllResolve(i, nodes) && AllLabelled(nodes)
    ensures Clean(o, i, chosen) ==> issues == []
  {
    hide *;
    var skillIssues, nodeIssues, edgeIssues;
    canonical, skillIssues := SkillCanonical.CanonicalSkills(o, i, chosen);
    assert CanonicalMap(i, canonical) by { CanonicalIntro(o, i, canonical); }
    var base: map<Id, Draft>;
    base, mappings, nodeIssues := MakeNodes(i, canonical);
    OrderKnown(i);
    BaseKnown(i, canonical, base);
    var connected: map<Id, Draft>;
    connected, edgeIssues := ConnectNodes(i, canonical, base);
    ConnectedIntro(i, canonical, base, connected);
    BaseNodesOwnSources(i, canonical, base, connected);
    nodes := ExtractNodes(connected);
    forall t | t in connected
      ensures ConnectedNode(i, canonical, connected, t)
    {
      BaseNodeConnected(i, canonical, base, connected, t);
    }
    forall x | ActiveId(i, x)
      ensures TargetOf(i, canonical, x) in connected
    {
      AllTargetsMade(i, canonical, base, x);
    }
    ArrangedFromSplit(i, canonical, connected, nodes);
    if edgeIssues == [] {
      ResolveStays(i, base, connected, nodes, canonical);
    }
    if nodeIssues == [] {
      LabelsStay(i, canonical, base, connected, nodes);
    }
    if Clean(o, i, chosen) {
      CleanBase(o, i, chosen, canonical, base);
    }
    issues := skillIssues + nodeIssues + edgeIssues;
  }

  lemma CanonicalIntro(o: Oracles, i: Input, canonical: map<Id, Id>)
    requires forall x :: x in canonical <==> x in i.byId && SkillCanonical.GroupedSkill(i.byId[x])
    requires forall x :: x in canonical ==> canonical[x] in canonical && canonical[canonical[x]] == canonical[x]
    requires forall x :: x in canonical ==> canonical[x] in i.byId && SkillCanonical.Alike(o, i.byId[x], i.byId[canonical[x]])
    ensures CanonicalMap(i, canonical)
  {
    hide SkillCanonical.StandsFor, Normalized;
  }

  /** Splitting servers off takes no label away. */
  lemma LabelsStay(i: Input, canonical: map<Id, Id>, base: map<Id, Draft>, connected: map<Id, Draft>, nodes: map<Id, Draft>)
    requires AllConnected(i, canonical, base, connected) && SplitNodes(connected, connected.Keys, nodes) && AllLabelled(base)
    ensures AllLabelled(nodes)
  {
    hide Edges, AllServersAdded, LinksAdded;
    AllSplit(connected, nodes);
    forall t | t in nodes
      ensures !Unlabelled(nodes[t])
    {
      if t in connected {
        assert !Unlabelled(base[t]);
      } else {
        assert ServerNode(connected, connected.Keys, t, nodes[t]);
      }
    }
  }

  lemma OrderKnown(i: Input)
    requires WellFormed(i)
    ensures forall h :: 0 <= h < |i.order| ==> i.order[h] in i.byId
  {
  }

  lemma BaseKnown(i: Input, canonical: map<Id, Id>, base: map<Id, Draft>)
    requires BaseNodes(i, canonical, i.order, base)
    ensures forall t :: t in base ==> base[t].sourceId in i.byId
  {
  }

  lemma ConnectedIntro(i: Input, canonical: map<Id, Id>, base: map<Id, Draft>, connected: map<Id, Draft>)
    requires connected.Keys == base.Keys
    requires forall t :: t in base ==> base[t].sourceId in i.byId && connected[t] == Connected(i, canonical, base[t])
    ensures AllConnected(i, canonical, base, connected)
  {
    hide Connected;
  }

  // -------------------------------------------------------------------- no cycle

  /** A team is above its experts, and an expert above its skills and connectors. */
  function Level(kind: Kind): nat {
    match kind
    case Team => 2
    case Expert => 1
    case Skill => 0
    case Connector => 0
  }

  /** The node of a resource is made from the one that represents it. */
  lemma TargetSource(i: Input, canonical: map<Id, Id>, nodes: map<Id, Draft>, x: Id)
    requires WellFormed(i) && CanonicalMap(i, canonical) && Arranged(i, canonical, nodes) && ActiveId(i, x)
    ensures TargetOf(i, canonical, x) in nodes && FromSource(i, canonical, nodes[TargetOf(i, canonical, x)])
    ensures nodes[TargetOf(i, canonical, x)].sourceId == Representing(canonical, x)
  {
    hide TargetOf, ArrangedNode, LabelFor;
    TargetOfRepresentative(i, canonical, x);
    var c, t := Representing(canonical, x), TargetOf(i, canonical, x);
    TargetIsBase(i, canonical, x);
    BaseOrigin(i, canonical, nodes, t);
    TargetsDistinct(i, canonical, nodes[t].sourceId, c);
  }

  /** The node of a resource has the resource's type. */
  lemma TargetKind(i: Input, canonical: map<Id, Id>, nodes: map<Id, Draft>, x: Id)
    requires WellFormed(i) && CanonicalMap(i, canonical) && Arranged(i, canonical, nodes) && ActiveId(i, x)
    ensures TargetOf(i, canonical, x) in nodes && nodes[TargetOf(i, canonical, x)].plugin.kind == i.byId[x].plugin.kind
  {
    hide TargetOf, Arranged, LabelFor;
    TargetSource(i, canonical, nodes, x);
  }

  /** The node of a resource that offers a version is released. */
  lemma TargetReleased(i: Input, canonical: map<Id, Id>, nodes: map<Id, Draft>, x: Id)
    requires WellFormed(i) && CanonicalMap(i, canonical) && Arranged(i, canonical, nodes) && ActiveId(i, x) && OffersVersion(i.byId[x])
    ensures TargetOf(i, canonical, x) in nodes && nodes[TargetOf(i, canonical, x)].release
  {
    hide TargetOf, Arranged, LabelFor;
    TargetSource(i, canonical, nodes, x);
  }

  lemma TargetIsBase(i: Input, canonical: map<Id, Id>, x: Id)
    requires WellFormed(i) && CanonicalMap(i, canonical) && ActiveId(i, x)
    ensures !TargetOf(i, canonical, x).Extracted?
  {
  }

  lemma BaseOrigin(i: Input, canonical: map<Id, Id>, nodes: map<Id, Draft>, t: Id)
    requires Arranged(i, canonical, nodes) && t in nodes && !t.Extracted?
    ensures FromSource(i, canonical, nodes[t]) && ActiveId(i, nodes[t].sourceId) && nodes[t].id == t
  {
    hide TargetOf, Complete, ServerOf, Explained, Pinned;
    assert ArrangedNode(i, canonical, nodes, t);
  }

  /** When all edges resolve, every edge leads to a lower level. */
  lemma EdgeDescends(i: Input, canonical: map<Id, Id>, nodes: map<Id, Draft>, t: Id, r: Relation)
    requires WellFormed(i) && CanonicalMap(i, canonical) && Arranged(i, canonical, nodes) && AllResolve(i, nodes)
    requires t in nodes && r in nodes[t].relations
    ensures r.target in nodes && Level(nodes[r.target].plugin.kind) < Level(nodes[t].plugin.kind)
  {
    hide TargetOf, CanonicalMap, WellFormed, Arranged, AllResolve, Pinned, ValidEdge;
    EdgeFacts(i, canonical, nodes, t, r);
    var d := nodes[t];
    if e :| !Unfinished(d) && e in i.byId[d.sourceId].relations && Rewrites(i, canonical, e, r) {
      TargetKind(i, canonical, nodes, e.target);
      SourceEdgeDescends(i, canonical, nodes, t, e);
    } else {
      ServerKind(i, canonical, nodes, r.target);
    }
  }

  lemma EdgeFacts(i: Input, canonical: map<Id, Id>, nodes: map<Id, Draft>, t: Id, r: Relation)
    requires Arranged(i, canonical, nodes) && t in nodes && r in nodes[t].relations
    ensures r.target in nodes && nodes[t].sourceId in i.byId && Explained(i, canonical, nodes[t], r)
    ensures !t.Extracted? && nodes[t].plugin.kind == i.byId[nodes[t].sourceId].plugin.kind
  {
    hide TargetOf, Complete, ServerOf, Explained;
    assert ArrangedNode(i, canonical, nodes, t);
    assert Pinned(nodes, r);
  }

  lemma SourceEdgeDescends(i: Input, canonical: map<Id, Id>, nodes: map<Id, Draft>, t: Id, e: SourceEdge)
    requires AllResolve(i, nodes) && t in nodes && !t.Extracted? && !Unfinished(nodes[t])
    requires nodes[t].sourceId in i.byId && e in i.byId[nodes[t].sourceId].relations && e.live && e.target in i.byId
    ensures Level(i.byId[e.target].plugin.kind) < Level(nodes[t].plugin.kind)
  {
    assert EdgesResolve(i, nodes[t]);
  }

  lemma ServerKind(i: Input, canonical: map<Id, Id>, nodes: map<Id, Draft>, t: Id)
    requires Arranged(i, canonical, nodes) && t in nodes && t.Extracted?
    ensures nodes[t].plugin.kind == Connector
  {
    hide TargetOf, Complete, ServerOf, Explained, Pinned;
    assert ArrangedNode(i, canonical, nodes, t);
  }

  // ------------------------------------------------------------------- how many

  /** The captured servers, by resource. */
  function ServerPairs(i: Input): set<(Id, string)> {
    set x, s | x in i.byId && s in ServersIn(i, x) :: (x, s)
  }

  /** The identities that planning can give to nodes. */
  predicate Arises(i: Input, t: Id) {
    match t
    case Source(_) => t in i.byId
    case Converted(x, scope) => x in i.byId && scope == ScopeOf(i.byId[x].plugin)
    case Extracted(x, s) => s in ServersIn(i, x)
  }

  /** The node that a captured server ends up in. */
  function HomeOf(i: Input, canonical: map<Id, Id>, x: Id, s: string): Id {
    if x in i.byId && i.byId[x].plugin.kind == Expert then Extracted(x, s) else TargetOf(i, canonical, x)
  }

  function NodePairs(nodes: map<Id, Draft>): set<(Id, string)> {
    set t, s | t in nodes && s in DraftServers(nodes[t]) :: (t, s)
  }

  /** Where a node comes from. */
  lemma NodeOrigin(i: Input, canonical: map<Id, Id>, nodes: map<Id, Draft>, t: Id)
    requires Arranged(i, canonical, nodes) && t in nodes
    ensures nodes[t].id == t && (FromSource(i, canonical, nodes[t]) || FromServer(i, nodes[t]))
  {
    hide FromSource, FromServer, Complete, Explained, Pinned, ServerOf;
    assert ArrangedNode(i, canonical, nodes, t);
  }

  /** A server key of a node is one of its source's. */
  lemma PairHome(i: Input, canonical: map<Id, Id>, d: Draft, s: string)
    requires (FromSource(i, canonical, d) || FromServer(i, d)) && s in DraftServers(d)
    ensures (d.sourceId, s) in ServerPairs(i) && HomeOf(i, canonical, d.sourceId, s) == d.id
  {
    hide TargetOf;
  }

  /** No more server keys than were captured. */
  lemma PairsBounded(i: Input, canonical: map<Id, Id>, nodes: map<Id, Draft>)
    requires Arranged(i, canonical, nodes)
    ensures |NodePairs(nodes)| <= |ServerPairs(i)|
  {
    hide Arranged, FromSource, FromServer, ServerPairs, HomeOf;
    var f := (p: (Id, string)) => (HomeOf(i, canonical, p.0, p.1), p.1);
    forall p | p in NodePairs(nodes)
      ensures p in FiniteSets.Image(ServerPairs(i), f)
    {
      NodeOrigin(i, canonical, nodes, p.0);
      PairHome(i, canonical, nodes[p.0], p.1);
      assert f((nodes[p.0].sourceId, p.1)) == p;
    }
    FiniteSets.Subset(NodePairs(nodes), FiniteSets.Image(ServerPairs(i), f));
    FiniteSets.ImageSize(ServerPairs(i), f);
  }

  /** A node's identity is the target of a captured resource or made from a captured server. */
  lemma NodeHome(i: Input, canonical: map<Id, Id>, d: Draft)
    requires FromSource(i, canonical, d) || FromServer(i, d)
    ensures d.sourceId in i.byId
    ensures d.id == TargetOf(i, canonical, d.sourceId) || (d.id.Extracted? && (d.id.source, d.id.server) in ServerPairs(i))
  {
    hide TargetOf;
  }

  /** No more nodes than resources and servers were captured. */
  lemma NodesBounded(i: Input, canonical: map<Id, Id>, nodes: map<Id, Draft>)
    requires Arranged(i, canonical, nodes)
    ensures |nodes| <= |i.byId| + |ServerPairs(i)|
  {
    hide Arranged, FromSource, FromServer, ServerPairs, TargetOf;
    var f := (x: Id) => TargetOf(i, canonical, x);
    var g := (p: (Id, string)) => Extracted(p.0, p.1);
    var bases, servers := FiniteSets.Image(i.byId.Keys, f), FiniteSets.Image(ServerPairs(i), g);
    forall t | t in nodes.Keys
      ensures t in bases + servers
    {
      NodeOrigin(i, canonical, nodes, t);
      NodeHome(i, canonical, nodes[t]);
      if t != TargetOf(i, canonical, nodes[t].sourceId) {
        assert g((t.source, t.server)) == t;
      } else {
        assert f(nodes[t].sourceId) == t;
      }
    }
    FiniteSets.Subset(nodes.Keys, bases + servers);
    FiniteSets.ImageSize(i.byId.Keys, f);
    FiniteSets.ImageSize(ServerPairs(i), g);
    FiniteSets.UnionSize(bases, servers);
  }

  lemma NodesArise(i: Input, canonical: map<Id, Id>, nodes: map<Id, Draft>, t: Id)
    requires WellFormed(i) && Arranged(i, canonical, nodes) && t in nodes
    ensures Arises(i, t)
  {
    hide Arranged;
    NodeOrigin(i, canonical, nodes, t);
  }
}
