/** What a finished plan says about the input it was made from: every resource has its
    place, every node and every edge has its reason, and edges are pinned to versions. */
module PlanMeaning {
  import opened Options
  import opened Tables
  import opened MigrationPlan
  import opened PlannerTypes
  import opened PlannerNodes
  import opened PlanArrangement
  import opened PlanBuild
  import opened SkillCanonical
  import Quotients = ConnectorCanonical
  import PlanOrder

  // ------------------------------------------------------------ specification

  /** Resource `x` is mapped to `t`. */
  ghost predicate Lands(p: Plan, x: Id, t: Id) {
    exists m :: m in p.mappings && m.source == x && m.target == Some(t)
  }

  function NodeServers(n: Node): map<string, string> {
    if n.plugin.servers.Some? then n.plugin.servers.value else map[]
  }

  /** Node `n` is what resource `x` becomes: its own, that of a skill which stands for it, or
      that of a connector with its audience, owner and servers. */
  ghost predicate BecomesNode(i: Input, x: Id, n: Node)
    requires x in i.byId
  {
    var plugin := i.byId[x].plugin;
    && n.plugin.kind == plugin.kind
    && match plugin.kind
       case Skill => n.sourceId in i.byId && StandsFor(i.byId[n.sourceId].plugin, plugin)
       case Connector => ScopeOf(n.plugin) == ScopeOf(plugin) && n.plugin.owner == plugin.owner && SameServers(ServersIn(i, x), NodeServers(n))
       case _ => n.sourceId == x
  }

  /** The active resources, and no others, are mapped to what they become. */
  ghost predicate ResourcesPlanned(i: Input, p: Plan) {
    && (forall x :: ActiveId(i, x) ==> exists k :: 0 <= k < |p.nodes| && Lands(p, x, p.nodes[k].id) && BecomesNode(i, x, p.nodes[k]))
    && (forall m :: m in p.mappings ==> m.source in i.byId && (m.target.Some? <==> ActiveId(i, m.source)))
  }

  /** A node stands for one server of an expert: the expert's columns, as a connector. */
  ghost predicate MadeFromServer(i: Input, n: Node)
    requires n.sourceId in i.byId
  {
    && n.id.Extracted? && n.id.source == n.sourceId && n.id.server in ServersIn(i, n.sourceId) && n.source.kind == Expert
    && n.plugin == n.source.(embedded := false, kind := Connector, name := n.plugin.name, servers := n.plugin.servers)
    && SameServers(map[n.id.server := ServersIn(i, n.sourceId)[n.id.server]], NodeServers(n))
  }

  /** A node stands for a resource that is mapped to it: the resource's columns, its servers
      unless it is an expert, its name unless it is a connector, and its next label. */
  ghost predicate MadeFromResource(i: Input, p: Plan, n: Node)
    requires n.sourceId in i.byId
  {
    && Lands(p, n.sourceId, n.id)
    && n.plugin == n.source.(embedded := false, name := n.plugin.name, servers := n.plugin.servers)
    && (n.source.kind != Connector ==> n.plugin.name == n.source.name)
    && SameServers(if n.source.kind == Expert then map[] else ServersIn(i, n.sourceId), NodeServers(n))
    && n.sourceId.Source? && LabelFor(i, n.sourceId, n.versionLabel)
  }

  ghost predicate NodeExplained(i: Input, p: Plan, n: Node) {
    && ActiveId(i, n.sourceId) && n.source == i.byId[n.sourceId].plugin && n.release == IsReleased(i.byId[n.sourceId])
    && if n.id.Extracted? then MadeFromServer(i, n) else MadeFromResource(i, p, n)
  }

  /** `t` is a connector that carries the evidence of `x` and has a server with this configuration. */
  ghost predicate ServesFor(p: Plan, x: Id, config: string, t: Id) {
    exists k :: 0 <= k < |p.nodes| && p.nodes[k].id == t && p.nodes[k].plugin.kind == Connector
                && x in p.nodes[k].evidence && config in NodeServers(p.nodes[k]).Values
  }

  /** An edge is a live edge of the source, or leads to a connector made from one of its servers. */
  ghost predicate EdgeExplained(i: Input, p: Plan, n: Node, r: Relation)
    requires n.sourceId in i.byId
  {
    || (exists e :: e in i.byId[n.sourceId].relations && e.live && e.kind == r.kind && Lands(p, e.target, r.target))
    || (i.byId[n.sourceId].plugin.kind == Expert && r.kind == ExpertConnector && exists s :: ServedBy(i, p, n.sourceId, s, r.target))
  }

  /** `t` is a connector that has the configuration of server `s` of `x`. */
  ghost predicate ServedBy(i: Input, p: Plan, x: Id, s: string, t: Id) {
    s in ServersIn(i, x) && ServesFor(p, x, ServersIn(i, x)[s], t)
  }

  predicate DraftNode(n: Node) {
    !n.release && n.plugin.listing == Unpublished
  }

  /** No live edge and no server of the source is forgotten; unfinished drafts and connectors
      made from servers have no edges. */
  ghost predicate EdgesKept(i: Input, p: Plan, n: Node)
    requires n.sourceId in i.byId
  {
    if n.id.Extracted? || DraftNode(n) then n.relations == []
    else
      && (forall e :: e in i.byId[n.sourceId].relations && e.live ==>
            exists r :: r in n.relations && r.kind == e.kind && Lands(p, e.target, r.target))
      && (i.byId[n.sourceId].plugin.kind == Expert ==> forall s :: s in ServersIn(i, n.sourceId) ==>
            exists r :: r in n.relations && r.kind == ExpertConnector && ServedBy(i, p, n.sourceId, s, r.target))
  }

  /** Every edge leads to a planned node and is pinned to that node's version. */
  ghost predicate PinsHold(p: Plan) {
    forall n, r :: n in p.nodes && r in n.relations ==>
      exists k :: 0 <= k < |p.nodes| && p.nodes[k].id == r.target && p.nodes[k].versionId == r.targetVersion
  }

  /** The plan is the input, rewritten. */
  ghost predicate Faithful(i: Input, p: Plan) {
    && ResourcesPlanned(i, p)
    && (forall n :: n in p.nodes ==>
          && NodeExplained(i, p, n) && EdgesKept(i, p, n)
          && forall r :: r in n.relations ==> EdgeExplained(i, p, n, r))
    && PinsHold(p)
  }

  // ----------------------------------------------------------------- mappings

  lemma LandsAtDestination(i: Input, canonical: map<Id, Id>, remap: map<Id, Id>, p: Plan, x: Id)
    requires WellFormed(i) && FinalMappings(i, canonical, remap, p.mappings) && ActiveId(i, x)
    ensures Lands(p, x, Destination(i, canonical, remap, x))
  {
    hide TargetOf, VersionOf, DispositionOf;
    var h :| 0 <= h < |i.order| && i.order[h] == x;
    assert p.mappings[h] in p.mappings;
  }

  lemma DestinationKept(o: Oracles, i: Input, canonical: map<Id, Id>, nodes: map<Id, Draft>, remap: map<Id, Id>, kept: map<Id, Draft>, x: Id)
    requires Arranged(i, canonical, nodes) && Kept(o, nodes, remap, kept) && ActiveId(i, x)
    ensures Destination(i, canonical, remap, x) in kept
  {
    hide TargetOf, ArrangedNode, Quotients.Survivor;
  }

  lemma InPlan(o: Oracles, i: Input, canonical: map<Id, Id>, nodes: map<Id, Draft>, remap: map<Id, Id>, kept: map<Id, Draft>,
               final: map<Id, Draft>, order: seq<Id>, p: Plan, t: Id) returns (k: nat)
    requires Built(o, i, canonical, nodes, remap, kept, final, order, p) && t in kept
    ensures t in final && final[t].sourceId in i.byId
    ensures k < |p.nodes| && order[k] == t && p.nodes[k] == Finish(i, p.mappings, final[t]) && p.nodes[k].id == t
  {
    hide Arranged, Kept, FinalMappings, Finish, PlanOrder.Topological, PlanOrder.Distinct, WellFormed;
    k :| 0 <= k < |order| && order[k] == t;
    KeptFacts(o, i, canonical, nodes, remap, kept, t);
    FinishKeeps(i, p.mappings, final[t]);
  }

  lemma FinishKeeps(i: Input, mappings: seq<Mapping>, d: Draft)
    requires d.sourceId in i.byId
    ensures var n := Finish(i, mappings, d);
            && n.id == d.id && n.sourceId == d.sourceId && n.source == d.source && n.plugin == d.plugin
            && n.relations == d.relations && n.versionId == d.versionId && n.versionLabel == d.versionLabel && n.release == d.release
            && (n.evidence.Keys == set x | x in Held(mappings, d) && x in i.byId)
  {
  }

  lemma BuiltResourcesPlanned(o: Oracles, i: Input, canonical: map<Id, Id>, nodes: map<Id, Draft>, remap: map<Id, Id>, kept: map<Id, Draft>,
                              final: map<Id, Draft>, order: seq<Id>, p: Plan)
    requires Built(o, i, canonical, nodes, remap, kept, final, order, p) && CanonicalMap(i, canonical) && Quotients.ContentFixesServers(o)
    ensures ResourcesPlanned(i, p)
  {
    hide Arranged, Kept, FinalMappings, Finished, Destination, WellFormed, Lands, CanonicalMap, BecomesNode, Quotients.ContentFixesServers;
    forall x | ActiveId(i, x)
      ensures exists k :: 0 <= k < |p.nodes| && Lands(p, x, p.nodes[k].id) && BecomesNode(i, x, p.nodes[k])
    {
      LandsAtDestination(i, canonical, remap, p, x);
      DestinationKept(o, i, canonical, nodes, remap, kept, x);
      var k := InPlan(o, i, canonical, nodes, remap, kept, final, order, p, Destination(i, canonical, remap, x));
      BuiltBecomes(o, i, canonical, nodes, remap, kept, final, order, p, x, k);
    }
    forall m | m in p.mappings
      ensures m.source in i.byId && (m.target.Some? <==> ActiveId(i, m.source))
    {
      MappingLeads(i, canonical, remap, p.mappings, m);
    }
  }

  /** Where a node lands: itself, or a connector with the same audience, owner and servers. */
  lemma LandingAlike(o: Oracles, nodes: map<Id, Draft>, remap: map<Id, Id>, kept: map<Id, Draft>, x: Id)
    requires Kept(o, nodes, remap, kept) && Quotients.ContentFixesServers(o) && x in nodes
    ensures var u := Quotients.Landing(remap, x);
            && u in kept && kept[u].plugin.kind == nodes[x].plugin.kind && (nodes[x].plugin.kind != Connector ==> u == x)
            && ScopeOf(kept[u].plugin) == ScopeOf(nodes[x].plugin) && kept[u].plugin.owner == nodes[x].plugin.owner
            && DraftServers(kept[u]) == DraftServers(nodes[x])
  {
    hide Kept, Quotients.Landing, Quotients.KeyOf, Quotients.ContentFixesServers, ScopeOf;
    var u := Quotients.Landing(remap, x);
    LandingKey(o, nodes, remap, kept, x);
    KeptNode(o, nodes, remap, kept, u);
    if u != x {
      SameKey(o, nodes[u], nodes[x]);
    }
  }

  lemma LandingKey(o: Oracles, nodes: map<Id, Draft>, remap: map<Id, Id>, kept: map<Id, Draft>, x: Id)
    requires Kept(o, nodes, remap, kept) && x in nodes
    ensures var u := Quotients.Landing(remap, x);
            && u in kept && u in nodes
            && (u != x ==> nodes[x].plugin.kind == Connector && nodes[u].plugin.kind == Connector)
            && (u != x ==> Quotients.KeyOf(o, nodes[u]) == Quotients.KeyOf(o, nodes[x]) && Quotients.KeyOf(o, nodes[x]).Some?)
  {
    hide Quotients.KeyOf, Quotients.Survivor;
  }

  lemma SameKey(o: Oracles, d: Draft, e: Draft)
    requires Quotients.ContentFixesServers(o) && Quotients.KeyOf(o, d) == Quotients.KeyOf(o, e) && Quotients.KeyOf(o, e).Some?
    ensures ScopeOf(d.plugin) == ScopeOf(e.plugin) && d.plugin.owner == e.plugin.owner && DraftServers(d) == DraftServers(e)
  {
    hide ScopeOf;
  }

  lemma BuiltBecomes(o: Oracles, i: Input, canonical: map<Id, Id>, nodes: map<Id, Draft>, remap: map<Id, Id>, kept: map<Id, Draft>,
                     final: map<Id, Draft>, order: seq<Id>, p: Plan, x: Id, k: nat)
    requires Built(o, i, canonical, nodes, remap, kept, final, order, p) && CanonicalMap(i, canonical) && Quotients.ContentFixesServers(o)
    requires ActiveId(i, x) && Destination(i, canonical, remap, x) in kept
    requires k < |p.nodes| && Destination(i, canonical, remap, x) in final && final[Destination(i, canonical, remap, x)].sourceId in i.byId
    requires p.nodes[k] == Finish(i, p.mappings, final[Destination(i, canonical, remap, x)])
    ensures BecomesNode(i, x, p.nodes[k])
  {
    hide Arranged, Kept, FinalMappings, PlanOrder.Topological, PlanOrder.Distinct, WellFormed, TargetOf, Finish, CanonicalMap, FromSource,
      SameButKeys, BecomesNode, Quotients.ContentFixesServers, Quotients.Landing, DraftServers, ScopeOf;
    var t, u := TargetOf(i, canonical, x), Destination(i, canonical, remap, x);
    FinishKeeps(i, p.mappings, final[u]);
    TargetSource(i, canonical, nodes, x);
    LandingAlike(o, nodes, remap, kept, t);
    KeptNode(o, nodes, remap, kept, u);
    DraftBecomes(i, canonical, x, nodes[t], kept[u], final[u], p.nodes[k]);
  }

  /** The target of `x`, where it landed, and the node that this became. */
  lemma DraftBecomes(i: Input, canonical: map<Id, Id>, x: Id, target: Draft, landed: Draft, final: Draft, n: Node)
    requires CanonicalMap(i, canonical) && ActiveId(i, x)
    requires FromSource(i, canonical, target) && target.sourceId == Representing(canonical, x)
    requires landed.plugin.kind == target.plugin.kind && (target.plugin.kind != Connector ==> landed.sourceId == target.sourceId)
    requires ScopeOf(landed.plugin) == ScopeOf(target.plugin) && landed.plugin.owner == target.plugin.owner && DraftServers(landed) == DraftServers(target)
    requires SameButKeys(landed, final) && n.plugin == final.plugin && n.sourceId == final.sourceId
    ensures BecomesNode(i, x, n)
  {
    hide CanonicalMap, TargetOf, LabelFor, SameServers, ScopeOf, StandsFor, ActiveId;
    RepresentativeStands(i, canonical, x);
    AudienceOf(target.plugin, i.byId[target.sourceId].plugin);
    AudienceOf(final.plugin, landed.plugin);
  }

  lemma RepresentativeStands(i: Input, canonical: map<Id, Id>, x: Id)
    requires CanonicalMap(i, canonical) && ActiveId(i, x)
    ensures var c := Representing(canonical, x);
            && c in i.byId && i.byId[c].plugin.kind == i.byId[x].plugin.kind
            && if i.byId[x].plugin.kind == Skill then StandsFor(i.byId[c].plugin, i.byId[x].plugin) else c == x
  {
  }

  /** Names, servers and embedding do not change an audience. */
  lemma AudienceOf(a: Plugin, b: Plugin)
    requires a == b.(name := a.name, servers := a.servers, embedded := a.embedded)
    ensures ScopeOf(a) == ScopeOf(b)
  {
  }

  // -------------------------------------------------------------------- nodes

  lemma OriginFacts(i: Input, canonical: map<Id, Id>, nodes: map<Id, Draft>, t: Id)
    requires Arranged(i, canonical, nodes) && t in nodes
    ensures nodes[t].id == t && ActiveId(i, nodes[t].sourceId) && nodes[t].source == i.byId[nodes[t].sourceId].plugin
    ensures t.Extracted? ==> FromServer(i, nodes[t])
    ensures !t.Extracted? ==> FromSource(i, canonical, nodes[t]) && Complete(i, canonical, nodes[t])
    ensures forall r :: r in nodes[t].relations ==> Pinned(nodes, r) && Explained(i, canonical, nodes[t], r)
  {
    hide TargetOf, Complete, Explained, Pinned, ServerOf;
    assert ArrangedNode(i, canonical, nodes, t);
  }

  /** The drafts that a node of the plan was made from. */
  lemma NodeAt(o: Oracles, i: Input, canonical: map<Id, Id>, nodes: map<Id, Draft>, remap: map<Id, Id>, kept: map<Id, Draft>,
               final: map<Id, Draft>, order: seq<Id>, p: Plan, k: nat) returns (t: Id)
    requires Built(o, i, canonical, nodes, remap, kept, final, order, p) && k < |p.nodes|
    ensures WellFormed(i) && Arranged(i, canonical, nodes) && Kept(o, nodes, remap, kept) && FinalMappings(i, canonical, remap, p.mappings)
    ensures t in nodes && t in kept && t !in remap && t in final && kept[t].plugin == nodes[t].plugin && SameButKeys(kept[t], final[t])
    ensures var n := p.nodes[k];
            && n.id == t && n.sourceId == nodes[t].sourceId && n.source == nodes[t].source && n.plugin == final[t].plugin
            && n.versionId == nodes[t].versionId && n.versionLabel == nodes[t].versionLabel && n.release == nodes[t].release
            && n.relations == (if Unfinished(nodes[t]) then [] else kept[t].relations) && (DraftNode(n) <==> Unfinished(nodes[t]))
  {
    hide Arranged, Kept, FinalMappings, Finish, PlanOrder.Topological, PlanOrder.Distinct, WellFormed, SameServers;
    t := order[k];
    assert t in order;
    KeptNode(o, nodes, remap, kept, t);
    KeptFacts(o, i, canonical, nodes, remap, kept, t);
    FinishKeeps(i, p.mappings, final[t]);
  }

  lemma BuiltNodeExplained(o: Oracles, i: Input, canonical: map<Id, Id>, nodes: map<Id, Draft>, remap: map<Id, Id>, kept: map<Id, Draft>,
                           final: map<Id, Draft>, order: seq<Id>, p: Plan, k: nat)
    requires Built(o, i, canonical, nodes, remap, kept, final, order, p) && k < |p.nodes|
    ensures NodeExplained(i, p, p.nodes[k])
  {
    hide Built, Arranged, Kept, FinalMappings, WellFormed, TargetOf, Lands, Complete, Explained, Pinned, SameServers, LabelFor, IsReleased;
    var t := NodeAt(o, i, canonical, nodes, remap, kept, final, order, p, k);
    OriginFacts(i, canonical, nodes, t);
    if !t.Extracted? {
      LandsAtDestination(i, canonical, remap, p, nodes[t].sourceId);
    }
  }

  // -------------------------------------------------------------------- edges

  /** The edge before folding that an edge after folding stands for. */
  lemma EdgeBefore(o: Oracles, nodes: map<Id, Draft>, remap: map<Id, Id>, kept: map<Id, Draft>, t: Id, r: Relation) returns (r0: Relation)
    requires Kept(o, nodes, remap, kept) && t in kept && r in kept[t].relations
    ensures t in nodes && r0 in nodes[t].relations && r == Quotients.Redirect(remap, r0)
  {
    hide Quotients.Quotient, Quotients.FoldedInto;
    Quotients.RewireSound(remap, nodes[t].relations, {}, r);
    r0 :| r0 in nodes[t].relations && r == Quotients.Redirect(remap, r0);
  }

  /** Folding a connector away changes no pin: connectors have no version. */
  lemma LandingVersion(o: Oracles, i: Input, canonical: map<Id, Id>, nodes: map<Id, Draft>, remap: map<Id, Id>, kept: map<Id, Draft>, x: Id)
    requires Arranged(i, canonical, nodes) && Kept(o, nodes, remap, kept) && x in nodes
    ensures Quotients.Landing(remap, x) in kept && kept[Quotients.Landing(remap, x)].versionId == nodes[x].versionId
  {
    hide Arranged, Quotients.Rewire, Quotients.FoldedInto;
    ArrangedFacts(i, canonical, nodes, x);
    ArrangedFacts(i, canonical, nodes, Quotients.Landing(remap, x));
  }

  /** Where the connector of a server landed carries the evidence of the expert. */
  lemma LandedServer(o: Oracles, i: Input, canonical: map<Id, Id>, nodes: map<Id, Draft>, remap: map<Id, Id>, kept: map<Id, Draft>,
                     final: map<Id, Draft>, order: seq<Id>, p: Plan, c: Id)
    requires Built(o, i, canonical, nodes, remap, kept, final, order, p) && Quotients.ContentFixesServers(o)
    requires c in nodes && c.Extracted?
    ensures ServedBy(i, p, nodes[c].sourceId, c.server, Quotients.Landing(remap, c))
  {
    hide Arranged, Kept, FinalMappings, Finish, PlanOrder.Topological, PlanOrder.Distinct, WellFormed, Complete, Explained, Pinned, SameServers,
      Quotients.ContentFixesServers, Quotients.Landing;
    OriginFacts(i, canonical, nodes, c);
    var u := Quotients.Landing(remap, c);
    LandingAlike(o, nodes, remap, kept, c);
    LandingHolds(o, i, canonical, nodes, remap, kept, c);
    var k := InPlan(o, i, canonical, nodes, remap, kept, final, order, p, u);
    FinishKeeps(i, p.mappings, final[u]);
    ServerStays(DraftServers(kept[u]), DraftServers(final[u]), c.server);
    assert p.nodes[k].id == u && NodeServers(p.nodes[k]) == DraftServers(final[u]);
  }

  lemma LandingHolds(o: Oracles, i: Input, canonical: map<Id, Id>, nodes: map<Id, Draft>, remap: map<Id, Id>, kept: map<Id, Draft>, c: Id)
    requires Arranged(i, canonical, nodes) && Kept(o, nodes, remap, kept) && c in nodes && Quotients.Landing(remap, c) in kept
    ensures var u := Quotients.Landing(remap, c); nodes[c].sourceId in {kept[u].sourceId} + kept[u].merged
  {
    hide Arranged, Kept;
    var u := Quotients.Landing(remap, c);
    KeptNode(o, nodes, remap, kept, u);
    if u != c {
      assert nodes[c].sourceId in Quotients.FoldedInto(nodes, remap, u);
    }
  }

  lemma ServerStays(before: map<string, string>, after: map<string, string>, s: string)
    requires SameServers(before, after) && s in before
    ensures before[s] in after.Values
  {
    var names :| Renames(names, before, after);
    assert names[s] in after && after[names[s]] == before[s];
  }

  lemma BuiltEdgeExplained(o: Oracles, i: Input, canonical: map<Id, Id>, nodes: map<Id, Draft>, remap: map<Id, Id>, kept: map<Id, Draft>,
                           final: map<Id, Draft>, order: seq<Id>, p: Plan, k: nat, r: Relation)
    requires Built(o, i, canonical, nodes, remap, kept, final, order, p) && Quotients.ContentFixesServers(o)
    requires k < |p.nodes| && r in p.nodes[k].relations
    ensures p.nodes[k].sourceId in i.byId && EdgeExplained(i, p, p.nodes[k], r)
  {
    hide Built, Arranged, Kept, FinalMappings, WellFormed, Complete, Pinned, TargetOf, Lands, ServedBy, SameButKeys, LabelFor, Quotients.ContentFixesServers;
    var t := NodeAt(o, i, canonical, nodes, remap, kept, final, order, p, k);
    var r0 := EdgeBefore(o, nodes, remap, kept, t, r);
    OriginFacts(i, canonical, nodes, t);
    assert Pinned(nodes, r0) && Explained(i, canonical, nodes[t], r0);
    if e :| e in i.byId[nodes[t].sourceId].relations && Rewrites(i, canonical, e, r0) {
      LandsAtDestination(i, canonical, remap, p, e.target);
    } else {
      PinnedIn(nodes, r0);
      OriginFacts(i, canonical, nodes, r0.target);
      LandedServer(o, i, canonical, nodes, remap, kept, final, order, p, r0.target);
      ExpertKind(i, canonical, nodes, t);
    }
  }

  lemma PinnedIn(nodes: map<Id, Draft>, r: Relation)
    requires Pinned(nodes, r)
    ensures r.target in nodes
  {
  }

  lemma ExpertKind(i: Input, canonical: map<Id, Id>, nodes: map<Id, Draft>, t: Id)
    requires Arranged(i, canonical, nodes) && t in nodes && nodes[t].plugin.kind == Expert
    ensures !t.Extracted? && nodes[t].sourceId in i.byId && i.byId[nodes[t].sourceId].plugin.kind == Expert
  {
    hide Arranged, Complete, Explained, Pinned, TargetOf;
    OriginFacts(i, canonical, nodes, t);
  }

  lemma BuiltEdgesKept(o: Oracles, i: Input, canonical: map<Id, Id>, nodes: map<Id, Draft>, remap: map<Id, Id>, kept: map<Id, Draft>,
                       final: map<Id, Draft>, order: seq<Id>, p: Plan, k: nat)
    requires Built(o, i, canonical, nodes, remap, kept, final, order, p) && Quotients.ContentFixesServers(o)
    requires AllResolve(i, nodes) && k < |p.nodes|
    ensures p.nodes[k].sourceId in i.byId && EdgesKept(i, p, p.nodes[k])
  {
    hide Built, Arranged, Kept, FinalMappings, WellFormed, Explained, Complete, Pinned, TargetOf, ServedBy, Lands, AllResolve, SameButKeys, LabelFor,
      Quotients.ContentFixesServers;
    var t := NodeAt(o, i, canonical, nodes, remap, kept, final, order, p, k);
    OriginFacts(i, canonical, nodes, t);
    if t.Extracted? {
      NoEdges(o, nodes, remap, kept, t);
    } else if !DraftNode(p.nodes[k]) {
      LiveEdgesKept(o, i, canonical, nodes, remap, kept, final, order, p, t);
    }
  }

  lemma LiveEdgesKept(o: Oracles, i: Input, canonical: map<Id, Id>, nodes: map<Id, Draft>, remap: map<Id, Id>, kept: map<Id, Draft>,
                      final: map<Id, Draft>, order: seq<Id>, p: Plan, t: Id)
    requires Built(o, i, canonical, nodes, remap, kept, final, order, p) && Quotients.ContentFixesServers(o)
    requires AllResolve(i, nodes) && t in kept && t in nodes && !t.Extracted? && !Unfinished(nodes[t]) && nodes[t].sourceId in i.byId
    requires nodes[t].plugin.kind == i.byId[nodes[t].sourceId].plugin.kind
    ensures forall e :: e in i.byId[nodes[t].sourceId].relations && e.live ==>
              exists r :: r in kept[t].relations && r.kind == e.kind && Lands(p, e.target, r.target)
    ensures nodes[t].plugin.kind == Expert ==> forall s :: s in ServersIn(i, nodes[t].sourceId) ==>
              exists r :: r in kept[t].relations && r.kind == ExpertConnector && ServedBy(i, p, nodes[t].sourceId, s, r.target)
  {
    hide Arranged, Kept, FinalMappings, Finished, WellFormed, Lands, ServedBy, ServersIn, AllResolve, Quotients.ContentFixesServers;
    forall e | e in i.byId[nodes[t].sourceId].relations && e.live
      ensures exists r :: r in kept[t].relations && r.kind == e.kind && Lands(p, e.target, r.target)
    {
      SourceEdgeKept(o, i, canonical, nodes, remap, kept, p, t, e);
    }
    if nodes[t].plugin.kind == Expert {
      forall s | s in ServersIn(i, nodes[t].sourceId)
        ensures exists r :: r in kept[t].relations && r.kind == ExpertConnector && ServedBy(i, p, nodes[t].sourceId, s, r.target)
      {
        ServerEdgeKept(o, i, canonical, nodes, remap, kept, final, order, p, t, s);
      }
    }
  }

  lemma NoEdges(o: Oracles, nodes: map<Id, Draft>, remap: map<Id, Id>, kept: map<Id, Draft>, t: Id)
    requires Kept(o, nodes, remap, kept) && t in kept && t in nodes && nodes[t].relations == []
    ensures kept[t].relations == []
  {
    hide Quotients.Quotient, Quotients.FoldedInto;
  }

  lemma SourceEdgeKept(o: Oracles, i: Input, canonical: map<Id, Id>, nodes: map<Id, Draft>, remap: map<Id, Id>, kept: map<Id, Draft>, p: Plan, t: Id, e: SourceEdge)
    requires WellFormed(i) && Arranged(i, canonical, nodes) && Kept(o, nodes, remap, kept) && FinalMappings(i, canonical, remap, p.mappings)
    requires AllResolve(i, nodes) && t in kept && t in nodes && !t.Extracted? && !Unfinished(nodes[t])
    requires nodes[t].sourceId in i.byId && e in i.byId[nodes[t].sourceId].relations && e.live
    ensures exists r :: r in kept[t].relations && r.kind == e.kind && Lands(p, e.target, r.target)
  {
    hide Arranged, Kept, FinalMappings, WellFormed, Explained, Pinned, TargetOf, Lands, ValidEdge;
    OriginFacts(i, canonical, nodes, t);
    assert EdgesResolve(i, nodes[t]);
    var r0 :| r0 in nodes[t].relations && Rewrites(i, canonical, e, r0);
    var r := KeptEdge(o, nodes, remap, kept, t, r0);
    LandsAtDestination(i, canonical, remap, p, e.target);
  }

  lemma ServerEdgeKept(o: Oracles, i: Input, canonical: map<Id, Id>, nodes: map<Id, Draft>, remap: map<Id, Id>, kept: map<Id, Draft>,
                       final: map<Id, Draft>, order: seq<Id>, p: Plan, t: Id, s: string)
    requires Built(o, i, canonical, nodes, remap, kept, final, order, p) && Quotients.ContentFixesServers(o)
    requires t in kept && t in nodes && !t.Extracted? && nodes[t].plugin.kind == Expert && s in ServersIn(i, nodes[t].sourceId)
    ensures exists r :: r in kept[t].relations && r.kind == ExpertConnector && ServedBy(i, p, nodes[t].sourceId, s, r.target)
  {
    hide Arranged, Kept, FinalMappings, Finished, WellFormed, Explained, TargetOf, ServedBy, ServersIn, LabelFor, Quotients.ContentFixesServers;
    OriginFacts(i, canonical, nodes, t);
    var r0 :| r0 in nodes[t].relations && r0.kind == ExpertConnector && r0.target == Extracted(nodes[t].sourceId, s);
    var r := KeptEdge(o, nodes, remap, kept, t, r0);
    assert Pinned(nodes, r0);
    OriginFacts(i, canonical, nodes, r0.target);
    LandedServer(o, i, canonical, nodes, remap, kept, final, order, p, r0.target);
  }

  lemma BuiltPinsHold(o: Oracles, i: Input, canonical: map<Id, Id>, nodes: map<Id, Draft>, remap: map<Id, Id>, kept: map<Id, Draft>,
                      final: map<Id, Draft>, order: seq<Id>, p: Plan)
    requires Built(o, i, canonical, nodes, remap, kept, final, order, p)
    ensures PinsHold(p)
  {
    hide Built, Arranged, Kept, FinalMappings, WellFormed, SameButKeys;
    forall n, r | n in p.nodes && r in n.relations
      ensures exists k :: 0 <= k < |p.nodes| && p.nodes[k].id == r.target && p.nodes[k].versionId == r.targetVersion
    {
      var h :| 0 <= h < |p.nodes| && p.nodes[h] == n;
      var t := NodeAt(o, i, canonical, nodes, remap, kept, final, order, p, h);
      KeptPin(o, i, canonical, nodes, remap, kept, t, r);
      var k := InPlan(o, i, canonical, nodes, remap, kept, final, order, p, r.target);
      var u := NodeAt(o, i, canonical, nodes, remap, kept, final, order, p, k);
      KeptNode(o, nodes, remap, kept, u);
    }
  }

  /** An edge of a kept node leads to a kept node and is pinned to its version. */
  lemma KeptPin(o: Oracles, i: Input, canonical: map<Id, Id>, nodes: map<Id, Draft>, remap: map<Id, Id>, kept: map<Id, Draft>, t: Id, r: Relation)
    requires Arranged(i, canonical, nodes) && Kept(o, nodes, remap, kept) && t in kept && r in kept[t].relations
    ensures r.target in kept && kept[r.target].versionId == r.targetVersion
  {
    hide Arranged, Kept, Explained, Complete, TargetOf, LabelFor;
    var r0 := EdgeBefore(o, nodes, remap, kept, t, r);
    OriginFacts(i, canonical, nodes, t);
    assert Pinned(nodes, r0);
    LandingVersion(o, i, canonical, nodes, remap, kept, r0.target);
  }

  /** What the passes build without issues is the input, rewritten. */
  lemma BuiltIsFaithful(o: Oracles, i: Input, canonical: map<Id, Id>, nodes: map<Id, Draft>, remap: map<Id, Id>, kept: map<Id, Draft>,
                        final: map<Id, Draft>, order: seq<Id>, p: Plan)
    requires Built(o, i, canonical, nodes, remap, kept, final, order, p) && CanonicalMap(i, canonical) && Quotients.ContentFixesServers(o)
    requires AllResolve(i, nodes)
    ensures Faithful(i, p)
  {
    hide Built, CanonicalMap, Quotients.ContentFixesServers, AllResolve, ResourcesPlanned, NodeExplained, EdgesKept, EdgeExplained, PinsHold;
    BuiltResourcesPlanned(o, i, canonical, nodes, remap, kept, final, order, p);
    BuiltPinsHold(o, i, canonical, nodes, remap, kept, final, order, p);
    forall n | n in p.nodes
      ensures n.sourceId in i.byId && NodeExplained(i, p, n) && EdgesKept(i, p, n) && forall r :: r in n.relations ==> EdgeExplained(i, p, n, r)
    {
      var k :| 0 <= k < |p.nodes| && p.nodes[k] == n;
      BuiltNodeExplained(o, i, canonical, nodes, remap, kept, final, order, p, k);
      BuiltEdgesKept(o, i, canonical, nodes, remap, kept, final, order, p, k);
      forall r | r in n.relations
        ensures EdgeExplained(i, p, n, r)
      {
        BuiltEdgeExplained(o, i, canonical, nodes, remap, kept, final, order, p, k, r);
      }
    }
  }
}
