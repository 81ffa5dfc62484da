/** From captured resources to planned nodes: target identities, one node per
    canonical resource, rewritten edges, and one connector node per MCP server of an
    expert. internal/migration/plan.go:211-422 and plan_mcp.go. */
module PlannerNodes {
  import opened Options
  import FiniteSets
  import opened Tables
  import opened MigrationPlan
  import opened PlannerTypes
  import opened SkillCanonical
  import VersionLabels

  /** The canonical map covers the active skills and is idempotent. */
  ghost predicate CanonicalMap(i: Input, canonical: map<Id, Id>) {
    && (forall x :: x in canonical <==> x in i.byId && GroupedSkill(i.byId[x]))
    && (forall x :: x in canonical ==>
          && canonical[x] in canonical && canonical[canonical[x]] == canonical[x]
          && StandsFor(i.byId[canonical[x]].plugin, i.byId[x].plugin))
  }

  predicate ActiveId(i: Input, x: Id) {
    x in i.byId && Active(i.byId[x])
  }

  function Representing(canonical: map<Id, Id>, x: Id): Id {
    if x in canonical then canonical[x] else x
  }

  predicate Represents(canonical: map<Id, Id>, x: Id) {
    Representing(canonical, x) == x
  }

  /** The identity that `x` is converted to, before connectors are folded. */
  function TargetOf(i: Input, canonical: map<Id, Id>, x: Id): Id {
    var c := Representing(canonical, x);
    if c !in i.byId then c
    else
      var p := i.byId[c].plugin;
      if p.embedded || p.kind == Skill || p.kind == Connector then Converted(c, ScopeOf(p)) else c
  }

  function VersionOf(i: Input, canonical: map<Id, Id>, x: Id): Option<VersionId> {
    var c := Representing(canonical, x);
    if c in i.byId && i.byId[c].plugin.kind != Connector then Some(Minted(TargetOf(i, canonical, x))) else None
  }

  function DispositionOf(canonical: map<Id, Id>, r: Resource): string {
    if Active(r) then (if Represents(canonical, r.id) then "converted" else "canonical_reuse")
    else if !r.deleted then "pending_review" else "deleted_history"
  }

  function MappingOf(i: Input, canonical: map<Id, Id>, x: Id): Mapping
    requires x in i.byId
  {
    var r := i.byId[x];
    if Active(r) then Mapping(x, Some(TargetOf(i, canonical, x)), VersionOf(i, canonical, x), DispositionOf(canonical, r))
    else Mapping(x, None, None, DispositionOf(canonical, r))
  }

  /** A resource whose content was published, whether or not it is listed now. */
  predicate IsReleased(r: Resource) {
    r.plugin.listing == Published || r.published.Some?
  }

  function BaseDraft(i: Input, canonical: map<Id, Id>, x: Id, text: string): Draft
    requires x in i.byId
  {
    var r := i.byId[x];
    Draft(TargetOf(i, canonical, x), x, r.plugin, r.updatedAt, r.plugin.(embedded := false), [], {},
          VersionOf(i, canonical, x), text, IsReleased(r))
  }

  /** No label can follow those that the resource has carried. */
  ghost predicate LabelsExhausted(i: Input, x: Id)
    requires x in i.byId && x.Source?
  {
    VersionLabels.Exhausted(x.key, i.byId[x].currentVersion, i.versions, i.releases)
  }

  /** `text` is the label that follows all those the resource has carried, or empty when there is none. */
  ghost predicate LabelFor(i: Input, x: Id, text: string)
    requires x in i.byId && x.Source?
  {
    && (text == "" <==> LabelsExhausted(i, x))
    && (text != "" ==>
          && VersionLabels.ReleasableLabel(text)
          && VersionLabels.IsNext(x.key, i.byId[x].currentVersion, i.versions, i.releases, VersionLabels.Parse(text).value)
          && forall earlier :: VersionLabels.Carried(x.key, i.byId[x].currentVersion, i.versions, i.releases, earlier) ==>
               VersionLabels.VersionAdvanced(earlier, text))
  }

  /** Two resources that stand for themselves never share a target. */
  lemma TargetsDistinct(i: Input, canonical: map<Id, Id>, x: Id, y: Id)
    requires WellFormed(i) && CanonicalMap(i, canonical)
    requires ActiveId(i, x) && ActiveId(i, y) && Represents(canonical, x) && Represents(canonical, y)
    requires TargetOf(i, canonical, x) == TargetOf(i, canonical, y)
    ensures x == y
  {
  }

  /** A resource shares its target with the resource that represents it. */
  lemma TargetOfRepresentative(i: Input, canonical: map<Id, Id>, x: Id)
    requires CanonicalMap(i, canonical) && ActiveId(i, x)
    ensures var c := Representing(canonical, x);
            ActiveId(i, c) && Represents(canonical, c) && TargetOf(i, canonical, c) == TargetOf(i, canonical, x)
  {
  }

  // ------------------------------------------------------------ base nodes

  ghost predicate BaseNodes(i: Input, canonical: map<Id, Id>, ids: seq<Id>, nodes: map<Id, Draft>) {
    && (forall x :: x in ids && ActiveId(i, x) && Represents(canonical, x) ==> TargetOf(i, canonical, x) in nodes)
    && (forall t :: t in nodes ==>
          && nodes[t].sourceId in ids && ActiveId(i, nodes[t].sourceId) && Represents(canonical, nodes[t].sourceId)
          && nodes[t].id == t && nodes[t] == BaseDraft(i, canonical, nodes[t].sourceId, nodes[t].versionLabel)
          && nodes[t].sourceId.Source? && LabelFor(i, nodes[t].sourceId, nodes[t].versionLabel))
  }

  lemma BaseAdd(i: Input, canonical: map<Id, Id>, ids: seq<Id>, nodes: map<Id, Draft>, x: Id, text: string)
    requires BaseNodes(i, canonical, ids, nodes) && ActiveId(i, x) && Represents(canonical, x) && x.Source? && LabelFor(i, x, text)
    ensures BaseNodes(i, canonical, ids + [x], nodes[TargetOf(i, canonical, x) := BaseDraft(i, canonical, x, text)])
  {
    hide TargetOf, VersionOf, LabelFor;
  }

  /** A node that needs a label and has none. */
  predicate Unlabelled(d: Draft) {
    d.versionId.Some? && d.versionLabel == ""
  }

  ghost predicate AllLabelled(nodes: map<Id, Draft>) {
    forall t :: t in nodes ==> !Unlabelled(nodes[t])
  }

  lemma BaseSkip(i: Input, canonical: map<Id, Id>, ids: seq<Id>, nodes: map<Id, Draft>, x: Id)
    requires BaseNodes(i, canonical, ids, nodes)
    requires ActiveId(i, x) && Represents(canonical, x) ==> TargetOf(i, canonical, x) in nodes
    ensures BaseNodes(i, canonical, ids + [x], nodes)
  {
    hide TargetOf, BaseDraft, LabelFor;
  }

  /** internal/migration/plan.go:231-310. */
  method MakeNodes(i: Input, canonical: map<Id, Id>) returns (nodes: map<Id, Draft>, mappings: seq<Mapping>, issues: seq<Issue>)
    requires WellFormed(i) && CanonicalMap(i, canonical)
    ensures BaseNodes(i, canonical, i.order, nodes)
    ensures |mappings| == |i.order| && forall h :: 0 <= h < |i.order| ==> mappings[h] == MappingOf(i, canonical, i.order[h])
    ensures issues == [] <==> (forall x :: x in i.byId && !Active(i.byId[x]) ==> i.byId[x].deleted) && AllLabelled(nodes)
  {
    hide TargetOf, VersionOf, DispositionOf, BaseNodes, BaseDraft, MappingOf, CanonicalMap, LabelFor, Unlabelled;
    assert BaseNodes(i, canonical, i.order[..0], map[]) by { NoBaseNodes(i, canonical); }
    nodes, mappings, issues := map[], [], [];
    var h := 0;
    while h < |i.order|
      invariant 0 <= h <= |i.order|
      invariant BaseNodes(i, canonical, i.order[..h], nodes)
      invariant |mappings| == h && forall k :: 0 <= k < h ==> mappings[k] == MappingOf(i, canonical, i.order[k])
      invariant issues == [] <==> (forall k :: 0 <= k < h && !Active(i.byId[i.order[k]]) ==> i.byId[i.order[k]].deleted) && AllLabelled(nodes)
    {
      var x := i.order[h];
      var r := i.byId[x];
      assert i.order[..h + 1] == i.order[..h] + [x];
      mappings := mappings + [MappingOf(i, canonical, x)];
      if !Active(r) {
        if !r.deleted {
          issues := issues + [Issue(x, "pending_review")];
        }
        BaseSkip(i, canonical, i.order[..h], nodes, x);
      } else if TargetOf(i, canonical, x) in nodes || !Represents(canonical, x) {
        BaseSkip(i, canonical, i.order[..h], nodes, x);
      } else {
        var text := VersionLabels.NextLabel(x.key, r.currentVersion, i.versions, i.releases);
        LabelIntro(i, x, text);
        BaseAdd(i, canonical, i.order[..h], nodes, x, text);
        var d := BaseDraft(i, canonical, x, text);
        LabelledStep(nodes, TargetOf(i, canonical, x), d);
        if Unlabelled(d) {
          issues := issues + [Issue(x, "version_label_exhausted")];
        }
        nodes := nodes[TargetOf(i, canonical, x) := d];
      }
      h := h + 1;
    }
    assert i.order[..h] == i.order;
  }

  lemma LabelIntro(i: Input, x: Id, text: string)
    requires x in i.byId && x.Source? && (text == "" <==> LabelsExhausted(i, x))
    requires text != "" ==>
               && VersionLabels.ReleasableLabel(text)
               && VersionLabels.IsNext(x.key, i.byId[x].currentVersion, i.versions, i.releases, VersionLabels.Parse(text).value)
               && forall earlier :: VersionLabels.Carried(x.key, i.byId[x].currentVersion, i.versions, i.releases, earlier) ==>
                    VersionLabels.VersionAdvanced(earlier, text)
    ensures LabelFor(i, x, text)
  {
  }

  lemma LabelledStep(nodes: map<Id, Draft>, t: Id, d: Draft)
    requires t !in nodes
    ensures AllLabelled(nodes[t := d]) <==> AllLabelled(nodes) && !Unlabelled(d)
  {
    hide Unlabelled;
    var next := nodes[t := d];
    assert next[t] == d && forall x :: x in nodes ==> next[x] == nodes[x];
  }

  lemma NoBaseNodes(i: Input, canonical: map<Id, Id>)
    ensures BaseNodes(i, canonical, i.order[..0], map[])
  {
  }

  // ----------------------------------------------------------------- edges

  function Edges(i: Input, canonical: map<Id, Id>, owner: Id, edges: seq<SourceEdge>): seq<Relation> {
    if edges == [] then []
    else
      var rest := Edges(i, canonical, owner, edges[..|edges| - 1]);
      var e := edges[|edges| - 1];
      if e.live && ActiveId(i, e.target)
      then
        var t := TargetOf(i, canonical, e.target);
        rest + [Relation(Rewritten(owner, e.id, e.kind, t), e.kind, t, VersionOf(i, canonical, e.target))]
      else rest
  }

  predicate ValidEdge(i: Input, owner: Kind, e: SourceEdge)
    requires e.target in i.byId
  {
    var kind := i.byId[e.target].plugin.kind;
    && e.targetKind == kind
    && ((owner == Expert && e.kind == ExpertSkill && kind == Skill)
        || (owner == Expert && e.kind == ExpertConnector && kind == Connector)
        || (owner == Team && e.kind == TeamExpert && kind == Expert))
  }

  /** internal/migration/plan.go:551-572: whether `parent` may refer to `child`. */
  predicate Accessible(parent: Plugin, child: Plugin) {
    if !SharedActive(child) then
      && parent.status == child.status && parent.listing == child.listing && parent.owner == child.owner
      && (if child.visibility == System then parent.visibility == System
          else parent.visibility != System && parent.space.Some? && parent.space == child.space)
    else if child.visibility == System then true
    else if parent.visibility == System || child.space.None? || parent.space != child.space then false
    else child.visibility != Private || (parent.visibility == Private && child.owner == parent.owner)
  }

  /** Who is offered a shared and active resource. */
  predicate Offered(p: Plugin, user: string, space: string) {
    match p.visibility
    case System => true
    case Space => p.space == Some(space)
    case Private => p.space == Some(space) && p.owner == user
  }

  /** Whoever is offered a resource is offered everything it may refer to. */
  lemma ReferencesAreOffered(parent: Plugin, child: Plugin, user: string, space: string)
    requires Accessible(parent, child) && Offered(parent, user, space)
    ensures SharedActive(child) ==> Offered(child, user, space)
    ensures !SharedActive(child) && child.owner == user ==> parent.owner == user && !SharedActive(parent)
  {
  }

  /** A live edge that can be kept: its target is active, of the right type and accessible. */
  predicate Resolves(i: Input, d: Draft, e: SourceEdge) {
    ActiveId(i, e.target) && ValidEdge(i, d.plugin.kind, e) && Accessible(d.plugin, i.byId[e.target].plugin)
  }

  /** internal/migration/plan.go:323-387: identities, types and access. */
  method RewriteEdges(i: Input, canonical: map<Id, Id>, d: Draft) returns (relations: seq<Relation>, issues: seq<Issue>)
    requires d.sourceId in i.byId
    ensures relations == Edges(i, canonical, d.id, i.byId[d.sourceId].relations)
    ensures issues == [] <==> forall e :: e in i.byId[d.sourceId].relations && e.live ==> Resolves(i, d, e)
  {
    hide TargetOf, VersionOf, Accessible;
    var edges := i.byId[d.sourceId].relations;
    relations, issues := [], [];
    var h := 0;
    while h < |edges|
      invariant 0 <= h <= |edges|
      invariant relations == Edges(i, canonical, d.id, edges[..h])
      invariant issues == [] <==> forall k :: 0 <= k < h && edges[k].live ==> Resolves(i, d, edges[k])
    {
      assert edges[..h + 1][..h] == edges[..h];
      var e := edges[h];
      if e.live {
        if !ActiveId(i, e.target) {
          issues := issues + [Issue(d.sourceId, "missing_target")];
        } else {
          if !ValidEdge(i, d.plugin.kind, e) {
            issues := issues + [Issue(d.sourceId, "relation_type_invalid")];
          }
          if !Accessible(d.plugin, i.byId[e.target].plugin) {
            issues := issues + [Issue(d.sourceId, "scope_conflict")];
          }
          var t := TargetOf(i, canonical, e.target);
          relations := relations + [Relation(Rewritten(d.id, e.id, e.kind, t), e.kind, t, VersionOf(i, canonical, e.target))];
        }
      }
      h := h + 1;
    }
    assert edges[..h] == edges;
  }

  /** `r` is source edge `e`, rewritten: same kind, leading to the target of an active
      resource and pinned to its version. */
  ghost predicate Rewrites(i: Input, canonical: map<Id, Id>, e: SourceEdge, r: Relation) {
    && e.live && ActiveId(i, e.target)
    && r.kind == e.kind && r.target == TargetOf(i, canonical, e.target) && r.targetVersion == VersionOf(i, canonical, e.target)
  }

  /** Every edge of a rewritten node is one of its source's live edges. */
  lemma {:induction false} EdgeTargets(i: Input, canonical: map<Id, Id>, owner: Id, edges: seq<SourceEdge>, r: Relation)
    requires r in Edges(i, canonical, owner, edges)
    ensures exists e :: e in edges && Rewrites(i, canonical, e, r)
  {
    hide TargetOf, VersionOf;
    var n := |edges| - 1;
    if r in Edges(i, canonical, owner, edges[..n]) {
      EdgeTargets(i, canonical, owner, edges[..n], r);
      var e :| e in edges[..n] && Rewrites(i, canonical, e, r);
      assert e in edges;
    } else {
      assert edges[n] in edges && Rewrites(i, canonical, edges[n], r);
    }
  }

  /** And every live edge to an active resource is there. */
  lemma {:induction false} EdgesComplete(i: Input, canonical: map<Id, Id>, owner: Id, edges: seq<SourceEdge>, e: SourceEdge)
    requires e in edges && e.live && ActiveId(i, e.target)
    ensures exists r :: r in Edges(i, canonical, owner, edges) && Rewrites(i, canonical, e, r)
  {
    hide TargetOf, VersionOf;
    var n := |edges| - 1;
    if e == edges[n] {
      var all := Edges(i, canonical, owner, edges);
      assert Rewrites(i, canonical, e, all[|all| - 1]);
    } else {
      assert edges == edges[..n] + [edges[n]];
      EdgesComplete(i, canonical, owner, edges[..n], e);
      var r :| r in Edges(i, canonical, owner, edges[..n]) && Rewrites(i, canonical, e, r);
      assert r in Edges(i, canonical, owner, edges);
    }
  }

  /** A base node with its edges; an unfinished draft gets none. */
  function Connected(i: Input, canonical: map<Id, Id>, d: Draft): Draft
    requires d.sourceId in i.byId
  {
    if Unfinished(d) then d else d.(relations := Edges(i, canonical, d.id, i.byId[d.sourceId].relations))
  }

  /** Every live edge of the node's source can be kept. */
  ghost predicate EdgesResolve(i: Input, d: Draft)
    requires d.sourceId in i.byId
  {
    forall e :: e in i.byId[d.sourceId].relations && e.live ==> Resolves(i, d, e)
  }

  /** internal/migration/plan.go:312-401. */
  method ConnectNodes(i: Input, canonical: map<Id, Id>, nodes: map<Id, Draft>) returns (connected: map<Id, Draft>, issues: seq<Issue>)
    requires forall t :: t in nodes ==> nodes[t].sourceId in i.byId
    ensures connected.Keys == nodes.Keys
    ensures forall t :: t in nodes ==> connected[t] == Connected(i, canonical, nodes[t])
    ensures issues == [] <==> forall t :: t in nodes && !Unfinished(nodes[t]) ==> EdgesResolve(i, nodes[t])
  {
    hide Edges, Resolves, ActiveId, FiniteSets.Splits, EdgesResolve, Connected, Unfinished, ConnectedAll;
    connected, issues := map[], [];
    NothingConnected(i, canonical, nodes);
    var pending := nodes.Keys;
    ghost var done: set<Id> := {};
    FiniteSets.Start(nodes.Keys);
    while pending != {}
      invariant FiniteSets.Splits(nodes.Keys, done, pending) && connected.Keys == done
      invariant ConnectedAll(i, canonical, nodes, connected, issues == [])
      decreases |pending|
    {
      var t :| t in pending;
      FiniteSets.Step(nodes.Keys, done, pending, t);
      var d, found := ConnectNode(i, canonical, nodes[t]);
      ConnectedStep(i, canonical, nodes, connected, issues == [], t, d, found == []);
      connected := connected[t := d];
      issues := issues + found;
      pending := pending - {t};
      done := done + {t};
    }
    FiniteSets.End(nodes.Keys, done);
    EveryoneConnected(i, canonical, nodes, connected, issues == []);
  }

  lemma NothingConnected(i: Input, canonical: map<Id, Id>, nodes: map<Id, Draft>)
    ensures ConnectedAll(i, canonical, nodes, map[], true)
  {
  }

  lemma EveryoneConnected(i: Input, canonical: map<Id, Id>, nodes: map<Id, Draft>, connected: map<Id, Draft>, clean: bool)
    requires ConnectedAll(i, canonical, nodes, connected, clean) && connected.Keys == nodes.Keys
    ensures forall t :: t in nodes ==> nodes[t].sourceId in i.byId && connected[t] == Connected(i, canonical, nodes[t])
    ensures clean <==> forall t :: t in nodes && !Unfinished(nodes[t]) ==> EdgesResolve(i, nodes[t])
  {
    hide Connected, EdgesResolve, Unfinished;
  }

  method ConnectNode(i: Input, canonical: map<Id, Id>, d: Draft) returns (connected: Draft, issues: seq<Issue>)
    requires d.sourceId in i.byId
    ensures connected == Connected(i, canonical, d)
    ensures issues == [] <==> Unfinished(d) || EdgesResolve(i, d)
  {
    hide Edges, Resolves, ActiveId;
    connected, issues := d, [];
    if !Unfinished(d) {
      var relations;
      relations, issues := RewriteEdges(i, canonical, d);
      connected := d.(relations := relations);
    }
  }

  ghost predicate ConnectedAll(i: Input, canonical: map<Id, Id>, nodes: map<Id, Draft>, connected: map<Id, Draft>, clean: bool) {
    && (forall t :: t in connected ==> t in nodes && nodes[t].sourceId in i.byId && connected[t] == Connected(i, canonical, nodes[t]))
    && (clean <==> forall t :: t in connected ==> t in nodes && nodes[t].sourceId in i.byId && (Unfinished(nodes[t]) || EdgesResolve(i, nodes[t])))
  }

  lemma ConnectedStep(i: Input, canonical: map<Id, Id>, nodes: map<Id, Draft>, connected: map<Id, Draft>, clean: bool, t: Id, d: Draft, found: bool)
    requires ConnectedAll(i, canonical, nodes, connected, clean) && t in nodes && nodes[t].sourceId in i.byId
    requires d == Connected(i, canonical, nodes[t]) && t !in connected && (found <==> Unfinished(nodes[t]) || EdgesResolve(i, nodes[t]))
    ensures ConnectedAll(i, canonical, nodes, connected[t := d], clean && found)
  {
    hide Edges, EdgesResolve;
  }

  // ------------------------------------------------------------ extraction

  function ServerDraft(d: Draft, server: string, config: string): Draft {
    Draft(Extracted(d.sourceId, server), d.sourceId, d.source, d.updatedAt,
          d.plugin.(kind := Connector, name := server, servers := Some(map[server := config])), [], {}, None, "", d.release)
  }

  function LinkTo(d: Draft, server: string): Relation {
    Relation(ServerLink(d.id, server), ExpertConnector, Extracted(d.sourceId, server), None)
  }

  function ServersOf(d: Draft): map<string, string> {
    if d.plugin.kind == Expert && d.plugin.servers.Some? then d.plugin.servers.value else map[]
  }

  /** `after` is expert `d` once its servers have been split off. */
  ghost predicate Split(d: Draft, after: Draft) {
    && (d.plugin.kind != Expert ==> after == d)
    && (d.plugin.kind == Expert ==>
          && after == d.(plugin := d.plugin.(servers := None), relations := after.relations)
          && d.relations <= after.relations
          && LinksAdded(d, ServersOf(d).Keys, after.relations))
  }

  /** After its own edges come the links to `servers`, each exactly once. */
  ghost predicate LinksAdded(d: Draft, servers: set<string>, relations: seq<Relation>) {
    var n := |d.relations|;
    && d.relations <= relations && |relations| == n + |servers|
    && (forall s :: s in servers ==> LinkTo(d, s) in relations[n..])
    && (forall i :: n <= i < |relations| ==> exists s :: s in servers && relations[i] == LinkTo(d, s))
    && (forall i, j :: n <= i < j < |relations| ==> relations[i] != relations[j])
  }

  lemma LinksDiffer(d: Draft, a: string, b: string)
    requires a != b
    ensures LinkTo(d, a) != LinkTo(d, b)
  {
  }

  lemma LinksAddedStep(d: Draft, servers: set<string>, relations: seq<Relation>, s: string)
    requires LinksAdded(d, servers, relations) && s !in servers
    ensures LinksAdded(d, servers + {s}, relations + [LinkTo(d, s)])
  {
    hide LinkTo;
    var n, all := |d.relations|, relations + [LinkTo(d, s)];
    assert all[n..] == relations[n..] + [LinkTo(d, s)];
    forall i | n <= i < |all|
      ensures exists x :: x in servers + {s} && all[i] == LinkTo(d, x)
    {
      if i < |relations| {
        var x :| x in servers && relations[i] == LinkTo(d, x);
        assert x in servers + {s};
      }
    }
    forall x | x in servers
      ensures LinkTo(d, x) != LinkTo(d, s)
    {
      LinksDiffer(d, x, s);
    }
    assert forall i :: n <= i < |relations| ==> relations[i] != LinkTo(d, s);
  }

  /** The edges of a split expert: its own, and one link to each server. */
  lemma LinksMeaning(d: Draft, servers: set<string>, relations: seq<Relation>, r: Relation)
    requires LinksAdded(d, servers, relations)
    ensures r in relations <==> r in d.relations || exists s :: s in servers && r == LinkTo(d, s)
  {
    var n := |d.relations|;
    assert relations == d.relations + relations[n..];
    if r in relations[n..] {
      var i :| 0 <= i < |relations[n..]| && relations[n..][i] == r;
      assert relations[n + i] == r;
    }
  }

  /** internal/migration/plan_mcp.go `extractMCP` for one expert. */
  method ExtractServers(d: Draft) returns (after: Draft, extracted: map<Id, Draft>)
    requires d.plugin.kind == Expert
    ensures Split(d, after) && ServersExtracted(d, extracted)
  {
    extracted := map[];
    var servers := ServersOf(d);
    var relations := d.relations;
    var pending := servers.Keys;
    ghost var done: set<string> := {};
    FiniteSets.Start(servers.Keys);
    while pending != {}
      invariant FiniteSets.Splits(servers.Keys, done, pending)
      invariant LinksAdded(d, done, relations)
      invariant ExtractedFor(d, done, extracted)
      decreases |pending|
    {
      hide LinksAdded, FiniteSets.Splits, LinkTo, ServerDraft, ExtractedFor;
      var s :| s in pending;
      FiniteSets.Step(servers.Keys, done, pending, s);
      LinksAddedStep(d, done, relations, s);
      ExtractedStep(d, done, extracted, s);
      relations := relations + [LinkTo(d, s)];
      extracted := extracted[Extracted(d.sourceId, s) := ServerDraft(d, s, servers[s])];
      pending := pending - {s};
      done := done + {s};
    }
    FiniteSets.End(servers.Keys, done);
    after := d.(plugin := d.plugin.(servers := None), relations := relations);
  }

  /** Node `t` is one of the server nodes of an expert in `experts`. */
  ghost predicate ServerNode(experts: map<Id, Draft>, done: set<Id>, t: Id, node: Draft) {
    exists e :: e in done && e in experts && t.Extracted? && t.source == experts[e].sourceId && t.server in ServersOf(experts[e])
                && node == ServerDraft(experts[e], t.server, ServersOf(experts[e])[t.server])
  }

  ghost predicate BaseSplit(before: map<Id, Draft>, done: set<Id>, nodes: map<Id, Draft>) {
    forall t :: t in before ==> t in nodes && if t in done then Split(before[t], nodes[t]) else nodes[t] == before[t]
  }

  ghost predicate OnlyServersAdded(before: map<Id, Draft>, done: set<Id>, nodes: map<Id, Draft>) {
    forall t :: t in nodes && t !in before ==> ServerNode(before, done, t, nodes[t])
  }

  ghost predicate AllServersAdded(before: map<Id, Draft>, done: set<Id>, nodes: map<Id, Draft>) {
    forall e, s :: e in done && e in before && s in ServersOf(before[e]) ==> Extracted(before[e].sourceId, s) in nodes
  }

  /** The nodes once the experts in `done` have been split. */
  ghost predicate SplitNodes(before: map<Id, Draft>, done: set<Id>, nodes: map<Id, Draft>) {
    BaseSplit(before, done, nodes) && OnlyServersAdded(before, done, nodes) && AllServersAdded(before, done, nodes)
  }

  /** The server nodes of one expert. */
  ghost predicate ServersExtracted(d: Draft, extracted: map<Id, Draft>) {
    ExtractedFor(d, ServersOf(d).Keys, extracted)
  }

  ghost predicate ExtractedFor(d: Draft, servers: set<string>, extracted: map<Id, Draft>) {
    && servers <= ServersOf(d).Keys
    && (forall t :: t in extracted <==> t.Extracted? && t.source == d.sourceId && t.server in servers)
    && (forall t :: t in extracted ==> extracted[t] == ServerDraft(d, t.server, ServersOf(d)[t.server]))
  }

  lemma ExtractedStep(d: Draft, servers: set<string>, extracted: map<Id, Draft>, s: string)
    requires ExtractedFor(d, servers, extracted) && s in ServersOf(d)
    ensures ExtractedFor(d, servers + {s}, extracted[Extracted(d.sourceId, s) := ServerDraft(d, s, ServersOf(d)[s])])
  {
    hide ServerDraft;
  }

  /** Base nodes: none is itself extracted, and each has a source of its own. */
  ghost predicate OwnSources(before: map<Id, Draft>) {
    && (forall t :: t in before ==> !t.Extracted?)
    && (forall a, b :: a in before && b in before && before[a].sourceId == before[b].sourceId ==> a == b)
  }

  lemma ServerNodeStays(before: map<Id, Draft>, done: set<Id>, e: Id, t: Id, node: Draft)
    requires ServerNode(before, done, t, node)
    ensures ServerNode(before, done + {e}, t, node)
  {
    hide ServerDraft, ServersOf;
  }

  lemma BaseSplitStep(before: map<Id, Draft>, done: set<Id>, nodes: map<Id, Draft>, e: Id, after: Draft, extracted: map<Id, Draft>)
    requires BaseSplit(before, done, nodes) && OwnSources(before) && e in before && Split(before[e], after)
    requires ServersExtracted(before[e], extracted)
    ensures BaseSplit(before, done + {e}, nodes[e := after] + extracted)
  {
    hide Split, ServerDraft, ServersOf;
    assert forall t :: t in before ==> t !in extracted;
  }

  lemma OnlyServersStep(before: map<Id, Draft>, done: set<Id>, nodes: map<Id, Draft>, e: Id, after: Draft, extracted: map<Id, Draft>)
    requires OnlyServersAdded(before, done, nodes) && e in before && ServersExtracted(before[e], extracted)
    ensures OnlyServersAdded(before, done + {e}, nodes[e := after] + extracted)
  {
    hide ServerDraft, ServersOf;
    var next := nodes[e := after] + extracted;
    forall t | t in next && t !in before
      ensures ServerNode(before, done + {e}, t, next[t])
    {
      if t !in extracted {
        ServerNodeStays(before, done, e, t, nodes[t]);
      }
    }
  }

  lemma AllServersStep(before: map<Id, Draft>, done: set<Id>, nodes: map<Id, Draft>, e: Id, after: Draft, extracted: map<Id, Draft>)
    requires AllServersAdded(before, done, nodes) && e in before && ServersExtracted(before[e], extracted)
    ensures AllServersAdded(before, done + {e}, nodes[e := after] + extracted)
  {
    hide ServerDraft, ServersOf;
  }

  lemma SplitStep(before: map<Id, Draft>, done: set<Id>, nodes: map<Id, Draft>, e: Id, after: Draft, extracted: map<Id, Draft>)
    requires SplitNodes(before, done, nodes) && OwnSources(before) && e in before
    requires Split(before[e], after) && ServersExtracted(before[e], extracted)
    ensures SplitNodes(before, done + {e}, nodes[e := after] + extracted)
  {
    hide BaseSplit, OnlyServersAdded, AllServersAdded, Split, ServersExtracted, OwnSources;
    BaseSplitStep(before, done, nodes, e, after, extracted);
    OnlyServersStep(before, done, nodes, e, after, extracted);
    AllServersStep(before, done, nodes, e, after, extracted);
  }

  /** internal/migration/plan.go:402-422. */
  method ExtractNodes(before: map<Id, Draft>) returns (nodes: map<Id, Draft>)
    requires OwnSources(before)
    ensures SplitNodes(before, before.Keys, nodes)
  {
    hide Split, SplitNodes, ServersExtracted, OwnSources;
    nodes := before;
    assert SplitNodes(before, {}, nodes) by { NothingSplit(before); }
    var pending := before.Keys;
    ghost var done: set<Id> := {};
    while pending != {}
      invariant pending <= before.Keys && done == before.Keys - pending
      invariant SplitNodes(before, done, nodes)
      decreases |pending|
    {
      var e :| e in pending;
      assert e in nodes && nodes[e] == before[e] by { Unsplit(before, done, nodes, e); }
      if nodes[e].plugin.kind == Expert {
        var after, extracted := ExtractServers(nodes[e]);
        SplitStep(before, done, nodes, e, after, extracted);
        nodes := nodes[e := after] + extracted;
      } else {
        SplitNone(before[e]);
        SplitStep(before, done, nodes, e, nodes[e], map[]);
        assert nodes[e := nodes[e]] + map[] == nodes;
      }
      pending := pending - {e};
      done := done + {e};
    }
    assert done == before.Keys;
  }

  lemma NothingSplit(before: map<Id, Draft>)
    ensures SplitNodes(before, {}, before)
  {
  }

  lemma Unsplit(before: map<Id, Draft>, done: set<Id>, nodes: map<Id, Draft>, e: Id)
    requires SplitNodes(before, done, nodes) && e in before && e !in done
    ensures e in nodes && nodes[e] == before[e]
  {
  }

  lemma SplitNone(d: Draft)
    requires d.plugin.kind != Expert
    ensures Split(d, d) && ServersExtracted(d, map[])
  {
  }
}
