/** Why the plan that the passes produce can be applied: internal/migration/plan.go:423-486. */
module PlanBuild {
  import opened Options
  import opened Tables
  import opened MigrationPlan
  import opened PlannerTypes
  import opened PlannerNodes
  import opened PlanArrangement
  import Quotients = ConnectorCanonical
  import PlanOrder
  import ApplySpec
  import ApplyInvariant

  // ------------------------------------------------------------- finished plan

  /** Where source `x` ends up once connectors are folded. */
  function Destination(i: Input, canonical: map<Id, Id>, remap: map<Id, Id>, x: Id): Id {
    Quotients.Landing(remap, TargetOf(i, canonical, x))
  }

  function Folded(remap: map<Id, Id>, m: Mapping): Mapping {
    if m.target.Some? then m.(target := Some(Quotients.Landing(remap, m.target.value))) else m
  }

  /** The final mapping rows, one per resource. */
  ghost predicate FinalMappings(i: Input, canonical: map<Id, Id>, remap: map<Id, Id>, mappings: seq<Mapping>) {
    && |mappings| == |i.order|
    && forall h :: 0 <= h < |i.order| ==> i.order[h] in i.byId && mappings[h] == Folded(remap, MappingOf(i, canonical, i.order[h]))
  }

  /** `kept` is what the folding of `nodes` leaves. */
  ghost predicate Kept(o: Oracles, nodes: map<Id, Draft>, remap: map<Id, Id>, kept: map<Id, Draft>) {
    && Quotients.Quotient(o, nodes, remap)
    && kept.Keys == nodes.Keys - remap.Keys
    && forall t :: t in kept ==> kept[t] == Quotients.Survivor(nodes, remap, t)
  }

  /** The sources whose evidence node `d` carries. */
  function Held(mappings: seq<Mapping>, d: Draft): set<Id> {
    {d.sourceId} + d.merged + set m | m in mappings && MapsTo(m, d.id) :: m.source
  }

  /** A mapping leads to the destination of its source, and only active sources have one. */
  lemma MappingLeads(i: Input, canonical: map<Id, Id>, remap: map<Id, Id>, mappings: seq<Mapping>, m: Mapping)
    requires WellFormed(i) && FinalMappings(i, canonical, remap, mappings) && m in mappings
    ensures m.source in i.byId
    ensures m.target == if ActiveId(i, m.source) then Some(Destination(i, canonical, remap, m.source)) else None
  {
    hide TargetOf;
    var h :| 0 <= h < |mappings| && mappings[h] == m;
  }

  /** The edge of a kept node that stands for edge `r` of the node before folding. */
  lemma KeptEdge(o: Oracles, nodes: map<Id, Draft>, remap: map<Id, Id>, kept: map<Id, Draft>, t: Id, r: Relation) returns (e: Relation)
    requires Kept(o, nodes, remap, kept) && t in kept && r in nodes[t].relations
    ensures e in kept[t].relations && e.kind == r.kind && e.target == Quotients.Landing(remap, r.target)
  {
    hide Quotients.Quotient;
    e := Quotients.RewireComplete(remap, nodes[t].relations, {}, r);
  }

  /** An expert is never folded away. */
  lemma ExpertStays(o: Oracles, nodes: map<Id, Draft>, remap: map<Id, Id>, kept: map<Id, Draft>, t: Id)
    requires Kept(o, nodes, remap, kept) && t in nodes && nodes[t].plugin.kind != Connector
    ensures t in kept && Quotients.Landing(remap, t) == t
  {
  }

  /** A connector `c` with source `x`, landing somewhere other than the destination of
      `x`, was split off that destination, which depends on where `c` landed. */
  lemma ForeignConnector(o: Oracles, i: Input, canonical: map<Id, Id>, nodes: map<Id, Draft>, remap: map<Id, Id>, kept: map<Id, Draft>, c: Id)
    requires Arranged(i, canonical, nodes) && Kept(o, nodes, remap, kept)
    requires c in nodes && Quotients.Landing(remap, c) != Destination(i, canonical, remap, nodes[c].sourceId)
    ensures var d := Destination(i, canonical, remap, nodes[c].sourceId);
            d in kept && exists r :: r in kept[d].relations && r.target == Quotients.Landing(remap, c)
  {
    hide TargetOf, Kept, Arranged;
    ForeignIsServer(i, canonical, nodes, remap, c);
    var base := TargetOf(i, canonical, nodes[c].sourceId);
    ExpertStays(o, nodes, remap, kept, base);
    var r :| r in nodes[base].relations && r.kind == ExpertConnector && r.target == c;
    var e := KeptEdge(o, nodes, remap, kept, base, r);
  }

  lemma ForeignIsServer(i: Input, canonical: map<Id, Id>, nodes: map<Id, Draft>, remap: map<Id, Id>, c: Id)
    requires Arranged(i, canonical, nodes)
    requires c in nodes && Quotients.Landing(remap, c) != Destination(i, canonical, remap, nodes[c].sourceId)
    ensures ServerOf(i, canonical, nodes, c)
  {
    hide TargetOf, ServerOf, Complete, Explained, Pinned;
    assert ArrangedNode(i, canonical, nodes, c);
  }

  /** The heart of the matter: if `e` holds the evidence of `x` and is not where `x` is
      converted to, then the node `x` is converted to depends on `e`. */
  lemma HolderIsDependency(o: Oracles, i: Input, canonical: map<Id, Id>, nodes: map<Id, Draft>, remap: map<Id, Id>, kept: map<Id, Draft>,
                           mappings: seq<Mapping>, e: Id, x: Id)
    requires WellFormed(i) && Arranged(i, canonical, nodes) && Kept(o, nodes, remap, kept) && FinalMappings(i, canonical, remap, mappings)
    requires e in kept && x in Held(mappings, kept[e]) && e != Destination(i, canonical, remap, x)
    ensures var d := Destination(i, canonical, remap, x); d in kept && exists r :: r in kept[d].relations && r.target == e
  {
    hide TargetOf, ArrangedNode, FinalMappings;
    HolderOrigin(o, i, canonical, nodes, remap, kept, mappings, e, x);
    var c :| c in nodes && nodes[c].sourceId == x && Quotients.Landing(remap, c) == e;
    ForeignConnector(o, i, canonical, nodes, remap, kept, c);
  }

  lemma HolderOrigin(o: Oracles, i: Input, canonical: map<Id, Id>, nodes: map<Id, Draft>, remap: map<Id, Id>, kept: map<Id, Draft>,
                     mappings: seq<Mapping>, e: Id, x: Id)
    requires WellFormed(i) && Arranged(i, canonical, nodes) && Kept(o, nodes, remap, kept) && FinalMappings(i, canonical, remap, mappings)
    requires e in kept && x in Held(mappings, kept[e]) && e != Destination(i, canonical, remap, x)
    ensures exists c :: c in nodes && nodes[c].sourceId == x && Quotients.Landing(remap, c) == e
  {
    hide TargetOf, FinalMappings, Destination, Kept, Arranged, WellFormed;
    KeptNode(o, nodes, remap, kept, e);
    ArrangedFacts(i, canonical, nodes, e);
    if m :| m in mappings && MapsTo(m, kept[e].id) && m.source == x {
      MappingLeads(i, canonical, remap, mappings, m);
    } else if x == kept[e].sourceId {
      assert Quotients.Landing(remap, e) == e;
    } else {
      assert x in Quotients.FoldedInto(nodes, remap, e);
      var c :| c in remap && c in nodes && remap[c] == e && nodes[c].sourceId == x;
    }
  }

  /** A kept node is the node it was, plus what was folded into it. */
  lemma KeptNode(o: Oracles, nodes: map<Id, Draft>, remap: map<Id, Id>, kept: map<Id, Draft>, t: Id)
    requires Kept(o, nodes, remap, kept) && t in kept
    ensures t in nodes && t !in remap
    ensures kept[t].id == nodes[t].id && kept[t].sourceId == nodes[t].sourceId
    ensures kept[t].plugin == nodes[t].plugin && kept[t].versionId == nodes[t].versionId
    ensures kept[t].source == nodes[t].source && kept[t].release == nodes[t].release && kept[t].versionLabel == nodes[t].versionLabel
    ensures kept[t].merged == nodes[t].merged + Quotients.FoldedInto(nodes, remap, t)
  {
    hide Quotients.Quotient, Quotients.Rewire, Quotients.FoldedInto;
  }

  lemma ArrangedFacts(i: Input, canonical: map<Id, Id>, nodes: map<Id, Draft>, t: Id)
    requires Arranged(i, canonical, nodes) && t in nodes
    ensures nodes[t].id == t && ActiveId(i, nodes[t].sourceId) && nodes[t].merged == {}
    ensures t == TargetOf(i, canonical, nodes[t].sourceId) || t.Extracted?
    ensures nodes[t].versionId == if nodes[t].plugin.kind == Connector then None else Some(Minted(t))
    ensures forall r :: r in nodes[t].relations ==> r.target in nodes
  {
    hide TargetOf;
    assert ArrangedNode(i, canonical, nodes, t);
  }

  // ------------------------------------------------------------ from drafts on

  function TargetList(relations: seq<Relation>): seq<Id> {
    seq(|relations|, h requires 0 <= h < |relations| => relations[h].target)
  }

  /** internal/migration/plan.go:429-434: captured before draft edges are dropped. */
  function DependencyOrder(kept: map<Id, Draft>): PlanOrder.Graph {
    map t | t in kept :: TargetList(kept[t].relations)
  }

  /** internal/migration/plan.go:437-442. */
  function WithoutDraftEdges(kept: map<Id, Draft>): map<Id, Draft> {
    map t | t in kept :: if Unfinished(kept[t]) then kept[t].(relations := []) else kept[t]
  }

  /** Draft `d` becomes `f`: a connector may have another name, servers may have other
      keys, an unfinished draft loses its edges, and nothing else differs. */
  ghost predicate SameButKeys(d: Draft, f: Draft) {
    && f == d.(plugin := d.plugin.(name := f.plugin.name, servers := f.plugin.servers),
               relations := if Unfinished(d) then [] else d.relations)
    && (d.plugin.kind != Connector ==> f.plugin.name == d.plugin.name)
    && SameServers(DraftServers(d), DraftServers(f))
  }

  ghost predicate SameFrame(kept: map<Id, Draft>, final: map<Id, Draft>) {
    kept.Keys == final.Keys && forall t :: t in kept ==> SameButKeys(kept[t], final[t])
  }

  /** internal/migration/plan.go:472-486, the evidence of one node. */
  function Finish(i: Input, mappings: seq<Mapping>, d: Draft): Node
    requires d.sourceId in i.byId
  {
    var r := i.byId[d.sourceId];
    Node(d.id, d.sourceId, d.source, r.evidence.row, r.published, r.release,
         map x | x in Held(mappings, d) && x in i.byId :: i.byId[x].evidence,
         d.plugin, d.relations, d.versionId, d.versionLabel, d.release, d.id != d.sourceId)
  }

  /** `p` lists the final nodes in dependency order, with their evidence. */
  ghost predicate Finished(i: Input, mappings: seq<Mapping>, kept: map<Id, Draft>, final: map<Id, Draft>, order: seq<Id>, p: Plan) {
    && PlanOrder.Distinct(order) && PlanOrder.Topological(DependencyOrder(kept), order)
    && (forall t :: t in order <==> t in kept)
    && SameFrame(kept, final)
    && p.mappings == mappings
    && |p.nodes| == |order|
    && forall k :: 0 <= k < |order| ==> order[k] in final && final[order[k]].sourceId in i.byId && p.nodes[k] == Finish(i, mappings, final[order[k]])
  }

  /** Everything the passes establish about a plan without issues. */
  ghost predicate Built(o: Oracles, i: Input, canonical: map<Id, Id>, nodes: map<Id, Draft>, remap: map<Id, Id>, kept: map<Id, Draft>,
                        final: map<Id, Draft>, order: seq<Id>, p: Plan) {
    && WellFormed(i) && Arranged(i, canonical, nodes) && Kept(o, nodes, remap, kept)
    && FinalMappings(i, canonical, remap, p.mappings)
    && Finished(i, p.mappings, kept, final, order, p)
  }

  lemma FinishedNode(i: Input, mappings: seq<Mapping>, kept: map<Id, Draft>, final: map<Id, Draft>, order: seq<Id>, p: Plan, k: nat)
    requires Finished(i, mappings, kept, final, order, p) && k < |p.nodes|
    requires forall t :: t in kept ==> kept[t].id == t
    ensures order[k] in kept && p.nodes[k].id == order[k] && p.nodes[k].sourceId == kept[order[k]].sourceId
    ensures forall x :: x in p.nodes[k].evidence ==> x in Held(mappings, kept[order[k]])
    ensures forall x :: x in Held(mappings, kept[order[k]]) && x in i.byId ==> x in p.nodes[k].evidence
    ensures forall r :: r in p.nodes[k].relations ==> r in kept[order[k]].relations
  {
    hide PlanOrder.Topological, PlanOrder.Distinct;
    assert order[k] in order;
    assert Held(mappings, final[order[k]]) == Held(mappings, kept[order[k]]);
  }

  lemma KeptFacts(o: Oracles, i: Input, canonical: map<Id, Id>, nodes: map<Id, Draft>, remap: map<Id, Id>, kept: map<Id, Draft>, t: Id)
    requires Arranged(i, canonical, nodes) && Kept(o, nodes, remap, kept) && t in kept
    ensures kept[t].id == t && ActiveId(i, kept[t].sourceId)
    ensures kept[t].versionId == if kept[t].plugin.kind == Connector then None else Some(Minted(t))
    ensures t == Destination(i, canonical, remap, kept[t].sourceId) || t.Extracted?
  {
    hide TargetOf, Kept, Arranged;
    KeptNode(o, nodes, remap, kept, t);
    ArrangedFacts(i, canonical, nodes, t);
  }

  /** Dependencies come first in the finished order. */
  lemma EarlierInOrder(kept: map<Id, Draft>, order: seq<Id>, d: nat, r: Relation) returns (e: nat)
    requires PlanOrder.Topological(DependencyOrder(kept), order)
    requires d < |order| && order[d] in kept && r in kept[order[d]].relations
    ensures e < d && order[e] == r.target
  {
    var h :| 0 <= h < |kept[order[d]].relations| && kept[order[d]].relations[h] == r;
    var targets := TargetList(kept[order[d]].relations);
    assert targets[h] == r.target && r.target in DependencyOrder(kept)[order[d]];
    assert r.target in order[..d];
    e :| 0 <= e < d && order[..d][e] == r.target;
  }

  /** A node that writes source `x` is the destination of `x`. */
  lemma WriterIsDestination(o: Oracles, i: Input, canonical: map<Id, Id>, nodes: map<Id, Draft>, remap: map<Id, Id>, kept: map<Id, Draft>,
                            final: map<Id, Draft>, order: seq<Id>, p: Plan, d: nat, x: Id)
    requires Built(o, i, canonical, nodes, remap, kept, final, order, p) && CanonicalMap(i, canonical)
    requires d < |p.nodes| && Writes(p, p.nodes[d], x) && x in i.byId
    ensures order[d] == Destination(i, canonical, remap, x)
  {
    hide Quotients.Quotient, Arranged, Kept;
    forall t | t in kept
      ensures kept[t].id == t && (t == Destination(i, canonical, remap, kept[t].sourceId) || t.Extracted?) && ActiveId(i, kept[t].sourceId)
    {
      KeptFacts(o, i, canonical, nodes, remap, kept, t);
    }
    FinishedNode(i, p.mappings, kept, final, order, p, d);
    if x == p.nodes[d].id {
      OwnDestination(o, i, canonical, nodes, remap, kept, x);
    } else {
      var m :| m in p.mappings && MapsTo(m, p.nodes[d].id) && m.source == x;
      MappingLeads(i, canonical, remap, p.mappings, m);
    }
  }

  /** A planned identity that is also a source identity is converted in place. */
  lemma OwnDestination(o: Oracles, i: Input, canonical: map<Id, Id>, nodes: map<Id, Draft>, remap: map<Id, Id>, kept: map<Id, Draft>, x: Id)
    requires WellFormed(i) && CanonicalMap(i, canonical) && Arranged(i, canonical, nodes) && Kept(o, nodes, remap, kept)
    requires x in kept && x in i.byId
    ensures Destination(i, canonical, remap, x) == x
  {
    hide Kept, Arranged, CanonicalMap, ActiveId;
    KeptNode(o, nodes, remap, kept, x);
    ArrangedFacts(i, canonical, nodes, x);
    TargetOfRepresentative(i, canonical, kept[x].sourceId);
  }

  // ------------------------------------------------------------------ theorem

  lemma BuiltWritersLast(o: Oracles, i: Input, canonical: map<Id, Id>, nodes: map<Id, Draft>, remap: map<Id, Id>, kept: map<Id, Draft>,
                         final: map<Id, Draft>, order: seq<Id>, p: Plan)
    requires Built(o, i, canonical, nodes, remap, kept, final, order, p) && CanonicalMap(i, canonical)
    ensures WritersLast(p)
  {
    hide Arranged, Kept, FinalMappings, Finished, Writes, Destination, CanonicalMap, WellFormed;
    forall d, e, x | 0 <= d < |p.nodes| && 0 <= e < |p.nodes| && d != e && Writes(p, p.nodes[d], x) && x in p.nodes[e].evidence
      ensures e < d
    {
      HolderEarlier(o, i, canonical, nodes, remap, kept, final, order, p, d, e, x);
    }
  }

  lemma HolderEarlier(o: Oracles, i: Input, canonical: map<Id, Id>, nodes: map<Id, Draft>, remap: map<Id, Id>, kept: map<Id, Draft>,
                      final: map<Id, Draft>, order: seq<Id>, p: Plan, d: nat, e: nat, x: Id)
    requires Built(o, i, canonical, nodes, remap, kept, final, order, p) && CanonicalMap(i, canonical)
    requires d < |p.nodes| && e < |p.nodes| && d != e && Writes(p, p.nodes[d], x) && x in p.nodes[e].evidence
    ensures e < d
  {
    hide Arranged, Kept, FinalMappings, Writes, Destination, CanonicalMap, WellFormed, Held, SameFrame, PlanOrder.Topological;
    forall t | t in kept
      ensures kept[t].id == t
    {
      KeptFacts(o, i, canonical, nodes, remap, kept, t);
    }
    FinishedNode(i, p.mappings, kept, final, order, p, e);
    FinishedNode(i, p.mappings, kept, final, order, p, d);
    assert x in i.byId;
    WriterIsDestination(o, i, canonical, nodes, remap, kept, final, order, p, d, x);
    HolderIsDependency(o, i, canonical, nodes, remap, kept, p.mappings, order[e], x);
    var r :| r in kept[order[d]].relations && r.target == order[e];
    var h := EarlierInOrder(kept, order, d, r);
  }

  /** A plan that the passes build without issues satisfies the static condition that
      the apply step needs. */
  lemma BuiltIsSafe(o: Oracles, i: Input, canonical: map<Id, Id>, nodes: map<Id, Draft>, remap: map<Id, Id>, kept: map<Id, Draft>,
                    final: map<Id, Draft>, order: seq<Id>, p: Plan)
    requires Built(o, i, canonical, nodes, remap, kept, final, order, p) && CanonicalMap(i, canonical)
    ensures Safe(p)
  {
    hide Arranged, Kept, FinalMappings, Destination, CanonicalMap, Held, SameFrame, Finish, WritersLast, NodeComplete, TargetsPlanned, PlanOrder.Topological;
    BuiltWritersLast(o, i, canonical, nodes, remap, kept, final, order, p);
    forall t | t in kept
      ensures kept[t].id == t
    {
      KeptFacts(o, i, canonical, nodes, remap, kept, t);
    }
    forall k | 0 <= k < |p.nodes|
      ensures p.nodes[k].id == order[k] && NodeComplete(p, p.nodes[k])
      ensures forall r :: r in p.nodes[k].relations ==> exists h :: 0 <= h < k && p.nodes[h].id == r.target
    {
      FinishedNode(i, p.mappings, kept, final, order, p, k);
      BuiltNodeComplete(o, i, canonical, nodes, remap, kept, final, order, p, k);
      forall r | r in p.nodes[k].relations
        ensures exists h :: 0 <= h < k && p.nodes[h].id == r.target
      {
        var h := EarlierInOrder(kept, order, k, r);
        FinishedNode(i, p.mappings, kept, final, order, p, h);
      }
    }
    BuiltSources(o, i, canonical, nodes, remap, kept, final, order, p);
    assert DistinctNodes(p);
  }

  lemma BuiltSources(o: Oracles, i: Input, canonical: map<Id, Id>, nodes: map<Id, Draft>, remap: map<Id, Id>, kept: map<Id, Draft>,
                     final: map<Id, Draft>, order: seq<Id>, p: Plan)
    requires Built(o, i, canonical, nodes, remap, kept, final, order, p)
    requires forall k :: 0 <= k < |p.nodes| ==> p.nodes[k].id == order[k]
    ensures DistinctSources(p) && TargetsPlanned(p)
  {
    hide TargetOf, Held, SameFrame, Finish, PlanOrder.Topological, PlanOrder.Distinct, Arranged, Kept, FinalMappings, WellFormed;
    SourcesOnce(i, canonical, remap, p.mappings);
    forall m | m in p.mappings && m.target.Some?
      ensures Planned(p, m.target.value)
    {
      TargetKept(o, i, canonical, nodes, remap, kept, p.mappings, m);
      var k :| 0 <= k < |order| && order[k] == m.target.value;
    }
  }

  lemma SourcesOnce(i: Input, canonical: map<Id, Id>, remap: map<Id, Id>, mappings: seq<Mapping>)
    requires WellFormed(i) && FinalMappings(i, canonical, remap, mappings)
    ensures forall h, k :: 0 <= h < k < |mappings| ==> mappings[h].source != mappings[k].source
  {
  }

  lemma TargetKept(o: Oracles, i: Input, canonical: map<Id, Id>, nodes: map<Id, Draft>, remap: map<Id, Id>, kept: map<Id, Draft>, mappings: seq<Mapping>, m: Mapping)
    requires WellFormed(i) && Arranged(i, canonical, nodes) && Kept(o, nodes, remap, kept) && FinalMappings(i, canonical, remap, mappings)
    requires m in mappings && m.target.Some?
    ensures m.target.value in kept
  {
    hide TargetOf, ArrangedNode, Quotients.Survivor;
    MappingLeads(i, canonical, remap, mappings, m);
  }

  lemma BuiltNodeComplete(o: Oracles, i: Input, canonical: map<Id, Id>, nodes: map<Id, Draft>, remap: map<Id, Id>, kept: map<Id, Draft>,
                          final: map<Id, Draft>, order: seq<Id>, p: Plan, k: nat)
    requires Built(o, i, canonical, nodes, remap, kept, final, order, p) && k < |p.nodes|
    ensures NodeComplete(p, p.nodes[k])
  {
    hide TargetOf, Arranged, Kept, PlanOrder.Topological, PlanOrder.Distinct, FinalMappings, WellFormed, Held;
    var t := order[k];
    assert t in order;
    KeptFacts(o, i, canonical, nodes, remap, kept, t);
    HeldFacts(p.mappings, final[t]);
    forall m | m in p.mappings && MapsTo(m, p.nodes[k].id)
      ensures m.source in p.nodes[k].evidence
    {
      MappingLeads(i, canonical, remap, p.mappings, m);
    }
  }

  lemma HeldFacts(mappings: seq<Mapping>, d: Draft)
    ensures d.sourceId in Held(mappings, d)
    ensures forall m :: m in mappings && MapsTo(m, d.id) ==> m.source in Held(mappings, d)
  {
  }

  // ---------------------------------------------------------------- capturing

  /** `db` is the database that the input was read from: its rows are the captured ones,
      and it holds no derived identity and no conversion row yet. */
  ghost predicate Snapshot(i: Input, categories: map<CategoryId, CategoryRow>, db: ApplySpec.Database) {
    && db.run == None && db.mappings == {} && db.receipts == map[]
    && (forall x :: x in i.byId ==> ReadFrom(i.byId[x], db))
    && (forall x :: x in db.plugins || x in db.owned ==> x.Source?)
    && (forall x, r :: x in db.owned && r in db.owned[x].releases ==> r.versionId.Saved?)
    && (forall c :: c in db.categories ==> c.id in categories && categories[c.id] == c)
    && (forall id :: id in categories ==> exists h :: 0 <= h < |db.categories| && db.categories[h].id == id)
  }

  ghost predicate ReadFrom(r: Resource, db: ApplySpec.Database) {
    && ApplySpec.RowOf(db, r.id) == Some(r.evidence.row) && ApplySpec.OwnedBy(db, r.id) == r.evidence.owned
    && r.published == r.evidence.row.publishedVersionId
    && (if r.published.Some?
        then r.release.Some? && ApplySpec.FindRelease(r.evidence.owned.releases, r.published.value) == r.release
        else r.release.None?)
  }

  /** A node that is cloned never takes the identity of an existing row. */
  lemma CloneIsDerived(o: Oracles, i: Input, canonical: map<Id, Id>, nodes: map<Id, Draft>, remap: map<Id, Id>, kept: map<Id, Draft>, t: Id)
    requires WellFormed(i) && CanonicalMap(i, canonical) && Arranged(i, canonical, nodes) && Kept(o, nodes, remap, kept)
    requires t in kept && t.Source?
    ensures t == kept[t].sourceId
  {
    hide Kept, Arranged;
    KeptNode(o, nodes, remap, kept, t);
    ArrangedFacts(i, canonical, nodes, t);
  }

  lemma BuiltIsCaptured(o: Oracles, i: Input, canonical: map<Id, Id>, nodes: map<Id, Draft>, remap: map<Id, Id>, kept: map<Id, Draft>,
                        final: map<Id, Draft>, order: seq<Id>, p: Plan, db: ApplySpec.Database)
    requires Built(o, i, canonical, nodes, remap, kept, final, order, p) && CanonicalMap(i, canonical)
    requires Snapshot(i, p.categories, db)
    ensures ApplyInvariant.Captured(p, db)
  {
    hide Arranged, Kept, FinalMappings, CanonicalMap, Held, SameFrame, PlanOrder.Topological, PlanOrder.Distinct, ReadFrom;
    forall k | 0 <= k < |p.nodes|
      ensures NodeCaptured(p.nodes[k], db)
    {
      BuiltNodeCaptured(o, i, canonical, nodes, remap, kept, final, order, p, db, k);
    }
    assert forall n :: n in p.nodes ==> NodeCaptured(n, db);
    assert ApplySpec.BaselineIntact(p, db.categories);
  }

  /** One node of a captured plan. */
  ghost predicate NodeCaptured(n: Node, db: ApplySpec.Database) {
    && (forall x :: x in n.evidence ==>
          ApplySpec.RowOf(db, x) == Some(n.evidence[x].row) && ApplySpec.OwnedBy(db, x) == n.evidence[x].owned)
    && ApplySpec.PublicationVerifies(n, n.sourceRow, ApplySpec.OwnedBy(db, n.sourceId).releases)
    && (n.clone ==> n.id !in db.plugins && n.id !in db.owned)
    && (n.versionId.Some? ==> !ApplySpec.HasRelease(ApplySpec.OwnedBy(db, n.id), n.versionId.value))
  }

  lemma BuiltNodeCaptured(o: Oracles, i: Input, canonical: map<Id, Id>, nodes: map<Id, Draft>, remap: map<Id, Id>, kept: map<Id, Draft>,
                          final: map<Id, Draft>, order: seq<Id>, p: Plan, db: ApplySpec.Database, k: nat)
    requires Built(o, i, canonical, nodes, remap, kept, final, order, p) && CanonicalMap(i, canonical)
    requires Snapshot(i, p.categories, db) && k < |p.nodes|
    ensures NodeCaptured(p.nodes[k], db)
  {
    hide Arranged, Kept, FinalMappings, CanonicalMap, Held, PlanOrder.Topological, PlanOrder.Distinct, Destination, Snapshot, NodeCaptured, Finish;
    var t := order[k];
    assert t in order;
    KeptFacts(o, i, canonical, nodes, remap, kept, t);
    if t.Source? {
      CloneIsDerived(o, i, canonical, nodes, remap, kept, t);
    }
    FinishCaptured(i, p.categories, p.mappings, final[t], db);
  }

  lemma FinishCaptured(i: Input, categories: map<CategoryId, CategoryRow>, mappings: seq<Mapping>, d: Draft, db: ApplySpec.Database)
    requires WellFormed(i) && Snapshot(i, categories, db) && d.sourceId in i.byId
    requires d.id.Source? ==> d.id == d.sourceId
    requires d.versionId.Some? ==> d.versionId.value.Minted?
    ensures NodeCaptured(Finish(i, mappings, d), db)
  {
    hide Held;
    var n := Finish(i, mappings, d);
    assert ReadFrom(i.byId[n.sourceId], db);
    forall x | x in n.evidence
      ensures ApplySpec.RowOf(db, x) == Some(n.evidence[x].row) && ApplySpec.OwnedBy(db, x) == n.evidence[x].owned
    {
      assert ReadFrom(i.byId[x], db);
    }
  }
}
