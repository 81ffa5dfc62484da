/** The planner as a whole: the passes in order, and what a plan without issues is worth.
    internal/migration/plan.go `Build`. */
module MigrationPlanner {
  import opened Options
  import FiniteSets
  import opened Tables
  import opened MigrationPlan
  import opened PlannerTypes
  import opened PlannerNodes
  import opened PlanArrangement
  import opened PlanBuild
  import opened PlanMeaning
  import Quotients = ConnectorCanonical
  import Names = ConnectorNames
  import Aliases = ConnectorAliases
  import PlanOrder
  import opened ReleaseCheck
  import opened ApplySpec
  import opened ApplyInvariant
  import opened Resume
  import VersionLabels

  // ------------------------------------------------------------------- the room

  /** Enough room for the retries: fewer resources and servers than a machine integer
      counts, and digests that avoid any set of twice as many aliases as there are servers. */
  ghost predicate RoomFor(o: Oracles, i: Input) {
    && |i.byId| + |ServerPairs(i)| < 0x7fff_ffff_ffff_fff0
    && Aliases.AttemptsSpread(o, 2 * |ServerPairs(i)|)
  }

  /** What is taken for granted of the functions that the planner calls, on this input. */
  ghost predicate OracleFacts(o: Oracles, i: Input) {
    && (forall a, b :: Arises(i, a) && Arises(i, b) && o.rank(a) == o.rank(b) ==> a == b)
    && Names.TextFacts(o) && Names.DigestFacts(o) && Aliases.DigestShape(o) && Quotients.ContentFixesServers(o)
  }

  lemma SpreadLess(o: Oracles, limit: nat, less: nat)
    requires Aliases.AttemptsSpread(o, limit) && less <= limit
    ensures Aliases.AttemptsSpread(o, less)
  {
    hide Aliases.SomeAttemptFresh;
  }

  /** The nodes that are left have no more servers than were captured. */
  lemma KeptPairs(o: Oracles, nodes: map<Id, Draft>, remap: map<Id, Id>, kept: map<Id, Draft>)
    requires Kept(o, nodes, remap, kept)
    ensures Aliases.KeyPairs(WithoutDraftEdges(kept)) <= NodePairs(nodes)
    ensures |WithoutDraftEdges(kept)| <= |nodes|
  {
    hide Kept;
    var dropped := WithoutDraftEdges(kept);
    forall t | t in dropped
      ensures t in nodes && Aliases.ServersAt(dropped, t) == DraftServers(nodes[t])
    {
      KeptNode(o, nodes, remap, kept, t);
    }
    FiniteSets.Subset(dropped.Keys, nodes.Keys);
  }

  /** There is room for the nodes because there was room for the input. */
  lemma RoomForNodes(o: Oracles, i: Input, canonical: map<Id, Id>, nodes: map<Id, Draft>, remap: map<Id, Id>, kept: map<Id, Draft>)
    requires RoomFor(o, i) && Arranged(i, canonical, nodes) && Kept(o, nodes, remap, kept)
    ensures |WithoutDraftEdges(kept)| < 0x7fff_ffff_ffff_fff0
    ensures Aliases.AttemptsSpread(o, 2 * |Aliases.KeyPairs(WithoutDraftEdges(kept))|)
  {
    hide Arranged, Kept, Aliases.KeyPairs, Aliases.AttemptsSpread, NodePairs, ServerPairs, WithoutDraftEdges;
    NodesBounded(i, canonical, nodes);
    PairsBounded(i, canonical, nodes);
    KeptPairs(o, nodes, remap, kept);
    FiniteSets.Subset(Aliases.KeyPairs(WithoutDraftEdges(kept)), NodePairs(nodes));
    SpreadLess(o, 2 * |ServerPairs(i)|, 2 * |Aliases.KeyPairs(WithoutDraftEdges(kept))|);
  }

  lemma RanksApart(o: Oracles, i: Input, canonical: map<Id, Id>, nodes: map<Id, Draft>)
    requires WellFormed(i) && OracleFacts(o, i) && Arranged(i, canonical, nodes)
    ensures RankInjective(o, nodes.Keys)
  {
    hide Arranged, Arises, Names.TextFacts, Names.DigestFacts, Aliases.DigestShape, Quotients.ContentFixesServers;
    forall a, b | a in nodes.Keys && b in nodes.Keys && o.rank(a) == o.rank(b)
      ensures a == b
    {
      NodesArise(i, canonical, nodes, a);
      NodesArise(i, canonical, nodes, b);
    }
  }

  // ------------------------------------------------------- the plan as the checks see it

  function NodeView(n: Node): Draft {
    Draft(n.id, n.sourceId, n.source, 0, n.plugin, n.relations, {}, n.versionId, n.versionLabel, n.release)
  }

  /** The nodes of the plan by identity; the last one wins, as in the checks' own maps. */
  function View(nodes: seq<Node>): map<Id, Draft> {
    if nodes == [] then map[] else View(nodes[..|nodes| - 1])[nodes[|nodes| - 1].id := NodeView(nodes[|nodes| - 1])]
  }

  lemma {:induction false} ViewMeaning(nodes: seq<Node>, t: Id)
    requires forall h, k :: 0 <= h < k < |nodes| ==> nodes[h].id != nodes[k].id
    ensures t in View(nodes) <==> exists k :: 0 <= k < |nodes| && nodes[k].id == t
    ensures forall k :: 0 <= k < |nodes| && nodes[k].id == t ==> View(nodes)[t] == NodeView(nodes[k])
  {
    hide NodeView;
    if nodes != [] {
      var n := |nodes| - 1;
      ViewMeaning(nodes[..n], t);
      if k :| 0 <= k < n && nodes[..n][k].id == t {
        assert nodes[k].id == t;
      }
      forall k | 0 <= k < |nodes| && nodes[k].id == t
        ensures t in View(nodes) && View(nodes)[t] == NodeView(nodes[k])
      {
        if k < n {
          assert nodes[..n][k].id == t;
        }
      }
    }
  }

  /** The plan lists the final drafts. */
  ghost predicate SameForChecks(final: map<Id, Draft>, view: map<Id, Draft>) {
    && final.Keys == view.Keys
    && forall t :: t in final ==> view[t].plugin == final[t].plugin && view[t].relations == final[t].relations
  }

  lemma BuiltView(o: Oracles, i: Input, canonical: map<Id, Id>, nodes: map<Id, Draft>, remap: map<Id, Id>, kept: map<Id, Draft>,
                  final: map<Id, Draft>, order: seq<Id>, p: Plan)
    requires Built(o, i, canonical, nodes, remap, kept, final, order, p) && DistinctNodes(p)
    ensures SameForChecks(final, View(p.nodes))
  {
    hide Built, Arranged, Kept, FinalMappings, WellFormed, View, SameButKeys, Finish;
    BuiltKeys(o, i, canonical, nodes, remap, kept, final, order, p);
    forall t
      ensures t in final <==> t in View(p.nodes)
      ensures t in final ==> View(p.nodes)[t].plugin == final[t].plugin && View(p.nodes)[t].relations == final[t].relations
    {
      ViewMeaning(p.nodes, t);
      if t in final {
        var k := InPlan(o, i, canonical, nodes, remap, kept, final, order, p, t);
        FinishKeeps(i, p.mappings, final[t]);
      } else if k :| 0 <= k < |p.nodes| && p.nodes[k].id == t {
        var u := NodeAt(o, i, canonical, nodes, remap, kept, final, order, p, k);
      }
    }
  }

  lemma BuiltKeys(o: Oracles, i: Input, canonical: map<Id, Id>, nodes: map<Id, Draft>, remap: map<Id, Id>, kept: map<Id, Draft>,
                  final: map<Id, Draft>, order: seq<Id>, p: Plan)
    requires Built(o, i, canonical, nodes, remap, kept, final, order, p)
    ensures final.Keys == kept.Keys
  {
    hide Arranged, Kept, FinalMappings, WellFormed, SameButKeys;
  }

  /** The final checks of the plan have nothing to report: internal/migration/final_contract.go:95-135
      and internal/migration/connector_server_keys.go:13-65. */
  ghost predicate ChecksPass(o: Oracles, p: Plan) {
    ViewPasses(o, View(p.nodes))
  }

  ghost predicate ViewPasses(o: Oracles, view: map<Id, Draft>) {
    && (forall root :: Names.IsRoot(view, root) ==> !Names.Ambiguous(o, view, root))
    && (forall e, id, other, key :: other != id && Aliases.Owns(view, e, key, id) ==> !Aliases.Owns(view, e, key, other))
  }

  lemma DistinctPassesChecks(o: Oracles, final: map<Id, Draft>, p: Plan)
    requires Names.NamesDistinct(o, final) && Aliases.KeysDistinct(final) && SameForChecks(final, View(p.nodes))
    ensures ChecksPass(o, p)
  {
    hide Names.NamesDistinct, Names.Ambiguous, Aliases.KeysDistinct, Aliases.Owns, View, Names.NameOf;
    var view := View(p.nodes);
    SameNames(o, final, view);
    Names.DistinctNamesStay(o, final, view);
    forall root | Names.IsRoot(view, root)
      ensures !Names.Ambiguous(o, view, root)
    {
      Names.DistinctNamesPass(o, view, root);
    }
    KeysStayDistinct(final, view);
    forall e, id, other, key | other != id && Aliases.Owns(view, e, key, id)
      ensures !Aliases.Owns(view, e, key, other)
    {
      Aliases.DistinctKeysPass(view, e, id, other, key);
    }
  }

  lemma SameNames(o: Oracles, final: map<Id, Draft>, view: map<Id, Draft>)
    requires SameForChecks(final, view)
    ensures Names.SameEdges(final, view)
    ensures forall id :: id in final ==> view[id].plugin.name == final[id].plugin.name
  {
  }

  lemma KeysStayDistinct(final: map<Id, Draft>, view: map<Id, Draft>)
    requires SameForChecks(final, view) && Aliases.KeysDistinct(final)
    ensures Aliases.KeysDistinct(view)
  {
    forall e, id
      ensures Aliases.Links(view, e, id) <==> Aliases.Links(final, e, id)
      ensures Aliases.ServersAt(view, id) == Aliases.ServersAt(final, id)
    {
    }
  }

  // -------------------------------------------------------------------- the build

  method FoldMappings(remap: map<Id, Id>, mappings: seq<Mapping>) returns (folded: seq<Mapping>)
    ensures |folded| == |mappings| && forall h :: 0 <= h < |mappings| ==> folded[h] == Folded(remap, mappings[h])
  {
    folded := mappings;
    var h := 0;
    while h < |mappings|
      invariant 0 <= h <= |mappings| && |folded| == |mappings|
      invariant forall k :: 0 <= k < h ==> folded[k] == Folded(remap, mappings[k])
      invariant forall k :: h <= k < |mappings| ==> folded[k] == mappings[k]
    {
      if folded[h].target.Some? && folded[h].target.value in remap {
        folded := folded[h := folded[h].(target := Some(remap[folded[h].target.value]))];
      }
      h := h + 1;
    }
  }

  method Roots(kept: map<Id, Draft>) returns (ids: seq<Id>)
    ensures forall t :: t in ids <==> t in kept
  {
    ids := [];
    var pending := kept.Keys;
    while pending != {}
      invariant pending <= kept.Keys
      invariant forall t :: t in ids <==> t in kept && t !in pending
      decreases |pending|
    {
      var t :| t in pending;
      ids := ids + [t];
      pending := pending - {t};
    }
  }

  method FinishNodes(i: Input, mappings: seq<Mapping>, final: map<Id, Draft>, order: seq<Id>) returns (nodes: seq<Node>)
    requires forall k :: 0 <= k < |order| ==> order[k] in final && final[order[k]].sourceId in i.byId
    ensures |nodes| == |order| && forall k :: 0 <= k < |order| ==> nodes[k] == Finish(i, mappings, final[order[k]])
  {
    nodes := [];
    var h := 0;
    while h < |order|
      invariant 0 <= h <= |order| && |nodes| == h
      invariant forall k :: 0 <= k < h ==> nodes[k] == Finish(i, mappings, final[order[k]])
    {
      nodes := nodes + [Finish(i, mappings, final[order[h]])];
      h := h + 1;
    }
  }

  /** Folding keeps the dependency graph closed. */
  lemma KeptClosed(o: Oracles, i: Input, canonical: map<Id, Id>, nodes: map<Id, Draft>, remap: map<Id, Id>, kept: map<Id, Draft>)
    requires Arranged(i, canonical, nodes) && Kept(o, nodes, remap, kept)
    ensures PlanOrder.Closed(DependencyOrder(kept))
  {
    hide Arranged, Kept, Quotients.Rewire, Quotients.FoldedInto;
    var g := DependencyOrder(kept);
    forall t, d | t in g && d in g[t]
      ensures d in g
    {
      var h :| 0 <= h < |kept[t].relations| && kept[t].relations[h].target == d;
      KeptTarget(o, i, canonical, nodes, remap, kept, t, kept[t].relations[h]);
    }
  }

  lemma KeptTarget(o: Oracles, i: Input, canonical: map<Id, Id>, nodes: map<Id, Draft>, remap: map<Id, Id>, kept: map<Id, Draft>, t: Id, e: Relation)
    requires Arranged(i, canonical, nodes) && Kept(o, nodes, remap, kept) && t in kept && e in kept[t].relations
    ensures e.target in kept
  {
    hide Arranged, Quotients.Rewire, Quotients.FoldedInto;
    Quotients.RewireSound(remap, nodes[t].relations, {}, e);
    var r :| r in nodes[t].relations && e == Quotients.Redirect(remap, r);
    ArrangedFacts(i, canonical, nodes, t);
  }

  /** What the naming and aliasing passes leave as it was. */
  ghost predicate Disambiguated(dropped: map<Id, Draft>, named: map<Id, Draft>, final: map<Id, Draft>) {
    && Names.SameShape(dropped, named) && Aliases.SameButServers(named, final)
    && (forall id :: id in dropped ==>
          && (named[id] != dropped[id] ==> dropped[id].plugin.kind == Connector)
          && SameServers(DraftServers(named[id]), DraftServers(final[id])))
  }

  lemma DisambiguatedIntro(dropped: map<Id, Draft>, named: map<Id, Draft>, chosen: map<(Id, string), string>, final: map<Id, Draft>)
    requires Names.SameShape(dropped, named) && Aliases.SameButServers(named, final)
    requires forall id :: id in dropped && id in named && named[id] != dropped[id] ==> dropped[id].plugin.kind == Connector
    requires forall id, key :: (id, key) in chosen <==> Aliases.Collides(named, id, key)
    requires Aliases.FreshAliases(Aliases.AllKeys(named), chosen.Keys, chosen) && Aliases.Aliased(named, chosen, named.Keys, final)
    ensures Disambiguated(dropped, named, final)
  {
    hide Aliases.Collides, Aliases.FreshAliases, Aliases.AllKeys, Aliases.Aliased, SameServers;
    forall id | id in dropped
      ensures SameServers(DraftServers(named[id]), DraftServers(final[id]))
    {
      Aliases.AliasedIsRenamed(named, chosen, final, id);
    }
  }

  lemma FrameFromPasses(kept: map<Id, Draft>, named: map<Id, Draft>, final: map<Id, Draft>)
    requires Disambiguated(WithoutDraftEdges(kept), named, final)
    ensures SameFrame(kept, final)
  {
    hide SameServers, SameButKeys;
    var dropped := WithoutDraftEdges(kept);
    forall t | t in kept
      ensures SameButKeys(kept[t], final[t])
    {
      assert t in dropped;
      DraftFromPasses(kept[t], dropped[t], named[t], final[t]);
    }
  }

  lemma DraftFromPasses(d: Draft, dropped: Draft, named: Draft, final: Draft)
    requires dropped == d.(relations := if Unfinished(d) then [] else d.relations)
    requires named == dropped.(plugin := dropped.plugin.(name := named.plugin.name)) && (named != dropped ==> dropped.plugin.kind == Connector)
    requires final == named.(plugin := named.plugin.(servers := final.plugin.servers)) && SameServers(DraftServers(named), DraftServers(final))
    ensures SameButKeys(d, final)
  {
    hide SameServers;
  }

  lemma KeyPairsStay(before: map<Id, Draft>, after: map<Id, Draft>)
    requires Names.SameShape(before, after)
    ensures Aliases.KeyPairs(before) == Aliases.KeyPairs(after)
  {
    assert forall id :: Aliases.ServersAt(before, id) == Aliases.ServersAt(after, id);
  }

  /** The naming and aliasing passes, in the order the planner runs them. */
  method Disambiguate(o: Oracles, i: Input, dropped: map<Id, Draft>) returns (named: map<Id, Draft>, final: map<Id, Draft>, issues: seq<Issue>)
    requires OracleFacts(o, i)
    requires |dropped| < 0x7fff_ffff_ffff_fff0 && Aliases.AttemptsSpread(o, 2 * |Aliases.KeyPairs(dropped)|)
    ensures Disambiguated(dropped, named, final)
    ensures Aliases.KeysDistinct(final)
    ensures issues == [] ==> Names.NamesDistinct(o, final)
    ensures DocumentsFit(o) ==> issues == []
  {
    hide *;
    OracleParts(o, i);
    var nameIssues, aliasIssues, chosen;
    named, nameIssues := Names.NameDistinctConnectors(o, dropped);
    KeyPairsStay(dropped, named);
    final, chosen, aliasIssues := Aliases.AliasConnectorServerKeys(o, named);
    Aliases.AliasedKeysDistinct(named, chosen, final);
    DisambiguatedIntro(dropped, named, chosen, final);
    if nameIssues == [] {
      AliasingKeepsNames(o, named, final);
    }
    issues := nameIssues + aliasIssues;
  }

  lemma OracleParts(o: Oracles, i: Input)
    requires OracleFacts(o, i)
    ensures Names.TextFacts(o) && Names.DigestFacts(o) && Aliases.DigestShape(o) && Quotients.ContentFixesServers(o)
  {
    hide Names.TextFacts, Names.DigestFacts, Aliases.DigestShape, Quotients.ContentFixesServers;
  }

  lemma AliasingKeepsNames(o: Oracles, named: map<Id, Draft>, final: map<Id, Draft>)
    requires Names.NamesDistinct(o, named) && Aliases.SameButServers(named, final)
    ensures Names.NamesDistinct(o, final)
  {
    hide Names.NamesDistinct;
    Names.DistinctNamesStay(o, named, final);
  }

  /** The checks of a finished plan that have no icon in them: internal/migration/plan.go:487-489. */
  method FinalIssues(o: Oracles, p: Plan) returns (issues: seq<Issue>)
    ensures issues == [] <==> Releasable(p) && ChecksPass(o, p)
  {
    hide *;
    issues := ValidateMigrationReleases(p);
    ghost var releasable := issues == [];
    var view := View(p.nodes);
    var pending := view.Keys;
    ghost var done: set<Id> := {};
    FiniteSets.Start(view.Keys);
    while pending != {}
      invariant FiniteSets.Splits(view.Keys, done, pending)
      invariant issues == [] <==> releasable && forall t :: t in done ==> NodePasses(o, view, t)
      decreases |pending|
    {
      var t :| t in pending;
      FiniteSets.Step(view.Keys, done, pending, t);
      var found := NodeIssues(o, view, t);
      issues := issues + found;
      pending := pending - {t};
      done := done + {t};
    }
    FiniteSets.End(view.Keys, done);
    AllPass(o, view);
    assert ChecksPass(o, p) <==> ViewPasses(o, view) by { SameCheck(o, p); }
  }

  lemma SameCheck(o: Oracles, p: Plan)
    ensures ChecksPass(o, p) <==> ViewPasses(o, View(p.nodes))
  {
  }

  /** The names and server keys in reach of `t` do not clash. */
  ghost predicate NodePasses(o: Oracles, view: map<Id, Draft>, t: Id) {
    && (Names.IsRoot(view, t) ==> !Names.Ambiguous(o, view, t))
    && (forall id, other, key :: other != id && Aliases.Owns(view, t, key, id) ==> !Aliases.Owns(view, t, key, other))
  }

  method NodeIssues(o: Oracles, view: map<Id, Draft>, t: Id) returns (issues: seq<Issue>)
    requires t in view
    ensures issues == [] <==> NodePasses(o, view, t)
  {
    hide Names.Ambiguous, Aliases.Owns;
    issues := [];
    if Names.IsRoot(view, t) {
      var ambiguous := Names.NameAmbiguous(o, view, t);
      if ambiguous {
        issues := issues + [Issue(view[t].sourceId, "connector_name_ambiguous")];
      }
    }
    if Aliases.IsExpert(view, t) {
      var conflict := Aliases.ServerKeyConflict(view, t);
      if conflict {
        issues := issues + [Issue(view[t].sourceId, "connector_server_key_conflict")];
      }
    } else {
      Aliases.OwnsNeedsExpert(view, t);
    }
  }

  lemma AllPass(o: Oracles, view: map<Id, Draft>)
    ensures ViewPasses(o, view) <==> forall t :: t in view.Keys ==> NodePasses(o, view, t)
  {
    hide Names.Ambiguous, Aliases.Owns;
    if forall t :: t in view.Keys ==> NodePasses(o, view, t) {
      forall root | Names.IsRoot(view, root)
        ensures !Names.Ambiguous(o, view, root)
      {
        assert NodePasses(o, view, root);
      }
      forall e, id, other, key | other != id && Aliases.Owns(view, e, key, id)
        ensures !Aliases.Owns(view, e, key, other)
      {
        Aliases.OwnsKnown(view, e, key, id);
        assert NodePasses(o, view, e);
      }
    }
  }

  /** Whenever the plan is applied to the database that the input was read from, it can be
      interrupted and resumed at will, and unless the captured data conflict it ends with
      every node converted. */
  ghost predicate Applicable(i: Input, categories: map<CategoryId, CategoryRow>, p: Plan) {
    forall db :: Snapshot(i, categories, db) ==> Captured(p, db) && Resumable(p, db)
  }

  lemma BuiltIsApplicable(o: Oracles, i: Input, canonical: map<Id, Id>, nodes: map<Id, Draft>, remap: map<Id, Id>, kept: map<Id, Draft>,
                          final: map<Id, Draft>, order: seq<Id>, p: Plan)
    requires Built(o, i, canonical, nodes, remap, kept, final, order, p) && CanonicalMap(i, canonical)
    ensures Safe(p) && Applicable(i, p.categories, p)
  {
    hide Built, CanonicalMap, Safe, Snapshot, Captured, Resumable;
    BuiltIsSafe(o, i, canonical, nodes, remap, kept, final, order, p);
    forall db | Snapshot(i, p.categories, db)
      ensures Captured(p, db) && Resumable(p, db)
    {
      BuiltIsCaptured(o, i, canonical, nodes, remap, kept, final, order, p, db);
      SafeIsResumable(p, db);
    }
  }

  /** The two halves together: however the conversion of a faithful plan was interrupted, once
      a full attempt succeeds every active resource is mapped to a row with the columns of a
      node that it becomes, and that node's live edges are the planned ones. */
  lemma ResourceArrives(i: Input, categories: map<CategoryId, CategoryRow>, p: Plan, db0: Database, stops: seq<Stop>, x: Id)
    requires Faithful(i, p) && Applicable(i, categories, p) && Snapshot(i, categories, db0) && ActiveId(i, x)
    requires forall k :: 0 <= k < |p.nodes| ==> !ApplyConflict.ConflictAt(p, db0, k)
    ensures var db := Attempt(p, AtNode(|p.nodes|), Attempts(p, stops, db0)).db;
            exists k :: 0 <= k < |p.nodes| && BecomesNode(i, x, p.nodes[k])
              && (exists m :: m in db.mappings && m.source == x && m.target == Some(p.nodes[k].id))
              && NodeConverted(p.nodes[k], RowOf(db, p.nodes[k].id), OwnedBy(db, p.nodes[k].id))
  {
    hide Snapshot, Captured, ApplyConflict.ConflictAt, Attempt, Attempts, Preflight, NodeConverted, BecomesNode, NodeExplained, EdgesKept,
      EdgeExplained, PinsHold, ReceiptVerifies, ReleaseVerifies, CategoriesVerify;
    var db := Attempt(p, AtNode(|p.nodes|), Attempts(p, stops, db0)).db;
    assert Resumable(p, db0);
    assert db == Attempt(p, AtNode(|p.nodes|), db0).db;
    var k :| 0 <= k < |p.nodes| && Lands(p, x, p.nodes[k].id) && BecomesNode(i, x, p.nodes[k]);
  }

  /** internal/migration/plan.go `Build`. A plan without issues is the input rewritten, can be
      applied to the database the input was read from, and passes the final checks. */
  method Build(o: Oracles, i: Input, chosen: set<Id>, categories: map<CategoryId, CategoryRow>) returns (p: Plan, issues: seq<Issue>)
    requires WellFormed(i) && OracleFacts(o, i) && RoomFor(o, i)
    ensures p.categories == categories
    ensures issues == [] ==> Faithful(i, p)
    ensures issues == [] ==> Safe(p) && Applicable(i, categories, p)
    ensures issues == [] ==> Releasable(p) && ChecksPass(o, p)
    ensures Clean(o, i, chosen) && DocumentsFit(o) ==> issues == []
  {
    hide *;
    var canonical, nodes, mappings;
    canonical, nodes, mappings, issues := Arrange(o, i, chosen);
    RanksApart(o, i, canonical, nodes);
    var kept, remap := Quotients.Canonicalize(o, nodes);
    assert Kept(o, nodes, remap, kept) by { KeptIntro(o, nodes, remap, kept); }
    var folded := FoldMappings(remap, mappings);
    assert FinalMappings(i, canonical, remap, folded) by { FinalMappingsIntro(i, canonical, remap, mappings, folded); }
    RoomForNodes(o, i, canonical, nodes, remap, kept);
    var named, final, passIssues;
    named, final, passIssues := Disambiguate(o, i, WithoutDraftEdges(kept));
    FrameFromPasses(kept, named, final);
    KeptClosed(o, i, canonical, nodes, remap, kept);
    var graph := DependencyOrder(kept);
    GraphKeys(kept);
    var roots := Roots(kept);
    var order, cycles := PlanOrder.Order(graph, roots);
    forall k | 0 <= k < |order|
      ensures order[k] in final && final[order[k]].sourceId in i.byId
    {
      assert order[k] in order;
      FinalKnown(o, i, canonical, nodes, remap, kept, final, order[k]);
    }
    var finished := FinishNodes(i, folded, final, order);
    p := Plan(finished, folded, categories);
    ghost var arranged := issues == [];
    if arranged {
      ResolvedIsAcyclic(o, i, canonical, nodes, remap, kept);
      NoCycles(cycles);
    }
    issues := issues + passIssues + CycleIssues(cycles);
    if issues == [] {
      OracleParts(o, i);
      assert arranged;
      assert cycles == [] by { NoCycleIssues(cycles); }
      assert Finished(i, folded, kept, final, order, p) by { FinishedIntro(i, folded, kept, final, order, p); }
      assert Built(o, i, canonical, nodes, remap, kept, final, order, p) by { BuiltIntro(o, i, canonical, nodes, remap, kept, final, order, p); }
      BuiltIsFaithful(o, i, canonical, nodes, remap, kept, final, order, p);
      BuiltIsApplicable(o, i, canonical, nodes, remap, kept, final, order, p);
      SafeDistinct(p);
      BuiltView(o, i, canonical, nodes, remap, kept, final, order, p);
      DistinctPassesChecks(o, final, p);
      if Clean(o, i, chosen) {
        FaithfulPins(i, p);
        CleanIsReleasable(o, i, chosen, canonical, nodes, remap, kept, final, order, p);
      }
    }
    var finalIssues := FinalIssues(o, p);
    issues := issues + finalIssues;
  }

  lemma FaithfulPins(i: Input, p: Plan)
    requires Faithful(i, p)
    ensures PinsHold(p)
  {
    hide ResourcesPlanned, NodeExplained, EdgesKept, EdgeExplained, PinsHold;
  }

  /** When every edge resolves the plan has no cycle. */
  lemma ResolvedIsAcyclic(o: Oracles, i: Input, canonical: map<Id, Id>, nodes: map<Id, Draft>, remap: map<Id, Id>, kept: map<Id, Draft>)
    requires WellFormed(i) && CanonicalMap(i, canonical) && Arranged(i, canonical, nodes) && AllResolve(i, nodes) && Kept(o, nodes, remap, kept)
    ensures !PlanOrder.Cyclic(DependencyOrder(kept))
  {
    hide WellFormed, CanonicalMap, Arranged, AllResolve, Kept, PlanOrder.Cyclic;
    var g := DependencyOrder(kept);
    var rank := map t | t in kept :: Level(kept[t].plugin.kind);
    forall t, d | t in g && d in g[t]
      ensures t in rank && d in rank && rank[d] < rank[t]
    {
      var h :| 0 <= h < |kept[t].relations| && kept[t].relations[h].target == d;
      KeptDescends(o, i, canonical, nodes, remap, kept, t, kept[t].relations[h]);
    }
    PlanOrder.RankedIsAcyclic(g, rank);
  }

  lemma KeptDescends(o: Oracles, i: Input, canonical: map<Id, Id>, nodes: map<Id, Draft>, remap: map<Id, Id>, kept: map<Id, Draft>, t: Id, r: Relation)
    requires WellFormed(i) && CanonicalMap(i, canonical) && Arranged(i, canonical, nodes) && AllResolve(i, nodes) && Kept(o, nodes, remap, kept)
    requires t in kept && r in kept[t].relations
    ensures r.target in kept && Level(kept[r.target].plugin.kind) < Level(kept[t].plugin.kind)
  {
    hide WellFormed, CanonicalMap, Arranged, AllResolve, Quotients.Rewire, Quotients.FoldedInto;
    var r0 := EdgeBefore(o, nodes, remap, kept, t, r);
    EdgeDescends(i, canonical, nodes, t, r0);
  }

  lemma NoCycles(cycles: seq<Id>)
    ensures cycles == [] ==> CycleIssues(cycles) == []
  {
  }

  lemma SafeDistinct(p: Plan)
    requires Safe(p)
    ensures DistinctNodes(p)
  {
  }

  function CycleIssues(cycles: seq<Id>): seq<Issue> {
    seq(|cycles|, h requires 0 <= h < |cycles| => Issue(cycles[h], "graph_cycle"))
  }

  lemma NoCycleIssues(cycles: seq<Id>)
    requires CycleIssues(cycles) == []
    ensures cycles == []
  {
    assert |CycleIssues(cycles)| == |cycles|;
  }

  lemma KeptIntro(o: Oracles, nodes: map<Id, Draft>, remap: map<Id, Id>, kept: map<Id, Draft>)
    requires Quotients.Quotient(o, nodes, remap) && kept.Keys == nodes.Keys - remap.Keys
    requires forall t :: t in kept ==> kept[t] == Quotients.Survivor(nodes, remap, t)
    ensures Kept(o, nodes, remap, kept)
  {
  }

  lemma FinalMappingsIntro(i: Input, canonical: map<Id, Id>, remap: map<Id, Id>, mappings: seq<Mapping>, folded: seq<Mapping>)
    requires WellFormed(i)
    requires |mappings| == |i.order| && forall h :: 0 <= h < |i.order| ==> i.order[h] in i.byId && mappings[h] == MappingOf(i, canonical, i.order[h])
    requires |folded| == |mappings| && forall h :: 0 <= h < |mappings| ==> folded[h] == Folded(remap, mappings[h])
    ensures FinalMappings(i, canonical, remap, folded)
  {
  }

  lemma GraphKeys(kept: map<Id, Draft>)
    ensures DependencyOrder(kept).Keys == kept.Keys
  {
  }

  lemma FinalKnown(o: Oracles, i: Input, canonical: map<Id, Id>, nodes: map<Id, Draft>, remap: map<Id, Id>, kept: map<Id, Draft>, final: map<Id, Draft>, t: Id)
    requires Arranged(i, canonical, nodes) && Kept(o, nodes, remap, kept) && SameFrame(kept, final) && t in kept
    ensures t in final && final[t].sourceId in i.byId
  {
    hide Arranged, Kept;
    KeptFacts(o, i, canonical, nodes, remap, kept, t);
  }

  lemma FinishedIntro(i: Input, mappings: seq<Mapping>, kept: map<Id, Draft>, final: map<Id, Draft>, order: seq<Id>, p: Plan)
    requires PlanOrder.Distinct(order) && PlanOrder.Topological(DependencyOrder(kept), order)
    requires forall t :: t in order <==> t in kept
    requires SameFrame(kept, final) && p.mappings == mappings && |p.nodes| == |order|
    requires forall k :: 0 <= k < |order| ==> order[k] in final && final[order[k]].sourceId in i.byId && p.nodes[k] == Finish(i, mappings, final[order[k]])
    ensures Finished(i, mappings, kept, final, order, p)
  {
  }

  lemma BuiltIntro(o: Oracles, i: Input, canonical: map<Id, Id>, nodes: map<Id, Draft>, remap: map<Id, Id>, kept: map<Id, Draft>,
                   final: map<Id, Draft>, order: seq<Id>, p: Plan)
    requires WellFormed(i) && Arranged(i, canonical, nodes) && Kept(o, nodes, remap, kept)
    requires FinalMappings(i, canonical, remap, p.mappings) && Finished(i, p.mappings, kept, final, order, p)
    ensures Built(o, i, canonical, nodes, remap, kept, final, order, p)
  {
  }

  // ------------------------------------------------------------------ an example

  /** One published expert with one MCP server. */
  function ExampleInput(): Input {
    var plugin := Plugin("writer", Expert, "owner", Some("space"), Space, Published, 1, false, None, Some(map["files" := "config"]));
    var row := PluginRow(plugin, "", None, None, None);
    var text := VersionLabels.Print3(VersionLabels.Triple(1, 2, 3));
    Input(map[Source("e") := Resource(Source("e"), plugin, false, false, 0, [], None, None, Some(text), Evidence(row, NOTHING_OWNED))],
          [Source("e")], [], [])
  }

  function ExampleOracles(): Oracles {
    Oracles(
      (x: string) => x,
      (x: string) => x,
      (x: string) => if |x| <= 50 then x else x[..50],
      (p: Plugin) => p.name,
      (p: Plugin) => if p.servers == Some(map["files" := "config"]) then Some("files") else None,
      (t: Id) => "id",
      (t: Id) => "aaaaaaaaaaaa",
      (t: Id, key: string, attempt: nat) => if attempt == 0 then "000000000000" else if attempt == 1 then "000000000001" else "000000000002",
      (t: Id) => match t case Source(_) => 0 case Converted(_, _) => 1 case Extracted(_, _) => 2,
      (p: Plugin) => true,
      (p: Plugin) => true)
  }

  lemma ExampleAliases(d: Draft, key: string)
    ensures var o := ExampleOracles();
            && Aliases.Alias(o, d, key, 0) != Aliases.Alias(o, d, key, 1)
            && Aliases.Alias(o, d, key, 1) != Aliases.Alias(o, d, key, 2)
            && Aliases.Alias(o, d, key, 0) != Aliases.Alias(o, d, key, 2)
  {
    hide Aliases.Label;
    var o := ExampleOracles();
    var front := Aliases.Label(key, "mcp") + "-" + Aliases.Label(d.source.name, "source") + "-";
    var a, b, c := Aliases.Alias(o, d, key, 0), Aliases.Alias(o, d, key, 1), Aliases.Alias(o, d, key, 2);
    assert a == front + "000000000000" && b == front + "000000000001" && c == front + "000000000002";
    assert a[|front| + 11] == '0' && b[|front| + 11] == '1' && c[|front| + 11] == '2';
  }

  lemma ExampleSpreads()
    ensures Aliases.AttemptsSpread(ExampleOracles(), 2)
  {
    hide Aliases.Alias;
    var o := ExampleOracles();
    forall d: Draft, key: string, used: set<string> | |used| <= 2
      ensures Aliases.SomeAttemptFresh(o, d, key, used)
    {
      var a, b, c := Aliases.Alias(o, d, key, 0), Aliases.Alias(o, d, key, 1), Aliases.Alias(o, d, key, 2);
      ExampleAliases(d, key);
      if {a, b, c} <= used {
        FiniteSets.Subset({a, b, c}, used);
      }
    }
  }

  lemma ExampleSuffix(b: string, s: string, d: string)
    requires Names.IsSuffix(d)
    ensures Names.EndsWith(Normalized(ExampleOracles(), Names.Joined(b, s, d)), "-" + d)
  {
    assert Names.Joined(b, s, d) == b + "-" + s + ("-" + d);
  }

  lemma ExampleText()
    ensures Names.TextFacts(ExampleOracles()) && Names.DigestFacts(ExampleOracles()) && Aliases.DigestShape(ExampleOracles())
  {
    hide Names.EndsWith, Names.Joined;
    forall b: string, s: string, d: string | Names.IsSuffix(d)
      ensures Names.EndsWith(Normalized(ExampleOracles(), Names.Joined(b, s, d)), "-" + d)
    {
      ExampleSuffix(b, s, d);
    }
  }

  lemma ExampleContent()
    ensures Quotients.ContentFixesServers(ExampleOracles())
  {
  }

  lemma ExampleIsClean()
    ensures Clean(ExampleOracles(), ExampleInput(), {}) && DocumentsFit(ExampleOracles())
  {
    hide LabelsExhausted, VersionLabels.Print3;
    var i := ExampleInput();
    assert forall x :: x in i.byId <==> x == Source("e");
    assert i.byId[Source("e")].relations == [] && i.byId[Source("e")].plugin.kind == Expert;
    ExampleLabel();
  }

  lemma ExampleLabel()
    ensures Source("e") in ExampleInput().byId && !LabelsExhausted(ExampleInput(), Source("e"))
  {
    hide VersionLabels.Parse, VersionLabels.Print3, VersionLabels.ReleasableLabel;
    var t := VersionLabels.Triple(1, 2, 3);
    VersionLabels.PrintedIsReleasable(t);
    VersionLabels.SplitPrinted(t);
    VersionLabels.ReleasableCounts(VersionLabels.Print3(t));
  }

  lemma ExampleServers()
    ensures WellFormed(ExampleInput()) && ServerPairs(ExampleInput()) == {(Source("e"), "files")}
    ensures ActiveId(ExampleInput(), Source("e")) && ServersIn(ExampleInput(), Source("e")) == map["files" := "config"]
    ensures forall x :: x in ExampleInput().byId <==> x == Source("e")
  {
    var i := ExampleInput();
    assert ServersIn(i, Source("e")) == map["files" := "config"];
  }

  lemma ExampleRanks(a: Id, b: Id)
    requires Arises(ExampleInput(), a) && Arises(ExampleInput(), b) && ExampleOracles().rank(a) == ExampleOracles().rank(b)
    ensures a == b
  {
    ExampleServers();
    hide ExampleInput;
  }

  /** The planner's assumptions are met by real inputs, and it does plan them: here an
      active expert with a server. */
  lemma ExampleMeetsRequires()
    ensures WellFormed(ExampleInput()) && OracleFacts(ExampleOracles(), ExampleInput()) && RoomFor(ExampleOracles(), ExampleInput())
    ensures ActiveId(ExampleInput(), Source("e")) && ServersIn(ExampleInput(), Source("e")) != map[]
    ensures Clean(ExampleOracles(), ExampleInput(), {}) && DocumentsFit(ExampleOracles())
  {
    hide Names.TextFacts, Names.DigestFacts, Aliases.DigestShape, Aliases.AttemptsSpread, ExampleOracles, Arises, Clean, ServerPairs, DocumentsFit,
      ServersIn, WellFormed, Quotients.ContentFixesServers;
    ExampleText();
    ExampleContent();
    ExampleSpreads();
    ExampleServers();
    ExampleIsClean();
    forall a, b | Arises(ExampleInput(), a) && Arises(ExampleInput(), b) && ExampleOracles().rank(a) == ExampleOracles().rank(b)
      ensures a == b
    {
      ExampleRanks(a, b);
    }
    assert ExampleInput().byId.Keys == {Source("e")};
  }
}
