/** Folding equivalent connectors into one, internal/migration/connector_canonical.go. */
module ConnectorCanonical {
  import opened Options
  import FiniteSets
  import opened Tables
  import opened PlannerTypes

  /** What two connectors must share to be folded into one. */
  datatype Key = Key(scope: Scope, owner: string, status: int, listing: Listing, name: string, content: string)

  function KeyOf(o: Oracles, d: Draft): Option<Key> {
    match o.connectorContent(d.plugin)
    case None => None
    case Some(content) =>
      Some(Key(ScopeOf(d.plugin), d.plugin.owner, d.plugin.status, d.plugin.listing, o.trim(d.plugin.name), content))
  }

  /** A content fingerprint covers the server map, so equal fingerprints mean equal servers. */
  ghost predicate ContentFixesServers(o: Oracles) {
    forall p, q :: o.connectorContent(p).Some? && o.connectorContent(p) == o.connectorContent(q) ==> p.servers == q.servers
  }

  function Connectors(nodes: map<Id, Draft>): set<Id> {
    set id | id in nodes && nodes[id].plugin.kind == Connector
  }

  function Landing(remap: map<Id, Id>, id: Id): Id {
    if id in remap then remap[id] else id
  }

  /** Sources of the connectors that were folded into `id`. */
  function FoldedInto(nodes: map<Id, Draft>, remap: map<Id, Id>, id: Id): set<Id> {
    set c | c in remap && c in nodes && remap[c] == id :: nodes[c].sourceId
  }

  // ---------------------------------------------------------------- edges

  function Redirect(remap: map<Id, Id>, r: Relation): Relation {
    r.(target := Landing(remap, r.target))
  }

  /** An edge that repeats a connector edge already kept. */
  predicate Repeats(seen: set<Id>, e: Relation) {
    e.kind == ExpertConnector && e.target in seen
  }

  function Seen(seen: set<Id>, e: Relation): set<Id> {
    if e.kind == ExpertConnector then seen + {e.target} else seen
  }

  /** Redirects every edge, keeping only the first connector edge to each target. */
  function Rewire(remap: map<Id, Id>, relations: seq<Relation>, seen: set<Id>): seq<Relation>
    decreases |relations|
  {
    if relations == [] then []
    else
      var e := Redirect(remap, relations[0]);
      if Repeats(seen, e) then Rewire(remap, relations[1..], seen)
      else [e] + Rewire(remap, relations[1..], Seen(seen, e))
  }

  /** Every edge after rewiring is the redirection of an edge before. */
  lemma {:induction false} RewireSound(remap: map<Id, Id>, relations: seq<Relation>, seen: set<Id>, e: Relation)
    requires e in Rewire(remap, relations, seen)
    ensures exists r :: r in relations && e == Redirect(remap, r)
    ensures !Repeats(seen, e)
    decreases |relations|
  {
    var head := Redirect(remap, relations[0]);
    if Repeats(seen, head) || e != head {
      RewireSound(remap, relations[1..], if Repeats(seen, head) then seen else Seen(seen, head), e);
      var r :| r in relations[1..] && e == Redirect(remap, r);
      assert r in relations;
    } else {
      assert relations[0] in relations;
    }
  }

  /** Every edge before rewiring still has an edge of its kind to its redirected target. */
  lemma {:induction false} RewireComplete(remap: map<Id, Id>, relations: seq<Relation>, seen: set<Id>, r: Relation) returns (e: Relation)
    requires r in relations && !Repeats(seen, Redirect(remap, r))
    ensures e in Rewire(remap, relations, seen) && e.kind == r.kind && e.target == Landing(remap, r.target)
    decreases |relations|
  {
    var head := Redirect(remap, relations[0]);
    if head.kind == r.kind && head.target == Landing(remap, r.target) {
      e := head;
    } else {
      assert r in relations[1..];
      e := RewireComplete(remap, relations[1..], if Repeats(seen, head) then seen else Seen(seen, head), r);
    }
  }

  ghost predicate OneEdgeEach(w: seq<Relation>) {
    forall i, j :: 0 <= i < j < |w| && w[i].kind == ExpertConnector && w[j].kind == ExpertConnector ==> w[i].target != w[j].target
  }

  /** No node keeps two connector edges to the same target. */
  lemma {:induction false} RewireDistinct(remap: map<Id, Id>, relations: seq<Relation>, seen: set<Id>)
    ensures OneEdgeEach(Rewire(remap, relations, seen))
    decreases |relations|
  {
    if relations != [] {
      var head := Redirect(remap, relations[0]);
      if Repeats(seen, head) {
        RewireDistinct(remap, relations[1..], seen);
        assert Rewire(remap, relations, seen) == Rewire(remap, relations[1..], seen);
      } else {
        var rest := Rewire(remap, relations[1..], Seen(seen, head));
        RewireDistinct(remap, relations[1..], Seen(seen, head));
        forall j | 0 <= j < |rest|
          ensures !Repeats(Seen(seen, head), rest[j])
        {
          RewireSound(remap, relations[1..], Seen(seen, head), rest[j]);
        }
      }
    }
  }

  method RewireRelations(remap: map<Id, Id>, relations: seq<Relation>) returns (rewired: seq<Relation>)
    ensures rewired == Rewire(remap, relations, {})
  {
    rewired := [];
    var seen: set<Id> := {};
    var i := 0;
    while i < |relations|
      invariant 0 <= i <= |relations|
      invariant rewired + Rewire(remap, relations[i..], seen) == Rewire(remap, relations, {})
    {
      assert relations[i..][0] == relations[i] && relations[i..][1..] == relations[i + 1..];
      var e := Redirect(remap, relations[i]);
      if !Repeats(seen, e) {
        seen := Seen(seen, e);
        rewired := rewired + [e];
      }
      i := i + 1;
    }
  }

  // -------------------------------------------------------------- quotient

  ghost predicate SortedIds(o: Oracles, nodes: map<Id, Draft>, ids: seq<Id>) {
    && (forall id :: id in ids ==> id in nodes)
    && forall i, j :: 0 <= i < j < |ids| ==> Earlier(o, nodes, ids[i], ids[j])
  }

  method SortConnectors(o: Oracles, nodes: map<Id, Draft>) returns (ids: seq<Id>)
    requires RankInjective(o, nodes.Keys)
    ensures SortedIds(o, nodes, ids)
    ensures forall id :: id in ids <==> id in Connectors(nodes)
  {
    ids := [];
    var pending := Connectors(nodes);
    while pending != {}
      invariant pending <= Connectors(nodes)
      invariant SortedIds(o, nodes, ids)
      invariant forall id :: id in ids <==> id in Connectors(nodes) && id !in pending
      invariant forall a, b :: a in ids && b in pending ==> Earlier(o, nodes, a, b)
      decreases |pending|
    {
      var first := Earliest(o, nodes, pending);
      ids := ids + [first];
      pending := pending - {first};
    }
  }

  method Earliest(o: Oracles, nodes: map<Id, Draft>, ids: set<Id>) returns (first: Id)
    requires ids != {} && ids <= nodes.Keys && RankInjective(o, nodes.Keys)
    ensures first in ids && forall id :: id in ids && id != first ==> Earlier(o, nodes, first, id)
  {
    first :| first in ids;
    var pending := ids - {first};
    while pending != {}
      invariant pending <= ids && first in ids && first !in pending
      invariant forall id :: id in ids && id !in pending && id != first ==> Earlier(o, nodes, first, id)
      decreases |pending|
    {
      var id :| id in pending;
      pending := pending - {id};
      if Earlier(o, nodes, id, first) {
        first := id;
      }
    }
  }

  /** `remap` sends every folded connector to the earliest connector of its class, and
      no two survivors are left in one class. */
  ghost predicate Quotient(o: Oracles, nodes: map<Id, Draft>, remap: map<Id, Id>) {
    && remap.Keys <= Connectors(nodes)
    && (forall id :: id in remap ==>
          && remap[id] in Connectors(nodes) && remap[id] !in remap
          && KeyOf(o, nodes[id]).Some? && KeyOf(o, nodes[remap[id]]) == KeyOf(o, nodes[id]))
    && (forall a, b :: a in remap && b in Connectors(nodes) && b != remap[a] && KeyOf(o, nodes[b]) == KeyOf(o, nodes[a]) ==>
          b in remap && remap[b] == remap[a] && Earlier(o, nodes, remap[a], b))
    && (forall a, b :: a in Connectors(nodes) && b in Connectors(nodes) && a != b && a !in remap && b !in remap ==>
          KeyOf(o, nodes[a]).None? || KeyOf(o, nodes[a]) != KeyOf(o, nodes[b]))
  }

  /** The surviving nodes: redirected edges, and the sources of whatever was folded in. */
  function Survivor(nodes: map<Id, Draft>, remap: map<Id, Id>, id: Id): Draft
    requires id in nodes
  {
    nodes[id].(merged := nodes[id].merged + FoldedInto(nodes, remap, id),
               relations := Rewire(remap, nodes[id].relations, {}))
  }

  /** internal/migration/connector_canonical.go `canonicalizeConnectors`. */
  method Canonicalize(o: Oracles, nodes: map<Id, Draft>) returns (kept: map<Id, Draft>, remap: map<Id, Id>)
    requires RankInjective(o, nodes.Keys)
    ensures Quotient(o, nodes, remap)
    ensures kept.Keys == nodes.Keys - remap.Keys
    ensures forall id :: id in kept ==> kept[id] == Survivor(nodes, remap, id)
  {
    hide Quotient, Rewire, FoldedInto, RankInjective;
    var ids := SortConnectors(o, nodes);
    var folded: map<Id, Draft>;
    folded, remap := Fold(o, nodes, ids);
    kept := RewireNodes(nodes, remap, folded);
  }

  ghost predicate AllSurvivors(nodes: map<Id, Draft>, remap: map<Id, Id>, kept: map<Id, Draft>) {
    forall id :: id in kept ==> id in nodes && kept[id] == Survivor(nodes, remap, id)
  }

  lemma NoSurvivors(nodes: map<Id, Draft>, remap: map<Id, Id>)
    ensures AllSurvivors(nodes, remap, map[])
  {
  }

  lemma SurvivorStep(nodes: map<Id, Draft>, remap: map<Id, Id>, folded: map<Id, Draft>, kept: map<Id, Draft>, id: Id)
    requires Remainder(nodes, remap, folded) && AllSurvivors(nodes, remap, kept) && id in folded
    ensures AllSurvivors(nodes, remap, kept[id := folded[id].(relations := Rewire(remap, folded[id].relations, {}))])
  {
    hide Rewire, FoldedInto;
  }

  /** The edges of every node that is left, lines 44-67. */
  method RewireNodes(nodes: map<Id, Draft>, remap: map<Id, Id>, folded: map<Id, Draft>) returns (kept: map<Id, Draft>)
    requires Remainder(nodes, remap, folded)
    ensures kept.Keys == folded.Keys && AllSurvivors(nodes, remap, kept)
  {
    hide *;
    kept := map[];
    var pending := folded.Keys;
    ghost var done: set<Id> := {};
    FiniteSets.Start(folded.Keys);
    NoSurvivors(nodes, remap);
    while pending != {}
      invariant FiniteSets.Splits(folded.Keys, done, pending)
      invariant kept.Keys == done && AllSurvivors(nodes, remap, kept)
      decreases |pending|
    {
      var id :| id in pending;
      FiniteSets.Step(folded.Keys, done, pending, id);
      var rewired := RewireRelations(remap, folded[id].relations);
      SurvivorStep(nodes, remap, folded, kept, id);
      kept := kept[id := folded[id].(relations := rewired)];
      pending := pending - {id};
      done := done + {id};
    }
    FiniteSets.End(folded.Keys, done);
  }

  /** How the folding loop has treated connector `id`. */
  ghost predicate Folded(o: Oracles, nodes: map<Id, Draft>, canonical: map<Key, Id>, remap: map<Id, Id>, id: Id) {
    && id in nodes
    && match KeyOf(o, nodes[id])
       case None => id !in remap
       case Some(k) =>
         && k in canonical && canonical[k] in nodes
         && (if id == canonical[k] then id !in remap
             else id in remap && remap[id] == canonical[k] && Earlier(o, nodes, canonical[k], id))
  }

  /** State of the folding loop after the connectors in `done`: each key seen so far
      belongs to its first connector, and later ones are folded into that one. */
  ghost predicate Folding(o: Oracles, nodes: map<Id, Draft>, done: seq<Id>, canonical: map<Key, Id>, remap: map<Id, Id>) {
    && (forall k :: k in canonical ==> canonical[k] in done && canonical[k] in nodes && KeyOf(o, nodes[canonical[k]]) == Some(k))
    && (forall id :: id in done ==> Folded(o, nodes, canonical, remap, id))
    && (forall id :: id in remap ==> id in done)
  }

  lemma FoldingDone(o: Oracles, nodes: map<Id, Draft>, ids: seq<Id>, canonical: map<Key, Id>, remap: map<Id, Id>)
    requires Folding(o, nodes, ids, canonical, remap)
    requires forall id :: id in ids <==> id in Connectors(nodes)
    ensures Quotient(o, nodes, remap)
  {
    hide KeyOf;
    assert forall id :: id in Connectors(nodes) ==> Folded(o, nodes, canonical, remap, id);
  }

  lemma FoldingSkip(o: Oracles, nodes: map<Id, Draft>, done: seq<Id>, canonical: map<Key, Id>, remap: map<Id, Id>, id: Id)
    requires Folding(o, nodes, done, canonical, remap) && id in nodes && id !in done && KeyOf(o, nodes[id]).None?
    ensures Folding(o, nodes, done + [id], canonical, remap)
  {
    hide KeyOf;
  }

  lemma FoldingFirst(o: Oracles, nodes: map<Id, Draft>, done: seq<Id>, canonical: map<Key, Id>, remap: map<Id, Id>, id: Id, k: Key)
    requires Folding(o, nodes, done, canonical, remap) && id in nodes && id !in done
    requires KeyOf(o, nodes[id]) == Some(k) && k !in canonical
    ensures Folding(o, nodes, done + [id], canonical[k := id], remap)
  {
    hide KeyOf;
    forall x | x in done
      ensures Folded(o, nodes, canonical[k := id], remap, x)
    {
      assert Folded(o, nodes, canonical, remap, x);
    }
  }

  lemma FoldingInto(o: Oracles, nodes: map<Id, Draft>, done: seq<Id>, canonical: map<Key, Id>, remap: map<Id, Id>, id: Id, k: Key)
    requires Folding(o, nodes, done, canonical, remap) && id in nodes && id !in done
    requires KeyOf(o, nodes[id]) == Some(k) && k in canonical
    requires forall x :: x in done ==> x in nodes && Earlier(o, nodes, x, id)
    ensures Folding(o, nodes, done + [id], canonical, remap[id := canonical[k]])
  {
    hide KeyOf;
    forall x | x in done
      ensures Folded(o, nodes, canonical, remap[id := canonical[k]], x)
    {
      assert Folded(o, nodes, canonical, remap, x);
    }
  }

  /** `folded` is what is left of `nodes` when `remap` has been folded away. */
  ghost predicate Remainder(nodes: map<Id, Draft>, remap: map<Id, Id>, folded: map<Id, Draft>) {
    && folded.Keys == nodes.Keys - remap.Keys
    && forall id :: id in folded ==> folded[id] == nodes[id].(merged := nodes[id].merged + FoldedInto(nodes, remap, id))
  }

  lemma RemainderStep(nodes: map<Id, Draft>, remap: map<Id, Id>, folded: map<Id, Draft>, id: Id, target: Id)
    requires Remainder(nodes, remap, folded) && id in folded && target in folded && id != target
    ensures Remainder(nodes, remap[id := target],
                      folded[target := folded[target].(merged := folded[target].merged + {folded[id].sourceId})] - {id})
  {
    hide FoldedInto;
    forall x | x in folded
      ensures FoldedInto(nodes, remap[id := target], x) ==
              if x == target then FoldedInto(nodes, remap, x) + {nodes[id].sourceId} else FoldedInto(nodes, remap, x)
    {
      FoldedStep(nodes, remap, id, target, x);
    }
  }

  lemma FoldedStep(nodes: map<Id, Draft>, remap: map<Id, Id>, id: Id, target: Id, x: Id)
    requires id in nodes && id !in remap
    ensures FoldedInto(nodes, remap[id := target], x) ==
            if x == target then FoldedInto(nodes, remap, x) + {nodes[id].sourceId} else FoldedInto(nodes, remap, x)
  {
    var after := remap[id := target];
    forall s | s in FoldedInto(nodes, remap, x)
      ensures s in FoldedInto(nodes, after, x)
    {
      var c :| c in remap && c in nodes && remap[c] == x && nodes[c].sourceId == s;
      assert c in after && after[c] == x;
    }
    if x == target {
      assert id in after && after[id] == x;
    }
  }

  method Fold(o: Oracles, nodes: map<Id, Draft>, ids: seq<Id>) returns (folded: map<Id, Draft>, remap: map<Id, Id>)
    requires SortedIds(o, nodes, ids)
    requires forall id :: id in ids <==> id in Connectors(nodes)
    ensures Quotient(o, nodes, remap)
    ensures Remainder(nodes, remap, folded)
  {
    hide Quotient, Folding, KeyOf, FoldedInto, Earlier;
    SortedDistinct(o, nodes, ids);
    var canonical: map<Key, Id> := map[];
    remap := map[];
    folded := nodes;
    NothingFolded(o, nodes);
    assert ids[..0] == [];
    var i := 0;
    while i < |ids|
      invariant 0 <= i <= |ids|
      invariant Folding(o, nodes, ids[..i], canonical, remap)
      invariant Remainder(nodes, remap, folded)
    {
      var id := ids[i];
      assert ids[..i + 1] == ids[..i] + [id];
      assert id !in ids[..i];
      FoldingPending(o, nodes, ids[..i], canonical, remap, id);
      var key := KeyOf(o, folded[id]);
      SameKey(o, nodes, remap, folded, id);
      if key.None? {
        FoldingSkip(o, nodes, ids[..i], canonical, remap, id);
      } else if key.value in canonical {
        var target := canonical[key.value];
        FoldingTarget(o, nodes, ids[..i], canonical, remap, id, key.value);
        FoldingInto(o, nodes, ids[..i], canonical, remap, id, key.value);
        RemainderStep(nodes, remap, folded, id, target);
        folded := folded[target := folded[target].(merged := folded[target].merged + {folded[id].sourceId})] - {id};
        remap := remap[id := target];
      } else {
        FoldingFirst(o, nodes, ids[..i], canonical, remap, id, key.value);
        canonical := canonical[key.value := id];
      }
      i := i + 1;
    }
    assert ids[..i] == ids;
    FoldingDone(o, nodes, ids, canonical, remap);
  }

  lemma NothingFolded(o: Oracles, nodes: map<Id, Draft>)
    ensures Remainder(nodes, map[], nodes)
    ensures Folding(o, nodes, [], map[], map[])
  {
  }

  lemma FoldingPending(o: Oracles, nodes: map<Id, Draft>, done: seq<Id>, canonical: map<Key, Id>, remap: map<Id, Id>, id: Id)
    requires Folding(o, nodes, done, canonical, remap) && id !in done
    ensures id !in remap
  {
  }

  lemma FoldingTarget(o: Oracles, nodes: map<Id, Draft>, done: seq<Id>, canonical: map<Key, Id>, remap: map<Id, Id>, id: Id, k: Key)
    requires Folding(o, nodes, done, canonical, remap) && id !in done && k in canonical
    ensures canonical[k] in nodes && canonical[k] !in remap && canonical[k] != id
  {
    hide KeyOf;
    assert Folded(o, nodes, canonical, remap, canonical[k]);
  }

  lemma SortedDistinct(o: Oracles, nodes: map<Id, Draft>, ids: seq<Id>)
    requires SortedIds(o, nodes, ids)
    ensures forall i, j :: 0 <= i < j < |ids| ==> ids[i] != ids[j]
  {
  }

  lemma SameKey(o: Oracles, nodes: map<Id, Draft>, remap: map<Id, Id>, folded: map<Id, Draft>, id: Id)
    requires Remainder(nodes, remap, folded) && id in folded
    ensures KeyOf(o, folded[id]) == KeyOf(o, nodes[id])
  {
  }
}
