/** What every committed prefix of a plan keeps true of the database. */
module ApplyInvariant {
  import opened Options
  import opened Tables
  import opened MigrationPlan
  import opened ApplySpec
  import opened ApplyConflict

  /** `db` is the database the plan was captured from: no conversion row yet, every
      piece of evidence current, and every derived identity unused. */
  ghost predicate Captured(p: Plan, db: Database) {
    && db.run == None && db.mappings == {} && db.receipts == map[]
    && (forall n, x :: n in p.nodes && x in n.evidence ==>
          RowOf(db, x) == Some(n.evidence[x].row) && OwnedBy(db, x) == n.evidence[x].owned)
    && (forall n :: n in p.nodes ==> PublicationVerifies(n, n.sourceRow, OwnedBy(db, n.sourceId).releases))
    && (forall n :: n in p.nodes && n.clone ==> n.id !in db.plugins && n.id !in db.owned)
    && (forall n :: n in p.nodes && n.versionId.Some? ==> !HasRelease(OwnedBy(db, n.id), n.versionId.value))
    && BaselineIntact(p, db.categories)
    && (forall i :: 0 <= i < |db.categories| ==> db.categories[i].id in p.categories)
  }

  ghost predicate Untouched(db0: Database, db: Database, x: Id) {
    RowOf(db, x) == RowOf(db0, x) && OwnedBy(db, x) == OwnedBy(db0, x)
  }

  ghost predicate WrittenBefore(p: Plan, k: nat, x: Id)
    requires k <= |p.nodes|
  {
    exists i :: 0 <= i < k && Writes(p, p.nodes[i], x)
  }

  /** Exactly the first `k` nodes hold receipts, and all of those verify. */
  ghost predicate ReceiptsStand(p: Plan, k: nat, db: Database)
    requires k <= |p.nodes|
  {
    && (forall id :: id in db.receipts ==> exists i :: 0 <= i < k && p.nodes[i].id == id)
    && (forall i :: 0 <= i < k ==> ReceiptVerifies(p, p.nodes[i], db) && p.nodes[i].id in db.plugins)
  }

  /** Rows that no committed node writes are as they were captured. */
  ghost predicate SourcesStand(p: Plan, db0: Database, k: nat, db: Database)
    requires k <= |p.nodes|
  {
    && (forall x :: x in db0.plugins ==> x in db.plugins)
    && (forall x :: !WrittenBefore(p, k, x) ==> Untouched(db0, db, x))
  }

  /** Every categorised placement of a committed node is registered. */
  ghost predicate PlacementsRegistered(n: Node, db: Database) {
    forall v :: v in OwnedBy(db, n.id).placements && v.category.Some? ==>
      Registered(db.categories, v.code, n.plugin.kind, v.category.value)
  }

  /** The shared catalog holds its baseline plus rows that committed nodes vouch for. */
  ghost predicate CatalogStands(p: Plan, k: nat, db: Database)
    requires k <= |p.nodes|
  {
    && BaselineIntact(p, db.categories)
    && (forall i :: 0 <= i < k ==> PlacementsRegistered(p.nodes[i], db))
    && (forall c :: c in db.categories && c.id !in p.categories ==>
          && c.id == Derived(c.code, c.kind, c.category)
          && exists i :: 0 <= i < k && Vouches(p.nodes[i], db, c))
  }

  /** The mapping rows are those of committed nodes, plus rows without a target. */
  ghost predicate MappingsStand(p: Plan, k: nat, db: Database)
    requires k <= |p.nodes|
  {
    && (forall m :: m in db.mappings ==> m in p.mappings && (m.target.None? || exists i :: 0 <= i < k && MapsTo(m, p.nodes[i].id)))
    && (forall i, m :: 0 <= i < k && m in p.mappings && MapsTo(m, p.nodes[i].id) ==> m in db.mappings)
  }

  /** The rows of `n` are the planned ones: its columns, its live edges, and its version,
      label and publication pointers. */
  ghost predicate NodeConverted(n: Node, row: Option<PluginRow>, o: Owned) {
    && row.Some? && row.value.plugin == n.plugin
    && (forall r :: r in n.relations <==> RelationRow(r, true) in o.relations)
    && ReleaseVerifies(n, row, o)
  }

  /** Committed nodes are converted and stay so. */
  ghost predicate NodesStand(p: Plan, k: nat, db: Database)
    requires k <= |p.nodes|
  {
    forall i :: 0 <= i < k ==> NodeConverted(p.nodes[i], RowOf(db, p.nodes[i].id), OwnedBy(db, p.nodes[i].id))
  }

  /** The catalog has served the placements of the committed nodes, none of which the
      captured data forbid. */
  ghost predicate NeedsStand(p: Plan, db0: Database, k: nat, db: Database)
    requires k <= |p.nodes|
  {
    && Catalog(db0.categories, Needs(p, db0, k), db.categories)
    && forall i :: 0 <= i < k ==> !ConflictAt(p, db0, i)
  }

  ghost predicate Committed(p: Plan, db0: Database, k: nat, db: Database) {
    && k <= |p.nodes|
    && NeedsStand(p, db0, k, db)
    && ReceiptsStand(p, k, db)
    && SourcesStand(p, db0, k, db)
    && CatalogStands(p, k, db)
    && MappingsStand(p, k, db)
    && NodesStand(p, k, db)
  }

  lemma CapturedIsCommitted(p: Plan, db: Database)
    requires Captured(p, db)
    ensures Committed(p, db, 0, db)
  {
  }

  // ------------------------------------------------- checks that must pass

  /** The sources of a pending node are as they were captured. */
  lemma EvidenceUntouched(p: Plan, db0: Database, k: nat, db: Database, j: nat, x: Id)
    requires Safe(p) && Committed(p, db0, k, db)
    requires k <= j < |p.nodes| && x in p.nodes[j].evidence
    ensures Untouched(db0, db, x)
  {
    hide NeedsStand, ReceiptsStand, CatalogStands, MappingsStand, NodesStand, DependenciesFirst, NodeComplete, TargetsPlanned;
    assert forall i :: 0 <= i < k && Writes(p, p.nodes[i], x) ==> j < i;
  }

  /** The evidence of every node that is still pending is intact. */
  lemma PendingSourcesVerify(p: Plan, db0: Database, k: nat, db: Database, j: nat)
    requires Safe(p) && Captured(p, db0) && Committed(p, db0, k, db)
    requires k <= j < |p.nodes|
    ensures SourcesVerify(p, p.nodes[j], db)
  {
    var n := p.nodes[j];
    assert n in p.nodes && NodeComplete(p, n);
    forall x | x in n.evidence
      ensures Untouched(db0, db, x)
    {
      EvidenceUntouched(p, db0, k, db, j, x);
    }
  }

  lemma CatalogVerifies(p: Plan, db0: Database, k: nat, db: Database)
    requires Safe(p) && Committed(p, db0, k, db)
    ensures CategoriesVerify(p, db)
  {
    hide NeedsStand, SourcesStand, MappingsStand, NodesStand, Safe, PlacementPresent, ExtraJustified;
    forall i | 0 <= i < |db.categories| && db.categories[i].id !in p.categories
      ensures ExtraJustified(p, db, db.categories[i])
    {
      ExtraVerifies(p, db0, k, db, db.categories[i]);
    }
    forall id, v | id in db.receipts && v in OwnedBy(db, id).placements
      ensures PlacementPresent(p, db, id, v)
    {
      PresentVerifies(p, db0, k, db, id, v);
    }
  }

  lemma ExtraVerifies(p: Plan, db0: Database, k: nat, db: Database, c: CategoryRow)
    requires Committed(p, db0, k, db) && c in db.categories && c.id !in p.categories
    ensures ExtraJustified(p, db, c)
  {
    hide NeedsStand, SourcesStand, MappingsStand, NodesStand, StateOf;
    var w :| 0 <= w < k && Vouches(p.nodes[w], db, c);
    var first := FirstVoucher(p, db, c, w);
    assert first < k;
  }

  lemma PresentVerifies(p: Plan, db0: Database, k: nat, db: Database, id: Id, v: PlacementRow)
    requires Safe(p) && Committed(p, db0, k, db) && id in db.receipts && v in OwnedBy(db, id).placements
    ensures PlacementPresent(p, db, id, v)
  {
    hide NeedsStand, SourcesStand, MappingsStand, NodesStand, StateOf, WritersLast, DependenciesFirst, NodeComplete, TargetsPlanned, DistinctSources;
    var h :| 0 <= h < k && p.nodes[h].id == id;
    KindOfNode(p.nodes, h);
    assert PlacementsRegistered(p.nodes[h], db);
  }

  lemma {:induction false} KindOfNode(nodes: seq<Node>, h: nat)
    requires h < |nodes|
    requires forall i, j :: 0 <= i < j < |nodes| ==> nodes[i].id != nodes[j].id
    ensures KindOf(nodes, nodes[h].id) == Some(nodes[h].plugin.kind)
  {
    if h < |nodes| - 1 {
      KindOfNode(nodes[..|nodes| - 1], h);
    }
  }

  lemma FirstVoucher(p: Plan, db: Database, c: CategoryRow, w: nat) returns (first: nat)
    requires w < |p.nodes| && Vouches(p.nodes[w], db, c)
    ensures first <= w && Vouches(p.nodes[first], db, c)
    ensures forall h :: 0 <= h < first ==> !Vouches(p.nodes[h], db, c)
  {
    first := 0;
    while !Vouches(p.nodes[first], db, c)
      invariant 0 <= first <= w
      invariant forall h :: 0 <= h < first ==> !Vouches(p.nodes[h], db, c)
      decreases w - first
    {
      first := first + 1;
    }
  }

  lemma DependenciesStand(p: Plan, db0: Database, k: nat, db: Database, j: nat)
    requires Safe(p) && Committed(p, db0, k, db)
    requires j <= k && j < |p.nodes|
    ensures DependenciesPresent(p.nodes[j], db)
  {
    forall i | 0 <= i < |p.nodes[j].relations|
      ensures p.nodes[j].relations[i].target in db.plugins
    {
      assert p.nodes[j].relations[i] in p.nodes[j].relations;
    }
  }

  /** No earlier node writes the identity of the next one. */
  lemma NotYetWritten(p: Plan, k: nat)
    requires Safe(p) && k < |p.nodes|
    ensures !WrittenBefore(p, k, p.nodes[k].id)
  {
    hide WritersLast, DependenciesFirst, NodeComplete, TargetsPlanned, DistinctSources;
    forall i | 0 <= i < k
      ensures !Writes(p, p.nodes[i], p.nodes[k].id)
    {
      assert Planned(p, p.nodes[k].id);
    }
  }

  /** The derived identity of the next node is still unused. */
  lemma IdentityUnused(p: Plan, db0: Database, k: nat, db: Database)
    requires Safe(p) && Captured(p, db0) && Committed(p, db0, k, db) && k < |p.nodes|
    requires p.nodes[k].clone
    ensures p.nodes[k].id !in db.plugins
  {
    hide Safe, NeedsStand, ReceiptsStand, CatalogStands, MappingsStand, NodesStand, WrittenBefore;
    NotYetWritten(p, k);
    assert Untouched(db0, db, p.nodes[k].id);
  }

  lemma {:induction false} InsertableFresh(rows: seq<Mapping>, target: Id, present: set<Mapping>)
    requires forall i, j :: 0 <= i < j < |rows| ==> rows[i].source != rows[j].source
    requires forall i, m :: 0 <= i < |rows| && MapsTo(rows[i], target) && m in present ==> m.target != rows[i].target || m.source != rows[i].source
    ensures Insertable(rows, target, present)
    decreases |rows|
  {
    if rows != [] {
      var rest := rows[1..];
      assert forall i :: 0 <= i < |rest| ==> rest[i] == rows[i + 1];
      InsertableFresh(rest, target, if MapsTo(rows[0], target) then present + {rows[0]} else present);
    }
  }

  /** No mapping row of the next node is present yet. */
  lemma MappingsUnused(p: Plan, db0: Database, k: nat, db: Database)
    requires Safe(p) && Committed(p, db0, k, db) && k < |p.nodes|
    ensures Insertable(p.mappings, p.nodes[k].id, db.mappings)
  {
    InsertableFresh(p.mappings, p.nodes[k].id, db.mappings);
  }
}
