/** One conversion transaction keeps every earlier receipt and every pending piece of evidence. */
module ApplyStep {
  import opened Options
  import opened Tables
  import opened MigrationPlan
  import opened ApplySpec
  import opened ApplyConflict
  import opened ApplyInvariant

  // ------------------------------------------------------------ registration

  /** Row `c` was added for some placement in `placements` because no row registered it. */
  ghost predicate AddedFor(categories: seq<CategoryRow>, kind: Kind, placements: seq<PlacementRow>, c: CategoryRow) {
    && c.kind == kind
    && c.id == Derived(c.code, kind, c.category)
    && !CategoryKeyTaken(categories, c.id)
    && !Registered(categories, c.code, kind, c.category)
    && Places(placements, c.code, c.category)
  }

  lemma {:induction false} RegisterAllMeaning(p: Plan, kind: Kind, categories: seq<CategoryRow>, placements: seq<PlacementRow>)
    requires RegisterAll(p, kind, categories, placements).Ok?
    ensures var all := RegisterAll(p, kind, categories, placements).value;
            && |categories| <= |all| && all[..|categories|] == categories
            && (forall i :: |categories| <= i < |all| ==> AddedFor(categories, kind, placements, all[i]))
            && (forall v :: v in placements && v.category.Some? ==> Registered(all, v.code, kind, v.category.value))
    decreases |placements|
  {
    if placements != [] {
      var v := placements[0];
      var next := Register(p, kind, categories, v).value;
      var all := RegisterAll(p, kind, categories, placements).value;
      RegisterAllMeaning(p, kind, next, placements[1..]);
      if v.category.Some? {
        FindRegistrationMeaning(categories, v.code, kind, v.category.value);
      }
      assert next[..|categories|] == categories;
      assert all[..|categories|] == all[..|next|][..|categories|];
      assert forall i :: 0 <= i < |next| ==> all[i] == next[i];
      forall i | |categories| <= i < |all|
        ensures AddedFor(categories, kind, placements, all[i])
      {
        if i < |next| {
          assert placements[0].code == all[i].code;
        } else {
          assert AddedFor(next, kind, placements[1..], all[i]);
          var h :| 0 <= h < |placements[1..]| && placements[1..][h].code == all[i].code && placements[1..][h].category == Some(all[i].category);
          assert placements[h + 1].code == all[i].code;
          assert forall g :: 0 <= g < |categories| ==> next[g] == categories[g];
        }
      }
      forall u | u in placements && u.category.Some?
        ensures Registered(all, u.code, kind, u.category.value)
      {
        if u == v {
          if !Registered(categories, u.code, kind, u.category.value) {
            assert Registers(next[|categories|], u.code, kind, u.category.value);
          }
          assert Registered(next, u.code, kind, u.category.value);
          var h :| 0 <= h < |next| && Registers(next[h], u.code, kind, u.category.value);
          assert Registers(all[h], u.code, kind, u.category.value);
        } else {
          assert u in placements[1..];
        }
      }
    }
  }

  // ------------------------------------------------------------------ frames

  lemma {:induction false} CoveredFrame(before: seq<CategoryRow>, after: seq<CategoryRow>, placements: seq<PlacementRow>, kind: Kind)
    requires |before| <= |after| && after[..|before|] == before
    requires forall i :: |before| <= i < |after| ==> !Covers(placements, kind, after[i])
    ensures Covered(after, placements, kind) == Covered(before, placements, kind)
    decreases |after|
  {
    if |before| == |after| {
      assert before == after;
    } else {
      var shorter := after[..|after| - 1];
      assert shorter[..|before|] == before;
      CoveredFrame(before, shorter, placements, kind);
    }
  }

  /** The rows of `x` are the same before and after the transaction of `n`, unless it writes `x`. */
  lemma RewriteFrame(p: Plan, n: Node, db: Database, t: Transfer, x: Id)
    requires n.sourceId in db.plugins && !Writes(p, n, x)
    ensures RowOf(Rewrite(p, n, db, t), x) == RowOf(db, x)
    ensures OwnedBy(Rewrite(p, n, db, t), x) == OwnedBy(db, x)
  {
  }

  lemma NotRetiredTwice(p: Plan, a: Node, b: Node, x: Id)
    requires DistinctSources(p) && a.id != b.id
    requires x in Retired(p, a.id)
    ensures !Writes(p, b, x) || x == b.id
  {
  }

  /** New registrations never fall under an earlier node's receipt: its own are already there. */
  lemma CoveredStands(p: Plan, n: Node, other: Node, db: Database, t: Transfer)
    requires TransferPlacements(p, n, db) == Ok(t)
    requires PlacementsRegistered(other, db)
    ensures var placements := OwnedBy(db, other.id).placements;
            Covered(t.categories, placements, other.plugin.kind) == Covered(db.categories, placements, other.plugin.kind)
  {
    var placements := OwnedBy(db, other.id).placements;
    RegisterAllMeaning(p, n.plugin.kind, db.categories, t.placements);
    forall i | |db.categories| <= i < |t.categories|
      ensures !Covers(placements, other.plugin.kind, t.categories[i])
    {
      assert AddedFor(db.categories, n.plugin.kind, t.placements, t.categories[i]);
    }
    CoveredFrame(db.categories, t.categories, placements, other.plugin.kind);
  }

  lemma RetiredStands(p: Plan, n: Node, other: Node, db: Database, t: Transfer)
    requires DistinctSources(p) && n in p.nodes && n.id != other.id && n.sourceId in db.plugins
    ensures StateOf(p, other, Rewrite(p, n, db, t)).retired == StateOf(p, other, db).retired
  {
    var after := Rewrite(p, n, db, t);
    assert Planned(p, n.id);
    forall x | x in Retired(p, other.id)
      ensures RowOf(after, x) == RowOf(db, x) && OwnedBy(after, x) == OwnedBy(db, x)
    {
      NotRetiredTwice(p, other, n, x);
      RewriteFrame(p, n, db, t, x);
    }
    assert forall x :: x in Retired(p, other.id) ==> (x in after.plugins <==> RowOf(after, x).Some?);
  }

  /** The transaction of `n` leaves everything a different node's receipt covers as it was. */
  lemma ReceiptFrame(p: Plan, n: Node, other: Node, db: Database, t: Transfer)
    requires Safe(p) && n in p.nodes && other in p.nodes && n.id != other.id
    requires n.sourceId in db.plugins
    requires TransferPlacements(p, n, db) == Ok(t)
    requires PlacementsRegistered(other, db)
    ensures StateOf(p, other, Rewrite(p, n, db, t)) == StateOf(p, other, db)
  {
    assert Planned(p, other.id) && Planned(p, n.id);
    RewriteFrame(p, n, db, t, other.id);
    CoveredStands(p, n, other, db, t);
    RetiredStands(p, n, other, db, t);
    assert StateOf(p, other, Rewrite(p, n, db, t)).mappings == StateOf(p, other, db).mappings;
  }

  // -------------------------------------------------- the invariant, per part

  /** The database right after the transaction of the next node. */
  function After(p: Plan, n: Node, db: Database, t: Transfer): Database
    requires n.sourceId in db.plugins
  {
    Receipted(p, n, Rewrite(p, n, db, t))
  }

  lemma StateIgnoresReceipts(p: Plan, n: Node, other: Node, db: Database)
    ensures StateOf(p, other, Receipted(p, n, db)) == StateOf(p, other, db)
  {
    var after := Receipted(p, n, db);
    assert forall x :: OwnedBy(after, x) == OwnedBy(db, x);
    assert StateOf(p, other, after).retired == StateOf(p, other, db).retired;
  }

  lemma ReceiptStands(p: Plan, n: Node, other: Node, db: Database, t: Transfer)
    requires Safe(p) && n in p.nodes && other in p.nodes && n.id != other.id
    requires n.sourceId in db.plugins
    requires TransferPlacements(p, n, db) == Ok(t)
    requires PlacementsRegistered(other, db) && ReceiptVerifies(p, other, db)
    ensures ReceiptVerifies(p, other, After(p, n, db, t))
  {
    ReceiptFrame(p, n, other, db, t);
    StateIgnoresReceipts(p, n, other, Rewrite(p, n, db, t));
  }

  lemma OwnReceipt(p: Plan, n: Node, db: Database, t: Transfer)
    requires n.sourceId in db.plugins
    ensures var after := After(p, n, db, t);
            && ReceiptVerifies(p, n, after)
            && after.receipts.Keys == db.receipts.Keys + {n.id}
            && after.plugins.Keys == db.plugins.Keys + {n.id}
  {
    StateIgnoresReceipts(p, n, n, Rewrite(p, n, db, t));
  }

  lemma ReceiptsStep(p: Plan, db0: Database, k: nat, db: Database, t: Transfer)
    requires Safe(p) && Committed(p, db0, k, db) && k < |p.nodes|
    requires p.nodes[k].sourceId in db.plugins && TransferPlacements(p, p.nodes[k], db) == Ok(t)
    ensures ReceiptsStand(p, k + 1, After(p, p.nodes[k], db, t))
  {
    hide StateOf, TransferPlacements, Rewrite, WritersLast, DependenciesFirst, TargetsPlanned, NodeComplete, NeedsStand, SourcesStand, MappingsStand, NodesStand, DistinctSources;
    var n := p.nodes[k];
    forall i | 0 <= i < k
      ensures ReceiptVerifies(p, p.nodes[i], After(p, n, db, t))
    {
      ReceiptStands(p, n, p.nodes[i], db, t);
    }
    OwnReceipt(p, n, db, t);
  }

  lemma SourcesStep(p: Plan, db0: Database, k: nat, db: Database, t: Transfer)
    requires Safe(p) && Committed(p, db0, k, db) && k < |p.nodes|
    requires p.nodes[k].sourceId in db.plugins
    ensures SourcesStand(p, db0, k + 1, After(p, p.nodes[k], db, t))
  {
    hide NeedsStand, ReceiptsStand, CatalogStands, MappingsStand, NodesStand, StateOf, Safe, WrittenRow, WrittenOwned, WithRetired;
    var n := p.nodes[k];
    var after := After(p, n, db, t);
    forall x | !WrittenBefore(p, k + 1, x)
      ensures Untouched(db0, after, x)
    {
      assert !WrittenBefore(p, k, x);
      assert Untouched(db0, db, x);
      RewriteFrame(p, n, db, t, x);
    }
  }

  lemma BaselineStep(p: Plan, n: Node, db: Database, t: Transfer)
    requires BaselineIntact(p, db.categories) && TransferPlacements(p, n, db) == Ok(t)
    ensures BaselineIntact(p, t.categories)
  {
    RegisterAllMeaning(p, n.plugin.kind, db.categories, t.placements);
    forall i | 0 <= i < |t.categories| && t.categories[i].id in p.categories
      ensures p.categories[t.categories[i].id] == t.categories[i]
    {
      if i < |db.categories| {
        assert t.categories[i] == db.categories[i];
      }
    }
    forall id | id in p.categories
      ensures exists i :: 0 <= i < |t.categories| && t.categories[i].id == id
    {
      var i :| 0 <= i < |db.categories| && db.categories[i].id == id;
      assert t.categories[i] == db.categories[i];
    }
  }

  lemma RegisteredStays(before: seq<CategoryRow>, after: seq<CategoryRow>, code: string, kind: Kind, category: string)
    requires |before| <= |after| && after[..|before|] == before
    requires Registered(before, code, kind, category)
    ensures Registered(after, code, kind, category)
  {
    var i :| 0 <= i < |before| && Registers(before[i], code, kind, category);
    assert Registers(after[i], code, kind, category);
  }

  lemma OwnPlacements(p: Plan, n: Node, db: Database, t: Transfer)
    requires n.sourceId in db.plugins
    ensures OwnedBy(After(p, n, db, t), n.id).placements == t.placements
  {
  }

  lemma PlacementsStep(p: Plan, db0: Database, k: nat, db: Database, t: Transfer, i: nat)
    requires Safe(p) && Committed(p, db0, k, db) && i <= k < |p.nodes|
    requires p.nodes[k].sourceId in db.plugins && TransferPlacements(p, p.nodes[k], db) == Ok(t)
    ensures PlacementsRegistered(p.nodes[i], After(p, p.nodes[k], db, t))
  {
    hide StateOf, WritersLast, DependenciesFirst, TargetsPlanned, NodeComplete, MappingsStand, NodesStand, SourcesStand, NeedsStand;
    var n := p.nodes[k];
    var after := After(p, n, db, t);
    RegisterAllMeaning(p, n.plugin.kind, db.categories, t.placements);
    if i == k {
      OwnPlacements(p, n, db, t);
    } else {
      assert Planned(p, p.nodes[i].id);
      RewriteFrame(p, n, db, t, p.nodes[i].id);
      assert OwnedBy(after, p.nodes[i].id) == OwnedBy(db, p.nodes[i].id);
      forall v | v in OwnedBy(after, p.nodes[i].id).placements && v.category.Some?
        ensures Registered(after.categories, v.code, p.nodes[i].plugin.kind, v.category.value)
      {
        assert PlacementsRegistered(p.nodes[i], db);
        RegisteredStays(db.categories, t.categories, v.code, p.nodes[i].plugin.kind, v.category.value);
      }
    }
  }

  lemma VoucherStands(p: Plan, n: Node, other: Node, db: Database, t: Transfer, c: CategoryRow)
    requires n.sourceId in db.plugins && n in p.nodes && other in p.nodes && n.id != other.id
    requires Vouches(other, db, c)
    ensures Vouches(other, After(p, n, db, t), c)
  {
    assert Planned(p, other.id);
    RewriteFrame(p, n, db, t, other.id);
    assert OwnedBy(After(p, n, db, t), other.id) == OwnedBy(db, other.id);
  }

  lemma VoucherStep(p: Plan, db0: Database, k: nat, db: Database, t: Transfer, c: CategoryRow)
    requires Safe(p) && Committed(p, db0, k, db) && k < |p.nodes|
    requires p.nodes[k].sourceId in db.plugins && TransferPlacements(p, p.nodes[k], db) == Ok(t)
    requires c in t.categories && c.id !in p.categories
    ensures c.id == Derived(c.code, c.kind, c.category)
    ensures exists i :: 0 <= i < k + 1 && Vouches(p.nodes[i], After(p, p.nodes[k], db, t), c)
  {
    hide StateOf, WritersLast, DependenciesFirst, TargetsPlanned, NodeComplete, MappingsStand, NodesStand, SourcesStand, NeedsStand;
    var n := p.nodes[k];
    var after := After(p, n, db, t);
    RegisterAllMeaning(p, n.plugin.kind, db.categories, t.placements);
    var h :| 0 <= h < |t.categories| && t.categories[h] == c;
    if h < |db.categories| {
      assert db.categories[h] == c;
      var i :| 0 <= i < k && Vouches(p.nodes[i], db, c);
      VoucherStands(p, n, p.nodes[i], db, t, c);
    } else {
      assert AddedFor(db.categories, n.plugin.kind, t.placements, c);
      OwnPlacements(p, n, db, t);
      assert Vouches(n, after, c);
    }
  }

  lemma CatalogStep(p: Plan, db0: Database, k: nat, db: Database, t: Transfer)
    requires Safe(p) && Committed(p, db0, k, db) && k < |p.nodes|
    requires p.nodes[k].sourceId in db.plugins && TransferPlacements(p, p.nodes[k], db) == Ok(t)
    ensures CatalogStands(p, k + 1, After(p, p.nodes[k], db, t))
  {
    hide NeedsStand;
    BaselineStep(p, p.nodes[k], db, t);
    forall i | 0 <= i < k + 1
      ensures PlacementsRegistered(p.nodes[i], After(p, p.nodes[k], db, t))
    {
      PlacementsStep(p, db0, k, db, t, i);
    }
    forall c | c in t.categories && c.id !in p.categories
      ensures c.id == Derived(c.code, c.kind, c.category)
      ensures exists i :: 0 <= i < k + 1 && Vouches(p.nodes[i], After(p, p.nodes[k], db, t), c)
    {
      VoucherStep(p, db0, k, db, t, c);
    }
  }

  lemma MappingsStep(p: Plan, db0: Database, k: nat, db: Database, t: Transfer)
    requires Committed(p, db0, k, db) && k < |p.nodes|
    requires p.nodes[k].sourceId in db.plugins
    ensures MappingsStand(p, k + 1, After(p, p.nodes[k], db, t))
  {
    hide NeedsStand, ReceiptsStand, SourcesStand, CatalogStands, NodesStand, StateOf, WithRetired, WrittenOwned, WrittenRow;
    var after := After(p, p.nodes[k], db, t);
    assert after.mappings == db.mappings + MappingRows(p, p.nodes[k].id);
    forall m | m in after.mappings
      ensures m in p.mappings && (m.target.None? || exists i :: 0 <= i < k + 1 && MapsTo(m, p.nodes[i].id))
    {
    }
  }

  lemma {:induction false} FindReleaseAppended(releases: seq<ReleaseRow>, r: ReleaseRow)
    requires forall i :: 0 <= i < |releases| ==> releases[i].versionId != r.versionId
    ensures FindRelease(releases + [r], r.versionId) == Some(r)
  {
    if releases != [] {
      assert (releases + [r])[1..] == releases[1..] + [r];
      FindReleaseAppended(releases[1..], r);
    }
  }

  lemma LiveEdges(before: seq<RelationRow>, relations: seq<Relation>)
    ensures forall r :: r in relations <==> RelationRow(r, true) in Historical(before) + Live(relations)
  {
    var rows := Historical(before) + Live(relations);
    forall r | r in relations
      ensures RelationRow(r, true) in rows
    {
      var h :| 0 <= h < |relations| && relations[h] == r;
      assert rows[|before| + h] == RelationRow(r, true);
    }
  }

  lemma OwnNode(p: Plan, n: Node, db: Database, t: Transfer)
    requires n.sourceId in db.plugins && NodeComplete(p, n)
    requires n.versionId.Some? ==> !HasRelease(OwnedBy(db, n.id), n.versionId.value)
    ensures var after := After(p, n, db, t); NodeConverted(n, RowOf(after, n.id), OwnedBy(after, n.id))
  {
    var o := OwnedBy(db, n.id);
    var written := WrittenOwned(n, o, t.placements);
    assert OwnedBy(After(p, n, db, t), n.id) == written;
    LiveEdges(o.relations, n.relations);
    if n.versionId.Some? {
      var v := n.versionId.value;
      assert written.versions[|o.versions|].versionId == v;
      FindReleaseAppended(o.releases, ReleaseRow(v, n.versionLabel));
    }
  }

  lemma OtherNode(p: Plan, n: Node, other: Node, db: Database, t: Transfer)
    requires n.sourceId in db.plugins && n in p.nodes && other in p.nodes && n.id != other.id
    requires NodeConverted(other, RowOf(db, other.id), OwnedBy(db, other.id))
    ensures var after := After(p, n, db, t); NodeConverted(other, RowOf(after, other.id), OwnedBy(after, other.id))
  {
    hide NodeConverted, StateOf;
    assert Planned(p, other.id);
    RewriteFrame(p, n, db, t, other.id);
  }

  /** The next node to commit has not been written by any earlier one. */
  lemma NextUntouched(p: Plan, db0: Database, k: nat, db: Database)
    requires Safe(p) && Committed(p, db0, k, db) && k < |p.nodes|
    ensures Untouched(db0, db, p.nodes[k].id)
  {
    hide ReceiptsStand, CatalogStands, MappingsStand, NodesStand, WritersLast, DependenciesFirst, TargetsPlanned, NodeComplete, NeedsStand;
    assert Planned(p, p.nodes[k].id);
  }

  lemma NodesStep(p: Plan, db0: Database, k: nat, db: Database, t: Transfer)
    requires Safe(p) && Captured(p, db0) && Committed(p, db0, k, db) && k < |p.nodes|
    requires p.nodes[k].sourceId in db.plugins
    ensures NodesStand(p, k + 1, After(p, p.nodes[k], db, t))
  {
    hide After, NodeConverted, WritersLast, DependenciesFirst, TargetsPlanned, ReceiptsStand, CatalogStands, MappingsStand, SourcesStand, NeedsStand;
    var n := p.nodes[k];
    NextUntouched(p, db0, k, db);
    OwnNode(p, n, db, t);
    forall i | 0 <= i < k
      ensures var after := After(p, n, db, t);
              NodeConverted(p.nodes[i], RowOf(after, p.nodes[i].id), OwnedBy(after, p.nodes[i].id))
    {
      OtherNode(p, n, p.nodes[i], db, t);
    }
  }

  // ------------------------------------------------------------ the two steps

  lemma {:induction false} MappedSourcesMapped(mappings: seq<Mapping>, target: Id, x: Id)
    requires x in MappedSources(mappings, target)
    ensures exists m :: m in mappings && MapsTo(m, target) && m.source == x
  {
    if MapsTo(mappings[0], target) && mappings[0].source == x && mappings[0].source != target {
      assert mappings[0] in mappings;
    } else {
      MappedSourcesMapped(mappings[1..], target, x);
      var m :| m in mappings[1..] && MapsTo(m, target) && m.source == x;
    }
  }

  /** What is merged into the next node is evidence it holds. */
  lemma PlacementSourcesHeld(p: Plan, n: Node, x: Id)
    requires NodeComplete(p, n) && x in PlacementSources(p, n)
    ensures x in n.evidence
  {
    if x != n.sourceId {
      MappedSourcesMapped(p.mappings, n.id, x);
    }
  }

  lemma CapturedBaseline(p: Plan, db0: Database)
    requires Captured(p, db0)
    ensures IsBaseline(p, db0.categories)
  {
  }

  /** The next node's transfer is refused exactly for a conflict in the captured data. */
  lemma NextTransfer(p: Plan, db0: Database, k: nat, db: Database)
    requires Safe(p) && Captured(p, db0) && Committed(p, db0, k, db) && k < |p.nodes|
    ensures TransferPlacements(p, p.nodes[k], db).Ok? <==> !ConflictAt(p, db0, k)
    ensures TransferPlacements(p, p.nodes[k], db).Ok? ==>
              Catalog(db0.categories, Needs(p, db0, k + 1), TransferPlacements(p, p.nodes[k], db).value.categories)
  {
    hide Captured, ReceiptsStand, SourcesStand, CatalogStands, MappingsStand, NodesStand, TransferPlacements, Catalog, IsBaseline,
      ConflictAt, WritersLast, DependenciesFirst, TargetsPlanned, PlacementSources, Needs, DistinctNodes, DistinctSources;
    var n := p.nodes[k];
    assert n in p.nodes && NodeComplete(p, n);
    NextUntouched(p, db0, k, db);
    forall x | x in PlacementSources(p, n)
      ensures OwnedBy(db, x).placements == OwnedBy(db0, x).placements
    {
      PlacementSourcesHeld(p, n, x);
      EvidenceUntouched(p, db0, k, db, k, x);
    }
    CapturedBaseline(p, db0);
    TransferExactly(p, db0, k, db);
  }

  /** A node that already holds a receipt is verified and changes nothing. */
  lemma RepeatIsNoOp(p: Plan, db0: Database, k: nat, db: Database, j: nat)
    requires Safe(p) && Captured(p, db0) && Committed(p, db0, k, db) && j < k
    ensures ApplyNode(p, p.nodes[j], db) == Ok(db)
  {
    DependenciesStand(p, db0, k, db, j);
    CatalogVerifies(p, db0, k, db);
  }

  /** The next pending node extends the committed prefix, unless the captured data forbid it. */
  lemma NextCommits(p: Plan, db0: Database, k: nat, db: Database)
    requires Safe(p) && Captured(p, db0) && Committed(p, db0, k, db) && k < |p.nodes|
    ensures ApplyNode(p, p.nodes[k], db).Ok? <==> !ConflictAt(p, db0, k)
    ensures match ApplyNode(p, p.nodes[k], db)
            case Ok(after) => Committed(p, db0, k + 1, after) && after.run == db.run && db.mappings <= after.mappings
            case Err(e) => e == PlacementConflict || e == RegistrationConflict
  {
    hide ConflictAt, Catalog, Needs;
    var n := p.nodes[k];
    NextIsConverted(p, db0, k, db);
    NextTransfer(p, db0, k, db);
    if TransferPlacements(p, n, db).Ok? {
      var t := TransferPlacements(p, n, db).value;
      NextAfter(p, db0, k, db, t);
    } else {
      TransferRefusals(p, n, db);
    }
  }

  lemma TransferRefusals(p: Plan, n: Node, db: Database)
    requires TransferPlacements(p, n, db).Err?
    ensures TransferPlacements(p, n, db).error == PlacementConflict || TransferPlacements(p, n, db).error == RegistrationConflict
  {
    var own, sources := OwnedBy(db, n.id).placements, PlacementSources(p, n);
    MergeAllIsMerge(db, own, sources);
    MergeExactly(own, RowsOf(db, sources));
    match MergeAll(db, own, sources)
    case Err(_) =>
    case Ok(merged) => RegisterAllRefusals(p, n.plugin.kind, db.categories, DefaultPlacement(n, merged));
  }

  lemma {:induction false} RegisterAllRefusals(p: Plan, kind: Kind, categories: seq<CategoryRow>, placements: seq<PlacementRow>)
    ensures RegisterAll(p, kind, categories, placements).Err? ==>
              RegisterAll(p, kind, categories, placements).error == RegistrationConflict
    decreases |placements|
  {
    if placements != [] {
      match Register(p, kind, categories, placements[0])
      case Err(_) =>
      case Ok(next) => RegisterAllRefusals(p, kind, next, placements[1..]);
    }
  }

  /** Every check before the transfer passes, and so does the one after it. */
  lemma NextIsConverted(p: Plan, db0: Database, k: nat, db: Database)
    requires Safe(p) && Captured(p, db0) && Committed(p, db0, k, db) && k < |p.nodes|
    ensures p.nodes[k].sourceId in db.plugins
    ensures ApplyNode(p, p.nodes[k], db) ==
            match TransferPlacements(p, p.nodes[k], db)
            case Err(e) => Err(e)
            case Ok(t) => Ok(After(p, p.nodes[k], db, t))
  {
    hide NeedsStand, CategoriesVerify, DependenciesPresent, TransferPlacements, Insertable, After, Rewrite, Receipted;
    var n := p.nodes[k];
    DependenciesStand(p, db0, k, db, k);
    CatalogVerifies(p, db0, k, db);
    PendingSourcesVerify(p, db0, k, db, k);
    assert NodeComplete(p, n);
    if n.clone {
      IdentityUnused(p, db0, k, db);
    }
    MappingsUnused(p, db0, k, db);
    assert n.id !in db.receipts;
    AfterIs(p, n, db);
  }

  lemma AfterIs(p: Plan, n: Node, db: Database)
    requires n.sourceId in db.plugins
    ensures forall t :: After(p, n, db, t) == Receipted(p, n, Rewrite(p, n, db, t))
  {
  }

  lemma NextAfter(p: Plan, db0: Database, k: nat, db: Database, t: Transfer)
    requires Safe(p) && Captured(p, db0) && Committed(p, db0, k, db) && k < |p.nodes|
    requires p.nodes[k].sourceId in db.plugins && TransferPlacements(p, p.nodes[k], db) == Ok(t)
    requires !ConflictAt(p, db0, k) && Catalog(db0.categories, Needs(p, db0, k + 1), t.categories)
    ensures var after := After(p, p.nodes[k], db, t);
            Committed(p, db0, k + 1, after) && after.run == db.run && db.mappings <= after.mappings
  {
    hide ConflictAt, Catalog, Needs, ReceiptsStand, SourcesStand, CatalogStands, MappingsStand, NodesStand, Safe, Captured, TransferPlacements;
    ReceiptsStep(p, db0, k, db, t);
    SourcesStep(p, db0, k, db, t);
    CatalogStep(p, db0, k, db, t);
    MappingsStep(p, db0, k, db, t);
    NodesStep(p, db0, k, db, t);
  }

  /** The order is needed: once a node has rewritten its own rows, a node that still
      holds the captured rows as evidence can no longer be converted. */
  lemma LateHolderIsRefused(p: Plan, n: Node, holder: Node, db: Database)
    requires Convert(p, n, db).Ok?
    requires n.id in holder.evidence && holder.evidence[n.id].owned == OwnedBy(db, n.id)
    ensures !SourcesVerify(p, holder, Convert(p, n, db).value)
  {
    var t := TransferPlacements(p, n, db).value;
    var after := After(p, n, db, t);
    assert Convert(p, n, db) == Ok(after);
    assert OwnedBy(after, n.id) == WrittenOwned(n, OwnedBy(db, n.id), t.placements);
    assert |OwnedBy(after, n.id).audits| == |OwnedBy(db, n.id).audits| + 1;
  }
}
