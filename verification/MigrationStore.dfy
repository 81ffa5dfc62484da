/** The conversion transactions as the service runs them: statement by statement on
    the tables, with rollback. Each method is tied to its function in ApplySpec. */
module MigrationStore {
  import opened Options
  import opened Tables
  import opened MigrationPlan
  import Spec = ApplySpec
  import ApplyConflict

  // ------------------------------------------------------------- placements

  /** internal/migration/apply_placements.go `mergeMigrationPlacements`. */
  method MergePlacements(existing: seq<PlacementRow>, incoming: seq<PlacementRow>) returns (r: Spec.Outcome<seq<PlacementRow>>)
    ensures r == Spec.Merge(existing, incoming)
  {
    var out := existing;
    var seen: map<string, PlacementRow> := map[];
    var i := 0;
    while i < |existing|
      invariant 0 <= i <= |existing|
      invariant Tracks(seen, existing[..i])
    {
      assert existing[..i + 1][..i] == existing[..i];
      seen := seen[existing[i].code := existing[i]];
      i := i + 1;
    }
    assert existing[..i] == existing;
    i := 0;
    while i < |incoming|
      invariant 0 <= i <= |incoming|
      invariant Tracks(seen, out)
      invariant Spec.Merge(existing, incoming) == Spec.Merge(out, incoming[i..])
    {
      var v := incoming[i];
      assert incoming[i..][0] == v && incoming[i..][1..] == incoming[i + 1..];
      if v.code in seen {
        if seen[v.code].visible != v.visible || seen[v.code].order != v.order || seen[v.code].category != v.category {
          return Spec.Err(Spec.PlacementConflict);
        }
        assert seen[v.code].code == v.code;
      } else {
        seen := seen[v.code := v];
        assert (out + [v])[..|out|] == out;
        out := out + [v];
      }
      i := i + 1;
    }
    return Spec.Ok(out);
  }

  /** `seen` answers lookups by code exactly as a scan of `placements` does. */
  ghost predicate Tracks(seen: map<string, PlacementRow>, placements: seq<PlacementRow>) {
    forall code :: Spec.FindPlacement(placements, code) ==
                     (if code in seen then Some(seen[code]) else None)
      && (code in seen ==> seen[code].code == code)
  }

  lemma MergeAllStep(db: Spec.Database, existing: seq<PlacementRow>, sources: seq<Id>, i: nat)
    requires i <= |sources|
    ensures Spec.MergeAll(db, existing, sources[i..]) ==
            if i == |sources| then Spec.Ok(existing)
            else
              match Spec.Merge(existing, Spec.OwnedBy(db, sources[i]).placements)
              case Err(e) => Spec.Err(e)
              case Ok(merged) => Spec.MergeAll(db, merged, sources[i + 1..])
  {
    if i < |sources| {
      assert sources[i..][1..] == sources[i + 1..];
    }
  }

  /** The rows a node writes before its placements do not change what is transferred. */
  lemma TransferFrame(p: Plan, n: Node, before: Spec.Database, after: Spec.Database)
    requires after.categories == before.categories
    requires after.owned == before.owned[n.id := Spec.WrittenOwned(n, Spec.OwnedBy(before, n.id), Spec.OwnedBy(before, n.id).placements)]
    ensures Spec.TransferPlacements(p, n, before) == Spec.TransferPlacements(p, n, after)
  {
    ApplyConflict.MergeAllFrame(before, after, Spec.OwnedBy(before, n.id).placements, Spec.PlacementSources(p, n));
  }

  class Store {
    var run: Option<Plan>
    var plugins: map<Id, PluginRow>
    var owned: map<Id, Owned>
    var categories: seq<CategoryRow>
    var mappings: set<Mapping>
    var receipts: map<Id, Spec.Receipt>

    /** The primary key of the category table. */
    ghost predicate Valid()
      reads this
    {
      forall i, j :: 0 <= i < j < |categories| ==> categories[i].id != categories[j].id
    }

    function Now(): Spec.Database
      reads this
    {
      Spec.Database(run, plugins, owned, categories, mappings, receipts)
    }

    function OwnedRows(id: Id): Owned
      reads this
    {
      if id in owned then owned[id] else NOTHING_OWNED
    }

    // ------------------------------------------------------- shared catalog

    /** internal/migration/category_snapshot.go `verifyCategorySnapshot`. */
    method VerifyCategorySnapshot(p: Plan) returns (ok: bool)
      requires Valid()
      ensures ok <==> Spec.CategoriesVerify(p, Now())
    {
      hide Spec.BaselineIntact, Spec.CompletedPresent, Spec.ExtraJustified;
      var intact, extras := MatchBaseline(p);
      if !intact {
        return false;
      }
      var present := VerifyCompletedCategoryPresence(p);
      if !present {
        return false;
      }
      var i := 0;
      while i < |extras|
        invariant 0 <= i <= |extras|
        invariant forall h :: 0 <= h < i ==> Spec.ExtraJustified(p, Now(), extras[h])
      {
        var justified := VerifyExtra(p, extras[i]);
        if !justified {
          assert extras[i] in extras;
          return false;
        }
        i := i + 1;
      }
      return true;
    }

    /** Ticks every baseline row off against the table and collects the other rows. */
    method MatchBaseline(p: Plan) returns (intact: bool, extras: seq<CategoryRow>)
      requires Valid()
      ensures intact <==> Spec.BaselineIntact(p, categories)
      ensures intact ==> forall c :: c in extras <==> c in categories && c.id !in p.categories
    {
      var remaining := p.categories;
      extras := [];
      var i := 0;
      while i < |categories|
        invariant 0 <= i <= |categories|
        invariant forall id :: id in remaining <==> id in p.categories && forall h :: 0 <= h < i ==> categories[h].id != id
        invariant forall id :: id in remaining ==> remaining[id] == p.categories[id]
        invariant forall h :: 0 <= h < i && categories[h].id in p.categories ==> p.categories[categories[h].id] == categories[h]
        invariant forall c :: c in extras <==> c in categories[..i] && c.id !in p.categories
      {
        var row := categories[i];
        assert categories[..i + 1] == categories[..i] + [row];
        if row.id in remaining {
          if remaining[row.id] != row {
            return false, extras;
          }
          remaining := remaining - {row.id};
        } else {
          assert row.id !in p.categories;
          extras := extras + [row];
        }
        i := i + 1;
      }
      assert categories[..i] == categories;
      intact := remaining == map[];
      if !intact {
        var id :| id in remaining;
        assert forall h :: 0 <= h < |categories| ==> categories[h].id != id;
      }
    }

    /** One row that is not in the baseline. */
    method VerifyExtra(p: Plan, c: CategoryRow) returns (ok: bool)
      ensures ok <==> Spec.ExtraJustified(p, Now(), c)
    {
      if c.id != Derived(c.code, c.kind, c.category) {
        return false;
      }
      var k := 0;
      while k < |p.nodes|
        invariant 0 <= k <= |p.nodes|
        invariant forall h :: 0 <= h < k ==> !Spec.Vouches(p.nodes[h], Now(), c)
      {
        if Spec.Vouches(p.nodes[k], Now(), c) {
          return Spec.ReceiptVerifies(p, p.nodes[k], Now());
        }
        k := k + 1;
      }
      return false;
    }

    /** internal/migration/category_snapshot.go `verifyCompletedCategoryPresence`. */
    method VerifyCompletedCategoryPresence(p: Plan) returns (ok: bool)
      ensures ok <==> Spec.CompletedPresent(p, Now())
    {
      if |p.nodes| == 0 {
        return true;
      }
      var types: map<Id, Kind> := map[];
      var k := 0;
      while k < |p.nodes|
        invariant 0 <= k <= |p.nodes|
        invariant forall id :: Spec.KindOf(p.nodes[..k], id) == if id in types then Some(types[id]) else None
      {
        assert p.nodes[..k + 1][..k] == p.nodes[..k];
        types := types[p.nodes[k].id := p.nodes[k].plugin.kind];
        k := k + 1;
      }
      assert p.nodes[..k] == p.nodes;
      var pending := receipts.Keys;
      while pending != {}
        invariant pending <= receipts.Keys
        invariant forall id :: id in receipts && id !in pending ==>
                    forall v :: v in Spec.OwnedBy(Now(), id).placements ==> Spec.PlacementPresent(p, Now(), id, v)
        decreases |pending|
      {
        var id :| id in pending;
        var placements := OwnedRows(id).placements;
        var i := 0;
        while i < |placements|
          invariant 0 <= i <= |placements|
          invariant forall h :: 0 <= h < i ==> Spec.PlacementPresent(p, Now(), id, placements[h])
        {
          var v := placements[i];
          if v.category.Some? && (id !in types || !Spec.Registered(categories, v.code, types[id], v.category.value)) {
            assert v in Spec.OwnedBy(Now(), id).placements && !Spec.PlacementPresent(p, Now(), id, v);
            return false;
          }
          i := i + 1;
        }
        pending := pending - {id};
      }
      return true;
    }

    // ------------------------------------------------------ source evidence

    /** internal/migration/apply.go `verifySourceRows` and `verifyNodeSourceTables`. */
    method VerifySourceRows(p: Plan, n: Node) returns (ok: bool)
      ensures ok <==> Spec.SourcesVerify(p, n, Now())
    {
      if n.sourceId !in plugins || plugins[n.sourceId] != n.sourceRow {
        return false;
      }
      if !Spec.PublicationVerifies(n, plugins[n.sourceId], OwnedRows(n.sourceId).releases) {
        return false;
      }
      if n.sourceId !in n.evidence || n.evidence[n.sourceId].row != n.sourceRow {
        return false;
      }
      var i := 0;
      while i < |p.mappings|
        invariant 0 <= i <= |p.mappings|
        invariant forall h :: 0 <= h < i && MapsTo(p.mappings[h], n.id) ==> p.mappings[h].source in n.evidence
      {
        if MapsTo(p.mappings[i], n.id) && p.mappings[i].source !in n.evidence {
          assert p.mappings[i] in p.mappings;
          return false;
        }
        i := i + 1;
      }
      var pending := n.evidence.Keys;
      while pending != {}
        invariant pending <= n.evidence.Keys
        invariant forall x :: x in n.evidence && x !in pending ==>
                    Spec.RowOf(Now(), x) == Some(n.evidence[x].row) && Spec.OwnedBy(Now(), x) == n.evidence[x].owned
        decreases |pending|
      {
        var x :| x in pending;
        if x !in plugins || plugins[x] != n.evidence[x].row || OwnedRows(x) != n.evidence[x].owned {
          return false;
        }
        pending := pending - {x};
      }
      return true;
    }

    // ------------------------------------------------------------ one node

    /** Reads and merges the placements of every source, in order. */
    method MergeSources(original: seq<PlacementRow>, sources: seq<Id>) returns (r: Spec.Outcome<seq<PlacementRow>>)
      ensures r == Spec.MergeAll(Now(), original, sources)
    {
      hide Spec.Merge, Spec.MergeAll;
      var merged := original;
      var i := 0;
      while i < |sources|
        invariant 0 <= i <= |sources|
        invariant Spec.MergeAll(Now(), original, sources) == Spec.MergeAll(Now(), merged, sources[i..])
      {
        MergeAllStep(Now(), merged, sources, i);
        r := MergePlacements(merged, OwnedRows(sources[i]).placements);
        if r.Err? {
          return;
        }
        merged := r.value;
        i := i + 1;
      }
      MergeAllStep(Now(), merged, sources, i);
      return Spec.Ok(merged);
    }

    /** Adds the category registrations that `placements` need and that are missing. */
    method RegisterPlacements(p: Plan, kind: Kind, placements: seq<PlacementRow>) returns (error: Option<Spec.Failure>)
      requires Valid()
      modifies `categories
      ensures Valid()
      ensures match Spec.RegisterAll(p, kind, old(categories), placements)
              case Ok(all) => error == None && categories == all
              case Err(e) => error == Some(e)
    {
      var i := 0;
      while i < |placements|
        invariant 0 <= i <= |placements|
        invariant Valid()
        invariant Spec.RegisterAll(p, kind, old(categories), placements) == Spec.RegisterAll(p, kind, categories, placements[i..])
      {
        assert placements[i..][0] == placements[i] && placements[i..][1..] == placements[i + 1..];
        var v := placements[i];
        if v.category.Some? {
          var category := v.category.value;
          var registered := Spec.FindRegistration(categories, v.code, kind, category);
          if registered.Some? {
            if registered.value.id !in p.categories
               && (registered.value.visible != v.visible || registered.value.order != v.order) {
              return Some(Spec.RegistrationConflict);
            }
          } else {
            var id := Derived(v.code, kind, category);
            if Spec.CategoryKeyTaken(categories, id) {
              return Some(Spec.RegistrationConflict);
            }
            categories := categories + [CategoryRow(id, v.code, kind, category, v.visible, v.order)];
          }
        }
        i := i + 1;
      }
      return None;
    }

    /** internal/migration/apply_placements.go `transferMigrationPlacements`. */
    method TransferMigrationPlacements(p: Plan, n: Node) returns (error: Option<Spec.Failure>)
      requires Valid() && n.id in owned
      modifies `owned, `categories
      ensures Valid()
      ensures match Spec.TransferPlacements(p, n, old(Now()))
              case Ok(t) => error == None && categories == t.categories
                            && owned == old(owned)[n.id := old(owned)[n.id].(placements := t.placements)]
              case Err(e) => error == Some(e)
    {
      var merged := MergeSources(owned[n.id].placements, Spec.PlacementSources(p, n));
      if merged.Err? {
        return Some(merged.error);
      }
      var placements := Spec.DefaultPlacement(n, merged.value);
      error := RegisterPlacements(p, n.plugin.kind, placements);
      if error.None? {
        owned := owned[n.id := owned[n.id].(placements := placements)];
      }
    }

    /** Writes the mapping rows of `n` and retires the sources they replace. */
    method WriteMappings(p: Plan, n: Node) returns (error: Option<Spec.Failure>)
      modifies `owned, `mappings
      ensures if Spec.Insertable(p.mappings, n.id, old(mappings))
              then error == None && mappings == old(mappings) + Spec.MappingRows(p, n.id)
                   && owned == Spec.WithRetired(old(owned), Retired(p, n.id))
              else error == Some(Spec.MappingConflict)
    {
      hide Spec.WithRetired, RetiredBy, MappedBy, Spec.KeyPresent, Planned;
      NoneRetired(p, owned, n.id);
      var i := 0;
      while i < |p.mappings|
        invariant 0 <= i <= |p.mappings|
        invariant Spec.Insertable(p.mappings, n.id, old(mappings)) == Spec.Insertable(p.mappings[i..], n.id, mappings)
        invariant mappings == old(mappings) + MappedBy(p.mappings[..i], n.id)
        invariant owned == Spec.WithRetired(old(owned), RetiredBy(p, p.mappings[..i], n.id))
      {
        var m := p.mappings[i];
        assert p.mappings[i..][0] == m && p.mappings[i..][1..] == p.mappings[i + 1..];
        assert p.mappings[..i + 1] == p.mappings[..i] + [m];
        MappedStep(p, p.mappings[..i], m, n.id);
        RetireStep(old(owned), RetiredBy(p, p.mappings[..i], n.id), m.source);
        if MapsTo(m, n.id) {
          if Spec.KeyPresent(mappings, m) {
            return Some(Spec.MappingConflict);
          }
          mappings := mappings + {m};
          if m.source != n.id && !Planned(p, m.source) {
            RetireMigrationCatalog(m.source);
          }
        }
        i := i + 1;
      }
      assert p.mappings[..i] == p.mappings;
      AllMapped(p, n.id);
      return None;
    }

    /** internal/migration/apply_placements.go `retireMigrationCatalog`. */
    method RetireMigrationCatalog(id: Id)
      modifies `owned
      ensures owned == Spec.WithRetired(old(owned), {id})
    {
      if id in owned {
        owned := owned[id := owned[id].(placements := Spec.Hidden(owned[id].placements))];
      }
    }

    /** internal/migration/apply.go `cloneRow`, the row update and `writeMigrationVersion`. */
    method WriteRows(n: Node)
      requires n.sourceId in plugins && (n.id == n.sourceId || n.id !in plugins)
      modifies `plugins, `owned
      ensures plugins == old(plugins)[n.id := Spec.WrittenRow(n, old(Now()))]
      ensures owned == old(owned)[n.id := Spec.WrittenOwned(n, old(OwnedRows(n.id)), old(OwnedRows(n.id)).placements)]
    {
      if n.id != n.sourceId {
        plugins := plugins[n.id := plugins[n.sourceId].(currentVersionId := None, currentVersion := None, publishedVersionId := None)];
      }
      plugins := plugins[n.id := plugins[n.id].(plugin := n.plugin)];
      var rows := OwnedRows(n.id);
      rows := rows.(relations := Spec.Historical(rows.relations));
      rows := rows.(relations := rows.relations + Spec.Live(n.relations));
      if n.plugin.kind != Connector && n.versionId.Some? {
        var v := n.versionId.value;
        rows := rows.(versions := rows.versions + [VersionRow(v, Spec.NextSequence(rows.versions), n.versionLabel, n.plugin, n.relations)]);
        if n.release {
          rows := rows.(releases := rows.releases + [ReleaseRow(v, n.versionLabel)]);
        }
        rows := rows.(references := rows.references + Spec.References(v, n.relations));
        rows := rows.(index := rows.index + [IndexRow(v, |n.relations|)]);
        plugins := plugins[n.id := plugins[n.id].(currentVersionId := n.versionId, currentVersion := Some(n.versionLabel),
                                                  publishedVersionId := if n.release then n.versionId else None)];
      }
      rows := rows.(audits := rows.audits + [AuditRow(n.source, n.plugin)]);
      owned := owned[n.id := rows];
    }

    /** The writes of `n` up to and including its receipt; a refusal leaves them half done. */
    method WriteNode(p: Plan, n: Node) returns (error: Option<Spec.Failure>)
      requires Valid()
      requires n.sourceId in plugins && (n.id == n.sourceId || n.id !in plugins)
      modifies this
      ensures match Spec.TransferPlacements(p, n, old(Now()))
              case Err(e) => error == Some(e)
              case Ok(t) =>
                if Spec.Insertable(p.mappings, n.id, old(mappings))
                then error == None && Valid() && Now() == Spec.Receipted(p, n, Spec.Rewrite(p, n, old(Now()), t))
                else error == Some(Spec.MappingConflict)
    {
      hide Spec.WithRetired, Spec.StateOf, Spec.Insertable, Spec.WrittenRow, Spec.RegisterAll, Spec.Covered, Retired, Spec.TransferPlacements, Spec.Merge, Spec.MergeAll, Spec.MappingRows;
      ghost var before := Now();
      WriteRows(n);
      TransferFrame(p, n, before, Now());
      error := TransferMigrationPlacements(p, n);
      if error.Some? {
        return;
      }
      assert owned == before.owned[n.id := Spec.WrittenOwned(n, Spec.OwnedBy(before, n.id), owned[n.id].placements)];
      error := WriteMappings(p, n);
      if error.Some? {
        return;
      }
      receipts := receipts[n.id := Spec.Receipt(n, Spec.StateOf(p, n, Now()))];
    }

    /** internal/migration/apply.go `applyNode`: one transaction, rolled back when refused. */
    method ApplyNode(p: Plan, n: Node) returns (error: Option<Spec.Failure>)
      requires Valid()
      modifies this
      ensures Valid()
      ensures match Spec.ApplyNode(p, n, old(Now()))
              case Ok(db) => error == None && Now() == db
              case Err(e) => error == Some(e) && Now() == old(Now())
    {
      var i := 0;
      while i < |n.relations|
        invariant 0 <= i <= |n.relations|
        invariant forall h :: 0 <= h < i ==> n.relations[h].target in plugins
      {
        if n.relations[i].target !in plugins {
          return Some(Spec.DependencyMissing);
        }
        i := i + 1;
      }
      var intact := VerifyCategorySnapshot(p);
      if !intact {
        return Some(Spec.CategoryDrift);
      }
      if n.id in receipts {
        return if Spec.ReceiptVerifies(p, n, Now()) then None else Some(Spec.ReceiptMismatch);
      }
      var current := VerifySourceRows(p, n);
      if !current {
        return Some(Spec.EvidenceDrift);
      }
      if n.id != n.sourceId && n.id in plugins {
        return Some(Spec.CloneConflict);
      }
      var saved := Now();
      error := WriteNode(p, n);
      if error.Some? {
        run, plugins, owned, categories, mappings, receipts :=
          saved.run, saved.plugins, saved.owned, saved.categories, saved.mappings, saved.receipts;
      }
    }

    // ---------------------------------------------------------------- runs

    /** internal/migration/apply.go `setupApply`, interrupted after `rows` mappings. */
    method SetupApply(p: Plan, rows: nat) returns (error: Option<Spec.Failure>)
      modifies this`run, this`mappings
      ensures match Spec.SetupUpTo(p, rows, old(Now()))
              case Ok(db) => error == None && Now() == db
              case Err(e) => error == Some(e) && Now() == old(Now())
    {
      if run.Some? && run != Some(p) {
        return Some(Spec.RunConflict);
      }
      run := Some(p);
      var h := 0;
      while h < |p.mappings| && h < rows
        invariant 0 <= h <= Spec.Min(rows, |p.mappings|) && run == Some(p)
        invariant mappings == Spec.InsertUntargeted(p.mappings[..h], old(mappings))
      {
        assert p.mappings[..h + 1][..h] == p.mappings[..h];
        var m := p.mappings[h];
        if m.target.None? && !Spec.KeyPresent(mappings, m) {
          mappings := mappings + {m};
        }
        h := h + 1;
      }
      error := None;
    }

    /** internal/migration/apply.go `Apply`, interrupted at `stop`. A run that gets to the
        end is verified. */
    method Apply(p: Plan, stop: Spec.Stop) returns (applied: nat, error: Option<Spec.Failure>, verified: bool)
      requires Valid()
      modifies this
      ensures Valid()
      ensures Spec.Run(Now(), applied, error) == Spec.Attempt(p, stop, old(Now()))
      ensures verified <==> stop.AtNode? && stop.node >= |p.nodes| && error == None && Spec.Verifies(p, Now())
    {
      hide Spec.ApplyNode, Spec.SetupUpTo, Spec.Verifies;
      applied, error, verified := 0, None, false;
      if stop.AtStart? {
        return;
      }
      error := SetupApply(p, if stop.InSetup? then stop.rows else |p.mappings|);
      if error.Some? || stop.InSetup? {
        return;
      }
      ghost var ready := Now();
      ghost var end := Spec.Min(stop.node, |p.nodes|);
      while applied < |p.nodes| && applied < stop.node
        invariant 0 <= applied <= end
        invariant Valid()
        invariant Spec.ApplyNodes(p, 0, end, ready) == Spec.ApplyNodes(p, applied, end, Now())
      {
        error := ApplyNode(p, p.nodes[applied]);
        if error.Some? {
          return;
        }
        applied := applied + 1;
      }
      error := None;
      if stop.node >= |p.nodes| {
        verified := Verify(p);
      }
    }

    /** internal/migration/apply.go `Verify`. */
    method Verify(p: Plan) returns (ok: bool)
      requires Valid()
      ensures ok <==> Spec.Verifies(p, Now())
    {
      hide Spec.CategoriesVerify, Spec.ReceiptVerifies, Spec.ReleaseVerifies;
      if run != Some(p) {
        return false;
      }
      ok := VerifyCategorySnapshot(p);
      if !ok {
        return false;
      }
      for i := 0 to |p.nodes|
        invariant forall h :: 0 <= h < i ==>
                    && Spec.ReleaseVerifies(p.nodes[h], Spec.RowOf(Now(), p.nodes[h].id), Spec.OwnedBy(Now(), p.nodes[h].id))
                    && Spec.ReceiptVerifies(p, p.nodes[h], Now())
      {
        var n := p.nodes[i];
        if !Spec.ReleaseVerifies(n, Spec.RowOf(Now(), n.id), Spec.OwnedBy(Now(), n.id)) {
          return false;
        }
        if !Spec.ReceiptVerifies(p, n, Now()) {
          return false;
        }
      }
      ok := mappings == set m | m in p.mappings;
    }

    /** internal/migration/apply.go `CheckPlanSources`. */
    method CheckPlanSources(p: Plan) returns (ok: bool)
      requires Valid()
      ensures ok <==> Spec.Preflight(p, Now())
    {
      hide Spec.CategoriesVerify, Spec.SourcesVerify, Spec.ReceiptVerifies;
      if run.Some? && run != Some(p) {
        return false;
      }
      var intact := VerifyCategorySnapshot(p);
      if !intact {
        return false;
      }
      var i := 0;
      while i < |p.nodes|
        invariant 0 <= i <= |p.nodes|
        invariant forall h :: 0 <= h < i ==>
                    if run.Some? && p.nodes[h].id in receipts
                    then Spec.ReceiptVerifies(p, p.nodes[h], Now())
                    else Spec.SourcesVerify(p, p.nodes[h], Now())
      {
        if run.Some? && p.nodes[i].id in receipts {
          if !Spec.ReceiptVerifies(p, p.nodes[i], Now()) {
            return false;
          }
        } else {
          var current := VerifySourceRows(p, p.nodes[i]);
          if !current {
            return false;
          }
        }
        i := i + 1;
      }
      return true;
    }
  }

  function RetiredBy(p: Plan, mappings: seq<Mapping>, target: Id): set<Id> {
    set m | m in mappings && MapsTo(m, target) && m.source != target && !Planned(p, m.source) :: m.source
  }

  function MappedBy(mappings: seq<Mapping>, target: Id): set<Mapping> {
    set m | m in mappings && MapsTo(m, target)
  }

  lemma NoneRetired(p: Plan, owned: map<Id, Owned>, target: Id)
    ensures MappedBy([], target) == {} && Spec.WithRetired(owned, RetiredBy(p, [], target)) == owned
  {
  }

  lemma AllMapped(p: Plan, target: Id)
    ensures MappedBy(p.mappings, target) == Spec.MappingRows(p, target)
    ensures RetiredBy(p, p.mappings, target) == Retired(p, target)
  {
  }

  lemma MappedStep(p: Plan, front: seq<Mapping>, m: Mapping, target: Id)
    ensures MappedBy(front + [m], target) == if MapsTo(m, target) then MappedBy(front, target) + {m} else MappedBy(front, target)
    ensures RetiredBy(p, front + [m], target) ==
            if MapsTo(m, target) && m.source != target && !Planned(p, m.source)
            then RetiredBy(p, front, target) + {m.source} else RetiredBy(p, front, target)
  {
    hide Planned;
  }

  lemma RetireStep(owned: map<Id, Owned>, retired: set<Id>, x: Id)
    ensures Spec.WithRetired(Spec.WithRetired(owned, retired), {x}) == Spec.WithRetired(owned, retired + {x})
  {
    assert forall y :: y in owned ==> Spec.Hidden(Spec.Hidden(owned[y].placements)) == Spec.Hidden(owned[y].placements);
  }
}
