/** What one conversion transaction reads, checks and writes, as functions on the
    whole database. internal/migration/apply.go, apply_placements.go and
    category_snapshot.go. */
module ApplySpec {
  import opened Options
  import opened Tables
  import opened MigrationPlan

  datatype Receipt = Receipt(node: Node, state: View)

  /** The rows covered by a receipt's state hash. */
  datatype View = View(
    row: Option<PluginRow>,
    owned: Owned,
    categories: seq<CategoryRow>,
    mappings: set<Mapping>,
    retired: map<Id, Evidence>)

  datatype Database = Database(
    run: Option<Plan>,
    plugins: map<Id, PluginRow>,
    owned: map<Id, Owned>,
    categories: seq<CategoryRow>,
    mappings: set<Mapping>,
    receipts: map<Id, Receipt>)

  datatype Failure =
    | RunConflict
    | DependencyMissing
    | CategoryDrift
    | ReceiptMismatch
    | EvidenceDrift
    | CloneConflict
    | MappingConflict
    | PlacementConflict
    | RegistrationConflict

  datatype Outcome<+T> = Ok(value: T) | Err(error: Failure)

  function OwnedBy(db: Database, id: Id): Owned {
    if id in db.owned then db.owned[id] else NOTHING_OWNED
  }

  function RowOf(db: Database, id: Id): Option<PluginRow> {
    if id in db.plugins then Some(db.plugins[id]) else None
  }

  // ---------------------------------------------------------------- receipts

  predicate Covers(placements: seq<PlacementRow>, kind: Kind, c: CategoryRow) {
    c.kind == kind && exists i :: 0 <= i < |placements| && placements[i].code == c.code && placements[i].category == Some(c.category)
  }

  function Covered(categories: seq<CategoryRow>, placements: seq<PlacementRow>, kind: Kind): seq<CategoryRow> {
    if categories == [] then []
    else
      var front := Covered(categories[..|categories| - 1], placements, kind);
      var last := categories[|categories| - 1];
      if Covers(placements, kind, last) then front + [last] else front
  }

  /** internal/migration/apply.go `stateHash`. */
  function StateOf(p: Plan, n: Node, db: Database): View {
    View(
      RowOf(db, n.id),
      OwnedBy(db, n.id),
      Covered(db.categories, OwnedBy(db, n.id).placements, n.plugin.kind),
      set m | m in db.mappings && MapsTo(m, n.id),
      map x | x in Retired(p, n.id) && x in db.plugins :: Evidence(db.plugins[x], OwnedBy(db, x)))
  }

  /** internal/migration/apply.go `verifyReceipt`. */
  predicate ReceiptVerifies(p: Plan, n: Node, db: Database) {
    n.id in db.receipts && db.receipts[n.id] == Receipt(n, StateOf(p, n, db))
  }

  // ---------------------------------------------------------- shared catalog

  predicate Registers(c: CategoryRow, code: string, kind: Kind, category: string) {
    c.code == code && c.kind == kind && c.category == category
  }

  predicate Registered(categories: seq<CategoryRow>, code: string, kind: Kind, category: string) {
    exists i :: 0 <= i < |categories| && Registers(categories[i], code, kind, category)
  }

  predicate Places(placements: seq<PlacementRow>, code: string, category: string) {
    exists i :: 0 <= i < |placements| && placements[i].code == code && placements[i].category == Some(category)
  }

  /** Baseline rows are all present, and none of them has changed. */
  predicate BaselineIntact(p: Plan, categories: seq<CategoryRow>) {
    && (forall i :: 0 <= i < |categories| && categories[i].id in p.categories ==> p.categories[categories[i].id] == categories[i])
    && (forall id :: id in p.categories ==> exists i :: 0 <= i < |categories| && categories[i].id == id)
  }

  /** The type recorded for `id` after scanning all nodes. */
  function KindOf(nodes: seq<Node>, id: Id): Option<Kind> {
    if nodes == [] then None
    else if nodes[|nodes| - 1].id == id then Some(nodes[|nodes| - 1].plugin.kind)
    else KindOf(nodes[..|nodes| - 1], id)
  }

  predicate PlacementPresent(p: Plan, db: Database, id: Id, v: PlacementRow) {
    v.category.Some? ==>
      && KindOf(p.nodes, id).Some?
      && Registered(db.categories, v.code, KindOf(p.nodes, id).value, v.category.value)
  }

  /** internal/migration/category_snapshot.go `verifyCompletedCategoryPresence`. */
  predicate CompletedPresent(p: Plan, db: Database) {
    |p.nodes| > 0 ==>
      forall id :: id in db.receipts ==> forall v :: v in OwnedBy(db, id).placements ==> PlacementPresent(p, db, id, v)
  }

  /** Node `n` is a committed owner of the registration row `c`. */
  predicate Vouches(n: Node, db: Database, c: CategoryRow) {
    n.plugin.kind == c.kind && n.id in db.receipts && Places(OwnedBy(db, n.id).placements, c.code, c.category)
  }

  /** The first committed owner of `c` in plan order has a receipt that verifies. */
  predicate ExtraJustified(p: Plan, db: Database, c: CategoryRow) {
    && c.id == Derived(c.code, c.kind, c.category)
    && exists k :: 0 <= k < |p.nodes| && Vouches(p.nodes[k], db, c)
        && (forall h :: 0 <= h < k ==> !Vouches(p.nodes[h], db, c))
        && ReceiptVerifies(p, p.nodes[k], db)
  }

  /** internal/migration/category_snapshot.go `verifyCategorySnapshot`. */
  predicate CategoriesVerify(p: Plan, db: Database) {
    && BaselineIntact(p, db.categories)
    && CompletedPresent(p, db)
    && forall i :: 0 <= i < |db.categories| && db.categories[i].id !in p.categories ==> ExtraJustified(p, db, db.categories[i])
  }

  // -------------------------------------------------------- source evidence

  function FindRelease(releases: seq<ReleaseRow>, versionId: VersionId): Option<ReleaseRow> {
    if releases == [] then None
    else if releases[0].versionId == versionId then Some(releases[0])
    else FindRelease(releases[1..], versionId)
  }

  predicate PublicationVerifies(n: Node, row: PluginRow, releases: seq<ReleaseRow>) {
    && row.publishedVersionId == n.sourcePublished
    && (if n.sourcePublished.Some?
        then n.sourceRelease.Some? && FindRelease(releases, n.sourcePublished.value) == n.sourceRelease
        else n.sourceRelease.None?)
  }

  /** internal/migration/apply.go `verifySourceRows` and `verifyNodeSourceTables`. */
  predicate SourcesVerify(p: Plan, n: Node, db: Database) {
    && RowOf(db, n.sourceId) == Some(n.sourceRow)
    && PublicationVerifies(n, n.sourceRow, OwnedBy(db, n.sourceId).releases)
    && n.sourceId in n.evidence
    && n.evidence[n.sourceId].row == n.sourceRow
    && (forall m :: m in p.mappings && MapsTo(m, n.id) ==> m.source in n.evidence)
    && (forall x :: x in n.evidence ==> RowOf(db, x) == Some(n.evidence[x].row) && OwnedBy(db, x) == n.evidence[x].owned)
  }

  predicate DependenciesPresent(n: Node, db: Database) {
    forall i :: 0 <= i < |n.relations| ==> n.relations[i].target in db.plugins
  }

  // ------------------------------------------------------------- placements

  function FindPlacement(placements: seq<PlacementRow>, code: string): Option<PlacementRow> {
    if placements == [] then None
    else if placements[|placements| - 1].code == code then Some(placements[|placements| - 1])
    else FindPlacement(placements[..|placements| - 1], code)
  }

  /** internal/migration/apply_placements.go `mergeMigrationPlacements`. */
  function Merge(existing: seq<PlacementRow>, incoming: seq<PlacementRow>): Outcome<seq<PlacementRow>>
    decreases |incoming|
  {
    if incoming == [] then Ok(existing)
    else
      match FindPlacement(existing, incoming[0].code)
      case Some(found) => if found == incoming[0] then Merge(existing, incoming[1..]) else Err(PlacementConflict)
      case None => Merge(existing + [incoming[0]], incoming[1..])
  }

  function MergeAll(db: Database, existing: seq<PlacementRow>, sources: seq<Id>): Outcome<seq<PlacementRow>>
    decreases |sources|
  {
    if sources == [] then Ok(existing)
    else
      match Merge(existing, OwnedBy(db, sources[0]).placements)
      case Err(e) => Err(e)
      case Ok(merged) => MergeAll(db, merged, sources[1..])
  }

  /** Mapped sources of `target` other than itself, in mapping order. */
  function MappedSources(mappings: seq<Mapping>, target: Id): seq<Id> {
    if mappings == [] then []
    else if MapsTo(mappings[0], target) && mappings[0].source != target
    then [mappings[0].source] + MappedSources(mappings[1..], target)
    else MappedSources(mappings[1..], target)
  }

  function PlacementSources(p: Plan, n: Node): seq<Id> {
    (if n.clone then [n.sourceId] else []) + MappedSources(p.mappings, n.id)
  }

  function DefaultPlacement(n: Node, merged: seq<PlacementRow>): seq<PlacementRow> {
    if merged == [] && n.clone && n.plugin.listing == Published && !n.plugin.embedded
    then [PlacementRow("default", n.plugin.category, true, 0)]
    else merged
  }

  function FindRegistration(categories: seq<CategoryRow>, code: string, kind: Kind, category: string): Option<CategoryRow> {
    if categories == [] then None
    else if Registers(categories[0], code, kind, category) then Some(categories[0])
    else FindRegistration(categories[1..], code, kind, category)
  }

  predicate CategoryKeyTaken(categories: seq<CategoryRow>, id: CategoryId) {
    exists i :: 0 <= i < |categories| && categories[i].id == id
  }

  /** Adds the registration that placement `v` needs, if it is missing. */
  function Register(p: Plan, kind: Kind, categories: seq<CategoryRow>, v: PlacementRow): Outcome<seq<CategoryRow>> {
    match v.category
    case None => Ok(categories)
    case Some(category) =>
      match FindRegistration(categories, v.code, kind, category)
      case Some(c) =>
        if c.id in p.categories || (c.visible == v.visible && c.order == v.order)
        then Ok(categories) else Err(RegistrationConflict)
      case None =>
        var id := Derived(v.code, kind, category);
        if CategoryKeyTaken(categories, id) then Err(RegistrationConflict)
        else Ok(categories + [CategoryRow(id, v.code, kind, category, v.visible, v.order)])
  }

  function RegisterAll(p: Plan, kind: Kind, categories: seq<CategoryRow>, placements: seq<PlacementRow>): Outcome<seq<CategoryRow>>
    decreases |placements|
  {
    if placements == [] then Ok(categories)
    else
      match Register(p, kind, categories, placements[0])
      case Err(e) => Err(e)
      case Ok(next) => RegisterAll(p, kind, next, placements[1..])
  }

  datatype Transfer = Transfer(placements: seq<PlacementRow>, categories: seq<CategoryRow>)

  /** internal/migration/apply_placements.go `transferMigrationPlacements`. */
  function TransferPlacements(p: Plan, n: Node, db: Database): Outcome<Transfer> {
    match MergeAll(db, OwnedBy(db, n.id).placements, PlacementSources(p, n))
    case Err(e) => Err(e)
    case Ok(merged) =>
      var placements := DefaultPlacement(n, merged);
      match RegisterAll(p, n.plugin.kind, db.categories, placements)
      case Err(e) => Err(e)
      case Ok(categories) => Ok(Transfer(placements, categories))
  }

  // ----------------------------------------------------------------- writes

  function Hidden(placements: seq<PlacementRow>): seq<PlacementRow> {
    seq(|placements|, i requires 0 <= i < |placements| => placements[i].(visible := false))
  }

  function Historical(relations: seq<RelationRow>): seq<RelationRow> {
    seq(|relations|, i requires 0 <= i < |relations| => relations[i].(live := false))
  }

  function Live(relations: seq<Relation>): seq<RelationRow> {
    seq(|relations|, i requires 0 <= i < |relations| => RelationRow(relations[i], true))
  }

  function References(versionId: VersionId, relations: seq<Relation>): seq<ReferenceRow> {
    seq(|relations|, i requires 0 <= i < |relations| => ReferenceRow(versionId, relations[i]))
  }

  function NextSequence(versions: seq<VersionRow>): nat {
    if versions == [] then 1
    else
      var rest := NextSequence(versions[1..]);
      if versions[0].sequence + 1 > rest then versions[0].sequence + 1 else rest
  }

  /** internal/migration/apply.go `cloneRow`: identity replaced, pointers cleared. */
  function BaseRow(n: Node, db: Database): PluginRow
    requires n.sourceId in db.plugins
  {
    if n.id == n.sourceId then db.plugins[n.id]
    else db.plugins[n.sourceId].(currentVersionId := None, currentVersion := None, publishedVersionId := None)
  }

  function WrittenRow(n: Node, db: Database): PluginRow
    requires n.sourceId in db.plugins
  {
    var row := BaseRow(n, db).(plugin := n.plugin);
    if n.plugin.kind == Connector || n.versionId.None? then row
    else row.(currentVersionId := n.versionId, currentVersion := Some(n.versionLabel),
              publishedVersionId := if n.release then n.versionId else None)
  }

  /** internal/migration/apply.go `writeMigrationVersion`. */
  function WithVersion(n: Node, o: Owned): Owned {
    if n.plugin.kind == Connector || n.versionId.None? then o
    else
      var v := n.versionId.value;
      o.(versions := o.versions + [VersionRow(v, NextSequence(o.versions), n.versionLabel, n.plugin, n.relations)],
         releases := if n.release then o.releases + [ReleaseRow(v, n.versionLabel)] else o.releases,
         references := o.references + References(v, n.relations),
         index := o.index + [IndexRow(v, |n.relations|)])
  }

  function WrittenOwned(n: Node, o: Owned, placements: seq<PlacementRow>): Owned {
    var converted := WithVersion(n, o.(relations := Historical(o.relations) + Live(n.relations)));
    converted.(audits := o.audits + [AuditRow(n.source, n.plugin)], placements := placements)
  }

  /** internal/migration/apply_placements.go `retireMigrationCatalog` for every retired source. */
  function WithRetired(owned: map<Id, Owned>, retired: set<Id>): map<Id, Owned> {
    map x | x in owned :: if x in retired then owned[x].(placements := Hidden(owned[x].placements)) else owned[x]
  }

  function MappingRows(p: Plan, target: Id): set<Mapping> {
    set m | m in p.mappings && MapsTo(m, target)
  }

  /** The rows that map to `target` can be inserted one after the other: no primary
      key (source, target) is met twice. */
  predicate Insertable(rows: seq<Mapping>, target: Id, present: set<Mapping>)
    decreases |rows|
  {
    rows == [] ||
    if MapsTo(rows[0], target)
    then !KeyPresent(present, rows[0]) && Insertable(rows[1..], target, present + {rows[0]})
    else Insertable(rows[1..], target, present)
  }

  predicate KeyPresent(present: set<Mapping>, m: Mapping) {
    exists o :: o in present && o.source == m.source && o.target == m.target
  }

  /** All rows that the transaction of `n` writes, except its own receipt. */
  function Rewrite(p: Plan, n: Node, db: Database, t: Transfer): Database
    requires n.sourceId in db.plugins
  {
    db.(plugins := db.plugins[n.id := WrittenRow(n, db)],
        owned := WithRetired(db.owned[n.id := WrittenOwned(n, OwnedBy(db, n.id), t.placements)], Retired(p, n.id)),
        categories := t.categories,
        mappings := db.mappings + MappingRows(p, n.id))
  }

  function Receipted(p: Plan, n: Node, db: Database): Database {
    db.(receipts := db.receipts[n.id := Receipt(n, StateOf(p, n, db))])
  }

  /** internal/migration/apply.go `applyNode`, from the point where no receipt was found. */
  function Convert(p: Plan, n: Node, db: Database): Outcome<Database> {
    if !CategoriesVerify(p, db) then Err(CategoryDrift)
    else if !SourcesVerify(p, n, db) then Err(EvidenceDrift)
    else if n.id != n.sourceId && n.id in db.plugins then Err(CloneConflict)
    else
      match TransferPlacements(p, n, db)
      case Err(e) => Err(e)
      case Ok(t) =>
        if !Insertable(p.mappings, n.id, db.mappings) then Err(MappingConflict)
        else Ok(Receipted(p, n, Rewrite(p, n, db, t)))
  }

  /** internal/migration/apply.go `applyNode`: one transaction. */
  function ApplyNode(p: Plan, n: Node, db: Database): Outcome<Database> {
    if !DependenciesPresent(n, db) then Err(DependencyMissing)
    else if n.id in db.receipts then
      if !CategoriesVerify(p, db) then Err(CategoryDrift)
      else if !ReceiptVerifies(p, n, db) then Err(ReceiptMismatch)
      else Ok(db)
    else Convert(p, n, db)
  }

  // ------------------------------------------------------------------- runs

  /** `INSERT IGNORE` of the mapping rows without a target, one statement each. */
  function InsertUntargeted(rows: seq<Mapping>, present: set<Mapping>): set<Mapping> {
    if rows == [] then present
    else
      var m := rows[|rows| - 1];
      var before := InsertUntargeted(rows[..|rows| - 1], present);
      if m.target.Some? || KeyPresent(before, m) then before else before + {m}
  }

  /** internal/migration/apply.go `setupApply` and `checkRun`, interrupted after the run
      row and the first `rows` mappings. */
  function SetupUpTo(p: Plan, rows: nat, db: Database): Outcome<Database> {
    if db.run.Some? && db.run != Some(p) then Err(RunConflict)
    else Ok(db.(run := Some(p), mappings := InsertUntargeted(p.mappings[..Min(rows, |p.mappings|)], db.mappings)))
  }

  function Setup(p: Plan, db: Database): Outcome<Database> {
    SetupUpTo(p, |p.mappings|, db)
  }

  /** The nodes that were processed, where they left the database, and why they stopped. */
  datatype Run = Run(db: Database, done: nat, error: Option<Failure>)

  /** Processes nodes `from`, `from + 1`, ... and is interrupted before node `stop`. */
  function ApplyNodes(p: Plan, from: nat, stop: nat, db: Database): Run
    requires from <= stop <= |p.nodes|
    decreases stop - from
  {
    if from == stop then Run(db, from, None)
    else
      match ApplyNode(p, p.nodes[from], db)
      case Err(e) => Run(db, from, Some(e))
      case Ok(next) => ApplyNodes(p, from + 1, stop, next)
  }

  function Min(a: nat, b: nat): nat {
    if a <= b then a else b
  }

  /** Where an attempt is interrupted: before its first statement, during setup after
      some of the mappings, or before some node. */
  datatype Stop = AtStart | InSetup(rows: nat) | AtNode(node: nat)

  /** internal/migration/apply.go `Apply`, interrupted at `stop`; not at all when that is
      a node beyond the last. */
  function Attempt(p: Plan, stop: Stop, db: Database): Run {
    match stop
    case AtStart => Run(db, 0, None)
    case InSetup(rows) =>
      (match SetupUpTo(p, rows, db)
       case Err(e) => Run(db, 0, Some(e))
       case Ok(started) => Run(started, 0, None))
    case AtNode(node) =>
      (match Setup(p, db)
       case Err(e) => Run(db, 0, Some(e))
       case Ok(ready) => ApplyNodes(p, 0, Min(node, |p.nodes|), ready))
  }

  /** The database after a series of attempts, each interrupted somewhere. */
  function Attempts(p: Plan, stops: seq<Stop>, db: Database): Database {
    if stops == [] then db else Attempts(p, stops[1..], Attempt(p, stops[0], db).db)
  }

  /** internal/migration/apply.go `CheckPlanSources`. */
  predicate Preflight(p: Plan, db: Database) {
    && (db.run.Some? ==> db.run == Some(p))
    && CategoriesVerify(p, db)
    && forall i :: 0 <= i < |p.nodes| ==>
         if db.run.Some? && p.nodes[i].id in db.receipts
         then ReceiptVerifies(p, p.nodes[i], db)
         else SourcesVerify(p, p.nodes[i], db)
  }

  predicate HasRelease(o: Owned, versionId: VersionId) {
    exists i :: 0 <= i < |o.releases| && o.releases[i].versionId == versionId
  }

  /** internal/migration/release_validation.go `verifyMigrationRelease`. */
  predicate ReleaseVerifies(n: Node, row: Option<PluginRow>, o: Owned) {
    n.versionId.Some? ==>
      var v := n.versionId.value;
      && row.Some?
      && (exists i :: 0 <= i < |o.versions| && o.versions[i].versionId == v && o.versions[i].versionLabel == n.versionLabel)
      && row.value.currentVersion == Some(n.versionLabel)
      && row.value.currentVersionId == Some(v)
      && (if n.release
          then FindRelease(o.releases, v) == Some(ReleaseRow(v, n.versionLabel)) && row.value.publishedVersionId == Some(v)
          else !HasRelease(o, v) && row.value.publishedVersionId == None)
  }

  /** internal/migration/apply.go `Verify`. */
  predicate Verifies(p: Plan, db: Database) {
    && db.run == Some(p)
    && CategoriesVerify(p, db)
    && (forall i :: 0 <= i < |p.nodes| ==>
          && ReleaseVerifies(p.nodes[i], RowOf(db, p.nodes[i].id), OwnedBy(db, p.nodes[i].id))
          && ReceiptVerifies(p, p.nodes[i], db))
    && db.mappings == set m | m in p.mappings
  }
}
