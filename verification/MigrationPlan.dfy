/** A conversion plan and the static conditions under which it can be applied. */
module MigrationPlan {
  import opened Options
  import opened Tables

  /** What was captured for one source resource when the plan was made. */
  datatype Evidence = Evidence(row: PluginRow, owned: Owned)

  datatype Node = Node(
    id: Id,
    sourceId: Id,
    source: Plugin,
    sourceRow: PluginRow,
    sourcePublished: Option<VersionId>,
    sourceRelease: Option<ReleaseRow>,
    evidence: map<Id, Evidence>,
    plugin: Plugin,
    relations: seq<Relation>,
    versionId: Option<VersionId>,
    versionLabel: string,
    release: bool,
    clone: bool)

  datatype Mapping = Mapping(source: Id, target: Option<Id>, versionId: Option<VersionId>, disposition: string)

  datatype Plan = Plan(
    nodes: seq<Node>,
    mappings: seq<Mapping>,
    categories: map<CategoryId, CategoryRow>)

  predicate Planned(p: Plan, id: Id) {
    exists i :: 0 <= i < |p.nodes| && p.nodes[i].id == id
  }

  predicate MapsTo(m: Mapping, target: Id) {
    m.target == Some(target)
  }

  /** Sources whose catalog rows are retired when `target` is committed. */
  function Retired(p: Plan, target: Id): (r: set<Id>)
  {
    set m | m in p.mappings && MapsTo(m, target) && m.source != target && !Planned(p, m.source) :: m.source
  }

  /** Committing node `n` changes rows that belong to `x`. */
  predicate Writes(p: Plan, n: Node, x: Id) {
    x == n.id || x in Retired(p, n.id)
  }

  ghost predicate DistinctNodes(p: Plan) {
    forall i, j :: 0 <= i < j < |p.nodes| ==> p.nodes[i].id != p.nodes[j].id
  }

  ghost predicate DistinctSources(p: Plan) {
    forall i, j :: 0 <= i < j < |p.mappings| ==> p.mappings[i].source != p.mappings[j].source
  }

  ghost predicate TargetsPlanned(p: Plan) {
    forall m :: m in p.mappings && m.target.Some? ==> Planned(p, m.target.value)
  }

  /** Every other node that holds `x` as evidence comes before the node that writes it. */
  ghost predicate WritersLast(p: Plan) {
    forall i, j, x ::
      (0 <= i < |p.nodes| && 0 <= j < |p.nodes| && i != j && Writes(p, p.nodes[i], x) && x in p.nodes[j].evidence)
      ==> j < i
  }

  ghost predicate DependenciesFirst(p: Plan) {
    forall i, r :: 0 <= i < |p.nodes| && r in p.nodes[i].relations ==>
      exists j :: 0 <= j < i && p.nodes[j].id == r.target
  }

  ghost predicate NodeComplete(p: Plan, n: Node) {
    && n.clone == (n.id != n.sourceId)
    && n.sourceId in n.evidence
    && n.evidence[n.sourceId].row == n.sourceRow
    && (forall m :: m in p.mappings && MapsTo(m, n.id) ==> m.source in n.evidence)
    && n.versionId.Some? == (n.plugin.kind != Connector)
  }

  /** The static condition on plans: established by the planner, needed by apply. */
  ghost predicate Safe(p: Plan) {
    && DistinctNodes(p)
    && DistinctSources(p)
    && TargetsPlanned(p)
    && WritersLast(p)
    && DependenciesFirst(p)
    && forall n :: n in p.nodes ==> NodeComplete(p, n)
  }
}
