/** What the migration planner works on before a plan is finished. */
module PlannerTypes {
  import opened Options
  import opened Tables
  import opened MigrationPlan
  import VersionLabels

  datatype SourceEdge = SourceEdge(id: RelationId, kind: EdgeKind, target: Id, targetKind: Kind, live: bool)

  /** One captured source resource. */
  datatype Resource = Resource(
    id: Id,
    plugin: Plugin,
    deleted: bool,
    pendingReview: bool,
    updatedAt: int,
    relations: seq<SourceEdge>,
    published: Option<VersionId>,
    release: Option<ReleaseRow>,
    currentVersion: Option<string>,
    evidence: Evidence)

  predicate Active(r: Resource) {
    !r.deleted && !r.pendingReview
  }

  /** The captured resources by identity, the order in which they are considered, and the
      labels of all saved versions and releases. */
  datatype Input = Input(
    byId: map<Id, Resource>,
    order: seq<Id>,
    versions: seq<VersionLabels.Version>,
    releases: seq<VersionLabels.Release>)

  /** Facts of a captured input: one resource per identity, each considered once. */
  ghost predicate WellFormed(i: Input) {
    && (forall x :: x in i.byId <==> x in i.order)
    && (forall h, k :: 0 <= h < k < |i.order| ==> i.order[h] != i.order[k])
    && (forall x :: x in i.byId ==> x.Source? && i.byId[x].id == x)
  }

  datatype Issue = Issue(id: Id, code: string)

  /** A planned resource under construction. `merged` holds the sources of connectors
      that were folded into it, and `updatedAt` orders candidates for survival. */
  datatype Draft = Draft(
    id: Id,
    sourceId: Id,
    source: Plugin,
    updatedAt: int,
    plugin: Plugin,
    relations: seq<Relation>,
    merged: set<Id>,
    versionId: Option<VersionId>,
    versionLabel: string,
    release: bool)

  function DraftServers(d: Draft): map<string, string> {
    if d.plugin.servers.Some? then d.plugin.servers.value else map[]
  }

  /** `after` has the servers of `before` under the keys that `names` gives them. */
  ghost predicate Renames(names: map<string, string>, before: map<string, string>, after: map<string, string>) {
    && names.Keys == before.Keys && after.Keys == names.Values
    && (forall k, l :: k in names && l in names && names[k] == names[l] ==> k == l)
    && (forall k :: k in names ==> after[names[k]] == before[k])
  }

  /** The same servers, each under its own or another key, no two under one. */
  ghost predicate SameServers(before: map<string, string>, after: map<string, string>) {
    exists names :: Renames(names, before, after)
  }

  /** Functions that the planner calls and that are not defined here: white space
      trimming, Unicode folding, cleaning of name parts (at most fifty characters),
      content fingerprints, identifiers as text and their digests, the position of an identifier in string order,
      whether a manifest parses, and whether the files of a plugin can be laid out. */
  datatype Oracles = Oracles(
    trim: string -> string,
    fold: string -> string,
    clean: string -> string,
    skillContent: Plugin -> string,
    connectorContent: Plugin -> Option<string>,
    idText: Id -> string,
    idDigest: Id -> string,
    aliasDigest: (Id, string, nat) -> string,
    rank: Id -> nat,
    manifestParses: Plugin -> bool,
    filesFit: Plugin -> bool)

  /** Whatever a connector is renamed to, its manifest parses and its files can be laid out. */
  ghost predicate DocumentsFit(o: Oracles) {
    forall p :: o.manifestParses(p) && o.filesFit(p)
  }

  function Normalized(o: Oracles, name: string): string {
    o.fold(o.trim(name))
  }

  /** An unfinished draft: its references are not executable. */
  predicate Unfinished(d: Draft) {
    !d.release && d.plugin.listing == Unpublished
  }

  ghost predicate RankInjective(o: Oracles, ids: set<Id>) {
    forall a, b :: a in ids && b in ids && o.rank(a) == o.rank(b) ==> a == b
  }

  /** `a` comes before `b` in (update time, identifier) order. */
  predicate Earlier(o: Oracles, nodes: map<Id, Draft>, a: Id, b: Id)
    requires a in nodes && b in nodes
  {
    nodes[a].updatedAt < nodes[b].updatedAt || (nodes[a].updatedAt == nodes[b].updatedAt && o.rank(a) < o.rank(b))
  }
}
