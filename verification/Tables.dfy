/** Rows of the marketplace database, as values.

    A hash that the service stores or compares is represented by the value it is
    computed from, and an identifier that the service derives by hashing is a
    datatype constructor over the hashed parts. Timestamps are not represented. */
module Tables {
  import opened Options

  datatype Kind = Skill | Connector | Expert | Team

  datatype Visibility = System | Space | Private

  datatype Listing = Unpublished | Published | Delisted

  /** The audience boundary of a resource, internal/migration/policy.go `scope`. */
  datatype Scope =
    | SystemWide
    | SystemOwned(owner: string, status: int, listing: Listing)
    | OwnerOnly(space: string, owner: string, status: int, listing: Listing)
    | SpaceWide(space: string)
    | SpaceOwned(space: string, owner: string, status: int, listing: Listing)

  /** `Source` is the identity of a row that exists before conversion; the other
      two are the derived identities of converted and extracted resources. */
  datatype Id =
    | Source(key: string)
    | Converted(source: Id, scope: Scope)
    | Extracted(source: Id, server: string)

  datatype VersionId = Saved(key: string) | Minted(owner: Id)

  datatype EdgeKind = ExpertSkill | ExpertConnector | TeamExpert | OtherEdge(name: string)

  datatype RelationId =
    | Stored(key: string)
    | Rewritten(owner: Id, stored: RelationId, kind: EdgeKind, target: Id)
    | ServerLink(owner: Id, server: string)

  /** The columns of a plugin that conversion reads or rewrites. `servers` is the MCP
      server map of its mcp.json file, when it has one. */
  datatype Plugin = Plugin(
    name: string,
    kind: Kind,
    owner: string,
    space: Option<string>,
    visibility: Visibility,
    listing: Listing,
    status: int,
    embedded: bool,
    category: Option<string>,
    servers: Option<map<string, string>>)

  /** `kept` stands for the columns that a clone inherits unchanged. */
  datatype PluginRow = PluginRow(
    plugin: Plugin,
    kept: string,
    currentVersionId: Option<VersionId>,
    currentVersion: Option<string>,
    publishedVersionId: Option<VersionId>)

  datatype Relation = Relation(id: RelationId, kind: EdgeKind, target: Id, targetVersion: Option<VersionId>)

  datatype RelationRow = RelationRow(relation: Relation, live: bool)

  datatype VersionRow = VersionRow(
    versionId: VersionId, sequence: nat, versionLabel: string, plugin: Plugin, relations: seq<Relation>)

  datatype ReleaseRow = ReleaseRow(versionId: VersionId, versionLabel: string)

  datatype ReferenceRow = ReferenceRow(versionId: VersionId, relation: Relation)

  datatype IndexRow = IndexRow(versionId: VersionId, count: nat)

  datatype AuditRow = AuditRow(before: Plugin, after: Plugin)

  datatype PlacementRow = PlacementRow(code: string, category: Option<string>, visible: bool, order: int)

  /** Everything the eight source tables hold for one plugin. */
  datatype Owned = Owned(
    relations: seq<RelationRow>,
    versions: seq<VersionRow>,
    releases: seq<ReleaseRow>,
    reviews: seq<string>,
    placements: seq<PlacementRow>,
    references: seq<ReferenceRow>,
    index: seq<IndexRow>,
    audits: seq<AuditRow>)

  const NOTHING_OWNED := Owned([], [], [], [], [], [], [], [])

  datatype CategoryId = Given(key: string) | Derived(code: string, kind: Kind, category: string)

  datatype CategoryRow = CategoryRow(
    id: CategoryId, code: string, kind: Kind, category: string, visible: bool, order: int)

  predicate SharedActive(p: Plugin) {
    p.status == 1 && p.listing == Published
  }

  function SpaceOf(p: Plugin): string {
    if p.space.Some? then p.space.value else ""
  }

  function ScopeOf(p: Plugin): Scope {
    match p.visibility
    case System => if SharedActive(p) then SystemWide else SystemOwned(p.owner, p.status, p.listing)
    case Private => OwnerOnly(SpaceOf(p), p.owner, p.status, p.listing)
    case Space => if SharedActive(p) then SpaceWide(SpaceOf(p)) else SpaceOwned(SpaceOf(p), p.owner, p.status, p.listing)
  }

  /** The boundary fixes the lifecycle, so resources that share one also share the
      answer to "is it shared and active". */
  lemma ScopeFixesLifecycle(p: Plugin, q: Plugin)
    requires ScopeOf(p) == ScopeOf(q)
    ensures p.status == q.status && p.listing == q.listing && SharedActive(p) == SharedActive(q)
  {
  }
}
