/** What Fleet is asked to install and what it reports back, internal/fleet/capability_types.go.
    Skills and connectors have the same shape here: an absent market id is `None`. */
module FleetTypes {
  import opened Options

  datatype Kind = Skill | Connector

  /** A skill or connector of the request. */
  datatype Definition = Definition(name: string, version: Option<string>, market: string)

  /** A skill or connector of the result. */
  datatype Resource = Resource(id: string, name: string, version: Option<string>, market: Option<string>, created: bool)

  datatype Expert = Expert(name: string, version: Option<string>, market: string, skillNames: seq<string>, connectorNames: seq<string>)

  datatype ExpertResult = ExpertResult(
    id: string, name: string, version: Option<string>, market: string, created: bool,
    skillIds: seq<string>, connectorIds: seq<string>, isLeader: bool)

  datatype Member = Member(expertName: string, isLeader: bool)

  datatype Team = Team(name: string, version: Option<string>, market: string, members: seq<Member>)

  datatype TeamResult = TeamResult(id: string, name: string, version: Option<string>, market: string, created: bool)

  datatype Capability = Capability(skills: seq<Definition>, connectors: seq<Definition>, experts: seq<Expert>, team: Option<Team>)

  datatype InstallResult = InstallResult(
    kind: string, expertId: string, teamId: string, leaderId: string, team: Option<TeamResult>,
    experts: seq<ExpertResult>, skills: seq<Resource>, connectors: seq<Resource>)

  /** Which parts of an older request form left out versions and market ids. */
  datatype Wire = Wire(legacySkills: bool, legacyExperts: bool)

  /** internal/fleet/capability.go:420-431; the version is dropped for legacy skills. */
  datatype Identity = Identity(name: string, version: Option<string>)

  function DefinitionIdentity(d: Definition, plain: bool): Identity {
    Identity(d.name, if plain then None else d.version)
  }

  function ResourceIdentity(r: Resource, plain: bool): Identity {
    Identity(r.name, if plain then None else r.version)
  }

  /** internal/fleet/capability.go:591-596 for connectors; a skill without id has the empty one. */
  predicate SameMarket(kind: Kind, actual: Option<string>, wanted: string) {
    match kind
    case Skill => (if actual.None? then "" else actual.value) == wanted
    case Connector => if wanted == "" then actual.None? else actual == Some(wanted)
  }

  predicate HexDigit(c: char) {
    '0' <= c <= '9' || 'a' <= c <= 'f' || 'A' <= c <= 'F'
  }

  /** internal/fleet/capability.go:612-630 */
  predicate Uuid(s: string) {
    && |s| == 36
    && forall i :: 0 <= i < 36 ==> if i in {8, 13, 18, 23} then s[i] == '-' else HexDigit(s[i])
  }

  predicate UsableId(kind: Kind, id: string) {
    match kind
    case Skill => id != ""
    case Connector => Uuid(id)
  }

  // ------------------------------------------------------------------ lookup

  ghost predicate DistinctIds(rs: seq<Resource>) {
    forall i, j :: 0 <= i < j < |rs| ==> rs[i].id != rs[j].id
  }

  /** The listed resources by id; the last one wins where ids repeat. */
  ghost function ById(rs: seq<Resource>): map<string, Resource> {
    if rs == [] then map[] else ById(rs[..|rs| - 1])[rs[|rs| - 1].id := rs[|rs| - 1]]
  }

  /** Every listed id is found, and what is found was listed under that id. */
  lemma {:induction false} ByIdMeaning(rs: seq<Resource>, id: string)
    ensures id in ById(rs) <==> exists k :: 0 <= k < |rs| && rs[k].id == id
    ensures id in ById(rs) ==> ById(rs)[id].id == id && ById(rs)[id] in rs
  {
    if rs != [] {
      var n := |rs| - 1;
      ByIdMeaning(rs[..n], id);
      if k :| 0 <= k < n && rs[..n][k].id == id {
        assert rs[k].id == id;
      }
      if k :| 0 <= k < |rs| && rs[k].id == id {
        assert k == n || rs[..n][k].id == id;
      }
    }
  }

  lemma ByIdStep(rs: seq<Resource>, r: Resource)
    ensures ById(rs + [r]) == ById(rs)[r.id := r]
  {
    assert (rs + [r])[..|rs|] == rs;
  }

  /** With distinct ids the lookup is exact. */
  lemma ByIdExact(rs: seq<Resource>, k: nat)
    requires k < |rs| && DistinctIds(rs)
    ensures rs[k].id in ById(rs) && ById(rs)[rs[k].id] == rs[k]
  {
    ByIdMeaning(rs, rs[k].id);
  }
}
