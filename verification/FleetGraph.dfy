/** What acceptance of a created team gives the caller: the installed graph is the
    requested graph. */
module FleetGraph {
  import opened FleetTypes
  import opened FleetBindings
  import opened FleetResult

  function NamesOf(kind: Kind, e: Expert): seq<string> {
    match kind
    case Skill => e.skillNames
    case Connector => e.connectorNames
  }

  function Defs(kind: Kind, def: Capability): seq<Definition> {
    match kind
    case Skill => def.skills
    case Connector => def.connectors
  }

  function Resources(kind: Kind, out: InstallResult): seq<Resource> {
    match kind
    case Skill => out.skills
    case Connector => out.connectors
  }

  predicate Plain(kind: Kind, wire: Wire) {
    kind == Skill && wire.legacySkills
  }

  /** The request asks expert `name` to use the resource `x`. */
  ghost predicate Requested(kind: Kind, def: Capability, wire: Wire, name: string, x: Identity) {
    exists j :: 0 <= j < |def.experts| && def.experts[j].name == name
                && x in WantedIdentities(NamesOf(kind, def.experts[j]), Defs(kind, def), Plain(kind, wire))
  }

  /** The result has expert `name` bound to a listed resource that is `x`. */
  ghost predicate Installed(kind: Kind, out: InstallResult, wire: Wire, name: string, x: Identity) {
    exists k, i :: 0 <= k < |out.experts| && out.experts[k].name == name
                   && 0 <= i < |Resources(kind, out)| && Resources(kind, out)[i].id in IdsOf(kind, out.experts[k])
                   && ResourceIdentity(Resources(kind, out)[i], Plain(kind, wire)) == x
  }

  ghost predicate AllCreated(def: Capability, out: InstallResult) {
    && def.experts != [] && def.team.Some? && out.team.Some? && out.team.value.created
    && forall k :: 0 <= k < |out.experts| ==> out.experts[k].created
  }

  /** The facts about one kind that the proofs below use. */
  lemma Parts(def: Capability, out: InstallResult, wire: Wire, kind: Kind)
    requires Acceptable(def, out, wire) && AllCreated(def, out)
    ensures Listed(kind, Resources(kind, out)) && BindsAll(kind, out.experts, ById(Resources(kind, out)))
    ensures Named(def.experts) && DistinctExpertNames(out.experts) && ExpertNames(out.experts) == Names(def.experts)
    ensures forall k, j :: 0 <= k < |out.experts| && 0 <= j < |def.experts| && out.experts[k].name == def.experts[j].name ==>
                             BindsWanted(kind, Plain(kind, wire), NamesOf(kind, def.experts[j]), Defs(kind, def), IdsOf(kind, out.experts[k]), ById(Resources(kind, out)))
  {
    hide Listed, BindsAll, BindsWanted, ById, Named, DistinctExpertNames, ExpertNames, Names, OneLeader, MemberNames, DistinctMembers;
  }

  lemma BoundIdentityIsListed(plain: bool, rs: seq<Resource>, ids: seq<string>, x: Identity) returns (i: nat)
    requires Resolved(ids, ById(rs)) && x in BoundIdentities(Bound(ids, ById(rs)), plain)
    ensures i < |rs| && rs[i].id in ids && ResourceIdentity(rs[i], plain) == x
  {
    var bound := Bound(ids, ById(rs));
    var b :| 0 <= b < |bound| && ResourceIdentity(bound[b], plain) == x;
    ByIdMeaning(rs, ids[b]);
    i :| 0 <= i < |rs| && rs[i] == bound[b];
  }

  lemma ListedIdentityIsBound(plain: bool, rs: seq<Resource>, ids: seq<string>, i: nat)
    requires Resolved(ids, ById(rs)) && DistinctIds(rs) && i < |rs| && rs[i].id in ids
    ensures ResourceIdentity(rs[i], plain) in BoundIdentities(Bound(ids, ById(rs)), plain)
  {
    var b :| 0 <= b < |ids| && ids[b] == rs[i].id;
    ByIdExact(rs, i);
    assert Bound(ids, ById(rs))[b] == rs[i];
  }

  lemma InstalledWasRequested(def: Capability, out: InstallResult, wire: Wire, kind: Kind, name: string, x: Identity)
    requires Acceptable(def, out, wire) && AllCreated(def, out) && Installed(kind, out, wire, name, x)
    ensures Requested(kind, def, wire, name, x)
  {
    hide Acceptable, AllCreated, BindsAll, ById, WantedIdentities, BoundIdentities, DistinctIdentities, MarketFits, DefinedOnce, DistinctExpertNames, Named;
    Parts(def, out, wire, kind);
    var plain, rs := Plain(kind, wire), Resources(kind, out);
    var k, i :| 0 <= k < |out.experts| && out.experts[k].name == name && 0 <= i < |rs|
                && rs[i].id in IdsOf(kind, out.experts[k]) && ResourceIdentity(rs[i], plain) == x;
    assert name in Names(def.experts);
    var j :| 0 <= j < |def.experts| && def.experts[j].name == name;
    ListedIdentityIsBound(plain, rs, IdsOf(kind, out.experts[k]), i);
  }

  lemma RequestedIsInstalled(def: Capability, out: InstallResult, wire: Wire, kind: Kind, name: string, x: Identity)
    requires Acceptable(def, out, wire) && AllCreated(def, out) && Requested(kind, def, wire, name, x)
    ensures Installed(kind, out, wire, name, x)
  {
    hide Acceptable, AllCreated, BindsAll, ById, WantedIdentities, BoundIdentities, DistinctIdentities, MarketFits, DefinedOnce, DistinctExpertNames, Named;
    Parts(def, out, wire, kind);
    var plain, rs := Plain(kind, wire), Resources(kind, out);
    var j :| 0 <= j < |def.experts| && def.experts[j].name == name && x in WantedIdentities(NamesOf(kind, def.experts[j]), Defs(kind, def), plain);
    assert name in ExpertNames(out.experts);
    var k :| 0 <= k < |out.experts| && out.experts[k].name == name;
    var i := BoundIdentityIsListed(plain, rs, IdsOf(kind, out.experts[k]), x);
  }

  /** The edges of the installed graph are exactly the edges of the request. */
  lemma EdgesAreThoseRequested(def: Capability, out: InstallResult, wire: Wire, kind: Kind, name: string, x: Identity)
    requires Acceptable(def, out, wire) && AllCreated(def, out)
    ensures Installed(kind, out, wire, name, x) <==> Requested(kind, def, wire, name, x)
  {
    hide *;
    if Installed(kind, out, wire, name, x) {
      InstalledWasRequested(def, out, wire, kind, name, x);
    }
    if Requested(kind, def, wire, name, x) {
      RequestedIsInstalled(def, out, wire, kind, name, x);
    }
  }

  /** Nothing is missing and nothing is extra: the listed resources are, by identity,
      those some requested expert asked for. */
  lemma ResourcesAreThoseRequested(def: Capability, out: InstallResult, wire: Wire, kind: Kind, x: Identity)
    requires Acceptable(def, out, wire) && AllCreated(def, out)
    ensures (exists i :: 0 <= i < |Resources(kind, out)| && ResourceIdentity(Resources(kind, out)[i], Plain(kind, wire)) == x)
       <==> (exists name :: Requested(kind, def, wire, name, x))
  {
    hide Acceptable, ById, BoundIds, Requested;
    var rs := Resources(kind, out);
    if i :| 0 <= i < |rs| && ResourceIdentity(rs[i], Plain(kind, wire)) == x {
      Parts(def, out, wire, kind);
      ByIdExact(rs, i);
      BoundIdsMeaning(kind, out.experts, rs[i].id);
      var k :| 0 <= k < |out.experts| && rs[i].id in IdsOf(kind, out.experts[k]);
      assert Installed(kind, out, wire, out.experts[k].name, x);
      EdgesAreThoseRequested(def, out, wire, kind, out.experts[k].name, x);
    }
    if name :| Requested(kind, def, wire, name, x) {
      EdgesAreThoseRequested(def, out, wire, kind, name, x);
    }
  }

  /** Every requested expert has exactly one returned expert of its name and exactly one
      member, and the leading member's expert is the reported leader. */
  lemma TeamIsABijection(def: Capability, out: InstallResult, wire: Wire, j: nat) returns (k: nat, m: nat)
    requires Acceptable(def, out, wire) && def.team.Some? && out.team.Some? && out.team.value.created
    requires j < |def.experts|
    ensures k < |out.experts| && out.experts[k].name == def.experts[j].name
    ensures forall k' :: 0 <= k' < |out.experts| && out.experts[k'].name == def.experts[j].name ==> k' == k
    ensures m < |def.team.value.members| && def.team.value.members[m].expertName == def.experts[j].name
    ensures forall m' :: 0 <= m' < |def.team.value.members| && def.team.value.members[m'].expertName == def.experts[j].name ==> m' == m
    ensures out.experts[k].id == out.leaderId <==> def.team.value.members[m].isLeader
  {
    hide Listed, BindsAll, Agrees, ById;
    var members := def.team.value.members;
    var name := def.experts[j].name;
    assert name in Names(def.experts);
    assert name in ExpertNames(out.experts) && name in MemberNames(members);
    k :| 0 <= k < |out.experts| && out.experts[k].name == name;
    m :| 0 <= m < |members| && members[m].expertName == name;
    var l :| OnlyLeader(members, l);
    assert members[l].expertName in MemberNames(members);
    var lead :| 0 <= lead < |out.experts| && out.experts[lead].name == members[l].expertName;
    assert out.experts[lead].id == out.leaderId;
    assert out.experts[k].id == out.leaderId ==> lead == k;
  }
}
