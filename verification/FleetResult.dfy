/** The validator of a Fleet installation result, internal/fleet/capability.go:315-418,
    433-483 and 559-589: loops over maps on one side, a graph specification on the other. */
module FleetResult {
  import opened Options
  import FiniteSets
  import opened FleetTypes
  import opened FleetBindings

  // ------------------------------------------------------------ connectors only

  /** Definitions have names and distinct identities. */
  ghost predicate Catalogued(defs: seq<Definition>) {
    && (forall k :: 0 <= k < |defs| ==> defs[k].name != "")
    && (forall i, j :: 0 <= i < j < |defs| ==> DefinitionIdentity(defs[i], false) != DefinitionIdentity(defs[j], false))
  }

  ghost function Identities(defs: seq<Definition>): set<Identity> {
    set k | 0 <= k < |defs| :: DefinitionIdentity(defs[k], false)
  }

  ghost predicate ConnectorsOnlyShape(def: Capability, out: InstallResult) {
    && def.connectors != [] && |out.connectors| == |def.connectors| && def.skills == [] && def.team.None?
    && out.kind == "connectors" && out.expertId == "" && out.teamId == "" && out.leaderId == "" && out.team.None?
    && out.experts == [] && out.skills == []
  }

  /** Reported and requested connectors are in bijection by identity. */
  ghost predicate ConnectorsMatch(defs: seq<Definition>, rs: seq<Resource>) {
    && Catalogued(defs)
    && DistinctIdentities(rs, false)
    && BoundIdentities(rs, false) == Identities(defs)
    && (forall i, k :: 0 <= i < |rs| && 0 <= k < |defs| && ResourceIdentity(rs[i], false) == DefinitionIdentity(defs[k], false)
          ==> MarketFits(Connector, false, rs[i], defs[k]))
  }

  ghost predicate Catalog(expected: map<Identity, Definition>, defs: seq<Definition>) {
    && expected.Keys == Identities(defs)
    && forall k :: 0 <= k < |defs| ==>
         DefinitionIdentity(defs[k], false) in expected && expected[DefinitionIdentity(defs[k], false)] == defs[k]
  }

  lemma CatalogStep(expected: map<Identity, Definition>, defs: seq<Definition>, d: Definition)
    requires Catalogued(defs) && Catalog(expected, defs)
    ensures Catalogued(defs + [d]) <==> d.name != "" && DefinitionIdentity(d, false) !in expected
    ensures Catalogued(defs + [d]) ==> Catalog(expected[DefinitionIdentity(d, false) := d], defs + [d])
  {
    var all := defs + [d];
    var id := DefinitionIdentity(d, false);
    assert all[|defs|] == d && forall k :: 0 <= k < |defs| ==> all[k] == defs[k];
    if id in expected {
      var k :| 0 <= k < |defs| && DefinitionIdentity(defs[k], false) == id;
      assert DefinitionIdentity(all[k], false) == DefinitionIdentity(all[|defs|], false);
    } else if d.name != "" {
      forall x
        ensures x in expected[id := d] <==> x in Identities(all)
      {
        if x == id {
          assert DefinitionIdentity(all[|defs|], false) == x;
        } else if x in expected {
          var k :| 0 <= k < |defs| && DefinitionIdentity(defs[k], false) == x;
          assert DefinitionIdentity(all[k], false) == x;
        }
      }
    }
  }

  method IndexDefinitions(defs: seq<Definition>) returns (expected: map<Identity, Definition>, ok: bool)
    ensures ok <==> Catalogued(defs)
    ensures ok ==> Catalog(expected, defs)
  {
    expected := map[];
    for n := 0 to |defs|
      invariant Catalogued(defs[..n]) && Catalog(expected, defs[..n])
    {
      hide Catalog;
      assert defs[..n + 1] == defs[..n] + [defs[n]];
      CatalogStep(expected, defs[..n], defs[n]);
      if defs[n].name == "" {
        return expected, false;
      }
      if DefinitionIdentity(defs[n], false) in expected {
        assert !Catalogued(defs[..n + 1]);
        return expected, false;
      }
      expected := expected[DefinitionIdentity(defs[n], false) := defs[n]];
    }
    assert defs[..|defs|] == defs;
    ok := true;
  }

  lemma FitsMeansConnectorsMatch(defs: seq<Definition>, rs: seq<Resource>, expected: map<Identity, Definition>)
    requires Catalogued(defs) && Catalog(expected, defs)
    ensures ConnectorsMatch(defs, rs) <==> Fits(Connector, false, rs, expected) && BoundIdentities(rs, false) == expected.Keys
  {
    if ConnectorsMatch(defs, rs) {
      forall i | 0 <= i < |rs|
        ensures ResourceIdentity(rs[i], false) in expected && MarketFits(Connector, false, rs[i], expected[ResourceIdentity(rs[i], false)])
      {
        assert ResourceIdentity(rs[i], false) in BoundIdentities(rs, false);
        var k :| 0 <= k < |defs| && DefinitionIdentity(defs[k], false) == ResourceIdentity(rs[i], false);
      }
    }
  }

  /** The second loop of internal/fleet/capability.go:577-588, which crosses off what it meets. */
  method CrossOff(rs: seq<Resource>, expected: map<Identity, Definition>) returns (ok: bool)
    ensures ok <==> Fits(Connector, false, rs, expected) && BoundIdentities(rs, false) == expected.Keys
  {
    hide *;
    NothingFits(Connector, false, expected);
    var remaining := expected;
    ghost var met: set<Identity> := {};
    RemainingStart(expected);
    assert rs[..0] == [];
    for n := 0 to |rs|
      invariant Fits(Connector, false, rs[..n], expected)
      invariant met == BoundIdentities(rs[..n], false)
      invariant Remaining(remaining, expected, met)
    {
      var id := ResourceIdentity(rs[n], false);
      assert rs[..n + 1] == rs[..n] + [rs[n]];
      FitsStep(Connector, false, rs[..n], rs[n], expected);
      if Fits(Connector, false, rs, expected) {
        FitsPrefix(Connector, false, rs, n + 1, expected);
      }
      RemainingStep(remaining, expected, met, id);
      if id !in remaining {
        return false;
      }
      if !MarketFits(Connector, false, rs[n], remaining[id]) {
        return false;
      }
      remaining := remaining - {id};
      met := met + {id};
    }
    assert rs[..|rs|] == rs;
    FittingAreExpected(Connector, false, rs, expected);
    NothingRemains(remaining, expected, met);
    ok := |remaining| == 0;
  }

  ghost predicate Remaining(remaining: map<Identity, Definition>, expected: map<Identity, Definition>, met: set<Identity>) {
    remaining == expected - met
  }

  lemma RemainingStart(expected: map<Identity, Definition>)
    ensures Remaining(expected, expected, {})
  {
    assert expected - {} == expected;
  }

  lemma RemainingStep(remaining: map<Identity, Definition>, expected: map<Identity, Definition>, met: set<Identity>, id: Identity)
    requires Remaining(remaining, expected, met)
    ensures id in remaining <==> id in expected && id !in met
    ensures id in remaining ==> remaining[id] == expected[id]
    ensures Remaining(remaining - {id}, expected, met + {id})
  {
  }

  lemma NothingRemains(remaining: map<Identity, Definition>, expected: map<Identity, Definition>, met: set<Identity>)
    requires met <= expected.Keys && Remaining(remaining, expected, met)
    ensures |remaining| == 0 <==> met == expected.Keys
  {
    if met != expected.Keys {
      assert exists x :: x in expected.Keys && x !in met;
      var x :| x in expected.Keys && x !in met;
      assert x in remaining.Keys;
    } else {
      assert remaining.Keys == {};
    }
  }

  /** internal/fleet/capability.go:559-589 */
  method CheckConnectorsOnly(def: Capability, out: InstallResult) returns (ok: bool)
    ensures ok <==> ConnectorsOnlyShape(def, out) && ConnectorsMatch(def.connectors, out.connectors)
  {
    hide Fits, Catalog, BoundIdentities, MarketFits, Identities;
    if def.connectors == [] || |out.connectors| != |def.connectors| || def.skills != [] || def.team.Some?
       || out.kind != "connectors" || out.expertId != "" || out.teamId != "" || out.leaderId != "" || out.team.Some?
       || out.experts != [] || out.skills != []
    {
      return false;
    }
    var expected;
    expected, ok := IndexDefinitions(def.connectors);
    if ok {
      FitsMeansConnectorsMatch(def.connectors, out.connectors, expected);
      ok := CrossOff(out.connectors, expected);
    }
  }

  // ---------------------------------------------------------------- team graph

  ghost predicate Named(experts: seq<Expert>) {
    && (forall k :: 0 <= k < |experts| ==> experts[k].name != "")
    && (forall i, j :: 0 <= i < j < |experts| ==> experts[i].name != experts[j].name)
  }

  ghost function Names(experts: seq<Expert>): set<string> {
    set k | 0 <= k < |experts| :: experts[k].name
  }

  /** `byName` is the request's expert list by name. */
  ghost predicate ByName(byName: map<string, Expert>, experts: seq<Expert>) {
    && byName.Keys == Names(experts)
    && forall k :: 0 <= k < |experts| ==> experts[k].name in byName && byName[experts[k].name] == experts[k]
  }

  lemma NamedStep(byName: map<string, Expert>, experts: seq<Expert>, e: Expert)
    requires Named(experts) && ByName(byName, experts)
    ensures Named(experts + [e]) <==> e.name != "" && e.name !in byName
    ensures Named(experts + [e]) ==> ByName(byName[e.name := e], experts + [e])
  {
    var all := experts + [e];
    assert all[|experts|] == e && forall k :: 0 <= k < |experts| ==> all[k] == experts[k];
    if e.name in byName {
      var k :| 0 <= k < |experts| && experts[k].name == e.name;
      assert all[k].name == all[|experts|].name;
    } else if e.name != "" {
      forall x
        ensures x in byName[e.name := e] <==> x in Names(all)
      {
        if x == e.name {
          assert all[|experts|].name == x;
        } else if x in byName {
          var k :| 0 <= k < |experts| && experts[k].name == x;
          assert all[k].name == x;
        }
      }
    }
  }

  method IndexWanted(experts: seq<Expert>) returns (wanted: map<string, Expert>, ok: bool)
    ensures ok <==> Named(experts)
    ensures ok ==> ByName(wanted, experts)
  {
    wanted := map[];
    for n := 0 to |experts|
      invariant Named(experts[..n]) && ByName(wanted, experts[..n])
    {
      hide ByName;
      assert experts[..n + 1] == experts[..n] + [experts[n]];
      NamedStep(wanted, experts[..n], experts[n]);
      if experts[n].name == "" {
        return wanted, false;
      }
      if experts[n].name in wanted {
        assert !Named(experts[..n + 1]);
        return wanted, false;
      }
      wanted := wanted[experts[n].name := experts[n]];
    }
    assert experts[..|experts|] == experts;
    ok := true;
  }

  ghost predicate DistinctMembers(members: seq<Member>) {
    forall i, j :: 0 <= i < j < |members| ==> members[i].expertName != members[j].expertName
  }

  ghost function MemberNames(members: seq<Member>): set<string> {
    set k | 0 <= k < |members| :: members[k].expertName
  }

  /** Exactly one member leads. */
  ghost predicate OneLeader(members: seq<Member>) {
    exists m :: OnlyLeader(members, m)
  }

  ghost predicate Leads(leaders: map<string, bool>, members: seq<Member>) {
    && leaders.Keys == MemberNames(members)
    && forall k :: 0 <= k < |members| ==> members[k].expertName in leaders && leaders[members[k].expertName] == members[k].isLeader
  }

  function LeaderCount(members: seq<Member>): nat {
    if members == [] then 0
    else LeaderCount(members[..|members| - 1]) + if members[|members| - 1].isLeader then 1 else 0
  }

  lemma {:induction false} NoLeader(members: seq<Member>)
    ensures LeaderCount(members) == 0 <==> forall k :: 0 <= k < |members| ==> !members[k].isLeader
  {
    if members != [] {
      var n := |members| - 1;
      NoLeader(members[..n]);
      assert forall k :: 0 <= k < n ==> members[..n][k] == members[k];
    }
  }

  ghost predicate OnlyLeader(members: seq<Member>, m: int) {
    0 <= m < |members| && members[m].isLeader && forall k :: 0 <= k < |members| && members[k].isLeader ==> k == m
  }

  lemma LeaderLast(members: seq<Member>, last: Member)
    requires last.isLeader
    ensures OneLeader(members + [last]) <==> LeaderCount(members) == 0
  {
    NoLeader(members);
    var all := members + [last];
    assert all[|members|] == last && forall k :: 0 <= k < |members| ==> all[k] == members[k];
    if LeaderCount(members) == 0 {
      assert OnlyLeader(all, |members|);
    }
  }

  lemma LeaderNotLast(members: seq<Member>, last: Member)
    requires !last.isLeader
    ensures OneLeader(members + [last]) <==> OneLeader(members)
  {
    var all := members + [last];
    assert all[|members|] == last && forall k :: 0 <= k < |members| ==> all[k] == members[k];
    if m :| OnlyLeader(members, m) {
      assert OnlyLeader(all, m);
    }
    if m :| OnlyLeader(all, m) {
      assert OnlyLeader(members, m);
    }
  }

  lemma {:induction false} OneLeaderCounts(members: seq<Member>)
    ensures LeaderCount(members) == 1 <==> OneLeader(members)
  {
    hide OneLeader;
    if members == [] {
      NobodyLeads();
    } else {
      var n := |members| - 1;
      OneLeaderCounts(members[..n]);
      assert members == members[..n] + [members[n]];
      if members[n].isLeader {
        LeaderLast(members[..n], members[n]);
      } else {
        LeaderNotLast(members[..n], members[n]);
      }
    }
  }

  lemma NobodyLeads()
    ensures !OneLeader([])
  {
  }

  lemma LeadsStep(leaders: map<string, bool>, members: seq<Member>, m: Member)
    requires DistinctMembers(members) && Leads(leaders, members)
    ensures DistinctMembers(members + [m]) <==> m.expertName !in leaders
    ensures m.expertName !in leaders ==> Leads(leaders[m.expertName := m.isLeader], members + [m])
    ensures LeaderCount(members + [m]) == LeaderCount(members) + if m.isLeader then 1 else 0
  {
    var all := members + [m];
    assert all[..|members|] == members;
    assert all[|members|] == m && forall k :: 0 <= k < |members| ==> all[k] == members[k];
    if m.expertName in leaders {
      var k :| 0 <= k < |members| && members[k].expertName == m.expertName;
      assert all[k].expertName == all[|members|].expertName;
    } else {
      forall x
        ensures x in leaders[m.expertName := m.isLeader] <==> x in MemberNames(all)
      {
        if x == m.expertName {
          assert all[|members|].expertName == x;
        } else if x in leaders {
          var k :| 0 <= k < |members| && members[k].expertName == x;
          assert all[k].expertName == x;
        }
      }
    }
  }

  /** internal/fleet/capability.go:448-463 */
  method CheckMembers(members: seq<Member>, wanted: set<string>) returns (leaders: map<string, bool>, ok: bool)
    ensures ok <==> DistinctMembers(members) && MemberNames(members) == wanted && OneLeader(members)
    ensures ok ==> Leads(leaders, members)
  {
    leaders := map[];
    var leaderCount := 0;
    for n := 0 to |members|
      invariant DistinctMembers(members[..n]) && Leads(leaders, members[..n])
      invariant leaders.Keys <= wanted
      invariant leaderCount == LeaderCount(members[..n])
    {
      hide Leads, LeaderCount;
      assert members[..n + 1] == members[..n] + [members[n]];
      LeadsStep(leaders, members[..n], members[n]);
      if members[n].expertName !in wanted {
        assert members[n].expertName in MemberNames(members);
        return leaders, false;
      }
      if members[n].expertName in leaders {
        assert !DistinctMembers(members[..n + 1]);
        return leaders, false;
      }
      leaders := leaders[members[n].expertName := members[n].isLeader];
      if members[n].isLeader {
        leaderCount := leaderCount + 1;
      }
    }
    assert members[..|members|] == members;
    FiniteSets.Subset(leaders.Keys, wanted);
    OneLeaderCounts(members);
    ok := |leaders| == |wanted| && leaderCount == 1;
  }

  /** What a returned expert must share with the one asked for, given equal names. */
  ghost predicate Agrees(def: Capability, wanted: Expert, actual: ExpertResult, skills: map<string, Resource>, connectors: map<string, Resource>, wire: Wire) {
    && (wire.legacyExperts || actual.version == wanted.version)
    && (actual.created ==>
          && (wire.legacyExperts || actual.market == wanted.market)
          && BindsWanted(Skill, wire.legacySkills, wanted.skillNames, def.skills, actual.skillIds, skills)
          && BindsWanted(Connector, false, wanted.connectorNames, def.connectors, actual.connectorIds, connectors))
  }

  method CheckAgrees(def: Capability, wanted: Expert, actual: ExpertResult, skills: map<string, Resource>, connectors: map<string, Resource>, wire: Wire)
    returns (ok: bool)
    ensures ok <==> Agrees(def, wanted, actual, skills, connectors, wire)
  {
    hide BindsWanted;
    if !wire.legacyExperts && actual.version != wanted.version {
      return false;
    }
    if actual.created {
      if !wire.legacyExperts && actual.market != wanted.market {
        return false;
      }
      ok := CheckCreatedBindings(Skill, wire.legacySkills, wanted.skillNames, def.skills, actual.skillIds, skills);
      if !ok {
        return false;
      }
      ok := CheckCreatedBindings(Connector, false, wanted.connectorNames, def.connectors, actual.connectorIds, connectors);
      return ok;
    }
    ok := true;
  }

  ghost predicate DistinctExpertNames(experts: seq<ExpertResult>) {
    forall i, j :: 0 <= i < j < |experts| ==> experts[i].name != experts[j].name
  }

  ghost function ExpertNames(experts: seq<ExpertResult>): set<string> {
    set k | 0 <= k < |experts| :: experts[k].name
  }

  /** Returned experts, requested experts and members are in bijection by name; each
      pair of experts agrees; the one leading member's expert is the reported leader. */
  ghost predicate TeamGraph(def: Capability, members: seq<Member>, out: InstallResult, skills: map<string, Resource>, connectors: map<string, Resource>, wire: Wire) {
    && |out.experts| == |def.experts|
    && Named(def.experts)
    && DistinctMembers(members) && MemberNames(members) == Names(def.experts)
    && DistinctExpertNames(out.experts) && ExpertNames(out.experts) == Names(def.experts)
    && OneLeader(members)
    && (forall k, m :: 0 <= k < |out.experts| && 0 <= m < |members| && members[m].isLeader && out.experts[k].name == members[m].expertName
          ==> out.experts[k].id == out.leaderId)
    && (forall k, j :: 0 <= k < |out.experts| && 0 <= j < |def.experts| && out.experts[k].name == def.experts[j].name
          ==> Agrees(def, def.experts[j], out.experts[k], skills, connectors, wire))
  }

  /** The experts met so far: distinct, wanted, and in agreement. */
  ghost predicate MetWell(def: Capability, wanted: map<string, Expert>, experts: seq<ExpertResult>, skills: map<string, Resource>, connectors: map<string, Resource>, wire: Wire) {
    && DistinctExpertNames(experts)
    && ExpertNames(experts) <= wanted.Keys
    && forall k :: 0 <= k < |experts| ==> experts[k].name in wanted && Agrees(def, wanted[experts[k].name], experts[k], skills, connectors, wire)
  }

  lemma MetStep(def: Capability, wanted: map<string, Expert>, experts: seq<ExpertResult>, n: nat, skills: map<string, Resource>, connectors: map<string, Resource>, wire: Wire)
    requires n < |experts| && MetWell(def, wanted, experts[..n], skills, connectors, wire)
    ensures MetWell(def, wanted, experts[..n + 1], skills, connectors, wire) <==>
              && experts[n].name in wanted && experts[n].name !in ExpertNames(experts[..n])
              && Agrees(def, wanted[experts[n].name], experts[n], skills, connectors, wire)
    ensures ExpertNames(experts[..n + 1]) == ExpertNames(experts[..n]) + {experts[n].name}
    ensures MetWell(def, wanted, experts, skills, connectors, wire) ==> MetWell(def, wanted, experts[..n + 1], skills, connectors, wire)
  {
    hide Agrees;
    var before, after := experts[..n], experts[..n + 1];
    assert after[n] == experts[n] && forall k :: 0 <= k < n ==> after[k] == before[k] == experts[k];
    forall x
      ensures x in ExpertNames(after) <==> x in ExpertNames(before) || x == experts[n].name
    {
      if x in ExpertNames(before) {
        var k :| 0 <= k < n && before[k].name == x;
        assert after[k].name == x;
      }
      assert after[n].name in ExpertNames(after);
    }
    if experts[n].name in ExpertNames(before) {
      var k :| 0 <= k < n && before[k].name == experts[n].name;
      assert after[k].name == after[n].name;
    }
    if MetWell(def, wanted, experts, skills, connectors, wire) {
      forall x | x in ExpertNames(after)
        ensures x in wanted
      {
        var k :| 0 <= k < n + 1 && after[k].name == x;
        assert experts[k].name in wanted;
      }
    }
  }

  /** The leader found in the experts met so far. */
  ghost predicate LeaderSeen(leaders: map<string, bool>, experts: seq<ExpertResult>, leaderId: string) {
    forall k :: 0 <= k < |experts| && experts[k].name in leaders && leaders[experts[k].name] ==> experts[k].id == leaderId
  }

  ghost predicate AtMostOne(leaders: map<string, bool>) {
    forall x, y :: x in leaders && y in leaders && leaders[x] && leaders[y] ==> x == y
  }

  lemma LeaderStep(leaders: map<string, bool>, experts: seq<ExpertResult>, n: nat, leaderId: string)
    requires n < |experts| && AtMostOne(leaders) && DistinctExpertNames(experts[..n + 1])
    requires LeaderSeen(leaders, experts[..n], leaderId)
    ensures experts[n].name in leaders && leaders[experts[n].name] ==> LeaderSeen(leaders, experts[..n + 1], experts[n].id)
    ensures !(experts[n].name in leaders && leaders[experts[n].name]) ==> LeaderSeen(leaders, experts[..n + 1], leaderId)
  {
    var before, after := experts[..n], experts[..n + 1];
    assert after[n] == experts[n] && forall k :: 0 <= k < n ==> after[k] == before[k];
    if experts[n].name in leaders && leaders[experts[n].name] {
      forall k | 0 <= k < n + 1 && after[k].name in leaders && leaders[after[k].name]
        ensures after[k].id == experts[n].id
      {
        assert after[k].name == after[n].name;
      }
    }
  }

  /** The last loop of internal/fleet/capability.go:464-482: crosses off the names it meets. */
  method MeetExperts(def: Capability, wanted: map<string, Expert>, leaders: map<string, bool>, experts: seq<ExpertResult>,
                     skills: map<string, Resource>, connectors: map<string, Resource>, wire: Wire)
    returns (leaderId: string, ok: bool)
    requires AtMostOne(leaders)
    ensures ok <==> MetWell(def, wanted, experts, skills, connectors, wire) && ExpertNames(experts) == wanted.Keys
    ensures ok ==> LeaderSeen(leaders, experts, leaderId)
  {
    hide Agrees, MetWell, AtMostOne, LeaderSeen, ExpertNames;
    leaderId := "";
    var remaining := wanted;
    MetNothing(def, wanted, leaders, experts, skills, connectors, wire, leaderId);
    for n := 0 to |experts|
      invariant MetWell(def, wanted, experts[..n], skills, connectors, wire)
      invariant remaining == wanted - ExpertNames(experts[..n])
      invariant LeaderSeen(leaders, experts[..n], leaderId)
    {
      MetStep(def, wanted, experts, n, skills, connectors, wire);
      var actual := experts[n];
      if actual.name !in remaining {
        return leaderId, false;
      }
      var good := CheckAgrees(def, remaining[actual.name], actual, skills, connectors, wire);
      if !good {
        return leaderId, false;
      }
      MetDistinct(def, wanted, experts[..n + 1], skills, connectors, wire);
      LeaderStep(leaders, experts, n, leaderId);
      if actual.name in leaders && leaders[actual.name] {
        leaderId := actual.id;
      }
      remaining := remaining - {actual.name};
    }
    assert experts[..|experts|] == experts;
    MetDistinct(def, wanted, experts, skills, connectors, wire);
    ok := |remaining| == 0;
    if ok {
      assert forall x :: x in wanted ==> x !in remaining.Keys;
    } else {
      assert remaining.Keys != {};
      var x :| x in remaining.Keys;
    }
  }

  lemma MetNothing(def: Capability, wanted: map<string, Expert>, leaders: map<string, bool>, experts: seq<ExpertResult>, skills: map<string, Resource>, connectors: map<string, Resource>, wire: Wire, leaderId: string)
    ensures MetWell(def, wanted, experts[..0], skills, connectors, wire)
    ensures ExpertNames(experts[..0]) == {} && LeaderSeen(leaders, experts[..0], leaderId)
  {
  }

  lemma MetDistinct(def: Capability, wanted: map<string, Expert>, experts: seq<ExpertResult>, skills: map<string, Resource>, connectors: map<string, Resource>, wire: Wire)
    requires MetWell(def, wanted, experts, skills, connectors, wire)
    ensures DistinctExpertNames(experts) && ExpertNames(experts) <= wanted.Keys
  {
  }

  lemma LeadersUnique(leaders: map<string, bool>, members: seq<Member>)
    requires Leads(leaders, members) && OneLeader(members)
    ensures AtMostOne(leaders)
  {
    forall x, y | x in leaders && y in leaders && leaders[x] && leaders[y]
      ensures x == y
    {
      var i :| 0 <= i < |members| && members[i].expertName == x;
      var j :| 0 <= j < |members| && members[j].expertName == y;
      assert members[i].isLeader && members[j].isLeader;
    }
  }

  /** Crossing off names is a bijection with the request. */
  lemma MetMeansGraph(def: Capability, members: seq<Member>, out: InstallResult, skills: map<string, Resource>, connectors: map<string, Resource>, wire: Wire, wanted: map<string, Expert>)
    requires |out.experts| == |def.experts| && Named(def.experts) && ByName(wanted, def.experts)
    requires DistinctMembers(members) && MemberNames(members) == wanted.Keys && OneLeader(members)
    ensures TeamGraph(def, members, out, skills, connectors, wire) <==>
              && MetWell(def, wanted, out.experts, skills, connectors, wire)
              && ExpertNames(out.experts) == wanted.Keys
              && (forall k, m :: 0 <= k < |out.experts| && 0 <= m < |members| && members[m].isLeader && out.experts[k].name == members[m].expertName
                    ==> out.experts[k].id == out.leaderId)
  {
    hide Agrees, DistinctMembers, MemberNames, OneLeader;
    if ExpertNames(out.experts) == wanted.Keys {
      forall k | 0 <= k < |out.experts|
        ensures exists j :: 0 <= j < |def.experts| && def.experts[j].name == out.experts[k].name
      {
        assert out.experts[k].name in ExpertNames(out.experts);
      }
    }
  }

  lemma LeaderIsReported(members: seq<Member>, leaders: map<string, bool>, experts: seq<ExpertResult>, leaderId: string, reported: string)
    requires Leads(leaders, members) && LeaderSeen(leaders, experts, leaderId)
    requires ExpertNames(experts) == MemberNames(members) && OneLeader(members)
    ensures leaderId == reported <==>
              forall k, m :: 0 <= k < |experts| && 0 <= m < |members| && members[m].isLeader && experts[k].name == members[m].expertName
                ==> experts[k].id == reported
  {
    var m :| OnlyLeader(members, m);
    assert members[m].expertName in MemberNames(members);
    var k :| 0 <= k < |experts| && experts[k].name == members[m].expertName;
    assert experts[k].id == leaderId;
  }

  /** internal/fleet/capability.go:433-483 */
  method CheckTeamGraph(def: Capability, members: seq<Member>, out: InstallResult, skills: map<string, Resource>, connectors: map<string, Resource>, wire: Wire) returns (ok: bool)
    ensures ok <==> TeamGraph(def, members, out, skills, connectors, wire)
  {
    hide Agrees, MetWell, ExpertNames, LeaderSeen, OneLeader, DistinctMembers, MemberNames, DistinctExpertNames, Leads;
    if |out.experts| != |def.experts| {
      return false;
    }
    var wanted;
    wanted, ok := IndexWanted(def.experts);
    if !ok {
      return false;
    }
    var leaders;
    leaders, ok := CheckMembers(members, wanted.Keys);
    if !ok {
      return false;
    }
    LeadersUnique(leaders, members);
    MetMeansGraph(def, members, out, skills, connectors, wire, wanted);
    var leaderId;
    leaderId, ok := MeetExperts(def, wanted, leaders, out.experts, skills, connectors, wire);
    if ok {
      LeaderIsReported(members, leaders, out.experts, leaderId, out.leaderId);
      ok := leaderId == out.leaderId;
    }
  }

  // -------------------------------------------------------------- whole result

  ghost predicate ExpertsListed(experts: seq<ExpertResult>) {
    && (forall k :: 0 <= k < |experts| ==> experts[k].id != "" && experts[k].name != "")
    && (forall i, j :: 0 <= i < j < |experts| ==> experts[i].id != experts[j].id)
  }

  method CheckExperts(experts: seq<ExpertResult>) returns (ids: set<string>, ok: bool)
    ensures ok <==> ExpertsListed(experts)
    ensures ok ==> ids == set k | 0 <= k < |experts| :: experts[k].id
  {
    ids := {};
    for n := 0 to |experts|
      invariant ExpertsListed(experts[..n])
      invariant ids == set k | 0 <= k < n :: experts[k].id
    {
      if experts[n].id == "" || experts[n].name == "" || experts[n].id in ids {
        return ids, false;
      }
      ids := ids + {experts[n].id};
    }
    ok := true;
  }

  ghost predicate SingleExpert(def: Capability, out: InstallResult, wire: Wire) {
    && out.kind == "expert" && |def.experts| == 1 && |out.experts| == 1 && out.expertId != ""
    && out.teamId == "" && out.leaderId == "" && out.team.None?
    && out.experts[0].id == out.expertId && out.experts[0].name == def.experts[0].name
    && Agrees(def, def.experts[0], out.experts[0], ById(out.skills), ById(out.connectors), wire)
  }

  ghost predicate LeaderListed(out: InstallResult) {
    && (exists k :: 0 <= k < |out.experts| && out.experts[k].id == out.leaderId)
    && (forall k :: 0 <= k < |out.experts| && out.experts[k].isLeader ==> out.experts[k].id == out.leaderId)
  }

  predicate TeamAgrees(wanted: Team, out: InstallResult, wire: Wire) {
    match out.team
    case None => wire.legacyExperts || wanted.version.None?
    case Some(team) =>
      && team.id == out.teamId && team.name == wanted.name
      && (wire.legacyExperts || team.version == wanted.version)
      && (wire.legacyExperts || !team.created || team.market == wanted.market)
  }

  ghost predicate ExpertTeam(def: Capability, wanted: Team, out: InstallResult, wire: Wire) {
    && out.kind == "expert_team" && out.teamId != "" && out.expertId == "" && out.leaderId != ""
    && LeaderListed(out)
    && TeamAgrees(wanted, out, wire)
    && (out.team.Some? && out.team.value.created ==>
          TeamGraph(def, wanted.members, out, ById(out.skills), ById(out.connectors), wire))
  }

  /** What a result must be: nothing listed twice, every binding resolves, nothing
      listed is unbound, and what was created is what was asked for. */
  ghost predicate Acceptable(def: Capability, out: InstallResult, wire: Wire) {
    && Listed(Connector, out.connectors)
    && if def.experts == [] then ConnectorsOnlyShape(def, out) && ConnectorsMatch(def.connectors, out.connectors)
       else
         && out.experts != [] && ExpertsListed(out.experts) && Listed(Skill, out.skills)
         && BindsAll(Skill, out.experts, ById(out.skills))
         && BindsAll(Connector, out.experts, ById(out.connectors))
         && match def.team
            case None => SingleExpert(def, out, wire)
            case Some(team) => ExpertTeam(def, team, out, wire)
  }

  /** internal/fleet/capability.go:371-390; `ids` are the ids of the listed experts. */
  method CheckSingle(def: Capability, out: InstallResult, skills: map<string, Resource>, connectors: map<string, Resource>, wire: Wire, ids: set<string>)
    returns (ok: bool)
    requires skills == ById(out.skills) && connectors == ById(out.connectors)
    requires ids == set k | 0 <= k < |out.experts| :: out.experts[k].id
    ensures ok <==> SingleExpert(def, out, wire)
  {
    hide Agrees, ById;
    if out.kind != "expert" || |def.experts| != 1 || |out.experts| != 1 || out.expertId == ""
       || out.teamId != "" || out.leaderId != "" || out.team.Some?
    {
      return false;
    }
    if out.expertId !in ids || out.experts[0].name != def.experts[0].name {
      return false;
    }
    ok := CheckAgrees(def, def.experts[0], out.experts[0], skills, connectors, wire);
  }

  /** internal/fleet/capability.go:392-417 */
  method CheckTeam(def: Capability, wanted: Team, out: InstallResult, skills: map<string, Resource>, connectors: map<string, Resource>, wire: Wire, ids: set<string>)
    returns (ok: bool)
    requires skills == ById(out.skills) && connectors == ById(out.connectors)
    requires ids == set k | 0 <= k < |out.experts| :: out.experts[k].id
    ensures ok <==> ExpertTeam(def, wanted, out, wire)
  {
    hide TeamGraph, ById;
    if out.kind != "expert_team" || out.teamId == "" || out.expertId != "" || out.leaderId == "" {
      return false;
    }
    if out.leaderId !in ids {
      return false;
    }
    for n := 0 to |out.experts|
      invariant forall k :: 0 <= k < n && out.experts[k].isLeader ==> out.experts[k].id == out.leaderId
    {
      if out.experts[n].isLeader && out.experts[n].id != out.leaderId {
        return false;
      }
    }
    if !TeamAgrees(wanted, out, wire) {
      return false;
    }
    if out.team.Some? && out.team.value.created {
      ok := CheckTeamGraph(def, wanted.members, out, skills, connectors, wire);
      return ok;
    }
    ok := true;
  }

  /** internal/fleet/capability.go:315-418 */
  method ValidCapabilityResult(def: Capability, out: InstallResult, wire: Wire) returns (ok: bool)
    ensures ok <==> Acceptable(def, out, wire)
  {
    hide ById, Listed, ExpertsListed, BindsAll, SingleExpert, ExpertTeam, ConnectorsOnlyShape, ConnectorsMatch;
    var connectors;
    connectors, ok := IndexResources(Connector, out.connectors);
    if !ok {
      return false;
    }
    if def.experts == [] {
      ok := CheckConnectorsOnly(def, out);
      return ok;
    }
    if out.experts == [] {
      return false;
    }
    var ids;
    ids, ok := CheckExperts(out.experts);
    if !ok {
      return false;
    }
    var skills;
    skills, ok := IndexResources(Skill, out.skills);
    if !ok {
      return false;
    }
    ok := CheckReferences(out.experts, skills, connectors);
    if !ok {
      return false;
    }
    match def.team
    case None =>
      ok := CheckSingle(def, out, skills, connectors, wire, ids);
    case Some(team) =>
      ok := CheckTeam(def, team, out, skills, connectors, wire, ids);
  }
}
