/** The bindings between the experts and the resources of a Fleet result:
    internal/fleet/capability.go:347-370, 485-557 and 598-610. */
module FleetBindings {
  import FiniteSets
  import opened FleetTypes

  // ------------------------------------------------------------ unique results

  /** Ids usable and distinct, names given. */
  ghost predicate Listed(kind: Kind, rs: seq<Resource>) {
    && DistinctIds(rs)
    && forall k :: 0 <= k < |rs| ==> UsableId(kind, rs[k].id) && rs[k].name != ""
  }

  lemma ListedStep(kind: Kind, rs: seq<Resource>, n: nat)
    requires n < |rs| && Listed(kind, rs[..n])
    ensures ById(rs[..n + 1]) == ById(rs[..n])[rs[n].id := rs[n]]
    ensures Listed(kind, rs[..n + 1]) <==> rs[n].id !in ById(rs[..n]) && UsableId(kind, rs[n].id) && rs[n].name != ""
    ensures Listed(kind, rs) ==> Listed(kind, rs[..n + 1])
  {
    hide UsableId, ById;
    ByIdMeaning(rs[..n], rs[n].id);
    ByIdStep(rs[..n], rs[n]);
    assert rs[..n + 1] == rs[..n] + [rs[n]];
    assert forall k :: 0 <= k < n ==> rs[..n + 1][k] == rs[..n][k];
    assert rs[..n + 1][n] == rs[n];
    if rs[n].id in ById(rs[..n]) {
      var k :| 0 <= k < n && rs[..n][k].id == rs[n].id;
      assert rs[..n + 1][k].id == rs[..n + 1][n].id;
    }
  }

  method IndexResources(kind: Kind, rs: seq<Resource>) returns (byId: map<string, Resource>, ok: bool)
    ensures ok <==> Listed(kind, rs)
    ensures ok ==> byId == ById(rs)
  {
    hide UsableId;
    byId := map[];
    for n := 0 to |rs|
      invariant Listed(kind, rs[..n])
      invariant byId == ById(rs[..n])
    {
      hide Listed, ById;
      ListedStep(kind, rs, n);
      if !UsableId(kind, rs[n].id) || rs[n].name == "" {
        return byId, false;
      }
      if rs[n].id in byId {
        return byId, false;
      }
      byId := byId[rs[n].id := rs[n]];
    }
    assert rs[..|rs|] == rs;
    ok := true;
  }

  // --------------------------------------------------------------- references

  ghost predicate Distinct(ids: seq<string>) {
    forall i, j :: 0 <= i < j < |ids| ==> ids[i] != ids[j]
  }

  ghost predicate Resolved(ids: seq<string>, byId: map<string, Resource>) {
    forall i :: 0 <= i < |ids| ==> ids[i] in byId
  }

  function IdsOf(kind: Kind, e: ExpertResult): seq<string> {
    match kind
    case Skill => e.skillIds
    case Connector => e.connectorIds
  }

  /** The ids bound by any of the experts. */
  ghost function BoundIds(kind: Kind, experts: seq<ExpertResult>): set<string> {
    if experts == [] then {} else BoundIds(kind, experts[..|experts| - 1]) + FiniteSets.Elements(IdsOf(kind, experts[|experts| - 1]))
  }

  lemma {:induction false} BoundIdsMeaning(kind: Kind, experts: seq<ExpertResult>, id: string)
    ensures id in BoundIds(kind, experts) <==> exists k :: 0 <= k < |experts| && id in IdsOf(kind, experts[k])
  {
    if experts != [] {
      var n := |experts| - 1;
      BoundIdsMeaning(kind, experts[..n], id);
      if k :| 0 <= k < n && id in IdsOf(kind, experts[..n][k]) {
        assert id in IdsOf(kind, experts[k]);
      }
      if k :| 0 <= k < |experts| && id in IdsOf(kind, experts[k]) {
        assert k == n || id in IdsOf(kind, experts[..n][k]);
      }
    }
  }

  /** Every binding resolves and no expert repeats one. */
  ghost predicate BindsWell(kind: Kind, experts: seq<ExpertResult>, byId: map<string, Resource>) {
    forall k :: 0 <= k < |experts| ==> Distinct(IdsOf(kind, experts[k])) && Resolved(IdsOf(kind, experts[k]), byId)
  }

  /** One expert's bindings. `refs` holds, per id, the number of the last expert that bound it. */
  method BindExpert(ids: seq<string>, byId: map<string, Resource>, refs: map<string, nat>, index: nat)
    returns (refs': map<string, nat>, ok: bool)
    requires forall id :: id in refs ==> refs[id] <= index
    ensures ok <==> Distinct(ids) && Resolved(ids, byId)
    ensures ok ==> refs'.Keys == refs.Keys + FiniteSets.Elements(ids) && forall id :: id in refs' ==> refs'[id] <= index + 1
  {
    refs' := refs;
    for n := 0 to |ids|
      invariant Distinct(ids[..n]) && Resolved(ids[..n], byId)
      invariant refs'.Keys == refs.Keys + FiniteSets.Elements(ids[..n])
      invariant forall id :: id in refs' ==> refs'[id] <= index + 1
      invariant forall id :: id in refs' ==> (refs'[id] == index + 1 <==> id in ids[..n])
    {
      assert ids[..n + 1] == ids[..n] + [ids[n]];
      if ids[n] !in byId || (ids[n] in refs' && refs'[ids[n]] == index + 1) {
        if ids[n] in byId {
          var i :| 0 <= i < n && ids[..n][i] == ids[n];
          assert ids[i] == ids[n];
        }
        return refs', false;
      }
      assert ids[n] !in ids[..n];
      refs' := refs'[ids[n] := index + 1];
    }
    assert ids[..|ids|] == ids;
    ok := true;
  }

  ghost predicate BindsAll(kind: Kind, experts: seq<ExpertResult>, byId: map<string, Resource>) {
    BindsWell(kind, experts, byId) && BoundIds(kind, experts) == byId.Keys
  }

  lemma BindsNone(kind: Kind, experts: seq<ExpertResult>, byId: map<string, Resource>)
    ensures BindsWell(kind, experts[..0], byId) && BoundIds(kind, experts[..0]) == {}
  {
  }

  lemma BindsWellStep(kind: Kind, experts: seq<ExpertResult>, n: nat, byId: map<string, Resource>)
    requires n < |experts| && BindsWell(kind, experts[..n], byId)
    ensures BindsWell(kind, experts[..n + 1], byId) <==>
              Distinct(IdsOf(kind, experts[n])) && Resolved(IdsOf(kind, experts[n]), byId)
    ensures !BindsWell(kind, experts[..n + 1], byId) ==> !BindsWell(kind, experts, byId)
    ensures BoundIds(kind, experts[..n + 1]) == BoundIds(kind, experts[..n]) + FiniteSets.Elements(IdsOf(kind, experts[n]))
  {
    hide Distinct, Resolved, FiniteSets.Elements;
    assert experts[..n + 1][..n] == experts[..n];
    assert forall k :: 0 <= k < n ==> experts[..n + 1][k] == experts[..n][k];
    assert experts[..n + 1][n] == experts[n];
    if !BindsWell(kind, experts[..n + 1], byId) {
      var k :| 0 <= k < n + 1 && !(Distinct(IdsOf(kind, experts[..n + 1][k])) && Resolved(IdsOf(kind, experts[..n + 1][k]), byId));
      assert experts[k] == experts[..n + 1][k];
    }
  }

  lemma {:induction false} BoundResolves(kind: Kind, experts: seq<ExpertResult>, byId: map<string, Resource>)
    requires BindsWell(kind, experts, byId)
    ensures BoundIds(kind, experts) <= byId.Keys
  {
    if experts != [] {
      var n := |experts| - 1;
      assert forall k :: 0 <= k < n ==> experts[..n][k] == experts[k];
      BoundResolves(kind, experts[..n], byId);
      assert Resolved(IdsOf(kind, experts[n]), byId);
    }
  }

  /** internal/fleet/capability.go:347-370 */
  method CheckReferences(experts: seq<ExpertResult>, skills: map<string, Resource>, connectors: map<string, Resource>) returns (ok: bool)
    ensures ok <==> BindsAll(Skill, experts, skills) && BindsAll(Connector, experts, connectors)
  {
    hide Distinct, Resolved, FiniteSets.Elements, BindsWell, BoundIds;
    var skillRefs: map<string, nat> := map[];
    var connectorRefs: map<string, nat> := map[];
    BindsNone(Skill, experts, skills);
    BindsNone(Connector, experts, connectors);
    for n := 0 to |experts|
      invariant BindsWell(Skill, experts[..n], skills) && BindsWell(Connector, experts[..n], connectors)
      invariant skillRefs.Keys == BoundIds(Skill, experts[..n])
      invariant connectorRefs.Keys == BoundIds(Connector, experts[..n])
      invariant forall id :: id in skillRefs ==> skillRefs[id] <= n
      invariant forall id :: id in connectorRefs ==> connectorRefs[id] <= n
    {
      BindsWellStep(Skill, experts, n, skills);
      BindsWellStep(Connector, experts, n, connectors);
      var good;
      skillRefs, good := BindExpert(experts[n].skillIds, skills, skillRefs, n);
      if !good {
        return false;
      }
      connectorRefs, good := BindExpert(experts[n].connectorIds, connectors, connectorRefs, n);
      if !good {
        return false;
      }
    }
    assert experts[..|experts|] == experts;
    BoundResolves(Skill, experts, skills);
    BoundResolves(Connector, experts, connectors);
    FiniteSets.Subset(skillRefs.Keys, skills.Keys);
    FiniteSets.Subset(connectorRefs.Keys, connectors.Keys);
    ok := |skillRefs| == |skills| && |connectorRefs| == |connectors|;
  }

  // --------------------------------------------------------- created bindings

  /** The one definition of this name. */
  ghost predicate Only(defs: seq<Definition>, name: string, k: int) {
    0 <= k < |defs| && defs[k].name == name && forall j :: 0 <= j < |defs| && defs[j].name == name ==> j == k
  }

  ghost predicate DefinedOnce(names: seq<string>, defs: seq<Definition>) {
    forall n :: n in names ==> exists k :: Only(defs, n, k)
  }

  ghost predicate Wanted(names: seq<string>, defs: seq<Definition>, k: int) {
    0 <= k < |defs| && defs[k].name in names
  }

  ghost function WantedIdentities(names: seq<string>, defs: seq<Definition>, plain: bool): set<Identity> {
    set k | 0 <= k < |defs| && Wanted(names, defs, k) :: DefinitionIdentity(defs[k], plain)
  }

  ghost function Bound(ids: seq<string>, byId: map<string, Resource>): (r: seq<Resource>)
    requires Resolved(ids, byId)
    ensures |r| == |ids|
  {
    seq(|ids|, i requires 0 <= i < |ids| => byId[ids[i]])
  }

  ghost function BoundIdentities(bound: seq<Resource>, plain: bool): set<Identity> {
    set i | 0 <= i < |bound| :: ResourceIdentity(bound[i], plain)
  }

  ghost predicate DistinctIdentities(bound: seq<Resource>, plain: bool) {
    forall i, j :: 0 <= i < j < |bound| ==> ResourceIdentity(bound[i], plain) != ResourceIdentity(bound[j], plain)
  }

  /** A resource made for this request points back to the market entry it was made from. */
  predicate MarketFits(kind: Kind, plain: bool, r: Resource, d: Definition) {
    plain || !r.created || SameMarket(kind, r.market, d.market)
  }

  /** A created expert binds exactly what was asked for: one resource per wanted
      definition, under the same identity and market entry. */
  ghost predicate BindsWanted(kind: Kind, plain: bool, names: seq<string>, defs: seq<Definition>, ids: seq<string>, byId: map<string, Resource>) {
    && DefinedOnce(names, defs)
    && Resolved(ids, byId)
    && var bound := Bound(ids, byId);
    && DistinctIdentities(bound, plain)
    && BoundIdentities(bound, plain) == WantedIdentities(names, defs, plain)
    && (forall i, k :: 0 <= i < |bound| && Wanted(names, defs, k) && ResourceIdentity(bound[i], plain) == DefinitionIdentity(defs[k], plain)
          ==> MarketFits(kind, plain, bound[i], defs[k]))
  }

  /** Inner loop of internal/fleet/capability.go:487-504: collect the definitions of one name. */
  method ExpectName(name: string, defs: seq<Definition>, plain: bool, expected: map<Identity, Definition>)
    returns (expected': map<Identity, Definition>, matches: nat)
    ensures matches == 1 <==> exists k :: Only(defs, name, k)
    ensures forall k :: Only(defs, name, k) ==> expected' == expected[DefinitionIdentity(defs[k], plain) := defs[k]]
  {
    matches := 0;
    expected' := expected;
    ghost var first, second := -1, -1;
    for n := 0 to |defs|
      invariant matches == 0 ==> expected' == expected && forall j :: 0 <= j < n ==> defs[j].name != name
      invariant matches == 1 ==> 0 <= first < n && Only(defs[..n], name, first)
      invariant matches == 1 ==> expected' == expected[DefinitionIdentity(defs[first], plain) := defs[first]]
      invariant matches > 1 ==> 0 <= first < second < n && defs[first].name == name && defs[second].name == name
    {
      if defs[n].name == name {
        if matches == 0 { first := n; } else if matches == 1 { second := n; }
        expected' := expected'[DefinitionIdentity(defs[n], plain) := defs[n]];
        matches := matches + 1;
      }
    }
    assert defs[..|defs|] == defs;
    if matches == 1 {
      assert Only(defs, name, first);
    }
  }

  /** What `expected` holds after some of the names. */
  ghost predicate Expects(expected: map<Identity, Definition>, names: seq<string>, defs: seq<Definition>, plain: bool) {
    && expected.Keys == WantedIdentities(names, defs, plain)
    && (forall k :: Wanted(names, defs, k) ==>
          DefinitionIdentity(defs[k], plain) in expected && expected[DefinitionIdentity(defs[k], plain)] == defs[k])
  }

  lemma ExpectsStep(expected: map<Identity, Definition>, names: seq<string>, name: string, defs: seq<Definition>, plain: bool, k: int)
    requires Expects(expected, names, defs, plain) && Only(defs, name, k)
    ensures Expects(expected[DefinitionIdentity(defs[k], plain) := defs[k]], names + [name], defs, plain)
  {
    var after := expected[DefinitionIdentity(defs[k], plain) := defs[k]];
    var all := names + [name];
    forall j | Wanted(all, defs, j)
      ensures DefinitionIdentity(defs[j], plain) in after && after[DefinitionIdentity(defs[j], plain)] == defs[j]
    {
      assert j == k || (Wanted(names, defs, j) && (defs[j].name == name ==> j == k));
    }
    forall x
      ensures x in after <==> x in WantedIdentities(all, defs, plain)
    {
      if x in after && x != DefinitionIdentity(defs[k], plain) {
        var j :| 0 <= j < |defs| && Wanted(names, defs, j) && DefinitionIdentity(defs[j], plain) == x;
        assert Wanted(all, defs, j);
      }
      assert Wanted(all, defs, k);
    }
  }

  method Expect(names: seq<string>, defs: seq<Definition>, plain: bool) returns (expected: map<Identity, Definition>, ok: bool)
    ensures ok <==> DefinedOnce(names, defs)
    ensures ok ==> Expects(expected, names, defs, plain)
  {
    hide Only;
    expected := map[];
    for n := 0 to |names|
      invariant DefinedOnce(names[..n], defs)
      invariant Expects(expected, names[..n], defs, plain)
    {
      hide Expects;
      assert names[..n + 1] == names[..n] + [names[n]];
      ghost var before := expected;
      var matches;
      expected, matches := ExpectName(names[n], defs, plain, expected);
      if matches != 1 {
        assert names[n] in names;
        return expected, false;
      }
      ghost var k :| Only(defs, names[n], k);
      ExpectsStep(before, names[..n], names[n], defs, plain, k);
    }
    assert names[..|names|] == names;
    ok := true;
  }

  /** What the second loop has found of the bound resources. */
  ghost predicate Fits(kind: Kind, plain: bool, bound: seq<Resource>, expected: map<Identity, Definition>) {
    && DistinctIdentities(bound, plain)
    && (forall i :: 0 <= i < |bound| ==>
          && ResourceIdentity(bound[i], plain) in expected
          && MarketFits(kind, plain, bound[i], expected[ResourceIdentity(bound[i], plain)]))
  }

  lemma FitsStep(kind: Kind, plain: bool, bound: seq<Resource>, r: Resource, expected: map<Identity, Definition>)
    requires Fits(kind, plain, bound, expected)
    ensures Fits(kind, plain, bound + [r], expected) <==>
              && ResourceIdentity(r, plain) !in BoundIdentities(bound, plain)
              && ResourceIdentity(r, plain) in expected
              && MarketFits(kind, plain, r, expected[ResourceIdentity(r, plain)])
    ensures BoundIdentities(bound + [r], plain) == BoundIdentities(bound, plain) + {ResourceIdentity(r, plain)}
  {
    var all := bound + [r];
    assert forall i :: 0 <= i < |bound| ==> all[i] == bound[i];
    assert all[|bound|] == r;
    forall x
      ensures x in BoundIdentities(all, plain) <==> x in BoundIdentities(bound, plain) || x == ResourceIdentity(r, plain)
    {
      if x in BoundIdentities(bound, plain) {
        var i :| 0 <= i < |bound| && ResourceIdentity(bound[i], plain) == x;
        assert ResourceIdentity(all[i], plain) == x;
      }
      if x == ResourceIdentity(r, plain) {
        assert ResourceIdentity(all[|bound|], plain) == x;
      }
    }
    if ResourceIdentity(r, plain) in BoundIdentities(bound, plain) {
      var i :| 0 <= i < |bound| && ResourceIdentity(bound[i], plain) == ResourceIdentity(r, plain);
      assert ResourceIdentity(all[i], plain) == ResourceIdentity(all[|bound|], plain);
    }
    if Fits(kind, plain, all, expected) {
      assert ResourceIdentity(all[|bound|], plain) in expected && MarketFits(kind, plain, all[|bound|], expected[ResourceIdentity(all[|bound|], plain)]);
    }
  }

  lemma FitsPrefix(kind: Kind, plain: bool, bound: seq<Resource>, n: nat, expected: map<Identity, Definition>)
    requires n <= |bound| && Fits(kind, plain, bound, expected)
    ensures Fits(kind, plain, bound[..n], expected)
  {
  }

  lemma FittingAreExpected(kind: Kind, plain: bool, bound: seq<Resource>, expected: map<Identity, Definition>)
    requires Fits(kind, plain, bound, expected)
    ensures BoundIdentities(bound, plain) <= expected.Keys
  {
  }

  /** Second loop of internal/fleet/capability.go:505-528 (skills) and 541-556 (connectors). */
  method MatchBound(kind: Kind, plain: bool, ids: seq<string>, byId: map<string, Resource>, expected: map<Identity, Definition>) returns (ok: bool)
    ensures ok <==> Resolved(ids, byId) && Fits(kind, plain, Bound(ids, byId), expected)
                    && BoundIdentities(Bound(ids, byId), plain) == expected.Keys
  {
    hide Fits, BoundIdentities, MarketFits, DistinctIdentities;
    var actual: set<Identity> := {};
    NothingFits(kind, plain, expected);
    assert Bound(ids[..0], byId) == [];
    for n := 0 to |ids|
      invariant Resolved(ids[..n], byId)
      invariant Fits(kind, plain, Bound(ids[..n], byId), expected)
      invariant actual == BoundIdentities(Bound(ids[..n], byId), plain)
    {
      if ids[n] !in byId {
        return false;
      }
      var r := byId[ids[n]];
      assert Resolved(ids[..n + 1], byId);
      assert Bound(ids[..n + 1], byId) == Bound(ids[..n], byId) + [r];
      FitsStep(kind, plain, Bound(ids[..n], byId), r, expected);
      if Resolved(ids, byId) && Fits(kind, plain, Bound(ids, byId), expected) {
        FitsPrefix(kind, plain, Bound(ids, byId), n + 1, expected);
        assert Bound(ids, byId)[..n + 1] == Bound(ids[..n + 1], byId);
      }
      if ResourceIdentity(r, plain) !in expected || ResourceIdentity(r, plain) in actual {
        return false;
      }
      if !MarketFits(kind, plain, r, expected[ResourceIdentity(r, plain)]) {
        return false;
      }
      actual := actual + {ResourceIdentity(r, plain)};
    }
    assert ids[..|ids|] == ids;
    FittingAreExpected(kind, plain, Bound(ids, byId), expected);
    FiniteSets.Subset(actual, expected.Keys);
    ok := |actual| == |expected|;
  }

  lemma NothingFits(kind: Kind, plain: bool, expected: map<Identity, Definition>)
    ensures Fits(kind, plain, [], expected) && BoundIdentities([], plain) == {}
  {
  }

  /** The intermediate map says no more than the definitions themselves. */
  lemma FitsMeansWanted(kind: Kind, plain: bool, names: seq<string>, defs: seq<Definition>, ids: seq<string>, byId: map<string, Resource>, expected: map<Identity, Definition>)
    requires DefinedOnce(names, defs) && Expects(expected, names, defs, plain) && Resolved(ids, byId)
    ensures BindsWanted(kind, plain, names, defs, ids, byId) <==>
              && Fits(kind, plain, Bound(ids, byId), expected)
              && BoundIdentities(Bound(ids, byId), plain) == expected.Keys
  {
    var bound := Bound(ids, byId);
    if BindsWanted(kind, plain, names, defs, ids, byId) {
      forall i | 0 <= i < |bound|
        ensures ResourceIdentity(bound[i], plain) in expected && MarketFits(kind, plain, bound[i], expected[ResourceIdentity(bound[i], plain)])
      {
        assert ResourceIdentity(bound[i], plain) in BoundIdentities(bound, plain);
        var k :| 0 <= k < |defs| && Wanted(names, defs, k) && DefinitionIdentity(defs[k], plain) == ResourceIdentity(bound[i], plain);
      }
    }
  }

  /** Both halves of internal/fleet/capability.go:485-557. */
  method CheckCreatedBindings(kind: Kind, plain: bool, names: seq<string>, defs: seq<Definition>, ids: seq<string>, byId: map<string, Resource>) returns (ok: bool)
    ensures ok <==> BindsWanted(kind, plain, names, defs, ids, byId)
  {
    hide Fits, Expects, BoundIdentities, DefinedOnce;
    var expected;
    expected, ok := Expect(names, defs, plain);
    if ok {
      ok := MatchBound(kind, plain, ids, byId, expected);
      if Resolved(ids, byId) {
        FitsMeansWanted(kind, plain, names, defs, ids, byId, expected);
      }
    }
  }
}
