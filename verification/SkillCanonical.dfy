/** Choosing the canonical skill of every group, internal/migration/plan.go:151-210. */
module SkillCanonical {
  import opened Options
  import FiniteSets
  import opened Tables
  import opened PlannerTypes

  datatype SkillKey = SkillKey(scope: Scope, name: string, variant: Option<string>)

  predicate Variant(name: string) {
    name == "fullstack-dev" || name == "wechat-article-search" || name == "online-search"
  }

  function KeyOf(o: Oracles, r: Resource): SkillKey {
    var name := Normalized(o, r.plugin.name);
    SkillKey(ScopeOf(r.plugin), name, if Variant(name) then Some(o.skillContent(r.plugin)) else None)
  }

  predicate GroupedSkill(r: Resource) {
    Active(r) && r.plugin.kind == Skill
  }

  // --------------------------------------------------------------- groups

  /** `groups` holds the active skills among `ids`, by key. */
  ghost predicate Grouped(o: Oracles, i: Input, ids: seq<Id>, groups: map<SkillKey, seq<Id>>) {
    && (forall k :: k in groups ==> groups[k] != [])
    && (forall k, x :: k in groups && x in groups[k] ==> x in ids && x in i.byId && GroupedSkill(i.byId[x]) && KeyOf(o, i.byId[x]) == k)
    && (forall x :: x in ids && x in i.byId && GroupedSkill(i.byId[x]) ==> KeyOf(o, i.byId[x]) in groups && x in groups[KeyOf(o, i.byId[x])])
  }

  lemma GroupedStep(o: Oracles, i: Input, ids: seq<Id>, groups: map<SkillKey, seq<Id>>, x: Id)
    requires Grouped(o, i, ids, groups) && x in i.byId
    ensures !GroupedSkill(i.byId[x]) ==> Grouped(o, i, ids + [x], groups)
    ensures GroupedSkill(i.byId[x]) ==>
              var k := KeyOf(o, i.byId[x]);
              Grouped(o, i, ids + [x], groups[k := (if k in groups then groups[k] else []) + [x]])
  {
    hide KeyOf;
  }

  method Group(o: Oracles, i: Input) returns (groups: map<SkillKey, seq<Id>>)
    requires WellFormed(i)
    ensures Grouped(o, i, i.order, groups)
  {
    hide KeyOf;
    groups := map[];
    var h := 0;
    while h < |i.order|
      invariant 0 <= h <= |i.order|
      invariant Grouped(o, i, i.order[..h], groups)
    {
      hide Grouped;
      var x := i.order[h];
      assert i.order[..h + 1] == i.order[..h] + [x];
      GroupedStep(o, i, i.order[..h], groups, x);
      if GroupedSkill(i.byId[x]) {
        var k := KeyOf(o, i.byId[x]);
        groups := groups[k := (if k in groups then groups[k] else []) + [x]];
      }
      h := h + 1;
    }
    assert i.order[..h] == i.order;
  }

  predicate Frontend(o: Oracles, r: Resource) {
    Normalized(o, r.plugin.name) == "frontend-dev"
  }

  /** Policy has chosen a member of the group, and all it has chosen have one content. */
  ghost predicate Settles(o: Oracles, i: Input, g: seq<Id>, chosen: set<Id>)
    requires forall x :: x in g ==> x in i.byId
  {
    && (exists x :: x in g && x in chosen)
    && (forall x, y :: x in g && y in g && x in chosen && y in chosen ==> o.skillContent(i.byId[x].plugin) == o.skillContent(i.byId[y].plugin))
  }

  /** The member that stands for a group: its first, or for the frontend skill the first
      one that policy has chosen, which all others it has chosen must equal. */
  method Representative(o: Oracles, i: Input, g: seq<Id>, chosen: set<Id>) returns (c: Id, issues: seq<Issue>)
    requires g != [] && forall x :: x in g ==> x in i.byId
    ensures c in g
    ensures Frontend(o, i.byId[g[0]]) ==> (issues == [] <==> Settles(o, i, g, chosen)) && (issues == [] ==> c in chosen)
    ensures !Frontend(o, i.byId[g[0]]) ==> issues == [] && c == g[0]
  {
    c, issues := g[0], [];
    if Frontend(o, i.byId[c]) {
      var found := false;
      for h := 0 to |g|
        invariant c in g
        invariant found <==> exists k :: 0 <= k < h && g[k] in chosen
        invariant found ==> c in chosen
        invariant found && issues == [] ==>
                    forall k :: 0 <= k < h && g[k] in chosen ==> o.skillContent(i.byId[g[k]].plugin) == o.skillContent(i.byId[c].plugin)
        invariant !found ==> issues == []
        invariant issues != [] ==> !Settles(o, i, g, chosen)
      {
        if g[h] in chosen {
          if !found {
            c, found := g[h], true;
          } else if o.skillContent(i.byId[g[h]].plugin) != o.skillContent(i.byId[c].plugin) {
            issues := issues + [Issue(g[h], "frontend_chinese_ambiguous")];
          }
        }
      }
      if !found {
        issues := [Issue(g[0], "frontend_chinese_source_missing")];
      }
    }
  }

  /** Every grouped skill is sent to one member of its own group, and that member to itself. */
  ghost predicate GroupMap(o: Oracles, i: Input, canonical: map<Id, Id>) {
    && (forall x :: x in canonical ==> x in i.byId && GroupedSkill(i.byId[x]))
    && (forall x :: x in canonical ==> canonical[x] in canonical && canonical[canonical[x]] == canonical[x])
    && (forall x, y :: x in canonical && y in canonical ==>
          (KeyOf(o, i.byId[x]) == KeyOf(o, i.byId[y]) <==> canonical[x] == canonical[y]))
  }

  method AssignGroup(canonical: map<Id, Id>, g: seq<Id>, c: Id) returns (updated: map<Id, Id>)
    ensures updated == canonical + map x | x in g :: c
  {
    updated := canonical;
    var h := 0;
    while h < |g|
      invariant 0 <= h <= |g|
      invariant updated == canonical + map x | x in g[..h] :: c
    {
      assert g[..h + 1] == g[..h] + [g[h]];
      updated := updated[g[h] := c];
      h := h + 1;
    }
    assert g[..h] == g;
  }

  lemma AssignKeeps(o: Oracles, i: Input, groups: map<SkillKey, seq<Id>>, canonical: map<Id, Id>, k: SkillKey, c: Id)
    requires Grouped(o, i, i.order, groups) && GroupMap(o, i, canonical)
    requires k in groups && c in groups[k]
    requires forall x :: x in canonical ==> KeyOf(o, i.byId[x]) != k
    ensures GroupMap(o, i, canonical + map x | x in groups[k] :: c)
  {
    hide KeyOf, GroupedSkill, Grouped;
    GroupMembers(o, i, groups, k);
    var g := set x | x in groups[k];
    var next := canonical + map x | x in groups[k] :: c;
    assert forall x :: x in next <==> x in canonical || x in g;
    assert forall x :: x in g ==> next[x] == c;
    assert forall x :: x in canonical && x !in g ==> next[x] == canonical[x];
    GroupAdded(o, i, g, canonical, k, c, next);
  }

  lemma GroupMembers(o: Oracles, i: Input, groups: map<SkillKey, seq<Id>>, k: SkillKey)
    requires Grouped(o, i, i.order, groups) && k in groups
    ensures forall x :: x in groups[k] ==> x in i.byId && GroupedSkill(i.byId[x]) && KeyOf(o, i.byId[x]) == k
  {
  }

  lemma GroupAdded(o: Oracles, i: Input, g: set<Id>, canonical: map<Id, Id>, k: SkillKey, c: Id, next: map<Id, Id>)
    requires GroupMap(o, i, canonical) && c in g
    requires forall x :: x in g ==> x in i.byId && GroupedSkill(i.byId[x]) && KeyOf(o, i.byId[x]) == k
    requires forall x :: x in canonical ==> KeyOf(o, i.byId[x]) != k
    requires forall x :: x in next <==> x in canonical || x in g
    requires forall x :: x in g ==> next[x] == c
    requires forall x :: x in canonical && x !in g ==> next[x] == canonical[x]
    ensures GroupMap(o, i, next)
  {
    hide KeyOf, GroupedSkill;
    assert forall x :: x in canonical ==> x !in g;
    forall x | x in next
      ensures next[x] in next && next[next[x]] == next[x]
      ensures x in i.byId && GroupedSkill(i.byId[x])
    {
      assert x in g || next[x] == canonical[x];
    }
    forall x, y | x in next && y in next
      ensures KeyOf(o, i.byId[x]) == KeyOf(o, i.byId[y]) <==> next[x] == next[y]
    {
      if x in g && y !in g {
        assert canonical[y] !in g;
      } else if y in g && x !in g {
        assert canonical[x] !in g;
      }
    }
  }

  ghost predicate SameGroup(o: Oracles, i: Input, x: Id, y: Id) {
    x in i.byId && y in i.byId && GroupedSkill(i.byId[x]) && GroupedSkill(i.byId[y]) && KeyOf(o, i.byId[x]) == KeyOf(o, i.byId[y])
  }

  /** Policy settles every group of frontend skills: one of them is chosen, and all chosen ones agree. */
  ghost predicate FrontendSettled(o: Oracles, i: Input, chosen: set<Id>) {
    forall x :: x in i.byId && GroupedSkill(i.byId[x]) && Frontend(o, i.byId[x]) ==>
      && (exists y :: SameGroup(o, i, x, y) && y in chosen)
      && (forall y, z :: SameGroup(o, i, x, y) && SameGroup(o, i, x, z) && y in chosen && z in chosen ==>
            o.skillContent(i.byId[y].plugin) == o.skillContent(i.byId[z].plugin))
  }

  /** What is known of the group with key `k` once it has been treated. */
  ghost predicate GroupSettled(o: Oracles, i: Input, groups: map<SkillKey, seq<Id>>, chosen: set<Id>, k: SkillKey)
    requires Grouped(o, i, i.order, groups) && k in groups
  {
    Frontend(o, i.byId[groups[k][0]]) ==> Settles(o, i, groups[k], chosen)
  }

  lemma SettledGroups(o: Oracles, i: Input, groups: map<SkillKey, seq<Id>>, chosen: set<Id>)
    requires WellFormed(i) && Grouped(o, i, i.order, groups)
    ensures FrontendSettled(o, i, chosen) <==> forall k :: k in groups ==> GroupSettled(o, i, groups, chosen, k)
  {
    hide GroupedSkill, KeyOf, Frontend, Settles;
    if FrontendSettled(o, i, chosen) {
      forall k | k in groups
        ensures GroupSettled(o, i, groups, chosen, k)
      {
        SettledGroup(o, i, groups, chosen, k, groups[k][0]);
      }
    }
    if forall k :: k in groups ==> GroupSettled(o, i, groups, chosen, k) {
      forall x | x in i.byId && GroupedSkill(i.byId[x]) && Frontend(o, i.byId[x])
        ensures exists y :: SameGroup(o, i, x, y) && y in chosen
        ensures forall y, z :: SameGroup(o, i, x, y) && SameGroup(o, i, x, z) && y in chosen && z in chosen ==>
                  o.skillContent(i.byId[y].plugin) == o.skillContent(i.byId[z].plugin)
      {
        SettledGroup(o, i, groups, chosen, KeyOf(o, i.byId[x]), x);
      }
    }
  }

  /** Seen from any of its members, the group is what its list says. */
  lemma SettledGroup(o: Oracles, i: Input, groups: map<SkillKey, seq<Id>>, chosen: set<Id>, k: SkillKey, x: Id)
    requires WellFormed(i) && Grouped(o, i, i.order, groups) && k in groups
    requires x in i.byId && GroupedSkill(i.byId[x]) && KeyOf(o, i.byId[x]) == k
    ensures Frontend(o, i.byId[x]) <==> Frontend(o, i.byId[groups[k][0]])
    ensures Settles(o, i, groups[k], chosen) <==>
              && (exists y :: SameGroup(o, i, x, y) && y in chosen)
              && (forall y, z :: SameGroup(o, i, x, y) && SameGroup(o, i, x, z) && y in chosen && z in chosen ==>
                    o.skillContent(i.byId[y].plugin) == o.skillContent(i.byId[z].plugin))
  {
    hide GroupedSkill;
    assert groups[k][0] in groups[k];
    assert KeyOf(o, i.byId[groups[k][0]]) == KeyOf(o, i.byId[x]);
    assert forall y :: SameGroup(o, i, x, y) <==> y in groups[k];
  }

  /** Every frontend skill that has been treated is represented by one that policy has chosen. */
  ghost predicate ChosenStand(o: Oracles, i: Input, chosen: set<Id>, canonical: map<Id, Id>) {
    forall x :: x in canonical && x in i.byId && Frontend(o, i.byId[x]) ==> canonical[x] in chosen
  }

  /** The first pass: one representative for each group. */
  method ChooseCanonical(o: Oracles, i: Input, chosen: set<Id>) returns (canonical: map<Id, Id>, issues: seq<Issue>)
    requires WellFormed(i)
    ensures GroupMap(o, i, canonical)
    ensures forall x :: x in i.byId && GroupedSkill(i.byId[x]) ==> x in canonical
    ensures issues == [] <==> FrontendSettled(o, i, chosen)
    ensures issues == [] ==> ChosenStand(o, i, chosen, canonical)
  {
    hide *;
    var groups := Group(o, i);
    canonical, issues := map[], [];
    var pending := groups.Keys;
    ghost var done: set<SkillKey> := {};
    FiniteSets.Start(groups.Keys);
    NothingChosen(o, i, groups, chosen);
    while pending != {}
      invariant FiniteSets.Splits(groups.Keys, done, pending)
      invariant ChoiceMade(o, i, groups, chosen, done, canonical, issues == [])
      decreases |pending|
    {
      var k :| k in pending;
      FiniteSets.Step(groups.Keys, done, pending, k);
      GroupFacts(o, i, groups, k);
      var c, found := Representative(o, i, groups[k], chosen);
      ChoiceStep(o, i, groups, chosen, done, canonical, issues == [], k, c, found == []);
      canonical := AssignGroup(canonical, groups[k], c);
      issues := issues + found;
      pending := pending - {k};
      done := done + {k};
    }
    FiniteSets.End(groups.Keys, done);
    ChoiceDone(o, i, groups, chosen, canonical, issues == []);
  }

  /** The groups in `done` have their representatives. */
  ghost predicate ChoiceMade(o: Oracles, i: Input, groups: map<SkillKey, seq<Id>>, chosen: set<Id>, done: set<SkillKey>, canonical: map<Id, Id>, clean: bool) {
    && Grouped(o, i, i.order, groups) && GroupMap(o, i, canonical) && Treated(o, i, groups, done, canonical)
    && (clean <==> forall k :: k in done ==> k in groups && GroupSettled(o, i, groups, chosen, k))
    && (clean ==> ChosenStand(o, i, chosen, canonical))
  }

  lemma NothingChosen(o: Oracles, i: Input, groups: map<SkillKey, seq<Id>>, chosen: set<Id>)
    requires WellFormed(i) && Grouped(o, i, i.order, groups)
    ensures ChoiceMade(o, i, groups, chosen, {}, map[], true)
  {
    hide KeyOf;
  }

  lemma ChoiceStep(o: Oracles, i: Input, groups: map<SkillKey, seq<Id>>, chosen: set<Id>, done: set<SkillKey>, canonical: map<Id, Id>, clean: bool,
                   k: SkillKey, c: Id, found: bool)
    requires WellFormed(i) && ChoiceMade(o, i, groups, chosen, done, canonical, clean) && k in groups && k !in done && c in groups[k]
    requires forall x :: x in groups[k] ==> x in i.byId
    requires Frontend(o, i.byId[groups[k][0]]) ==> (found <==> Settles(o, i, groups[k], chosen)) && (found ==> c in chosen)
    requires !Frontend(o, i.byId[groups[k][0]]) ==> found
    ensures ChoiceMade(o, i, groups, chosen, done + {k}, canonical + map x | x in groups[k] :: c, clean && found)
  {
    hide Grouped, GroupMap, Treated, GroupSettled, ChosenStand, KeyOf, Frontend, Settles;
    RepresentativeMeans(o, i, groups, chosen, k, c, found);
    TreatedStep(o, i, groups, done, canonical, k, c);
    AssignKeeps(o, i, groups, canonical, k, c);
    if clean && found {
      ChosenStep(o, i, groups, chosen, canonical, k, c);
    }
  }

  lemma ChoiceDone(o: Oracles, i: Input, groups: map<SkillKey, seq<Id>>, chosen: set<Id>, canonical: map<Id, Id>, clean: bool)
    requires WellFormed(i) && ChoiceMade(o, i, groups, chosen, groups.Keys, canonical, clean)
    ensures GroupMap(o, i, canonical)
    ensures forall x :: x in i.byId && GroupedSkill(i.byId[x]) ==> x in canonical
    ensures clean <==> FrontendSettled(o, i, chosen)
    ensures clean ==> ChosenStand(o, i, chosen, canonical)
  {
    hide Grouped, GroupMap, GroupSettled, ChosenStand, KeyOf, FrontendSettled, GroupedSkill;
    SettledGroups(o, i, groups, chosen);
  }

  lemma GroupFacts(o: Oracles, i: Input, groups: map<SkillKey, seq<Id>>, k: SkillKey)
    requires Grouped(o, i, i.order, groups) && k in groups
    ensures groups[k] != [] && forall x :: x in groups[k] ==> x in i.byId && KeyOf(o, i.byId[x]) == k
  {
  }

  lemma RepresentativeMeans(o: Oracles, i: Input, groups: map<SkillKey, seq<Id>>, chosen: set<Id>, k: SkillKey, c: Id, clean: bool)
    requires Grouped(o, i, i.order, groups) && k in groups && c in groups[k]
    requires Frontend(o, i.byId[groups[k][0]]) ==> (clean <==> Settles(o, i, groups[k], chosen))
    requires !Frontend(o, i.byId[groups[k][0]]) ==> clean
    ensures clean <==> GroupSettled(o, i, groups, chosen, k)
  {
    hide Settles, Frontend;
  }

  /** The skills with a representative are those of the groups in `done`. */
  ghost predicate Treated(o: Oracles, i: Input, groups: map<SkillKey, seq<Id>>, done: set<SkillKey>, canonical: map<Id, Id>) {
    && (forall x :: x in canonical ==> x in i.byId && KeyOf(o, i.byId[x]) in done)
    && (forall x :: x in i.byId && GroupedSkill(i.byId[x]) && KeyOf(o, i.byId[x]) in done ==> x in canonical)
    && (forall x :: x in i.byId && GroupedSkill(i.byId[x]) ==> KeyOf(o, i.byId[x]) in groups)
  }

  lemma TreatedStep(o: Oracles, i: Input, groups: map<SkillKey, seq<Id>>, done: set<SkillKey>, canonical: map<Id, Id>, k: SkillKey, c: Id)
    requires WellFormed(i) && Grouped(o, i, i.order, groups) && Treated(o, i, groups, done, canonical) && k in groups && k !in done
    ensures Treated(o, i, groups, done + {k}, canonical + map x | x in groups[k] :: c)
    ensures forall x :: x in canonical ==> x in i.byId && KeyOf(o, i.byId[x]) != k
  {
    hide KeyOf, GroupedSkill;
  }

  lemma ChosenStep(o: Oracles, i: Input, groups: map<SkillKey, seq<Id>>, chosen: set<Id>, canonical: map<Id, Id>, k: SkillKey, c: Id)
    requires Grouped(o, i, i.order, groups) && ChosenStand(o, i, chosen, canonical) && k in groups
    requires Frontend(o, i.byId[groups[k][0]]) ==> c in chosen
    ensures ChosenStand(o, i, chosen, canonical + map x | x in groups[k] :: c)
  {
    forall x | x in groups[k]
      ensures Frontend(o, i.byId[x]) <==> Frontend(o, i.byId[groups[k][0]])
    {
      assert KeyOf(o, i.byId[x]) == KeyOf(o, i.byId[groups[k][0]]);
    }
  }

  /** System skill `s` may stand in for the group representative `c` of skill `r`. */
  predicate Reusable(o: Oracles, canonical: map<Id, Id>, s: Resource, r: Resource, c: Resource) {
    && ScopeOf(s.plugin) == SystemWide
    && SharedActive(r.plugin)
    && r.plugin.status == s.plugin.status && r.plugin.listing == s.plugin.listing
    && Active(s)
    && s.id in canonical && canonical[s.id] == s.id
    && Normalized(o, s.plugin.name) == Normalized(o, r.plugin.name)
    && o.skillContent(s.plugin) == o.skillContent(c.plugin)
  }

  function FirstReusable(o: Oracles, byId: map<Id, Resource>, canonical: map<Id, Id>, ids: seq<Id>, r: Resource, c: Resource): Option<Id>
    requires forall x :: x in ids ==> x in byId
  {
    if ids == [] then None
    else if Reusable(o, canonical, byId[ids[0]], r, c) then Some(ids[0])
    else FirstReusable(o, byId, canonical, ids[1..], r, c)
  }

  /** The first pass is complete: every active skill has its group representative. */
  ghost predicate FirstPass(o: Oracles, i: Input, first: map<Id, Id>) {
    && WellFormed(i) && GroupMap(o, i, first)
    && forall y :: y in i.byId && GroupedSkill(i.byId[y]) ==> y in first
  }

  /** Where skill `x` ends up, given the map of the first pass. */
  ghost function Settled(o: Oracles, i: Input, first: map<Id, Id>, x: Id): Id
    requires FirstPass(o, i, first) && x in first
  {
    if ScopeOf(i.byId[x].plugin) == SystemWide then first[x]
    else
      match FirstReusable(o, i.byId, first, i.order, i.byId[x], i.byId[first[x]])
      case Some(s) => s
      case None => first[x]
  }

  lemma {:induction false} FirstReusableMeaning(o: Oracles, byId: map<Id, Resource>, canonical: map<Id, Id>, ids: seq<Id>, r: Resource, c: Resource)
    requires forall x :: x in ids ==> x in byId
    ensures var s := FirstReusable(o, byId, canonical, ids, r, c); s.Some? ==> s.value in ids && Reusable(o, canonical, byId[s.value], r, c)
  {
    hide Reusable;
    if ids != [] && !Reusable(o, canonical, byId[ids[0]], r, c) {
      FirstReusableMeaning(o, byId, canonical, ids[1..], r, c);
    }
  }

  lemma {:induction false} SameReuse(o: Oracles, byId: map<Id, Resource>, canonical: map<Id, Id>, ids: seq<Id>, r: Resource, q: Resource, c: Resource)
    requires forall x :: x in ids ==> x in byId
    requires forall s :: Reusable(o, canonical, s, r, c) == Reusable(o, canonical, s, q, c)
    ensures FirstReusable(o, byId, canonical, ids, r, c) == FirstReusable(o, byId, canonical, ids, q, c)
  {
    hide Reusable;
    if ids != [] {
      SameReuse(o, byId, canonical, ids[1..], r, q, c);
    }
  }

  /** A skill settles on a skill that settles on itself. */
  lemma SettledTwice(o: Oracles, i: Input, first: map<Id, Id>, x: Id)
    requires FirstPass(o, i, first) && x in first
    ensures var s := Settled(o, i, first, x); s in first && Settled(o, i, first, s) == s
  {
    hide Variant, Normalized;
    var r, c := i.byId[x], i.byId[first[x]];
    assert KeyOf(o, c) == KeyOf(o, r);
    ScopeFixesLifecycle(c.plugin, r.plugin);
    FirstReusableMeaning(o, i.byId, first, i.order, r, c);
    SameReuse(o, i.byId, first, i.order, r, c, c);
  }

  /** The second pass has settled the first `h` resources. */
  ghost predicate Settling(o: Oracles, i: Input, first: map<Id, Id>, canonical: map<Id, Id>, h: nat)
    requires FirstPass(o, i, first) && h <= |i.order|
  {
    && canonical.Keys == first.Keys
    && forall x :: x in first ==> canonical[x] == if x in i.order[h..] then first[x] else Settled(o, i, first, x)
  }

  lemma SettlingStep(o: Oracles, i: Input, first: map<Id, Id>, canonical: map<Id, Id>, h: nat)
    requires FirstPass(o, i, first) && h < |i.order| && Settling(o, i, first, canonical, h)
    ensures var x := i.order[h];
            && (x in first ==> canonical[x] == first[x])
            && Settling(o, i, first, if x in first then canonical[x := Settled(o, i, first, x)] else canonical, h + 1)
  {
    hide KeyOf, Settled, GroupMap;
    assert i.order[h..] == [i.order[h]] + i.order[h + 1..];
    assert i.order[h] !in i.order[h + 1..];
  }

  lemma RepresentativeKnown(o: Oracles, i: Input, first: map<Id, Id>, x: Id)
    requires FirstPass(o, i, first) && x in first
    ensures first[x] in i.byId
  {
  }

  lemma SystemUnmoved(o: Oracles, i: Input, first: map<Id, Id>, canonical: map<Id, Id>, h: nat)
    requires FirstPass(o, i, first) && h <= |i.order| && Settling(o, i, first, canonical, h)
    ensures forall x :: x in i.order && x in first && ScopeOf(i.byId[x].plugin) == SystemWide ==> first[x] == canonical[x]
  {
  }

  /** The second pass: content-equal system skills stand in for shared ones. */
  method ReuseSystemSkills(o: Oracles, i: Input, first: map<Id, Id>) returns (canonical: map<Id, Id>)
    requires FirstPass(o, i, first)
    ensures canonical.Keys == first.Keys
    ensures forall x :: x in first ==> canonical[x] == Settled(o, i, first, x)
  {
    hide KeyOf, FirstReusable, Settling, GroupMap;
    canonical := first;
    assert i.order[0..] == i.order;
    assert Settling(o, i, first, canonical, 0) by { SettlingStart(o, i, first); }
    var h := 0;
    while h < |i.order|
      invariant 0 <= h <= |i.order|
      invariant Settling(o, i, first, canonical, h)
    {
      var x := i.order[h];
      SettlingStep(o, i, first, canonical, h);
      SettlingKeys(o, i, first, canonical, h);
      if x in canonical && ScopeOf(i.byId[x].plugin) != SystemWide {
        SystemUnmoved(o, i, first, canonical, h);
        assert first[x] in i.byId by { RepresentativeKnown(o, i, first, x); }
        var reuse := FindReusable(o, i.byId, first, canonical, i.order, i.byId[x], i.byId[canonical[x]]);
        if reuse.Some? {
          canonical := canonical[x := reuse.value];
        }
      }
      assert x in first ==> canonical[x := canonical[x]] == canonical;
      h := h + 1;
    }
    SettlingKeys(o, i, first, canonical, h);
  }

  lemma SettlingStart(o: Oracles, i: Input, first: map<Id, Id>)
    requires FirstPass(o, i, first)
    ensures Settling(o, i, first, first, 0)
  {
    assert i.order[0..] == i.order;
  }

  lemma SettlingKeys(o: Oracles, i: Input, first: map<Id, Id>, canonical: map<Id, Id>, h: nat)
    requires FirstPass(o, i, first) && h <= |i.order| && Settling(o, i, first, canonical, h)
    ensures canonical.Keys == first.Keys
    ensures h == |i.order| ==> forall x :: x in first ==> canonical[x] == Settled(o, i, first, x)
  {
  }

  /** `c` has the lifecycle of `p`, and its audience or a wider one. */
  predicate StandsFor(c: Plugin, p: Plugin) {
    c.status == p.status && c.listing == p.listing && (ScopeOf(c) == ScopeOf(p) || ScopeOf(c) == SystemWide)
  }

  /** A skill is represented by one of the same name that stands for it. */
  ghost predicate Alike(o: Oracles, r: Resource, c: Resource) {
    Normalized(o, c.plugin.name) == Normalized(o, r.plugin.name) && StandsFor(c.plugin, r.plugin)
  }

  lemma SettledAlike(o: Oracles, i: Input, first: map<Id, Id>, x: Id)
    requires FirstPass(o, i, first) && x in first
    ensures Settled(o, i, first, x) in i.byId && Alike(o, i.byId[x], i.byId[Settled(o, i, first, x)])
  {
    hide Variant, Normalized;
    var r, c := i.byId[x], i.byId[first[x]];
    assert KeyOf(o, c) == KeyOf(o, r);
    ScopeFixesLifecycle(c.plugin, r.plugin);
    FirstReusableMeaning(o, i.byId, first, i.order, r, c);
  }

  /** Both passes. The result is idempotent, and defined exactly on the active skills. */
  method CanonicalSkills(o: Oracles, i: Input, chosen: set<Id>) returns (canonical: map<Id, Id>, issues: seq<Issue>)
    requires WellFormed(i)
    ensures forall x :: x in canonical <==> x in i.byId && GroupedSkill(i.byId[x])
    ensures forall x :: x in canonical ==> canonical[x] in canonical && canonical[canonical[x]] == canonical[x]
    ensures forall x :: x in canonical ==> canonical[x] in i.byId && Alike(o, i.byId[x], i.byId[canonical[x]])
    ensures issues == [] <==> FrontendSettled(o, i, chosen)
  {
    hide KeyOf, Settled, FrontendSettled, ChosenStand, Alike;
    var first: map<Id, Id>;
    first, issues := ChooseCanonical(o, i, chosen);
    canonical := ReuseSystemSkills(o, i, first);
    forall x | x in canonical
      ensures canonical[x] in canonical && canonical[canonical[x]] == canonical[x]
      ensures canonical[x] in i.byId && Alike(o, i.byId[x], i.byId[canonical[x]])
    {
      SettledTwice(o, i, first, x);
      SettledAlike(o, i, first, x);
    }
  }

  /** The search for a reusable system skill; `canonical` may already differ from
      `first`, but not on system skills. */
  method FindReusable(o: Oracles, byId: map<Id, Resource>, ghost first: map<Id, Id>, canonical: map<Id, Id>, ids: seq<Id>, r: Resource, c: Resource)
    returns (found: Option<Id>)
    requires forall x :: x in ids ==> x in byId && byId[x].id == x
    requires first.Keys == canonical.Keys
    requires forall x :: x in ids && x in first && ScopeOf(byId[x].plugin) == SystemWide ==> first[x] == canonical[x]
    ensures found == FirstReusable(o, byId, first, ids, r, c)
  {
    var h := 0;
    while h < |ids|
      invariant 0 <= h <= |ids|
      invariant FirstReusable(o, byId, first, ids, r, c) == FirstReusable(o, byId, first, ids[h..], r, c)
    {
      assert ids[h..][0] == ids[h] && ids[h..][1..] == ids[h + 1..];
      assert ids[h] in ids;
      if Reusable(o, canonical, byId[ids[h]], r, c) {
        return Some(ids[h]);
      }
      h := h + 1;
    }
    return None;
  }
}
