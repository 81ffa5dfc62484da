/** The suspension cascade after a takedown, internal/repository/plugin/dependency_suspension.go:138-192
    with suspendDependency (11-19) and demoteEmbeddedChildren (internal/repository/plugin/review.go:998-1013). */
module Suspension {

  type Id = string

  datatype Listing = Draft | Published | Delisted

  datatype Kind = Skill | Connector | Expert | Team

  /** `active` is status 1. */
  datatype Row = Row(space: string, kind: Kind, active: bool, deleted: bool, embedded: bool, listing: Listing)

  /** What does not change while a takedown runs: who uses whom in the frozen or live
      relations, and the embedded children of each container. */
  datatype Graph = Graph(uses: set<(Id, Id)>, children: map<Id, seq<Id>>)

  const MAX_GRAPH_NODES := 630

  datatype Status = Ok | TooLarge | NotFound

  predicate Eligible(r: Row, space: string) {
    r.space == space && r.active && !r.deleted && r.listing == Published && (r.kind == Expert || r.kind == Team)
  }

  predicate Demotable(r: Row, space: string) {
    r.space == space && r.embedded && !r.deleted
  }

  predicate IsChild(g: Graph, s: Id, p: Id) {
    s in g.children && p in g.children[s]
  }

  /** The published experts and teams of the Space that use `id`. */
  function Sources(rows: map<Id, Row>, g: Graph, space: string, id: Id): set<Id> {
    set p | p in rows && Eligible(rows[p], space) && (p, id) in g.uses
  }

  // ----------------------------------------------------------------- the effect

  /** A row loses its place in the catalog with a suspended container it is embedded in. */
  ghost predicate Demoted(rows: map<Id, Row>, g: Graph, space: string, suspended: set<Id>, p: Id) {
    p in rows && Demotable(rows[p], space) && exists s :: s in suspended && IsChild(g, s, p)
  }

  ghost predicate Falls(rows: map<Id, Row>, g: Graph, space: string, suspended: set<Id>, p: Id) {
    p in rows && rows[p].listing == Published && (p in suspended || Demoted(rows, g, space, suspended, p))
  }

  /** `rows'` differs from `rows` in this alone: what falls is delisted. */
  ghost predicate After(rows: map<Id, Row>, g: Graph, space: string, suspended: set<Id>, rows': map<Id, Row>) {
    && rows'.Keys == rows.Keys
    && forall p :: p in rows ==> rows'[p] == if Falls(rows, g, space, suspended, p) then rows[p].(listing := Delisted) else rows[p]
  }

  /** One entry per suspended plugin: itself, and the plugin whose loss caused it. */
  datatype Entry = Entry(source: Id, cause: Id)

  ghost function Suspended(log: seq<Entry>): set<Id> {
    set e | e in log :: e.source
  }

  /** Why an entry is in the log: its source was published and used the cause, the cause
      fell before it, and no container suspended for an earlier cause took it down first. */
  ghost predicate Justified(rows: map<Id, Row>, g: Graph, space: string, target: Id, log: seq<Entry>, i: nat)
    requires i < |log|
  {
    && log[i].source != target
    && log[i].source in rows && Eligible(rows[log[i].source], space)
    && (log[i].source, log[i].cause) in g.uses
    && (log[i].cause == target || exists j :: 0 <= j < i && log[j].source == log[i].cause)
    && (forall j :: 0 <= j < i ==> log[j].source != log[i].source)
    && (forall j :: 0 <= j < i && log[j].cause != log[i].cause ==>
                      !(IsChild(g, log[j].source, log[i].source) && Demotable(rows[log[i].source], space)))
  }

  ghost predicate LogJustified(rows: map<Id, Row>, g: Graph, space: string, target: Id, log: seq<Entry>) {
    forall i :: 0 <= i < |log| ==> Justified(rows, g, space, target, log, i)
  }

  /** Nobody but the target, still listed, uses `id`. */
  ghost predicate Clear(rows: map<Id, Row>, g: Graph, space: string, target: Id, id: Id) {
    forall p :: p in Sources(rows, g, space, id) ==> p == target
  }

  /** Everything a cascade that returned without error has done. */
  ghost predicate Outcome(rows: map<Id, Row>, g: Graph, space: string, target: Id, log: seq<Entry>, rows': map<Id, Row>) {
    && LogJustified(rows, g, space, target, log)
    && After(rows, g, space, Suspended(log), rows')
    && (forall id :: id in Suspended(log) + {target} ==> Clear(rows', g, space, target, id))
    && (forall p :: p in Sources(rows, g, space, target) && p != target ==> p in Suspended(log))
  }

  // -------------------------------------------------------- backward reachability

  /** Each plugin on the path is a listed container that uses the next; it ends at the target. */
  ghost predicate Path(rows: map<Id, Row>, g: Graph, space: string, target: Id, path: seq<Id>) {
    && path != [] && path[|path| - 1] == target
    && forall i :: 0 <= i < |path| - 1 ==>
         path[i] != target && path[i] in Sources(rows, g, space, path[i + 1])
  }

  /** In the rows as they were, `p` uses the target directly or through others. */
  ghost predicate Affected(rows: map<Id, Row>, g: Graph, space: string, target: Id, p: Id) {
    exists path :: Path(rows, g, space, target, path) && |path| >= 2 && path[0] == p
  }

  lemma AffectedStep(rows: map<Id, Row>, g: Graph, space: string, target: Id, p: Id, cause: Id)
    requires p in Sources(rows, g, space, cause) && p != target
    requires cause == target || Affected(rows, g, space, target, cause)
    ensures Affected(rows, g, space, target, p)
  {
    if cause == target {
      assert Path(rows, g, space, target, [p, target]);
    } else {
      var path :| Path(rows, g, space, target, path) && |path| >= 2 && path[0] == cause;
      var longer := [p] + path;
      assert forall i :: 0 < i < |longer| ==> longer[i] == path[i - 1];
      assert Path(rows, g, space, target, longer);
    }
  }

  /** Only plugins that depend on the target are suspended. */
  lemma {:induction false} SuspendedAreAffected(rows: map<Id, Row>, g: Graph, space: string, target: Id, log: seq<Entry>, i: nat)
    requires LogJustified(rows, g, space, target, log) && i < |log|
    ensures Affected(rows, g, space, target, log[i].source)
    decreases i
  {
    hide Affected, Eligible, Demotable, IsChild;
    assert Justified(rows, g, space, target, log, i);
    if log[i].cause != target {
      var j :| 0 <= j < i && log[j].source == log[i].cause;
      SuspendedAreAffected(rows, g, space, target, log, j);
    }
    AffectedStep(rows, g, space, target, log[i].source, log[i].cause);
  }

  /** An affected plugin embedded in an affected container uses the target itself. */
  ghost predicate ChildrenUseTarget(rows: map<Id, Row>, g: Graph, space: string, target: Id) {
    forall s, c :: IsChild(g, s, c) && c in rows && Demotable(rows[c], space)
      && Affected(rows, g, space, target, s) && Affected(rows, g, space, target, c)
      ==> c in Sources(rows, g, space, target)
  }

  /** No plugin that an affected container demotes is used by a listed container. */
  ghost predicate ChildrenUnused(rows: map<Id, Row>, g: Graph, space: string, target: Id) {
    forall s, c :: IsChild(g, s, c) && c in rows && Demotable(rows[c], space) && Affected(rows, g, space, target, s)
      ==> Sources(rows, g, space, c) <= {target}
  }

  /** After the cascade a plugin that used something suspended is no longer listed. */
  lemma UserFell(rows: map<Id, Row>, g: Graph, space: string, target: Id, log: seq<Entry>, rows': map<Id, Row>, p: Id, id: Id)
    requires Outcome(rows, g, space, target, log, rows')
    requires p in Sources(rows, g, space, id) && p != target && id in Suspended(log) + {target}
    ensures Falls(rows, g, space, Suspended(log), p)
  {
    assert Clear(rows', g, space, target, id);
    assert p !in Sources(rows', g, space, id);
  }

  /** When the target was delisted first, no listed container uses it or anything suspended. */
  lemma NoListedUser(rows: map<Id, Row>, g: Graph, space: string, target: Id, log: seq<Entry>, rows': map<Id, Row>, id: Id)
    requires Outcome(rows, g, space, target, log, rows') && (target in rows ==> rows[target].listing != Published)
    requires id == target || id in Suspended(log)
    ensures Sources(rows', g, space, id) == {}
  {
    assert Clear(rows', g, space, target, id);
    assert !Falls(rows, g, space, Suspended(log), target);
    assert target !in Sources(rows', g, space, id);
  }

  lemma SuspendedIsAffected(rows: map<Id, Row>, g: Graph, space: string, target: Id, log: seq<Entry>, p: Id)
    requires LogJustified(rows, g, space, target, log) && p in Suspended(log)
    ensures Affected(rows, g, space, target, p)
  {
    var i :| 0 <= i < |log| && log[i].source == p;
    SuspendedAreAffected(rows, g, space, target, log, i);
  }

  lemma PathRest(rows: map<Id, Row>, g: Graph, space: string, target: Id, path: seq<Id>)
    requires Path(rows, g, space, target, path) && |path| >= 2
    ensures Path(rows, g, space, target, path[1..])
  {
    var rest := path[1..];
    forall i | 0 <= i < |rest| - 1
      ensures rest[i] != target && rest[i] in Sources(rows, g, space, rest[i + 1])
    {
      assert rest[i] == path[i + 1] && rest[i + 1] == path[(i + 1) + 1];
    }
  }

  /** Every affected plugin falls, unless one that fell as an embedded child was itself used. */
  lemma {:induction false} PathFalls(rows: map<Id, Row>, g: Graph, space: string, target: Id, log: seq<Entry>, rows': map<Id, Row>, path: seq<Id>)
    requires Outcome(rows, g, space, target, log, rows') && ChildrenUnused(rows, g, space, target)
    requires Path(rows, g, space, target, path) && |path| >= 2
    ensures Falls(rows, g, space, Suspended(log), path[0])
    decreases |path|
  {
    hide Outcome, Affected, Eligible, Demotable, IsChild;
    var rest := path[1..];
    assert path[0] in Sources(rows, g, space, path[1]);
    if |path| > 2 {
      PathRest(rows, g, space, target, path);
      PathFalls(rows, g, space, target, log, rows', rest);
      if rest[0] !in Suspended(log) {
        OutcomeLog(rows, g, space, target, log, rows');
        var s :| s in Suspended(log) && IsChild(g, s, rest[0]);
        SuspendedIsAffected(rows, g, space, target, log, s);
      }
    }
    UserFell(rows, g, space, target, log, rows', path[0], path[1]);
  }

  lemma OutcomeLog(rows: map<Id, Row>, g: Graph, space: string, target: Id, log: seq<Entry>, rows': map<Id, Row>)
    requires Outcome(rows, g, space, target, log, rows')
    ensures LogJustified(rows, g, space, target, log) && After(rows, g, space, Suspended(log), rows')
  {
  }

  /** With no embedded child in use, every affected plugin ends up delisted. */
  lemma AffectedAreDelisted(rows: map<Id, Row>, g: Graph, space: string, target: Id, log: seq<Entry>, rows': map<Id, Row>, p: Id)
    requires Outcome(rows, g, space, target, log, rows') && ChildrenUnused(rows, g, space, target)
    requires Affected(rows, g, space, target, p)
    ensures p in rows' && rows'[p].listing == Delisted
  {
    var path :| Path(rows, g, space, target, path) && |path| >= 2 && path[0] == p;
    PathFalls(rows, g, space, target, log, rows', path);
  }

  lemma {:induction false} PathSuspended(rows: map<Id, Row>, g: Graph, space: string, target: Id, log: seq<Entry>, rows': map<Id, Row>, path: seq<Id>)
    requires Outcome(rows, g, space, target, log, rows') && ChildrenUseTarget(rows, g, space, target)
    requires Path(rows, g, space, target, path) && |path| >= 2
    ensures path[0] in Suspended(log)
    decreases |path|
  {
    hide Outcome, Eligible, Demotable, IsChild, Suspended;
    var rest := path[1..];
    assert path[0] in Sources(rows, g, space, path[1]);
    if |path| > 2 {
      PathRest(rows, g, space, target, path);
      PathSuspended(rows, g, space, target, log, rows', rest);
    }
    UserFell(rows, g, space, target, log, rows', path[0], path[1]);
    if path[0] !in Suspended(log) {
      OutcomeLog(rows, g, space, target, log, rows');
      var s :| s in Suspended(log) && IsChild(g, s, path[0]);
      SuspendedIsAffected(rows, g, space, target, log, s);
      OutcomeDirect(rows, g, space, target, log, rows', path[0]);
    }
  }

  lemma OutcomeDirect(rows: map<Id, Row>, g: Graph, space: string, target: Id, log: seq<Entry>, rows': map<Id, Row>, p: Id)
    requires Outcome(rows, g, space, target, log, rows') && p != target
    ensures p in Sources(rows, g, space, target) ==> p in Suspended(log)
  {
  }

  /** The catalog's typing: experts use skills and connectors only, and what is embedded
      in a container is never a team. */
  ghost predicate Typed(rows: map<Id, Row>, g: Graph) {
    && (forall p, q :: (p, q) in g.uses && p in rows && rows[p].kind == Expert && q in rows ==> rows[q].kind == Skill || rows[q].kind == Connector)
    && (forall s, c :: IsChild(g, s, c) && c in rows ==> rows[c].kind != Team)
  }

  lemma TypedChildren(rows: map<Id, Row>, g: Graph, space: string, target: Id)
    requires Typed(rows, g)
    ensures ChildrenUseTarget(rows, g, space, target)
  {
    hide IsChild;
    forall s, c | IsChild(g, s, c) && c in rows && Demotable(rows[c], space) && Affected(rows, g, space, target, c)
      ensures c in Sources(rows, g, space, target)
    {
      var path :| Path(rows, g, space, target, path) && |path| >= 2 && path[0] == c;
      assert path[0] in Sources(rows, g, space, path[0 + 1]);
      assert |path| > 2 ==> path[1] in Sources(rows, g, space, path[1 + 1]);
    }
  }

  /** In a catalog that keeps to its types the suspended plugins are always exactly those
      that depend on the target, and all of these are delisted. */
  lemma TypedSuspendsExactly(rows: map<Id, Row>, g: Graph, space: string, target: Id, log: seq<Entry>, rows': map<Id, Row>, p: Id)
    requires Outcome(rows, g, space, target, log, rows') && Typed(rows, g)
    ensures p in Suspended(log) <==> Affected(rows, g, space, target, p)
    ensures Affected(rows, g, space, target, p) ==> p in rows' && rows'[p].listing == Delisted
  {
    hide Typed, Affected;
    TypedChildren(rows, g, space, target);
    SuspendedExactly(rows, g, space, target, log, rows', p);
    if p in Suspended(log) {
      SuspendedFalls(rows, g, space, target, log, p);
    }
  }

  lemma SuspendedFalls(rows: map<Id, Row>, g: Graph, space: string, target: Id, log: seq<Entry>, p: Id)
    requires LogJustified(rows, g, space, target, log) && p in Suspended(log)
    ensures Falls(rows, g, space, Suspended(log), p)
  {
    var i :| 0 <= i < |log| && log[i].source == p;
    assert Justified(rows, g, space, target, log, i);
  }

  /** When affected embedded children use the target themselves, the suspended plugins are
      exactly the affected ones. */
  lemma SuspendedExactly(rows: map<Id, Row>, g: Graph, space: string, target: Id, log: seq<Entry>, rows': map<Id, Row>, p: Id)
    requires Outcome(rows, g, space, target, log, rows') && ChildrenUseTarget(rows, g, space, target)
    ensures p in Suspended(log) <==> Affected(rows, g, space, target, p)
  {
    hide ChildrenUseTarget, Suspended;
    if p in Suspended(log) {
      SuspendedIsAffected(rows, g, space, target, log, p);
    }
    if Affected(rows, g, space, target, p) {
      var path :| Path(rows, g, space, target, path) && |path| >= 2 && path[0] == p;
      PathSuspended(rows, g, space, target, log, rows', path);
    }
  }

  // ------------------------------------------------------------ counterexamples

  const LISTED := Row("s", Team, true, false, false, Published)
  const LISTED_CHILD := Row("s", Expert, true, false, true, Published)

  /** A plugin embedded in the only plugin it uses goes down with it and is never suspended. */
  lemma TakenDownFirst(rows: map<Id, Row>, g: Graph, space: string, target: Id, log: seq<Entry>, s: Id, c: Id)
    requires LogJustified(rows, g, space, target, log)
    requires s != target && IsChild(g, s, c) && c in rows && Demotable(rows[c], space)
    requires (s, s) !in g.uses && forall y :: (c, y) in g.uses ==> y == s
    ensures c !in Suspended(log)
  {
    forall j | 0 <= j < |log| && log[j].source == s
      ensures log[j].cause != s
    {
      assert Justified(rows, g, space, target, log, j);
    }
    forall i | 0 <= i < |log|
      ensures log[i].source != c
    {
      assert Justified(rows, g, space, target, log, i);
    }
  }

  /** And then nobody who uses only that plugin is suspended either. */
  lemma UnheardOf(rows: map<Id, Row>, g: Graph, space: string, target: Id, log: seq<Entry>, c: Id, p: Id)
    requires LogJustified(rows, g, space, target, log)
    requires c != target && c !in Suspended(log) && forall y :: (p, y) in g.uses ==> y == c
    ensures p !in Suspended(log)
  {
    forall i | 0 <= i < |log|
      ensures log[i].source != p
    {
      assert Justified(rows, g, space, target, log, i);
    }
  }

  /** Outside the types, unused children are not enough for an exact set: "team" uses the target and embeds
      "member", which uses "team". The member goes down with the team, so when the team's
      users are looked up it is no longer listed and gets no suspension of its own. */
  lemma MissedChild(log: seq<Entry>, rows': map<Id, Row>)
    requires Outcome(map["team" := LISTED, "member" := LISTED_CHILD],
                     Graph({("team", "target"), ("member", "team")}, map["team" := ["member"]]), "s", "target", log, rows')
    ensures var rows, g := map["team" := LISTED, "member" := LISTED_CHILD],
                           Graph({("team", "target"), ("member", "team")}, map["team" := ["member"]]);
            && ChildrenUnused(rows, g, "s", "target")
            && Affected(rows, g, "s", "target", "member")
            && "member" !in Suspended(log)
  {
    hide Outcome, LogJustified;
    var rows := map["team" := LISTED, "member" := LISTED_CHILD];
    var g := Graph({("team", "target"), ("member", "team")}, map["team" := ["member"]]);
    assert Path(rows, g, "s", "target", ["member", "team", "target"]);
    OutcomeLog(rows, g, "s", "target", log, rows');
    TakenDownFirst(rows, g, "s", "target", log, "team", "member");
  }

  /** And a used child can leave an affected plugin listed: "fan" uses "member", which
      fell with its team without a suspension, and nobody looks up the member's users. */
  lemma StillListed(log: seq<Entry>, rows': map<Id, Row>)
    requires Outcome(map["team" := LISTED, "member" := LISTED_CHILD, "fan" := LISTED],
                     Graph({("team", "target"), ("member", "team"), ("fan", "member")}, map["team" := ["member"]]), "s", "target", log, rows')
    ensures var rows, g := map["team" := LISTED, "member" := LISTED_CHILD, "fan" := LISTED],
                           Graph({("team", "target"), ("member", "team"), ("fan", "member")}, map["team" := ["member"]]);
            Affected(rows, g, "s", "target", "fan") && "fan" in rows' && rows'["fan"].listing == Published
  {
    hide LogJustified, After, Suspended, Clear;
    var rows := map["team" := LISTED, "member" := LISTED_CHILD, "fan" := LISTED];
    var g := Graph({("team", "target"), ("member", "team"), ("fan", "member")}, map["team" := ["member"]]);
    assert Path(rows, g, "s", "target", ["fan", "member", "team", "target"]);
    OutcomeLog(rows, g, "s", "target", log, rows');
    FanStays(rows, g, log, rows');
  }

  lemma FanStays(rows: map<Id, Row>, g: Graph, log: seq<Entry>, rows': map<Id, Row>)
    requires rows == map["team" := LISTED, "member" := LISTED_CHILD, "fan" := LISTED]
    requires g == Graph({("team", "target"), ("member", "team"), ("fan", "member")}, map["team" := ["member"]])
    requires LogJustified(rows, g, "s", "target", log) && After(rows, g, "s", Suspended(log), rows')
    ensures "fan" in rows' && rows'["fan"].listing == Published
  {
    hide LogJustified, Suspended;
    TakenDownFirst(rows, g, "s", "target", log, "team", "member");
    UnheardOf(rows, g, "s", "target", log, "member", "fan");
    assert !Demoted(rows, g, "s", Suspended(log), "fan");
  }

  /** The first of these runs does happen: the team is suspended, the member goes with it,
      and nothing that is left uses either. */
  lemma MissedChildHappens()
    ensures var rows, g := map["team" := LISTED, "member" := LISTED_CHILD],
                           Graph({("team", "target"), ("member", "team")}, map["team" := ["member"]]);
            Outcome(rows, g, "s", "target", [Entry("team", "target")],
                    map["team" := LISTED.(listing := Delisted), "member" := LISTED_CHILD.(listing := Delisted)])
  {
    var rows := map["team" := LISTED, "member" := LISTED_CHILD];
    var g := Graph({("team", "target"), ("member", "team")}, map["team" := ["member"]]);
    var log := [Entry("team", "target")];
    assert Justified(rows, g, "s", "target", log, 0);
    assert log[0] in log && Suspended(log) == {"team"};
    assert IsChild(g, "team", "member");
  }

  /** And so does the second, with a user of the member that stays listed. */
  lemma StillListedHappens()
    ensures var rows, g := map["team" := LISTED, "member" := LISTED_CHILD, "fan" := LISTED],
                           Graph({("team", "target"), ("member", "team"), ("fan", "member")}, map["team" := ["member"]]);
            Outcome(rows, g, "s", "target", [Entry("team", "target")],
                    map["team" := LISTED.(listing := Delisted), "member" := LISTED_CHILD.(listing := Delisted), "fan" := LISTED])
  {
    var rows := map["team" := LISTED, "member" := LISTED_CHILD, "fan" := LISTED];
    var g := Graph({("team", "target"), ("member", "team"), ("fan", "member")}, map["team" := ["member"]]);
    var log := [Entry("team", "target")];
    assert Justified(rows, g, "s", "target", log, 0);
    assert log[0] in log && Suspended(log) == {"team"};
    assert IsChild(g, "team", "member");
  }
}
