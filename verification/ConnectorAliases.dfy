/** Renaming MCP server keys that collide inside one expert,
    internal/migration/connector_aliases.go, and the check that none is left,
    internal/migration/connector_server_keys.go. */
module ConnectorAliases {
  import opened Options
  import FiniteSets
  import Strings
  import opened Tables
  import opened PlannerTypes

  // ------------------------------------------------------------------ labels

  predicate IsWord(c: char) {
    'a' <= c <= 'z' || 'A' <= c <= 'Z' || '0' <= c <= '9' || c == '_'
  }

  const LABEL_LIMIT := 20

  function LabelStep(out: string, c: char): string {
    if IsWord(c) then out + [c]
    else if out != "" && out[|out| - 1] != '-' then out + ['-']
    else out
  }

  function LabelFrom(value: string, out: string): string
    decreases |value|
  {
    if value == "" then out
    else
      var next := LabelStep(out, value[0]);
      if |next| >= LABEL_LIMIT then next else LabelFrom(value[1..], next)
  }

  predicate IsDash(c: char) {
    c == '-'
  }

  function TrimDashes(s: string): string {
    Strings.TrimLeft(Strings.TrimRight(s, IsDash), IsDash)
  }

  /** internal/migration/connector_aliases.go `mcpLabel`. */
  function Label(value: string, fallback: string): string {
    var text := TrimDashes(LabelFrom(value, ""));
    if text == "" then fallback else text
  }

  method MakeLabel(value: string, fallback: string) returns (text: string)
    ensures text == Label(value, fallback)
  {
    var out := "";
    var i := 0;
    while i < |value|
      invariant 0 <= i <= |value|
      invariant LabelFrom(value, "") == LabelFrom(value[i..], out)
    {
      assert value[i..][0] == value[i] && value[i..][1..] == value[i + 1..];
      out := LabelStep(out, value[i]);
      if |out| >= LABEL_LIMIT {
        break;
      }
      i := i + 1;
    }
    assert LabelFrom(value, "") == out by {
      if i == |value| {
        assert value[i..] == "";
      }
    }
    text := TrimDashes(out);
    if text == "" {
      text := fallback;
    }
  }

  predicate AliasText(s: string) {
    forall i :: 0 <= i < |s| ==> IsWord(s[i]) || s[i] == '-'
  }

  lemma {:induction false} LabelFromShape(value: string, out: string)
    requires AliasText(out) && |out| < LABEL_LIMIT
    ensures AliasText(LabelFrom(value, out)) && |LabelFrom(value, out)| <= LABEL_LIMIT
    decreases |value|
  {
    if value != "" {
      var next := LabelStep(out, value[0]);
      assert AliasText(next);
      if |next| < LABEL_LIMIT {
        LabelFromShape(value[1..], next);
      }
    }
  }

  lemma {:induction false} TrimRightShape(s: string)
    requires AliasText(s)
    ensures AliasText(Strings.TrimRight(s, IsDash)) && |Strings.TrimRight(s, IsDash)| <= |s|
  {
    if s != "" && s[|s| - 1] == '-' {
      TrimRightShape(s[..|s| - 1]);
    }
  }

  lemma {:induction false} TrimLeftShape(s: string)
    requires AliasText(s)
    ensures AliasText(Strings.TrimLeft(s, IsDash)) && |Strings.TrimLeft(s, IsDash)| <= |s|
  {
    if s != "" && s[0] == '-' {
      TrimLeftShape(s[1..]);
    }
  }

  lemma LabelShape(value: string, fallback: string)
    requires AliasText(fallback) && 0 < |fallback| <= LABEL_LIMIT
    ensures AliasText(Label(value, fallback)) && 0 < |Label(value, fallback)| <= LABEL_LIMIT
  {
    LabelFromShape(value, "");
    TrimRightShape(LabelFrom(value, ""));
    TrimLeftShape(Strings.TrimRight(LabelFrom(value, ""), IsDash));
  }

  /** The pattern that Fleet accepts for a server key. */
  predicate MatchesAliasPattern(s: string) {
    1 <= |s| <= 64 && AliasText(s)
  }

  function Alias(o: Oracles, d: Draft, key: string, attempt: nat): string {
    Label(key, "mcp") + "-" + Label(d.source.name, "source") + "-" + o.aliasDigest(d.id, key, attempt)
  }

  ghost predicate DigestShape(o: Oracles) {
    forall id, key, attempt :: |o.aliasDigest(id, key, attempt)| == 12 && AliasText(o.aliasDigest(id, key, attempt))
  }

  lemma AliasFits(o: Oracles, d: Draft, key: string, attempt: nat)
    requires DigestShape(o)
    ensures MatchesAliasPattern(Alias(o, d, key, attempt))
  {
    assert AliasText("mcp") && AliasText("source");
    LabelShape(key, "mcp");
    LabelShape(d.source.name, "source");
  }

  // -------------------------------------------------------------- projection

  type Servers = map<string, string>

  /** One step of the projection: `key` is stored under its alias, unless the alias is taken. */
  function ProjectOne(servers: Servers, key: string, alias: string): Option<Servers> {
    if key !in servers || !MatchesAliasPattern(alias) || alias in servers then None
    else Some(servers[alias := servers[key]] - {key})
  }

  /** internal/migration/connector_aliases.go `projectMCPAliases` when the alias map is
      walked in the given order. */
  function Project(order: seq<string>, servers: Servers, aliases: map<string, string>): Option<Servers>
    requires forall k :: k in order ==> k in aliases
    decreases |order|
  {
    if order == [] then Some(servers)
    else
      match ProjectOne(servers, order[0], aliases[order[0]])
      case None => None
      case Some(next) => Project(order[1..], next, aliases)
  }

  /** Every key exists, every alias is well formed and new, and no two keys share one. */
  ghost predicate SafeAliases(servers: Servers, aliases: map<string, string>) {
    && (forall k :: k in aliases ==> k in servers && MatchesAliasPattern(aliases[k]) && aliases[k] !in servers)
    && (forall k, l :: k in aliases && l in aliases && aliases[k] == aliases[l] ==> k == l)
  }

  ghost predicate IsOrder(order: seq<string>, keys: set<string>) {
    && (forall k :: k in order <==> k in keys)
    && (forall i, j :: 0 <= i < j < |order| ==> order[i] != order[j])
  }

  /** `out` has every server of `servers` under its alias or under its own key, and nothing else. */
  ghost predicate Projected(servers: Servers, aliases: map<string, string>, keys: set<string>, out: Servers) {
    && (forall k :: k in servers && k !in keys ==> k in out && out[k] == servers[k])
    && (forall k :: k in servers && k in keys && k in aliases ==> aliases[k] in out && out[aliases[k]] == servers[k])
    && (forall k :: k in out ==> (k in servers && k !in keys) || exists l :: l in keys && l in aliases && l in servers && aliases[l] == k)
  }

  lemma {:induction false} EveryOrderProjects(order: seq<string>, servers: Servers, aliases: map<string, string>)
    requires SafeAliases(servers, aliases) && forall k :: k in order ==> k in aliases
    requires forall i, j :: 0 <= i < j < |order| ==> order[i] != order[j]
    ensures Project(order, servers, aliases).Some?
    ensures Projected(servers, aliases, FiniteSets.Elements(order), Project(order, servers, aliases).value)
    decreases |order|
  {
    hide MatchesAliasPattern;
    if order != [] {
      var key, alias := order[0], aliases[order[0]];
      var next := servers[alias := servers[key]] - {key};
      var rest := map k | k in aliases && k != key :: aliases[k];
      assert ProjectOne(servers, key, alias) == Some(next);
      assert SafeAliases(next, rest);
      ProjectIgnores(order[1..], next, aliases, rest);
      EveryOrderProjects(order[1..], next, rest);
      ProjectedStep(order, servers, aliases, next, rest, Project(order[1..], next, rest).value);
    }
  }

  lemma {:induction false} ProjectIgnores(order: seq<string>, servers: Servers, aliases: map<string, string>, rest: map<string, string>)
    requires forall k :: k in order ==> k in aliases && k in rest && rest[k] == aliases[k]
    ensures Project(order, servers, aliases) == Project(order, servers, rest)
    decreases |order|
  {
    hide MatchesAliasPattern;
    if order != [] {
      match ProjectOne(servers, order[0], aliases[order[0]])
      case None =>
      case Some(next) => ProjectIgnores(order[1..], next, aliases, rest);
    }
  }

  lemma ProjectedStep(order: seq<string>, servers: Servers, aliases: map<string, string>, next: Servers, rest: map<string, string>, out: Servers)
    requires SafeAliases(servers, aliases) && order != [] && forall k :: k in order ==> k in aliases
    requires forall i, j :: 0 <= i < j < |order| ==> order[i] != order[j]
    requires next == servers[aliases[order[0]] := servers[order[0]]] - {order[0]}
    requires rest == map k | k in aliases && k != order[0] :: aliases[k]
    requires Projected(next, rest, FiniteSets.Elements(order[1..]), out)
    ensures Projected(servers, aliases, FiniteSets.Elements(order), out)
  {
    hide MatchesAliasPattern;
    var key, alias := order[0], aliases[order[0]];
    var tail, all := FiniteSets.Elements(order[1..]), FiniteSets.Elements(order);
    assert all == tail + {key} && key !in tail;
    assert alias in next && alias !in tail;
    ProjectedKeys(servers, aliases, key, tail, next, rest, out);
    ProjectedRest(servers, aliases, key, tail, next, rest, out);
  }

  /** Nothing is in the result but what is accounted for. */
  lemma ProjectedKeys(servers: Servers, aliases: map<string, string>, key: string, tail: set<string>, next: Servers, rest: map<string, string>, out: Servers)
    requires key in aliases && key in servers && next == servers[aliases[key] := servers[key]] - {key}
    requires rest == map k | k in aliases && k != key :: aliases[k]
    requires Projected(next, rest, tail, out) && aliases[key] !in servers && aliases[key] !in tail
    ensures forall k :: k in out ==> (k in servers && k !in tail + {key}) || exists l :: l in tail + {key} && l in aliases && l in servers && aliases[l] == k
  {
    forall k | k in out
      ensures (k in servers && k !in tail + {key}) || exists l :: l in tail + {key} && l in aliases && l in servers && aliases[l] == k
    {
      if k in next && k !in tail {
        if k == aliases[key] {
          assert key in tail + {key} && aliases[key] == k;
        }
      } else {
        var l :| l in tail && l in rest && l in next && rest[l] == k;
        assert l in tail + {key} && l in aliases && l in servers && aliases[l] == k;
      }
    }
  }

  /** And everything is accounted for. */
  lemma ProjectedRest(servers: Servers, aliases: map<string, string>, key: string, tail: set<string>, next: Servers, rest: map<string, string>, out: Servers)
    requires key in aliases && key in servers && next == servers[aliases[key] := servers[key]] - {key}
    requires rest == map k | k in aliases && k != key :: aliases[k]
    requires Projected(next, rest, tail, out) && aliases[key] !in servers && aliases[key] !in tail && key !in tail
    ensures forall k :: k in servers && k !in tail + {key} ==> k in out && out[k] == servers[k]
    ensures forall k :: k in servers && k in tail + {key} && k in aliases ==> aliases[k] in out && out[aliases[k]] == servers[k]
  {
    assert aliases[key] in next && next[aliases[key]] == servers[key];
    forall k | k in servers && k in tail && k in aliases
      ensures aliases[k] in out && out[aliases[k]] == servers[k]
    {
      assert k in next && k in rest && rest[k] == aliases[k];
    }
  }

  lemma ProjectedUnique(servers: Servers, aliases: map<string, string>, a: Servers, b: Servers)
    requires SafeAliases(servers, aliases)
    requires Projected(servers, aliases, aliases.Keys, a) && Projected(servers, aliases, aliases.Keys, b)
    ensures a == b
  {
    hide MatchesAliasPattern;
    assert a.Keys == b.Keys;
  }

  /** When the aliases are safe, the order in which the alias map is walked does not matter. */
  lemma OrderDoesNotMatter(first: seq<string>, second: seq<string>, servers: Servers, aliases: map<string, string>)
    requires SafeAliases(servers, aliases) && IsOrder(first, aliases.Keys) && IsOrder(second, aliases.Keys)
    ensures Project(first, servers, aliases).Some?
    ensures Project(first, servers, aliases) == Project(second, servers, aliases)
  {
    hide MatchesAliasPattern, Project;
    EveryOrderProjects(first, servers, aliases);
    EveryOrderProjects(second, servers, aliases);
    assert aliases.Keys == FiniteSets.Elements(first) == FiniteSets.Elements(second);
    ProjectedUnique(servers, aliases, Project(first, servers, aliases).value, Project(second, servers, aliases).value);
  }

  /** The condition is exact: with aliases that are not safe, some order is refused. */
  lemma UnsafeAliasesCanFail(servers: Servers, aliases: map<string, string>) returns (order: seq<string>)
    requires !SafeAliases(servers, aliases)
    ensures IsOrder(order, aliases.Keys) && Project(order, servers, aliases) == None
  {
    hide MatchesAliasPattern;
    if k :| k in aliases && !(k in servers && MatchesAliasPattern(aliases[k]) && aliases[k] !in servers) {
      order := OrderFrom([k], aliases.Keys);
    } else {
      var k, l :| k in aliases && l in aliases && aliases[k] == aliases[l] && k != l;
      order := OrderFrom([k, l], aliases.Keys);
      var next := ProjectOne(servers, k, aliases[k]).value;
      assert order[1..][0] == l && aliases[l] in next;
    }
  }

  lemma {:induction false} OrderFrom(prefix: seq<string>, keys: set<string>) returns (order: seq<string>)
    requires forall k :: k in prefix ==> k in keys
    requires forall i, j :: 0 <= i < j < |prefix| ==> prefix[i] != prefix[j]
    ensures IsOrder(order, keys) && prefix <= order
    decreases |keys - FiniteSets.Elements(prefix)|
  {
    var left := keys - FiniteSets.Elements(prefix);
    if left == {} {
      order := prefix;
    } else {
      var k :| k in left;
      assert keys - FiniteSets.Elements(prefix + [k]) == left - {k};
      order := OrderFrom(prefix + [k], keys);
    }
  }

  /** A concrete alias map whose outcome depends on the order: one alias is another key. */
  lemma OrderCanMatter()
    ensures exists servers: Servers, aliases: map<string, string>, first: seq<string>, second: seq<string> ::
              IsOrder(first, aliases.Keys) && IsOrder(second, aliases.Keys)
              && Project(first, servers, aliases).Some? && Project(second, servers, aliases).None?
  {
    var servers: Servers := map["a" := "x", "b" := "y"];
    var aliases := map["a" := "b", "b" := "c"];
    var first, second := ["b", "a"], ["a", "b"];
    assert IsOrder(first, aliases.Keys) && IsOrder(second, aliases.Keys);
    var next := map["a" := "x", "c" := "y"];
    assert ProjectOne(servers, "b", "c") == Some(next) by {
      assert servers["c" := servers["b"]] - {"b"} == next;
    }
    assert first[1..] == ["a"] && first[1..][1..] == [];
    assert ProjectOne(next, "a", "b").Some?;
    assert Project(first, servers, aliases).Some?;
    assert ProjectOne(servers, "a", "b") == None;
    assert Project(second, servers, aliases).None?;
  }

  /** Walks the alias map in whatever order it comes, and gives up at the first step that
      fails. With safe aliases it never does. */
  method ProjectAliases(servers: Servers, aliases: map<string, string>) returns (projected: Option<Servers>)
    ensures aliases == map[] ==> projected == None
    ensures aliases != map[] ==> exists order :: IsOrder(order, aliases.Keys) && projected == Project(order, servers, aliases)
    ensures aliases != map[] && SafeAliases(servers, aliases) ==> projected.Some? && Projected(servers, aliases, aliases.Keys, projected.value)
  {
    hide MatchesAliasPattern, SafeAliases, Projected, ProjectOne;
    if aliases == map[] {
      return None;
    }
    var current := servers;
    ghost var order: seq<string> := [];
    var pending := aliases.Keys;
    while pending != {}
      invariant pending <= aliases.Keys && IsOrder(order, aliases.Keys - pending)
      invariant Project(order, servers, aliases) == Some(current)
      decreases |pending|
    {
      var key :| key in pending;
      ProjectAppend(order, servers, aliases, key);
      ghost var longer := order + [key];
      assert IsOrder(longer, aliases.Keys - (pending - {key}));
      var next := ProjectOne(current, key, aliases[key]);
      if next.None? {
        ghost var whole := OrderFrom(longer, aliases.Keys);
        FailedPrefix(longer, whole, servers, aliases);
        if SafeAliases(servers, aliases) {
          EveryOrderProjects(whole, servers, aliases);
        }
        return None;
      }
      current := next.value;
      order := longer;
      pending := pending - {key};
    }
    if SafeAliases(servers, aliases) {
      EveryOrderProjects(order, servers, aliases);
    }
    assert FiniteSets.Elements(order) == aliases.Keys;
    projected := Some(current);
  }

  lemma {:induction false} FailedPrefix(prefix: seq<string>, order: seq<string>, servers: Servers, aliases: map<string, string>)
    requires prefix <= order && forall k :: k in order ==> k in aliases
    requires forall k :: k in prefix ==> k in aliases
    requires Project(prefix, servers, aliases) == None
    ensures Project(order, servers, aliases) == None
    decreases |prefix|
  {
    hide ProjectOne;
    assert order[0] == prefix[0];
    match ProjectOne(servers, order[0], aliases[order[0]])
    case None =>
    case Some(next) => FailedPrefix(prefix[1..], order[1..], next, aliases);
  }

  lemma {:induction false} ProjectAppend(order: seq<string>, servers: Servers, aliases: map<string, string>, key: string)
    requires key in aliases && forall k :: k in order ==> k in aliases
    ensures Project(order + [key], servers, aliases) ==
            match Project(order, servers, aliases)
            case None => None
            case Some(current) => ProjectOne(current, key, aliases[key])
    decreases |order|
  {
    hide MatchesAliasPattern, ProjectOne;
    if order == [] {
      assert (order + [key])[1..] == [];
    } else {
      assert (order + [key])[1..] == order[1..] + [key];
      match ProjectOne(servers, order[0], aliases[order[0]])
      case None =>
      case Some(next) => ProjectAppend(order[1..], next, aliases, key);
    }
  }

  // -------------------------------------------------------------- collisions

  function ServersAt(nodes: map<Id, Draft>, id: Id): Servers {
    if id in nodes && nodes[id].plugin.servers.Some? then nodes[id].plugin.servers.value else map[]
  }

  predicate IsExpert(nodes: map<Id, Draft>, e: Id) {
    e in nodes && nodes[e].plugin.kind == Expert
  }

  ghost predicate Links(nodes: map<Id, Draft>, e: Id, id: Id) {
    IsExpert(nodes, e) && exists r :: r in nodes[e].relations && r.kind == ExpertConnector && r.target == id
  }

  ghost predicate Owns(nodes: map<Id, Draft>, e: Id, key: string, id: Id) {
    Links(nodes, e, id) && key in ServersAt(nodes, id)
  }

  /** Two connectors of one expert share `key`, and `id` is one of them. */
  ghost predicate Collides(nodes: map<Id, Draft>, id: Id, key: string) {
    exists e, other :: other != id && Owns(nodes, e, key, id) && Owns(nodes, e, key, other)
  }

  /** What the alias pass promises and the check demands. */
  ghost predicate KeysDistinct(nodes: map<Id, Draft>) {
    forall e, a, b :: a != b && Links(nodes, e, a) && Links(nodes, e, b) ==> ServersAt(nodes, a).Keys !! ServersAt(nodes, b).Keys
  }

  function OwnersAt(owners: map<string, set<Id>>, key: string): set<Id> {
    if key in owners then owners[key] else {}
  }

  /** The connectors among the first `n` edges that have `key`. */
  ghost predicate OwnsWithin(nodes: map<Id, Draft>, relations: seq<Relation>, key: string, id: Id) {
    key in ServersAt(nodes, id) && exists r :: r in relations && r.kind == ExpertConnector && r.target == id
  }

  lemma OwnsWithinStep(nodes: map<Id, Draft>, front: seq<Relation>, r: Relation, key: string, id: Id)
    ensures OwnsWithin(nodes, front + [r], key, id) <==>
            OwnsWithin(nodes, front, key, id) || (r.kind == ExpertConnector && r.target == id && key in ServersAt(nodes, id))
  {
    if OwnsWithin(nodes, front, key, id) {
      var q :| q in front && q.kind == ExpertConnector && q.target == id;
      assert q in front + [r];
    }
    if r.kind == ExpertConnector && r.target == id {
      assert r in front + [r];
    }
  }

  /** The owners of every key among the connectors of one expert. */
  method OwnersOf(nodes: map<Id, Draft>, e: Id) returns (owners: map<string, set<Id>>)
    requires IsExpert(nodes, e)
    ensures forall key, id :: id in OwnersAt(owners, key) <==> Owns(nodes, e, key, id)
  {
    hide OwnsWithin, OwnersAt, ServersAt;
    owners := map[];
    var relations := nodes[e].relations;
    NoOwners(nodes);
    var i := 0;
    while i < |relations|
      invariant 0 <= i <= |relations|
      invariant forall key, id :: id in OwnersAt(owners, key) <==> OwnsWithin(nodes, relations[..i], key, id)
    {
      var r := relations[i];
      assert relations[..i + 1] == relations[..i] + [r];
      forall key, id
        ensures OwnsWithin(nodes, relations[..i + 1], key, id) <==>
                OwnsWithin(nodes, relations[..i], key, id) || (r.kind == ExpertConnector && r.target == id && key in ServersAt(nodes, id))
      {
        OwnsWithinStep(nodes, relations[..i], r, key, id);
      }
      if r.kind == ExpertConnector {
        owners := AddOwner(owners, ServersAt(nodes, r.target).Keys, r.target);
      }
      i := i + 1;
    }
    assert relations[..i] == relations;
    forall key, id
      ensures OwnsWithin(nodes, relations, key, id) <==> Owns(nodes, e, key, id)
    {
      OwnsAll(nodes, e, key, id);
    }
  }

  lemma NoOwners(nodes: map<Id, Draft>)
    ensures forall key, id :: id !in OwnersAt(map[], key) && !OwnsWithin(nodes, [], key, id)
  {
  }

  lemma OwnsAll(nodes: map<Id, Draft>, e: Id, key: string, id: Id)
    requires IsExpert(nodes, e)
    ensures OwnsWithin(nodes, nodes[e].relations, key, id) <==> Owns(nodes, e, key, id)
  {
  }

  /** `id` has become an owner of the keys in `done`. */
  ghost predicate OwnerAdded(owners: map<string, set<Id>>, done: set<string>, id: Id, more: map<string, set<Id>>) {
    forall key :: OwnersAt(more, key) == if key in done then OwnersAt(owners, key) + {id} else OwnersAt(owners, key)
  }

  lemma OwnerAddedStep(owners: map<string, set<Id>>, done: set<string>, id: Id, more: map<string, set<Id>>, key: string)
    requires OwnerAdded(owners, done, id, more) && key !in done
    ensures OwnerAdded(owners, done + {key}, id, more[key := OwnersAt(more, key) + {id}])
  {
    var next := more[key := OwnersAt(more, key) + {id}];
    assert forall k :: k != key ==> OwnersAt(next, k) == OwnersAt(more, k);
  }

  method AddOwner(owners: map<string, set<Id>>, keys: set<string>, id: Id) returns (more: map<string, set<Id>>)
    ensures forall key, x :: x in OwnersAt(more, key) <==> x in OwnersAt(owners, key) || (key in keys && x == id)
  {
    more := owners;
    var pending := keys;
    ghost var done: set<string> := {};
    FiniteSets.Start(keys);
    while pending != {}
      invariant FiniteSets.Splits(keys, done, pending) && OwnerAdded(owners, done, id, more)
      decreases |pending|
    {
      hide OwnerAdded, OwnersAt, FiniteSets.Splits;
      var key :| key in pending;
      FiniteSets.Step(keys, done, pending, key);
      OwnerAddedStep(owners, done, id, more, key);
      more := more[key := OwnersAt(more, key) + {id}];
      pending := pending - {key};
      done := done + {key};
    }
    FiniteSets.End(keys, done);
  }

  lemma AtLeastTwo(s: set<Id>, id: Id)
    requires id in s
    ensures |s| > 1 <==> exists other :: other in s && other != id
  {
    assert |s - {id}| == |s| - 1;
    if |s| > 1 {
      var other :| other in s - {id};
    }
    if s - {id} == {} {
      assert forall other :: other in s ==> other == id;
    }
  }

  /** The (connector, key) pairs that collide inside expert `e`. */
  method CollisionsIn(nodes: map<Id, Draft>, e: Id) returns (pairs: set<(Id, string)>)
    requires IsExpert(nodes, e)
    ensures forall id, key :: (id, key) in pairs <==>
              Owns(nodes, e, key, id) && exists other :: other != id && Owns(nodes, e, key, other)
  {
    hide Owns;
    var owners := OwnersOf(nodes, e);
    pairs := set key, id | key in owners && id in owners[key] && |owners[key]| > 1 :: (id, key);
    assert forall key, id :: id in OwnersAt(owners, key) <==> key in owners && id in owners[key];
    forall id, key
      ensures (id, key) in pairs <==> Owns(nodes, e, key, id) && exists other :: other != id && Owns(nodes, e, key, other)
    {
      if key in owners && id in owners[key] {
        AtLeastTwo(owners[key], id);
      }
    }
  }

  method Collisions(nodes: map<Id, Draft>) returns (pairs: set<(Id, string)>)
    ensures forall id, key :: (id, key) in pairs <==> Collides(nodes, id, key)
  {
    hide Owns;
    pairs := {};
    var pending := nodes.Keys;
    while pending != {}
      invariant pending <= nodes.Keys
      invariant forall id, key :: (id, key) in pairs <==>
                  exists e, other :: e in nodes && e !in pending && other != id && Owns(nodes, e, key, id) && Owns(nodes, e, key, other)
      decreases |pending|
    {
      var e :| e in pending;
      pending := pending - {e};
      if IsExpert(nodes, e) {
        var more := CollisionsIn(nodes, e);
        pairs := pairs + more;
      } else {
        OwnsNeedsExpert(nodes, e);
      }
    }
    forall id, key
      ensures (id, key) in pairs <==> Collides(nodes, id, key)
    {
      if Collides(nodes, id, key) {
        var e, other :| other != id && Owns(nodes, e, key, id) && Owns(nodes, e, key, other);
        OwnsKnown(nodes, e, key, id);
      }
    }
  }

  lemma OwnsNeedsExpert(nodes: map<Id, Draft>, e: Id)
    requires !IsExpert(nodes, e)
    ensures forall key, id :: !Owns(nodes, e, key, id)
  {
  }

  lemma OwnsKnown(nodes: map<Id, Draft>, e: Id, key: string, id: Id)
    requires Owns(nodes, e, key, id)
    ensures e in nodes && id in nodes && key in ServersAt(nodes, id)
  {
  }

  // ----------------------------------------------------------------- aliases

  function AllKeys(nodes: map<Id, Draft>): set<string> {
    set id, key | id in nodes && key in ServersAt(nodes, id) :: key
  }

  function KeyPairs(nodes: map<Id, Draft>): set<(Id, string)> {
    set id, key | id in nodes && key in ServersAt(nodes, id) :: (id, key)
  }

  /** The twelve-digit digests of successive attempts avoid any small set of aliases. */
  ghost predicate AttemptsSpread(o: Oracles, limit: nat) {
    forall d, key, used :: |used| <= limit ==> SomeAttemptFresh(o, d, key, used)
  }

  ghost predicate SomeAttemptFresh(o: Oracles, d: Draft, key: string, used: set<string>) {
    exists attempt :: Alias(o, d, key, attempt) !in used
  }

  /** Every pair has an alias of the accepted form that is no server key and nobody else's alias. */
  ghost predicate FreshAliases(keys: set<string>, pairs: set<(Id, string)>, chosen: map<(Id, string), string>) {
    && chosen.Keys == pairs
    && (forall p :: p in chosen ==> MatchesAliasPattern(chosen[p]) && chosen[p] !in keys)
    && (forall p, q :: p in chosen && q in chosen && chosen[p] == chosen[q] ==> p == q)
  }

  method FirstFresh(o: Oracles, d: Draft, key: string, used: set<string>, ghost bound: nat) returns (alias: string)
    requires DigestShape(o) && Alias(o, d, key, bound) !in used
    ensures alias !in used && MatchesAliasPattern(alias)
  {
    hide Alias, DigestShape, MatchesAliasPattern;
    var attempt := 0;
    alias := Alias(o, d, key, attempt);
    while alias in used
      invariant attempt <= bound && alias == Alias(o, d, key, attempt)
      decreases bound - attempt
    {
      attempt := attempt + 1;
      alias := Alias(o, d, key, attempt);
    }
    AliasFits(o, d, key, attempt);
  }

  /** Chooses an alias for every colliding pair, never one that is already in use. */
  method ChooseAliases(o: Oracles, nodes: map<Id, Draft>, pairs: set<(Id, string)>) returns (chosen: map<(Id, string), string>)
    requires DigestShape(o) && pairs <= KeyPairs(nodes)
    requires AttemptsSpread(o, 2 * |KeyPairs(nodes)|)
    ensures FreshAliases(AllKeys(nodes), pairs, chosen)
  {
    hide *;
    KeysBounded(nodes);
    FiniteSets.Subset(pairs, KeyPairs(nodes));
    var keys := AllKeys(nodes);
    var used := keys;
    chosen := map[];
    NoAliases(keys);
    ghost var done: set<(Id, string)> := {};
    var pending := pairs;
    while pending != {}
      invariant pending <= pairs && done == pairs - pending
      invariant FreshAliases(keys, done, chosen)
      invariant AllUsed(keys, chosen, used)
      invariant |used| + |pending| <= |keys| + |pairs|
      decreases |pending|
    {
      var p :| p in pending;
      assert p.0 in nodes by { PairKnown(nodes, p); }
      ghost var attempt := FreshAttempt(o, nodes[p.0], p.1, used, 2 * |KeyPairs(nodes)|);
      var alias := FirstFresh(o, nodes[p.0], p.1, used, attempt);
      FreshStep(keys, done, chosen, used, p, alias);
      used := used + {alias};
      chosen := chosen[p := alias];
      done := done + {p};
      pending := pending - {p};
    }
    assert done == pairs;
  }

  /** `used` holds all server keys and all aliases chosen so far. */
  ghost predicate AllUsed(keys: set<string>, chosen: map<(Id, string), string>, used: set<string>) {
    keys <= used && forall p :: p in chosen ==> chosen[p] in used
  }

  lemma NoAliases(keys: set<string>)
    ensures FreshAliases(keys, {}, map[])
    ensures AllUsed(keys, map[], keys)
  {
  }

  lemma FreshAttempt(o: Oracles, d: Draft, key: string, used: set<string>, limit: nat) returns (attempt: nat)
    requires AttemptsSpread(o, limit) && |used| <= limit
    ensures Alias(o, d, key, attempt) !in used
  {
    hide Alias;
    assert SomeAttemptFresh(o, d, key, used);
    attempt :| Alias(o, d, key, attempt) !in used;
  }

  lemma FreshStep(keys: set<string>, pairs: set<(Id, string)>, chosen: map<(Id, string), string>, used: set<string>, p: (Id, string), alias: string)
    requires FreshAliases(keys, pairs, chosen) && AllUsed(keys, chosen, used) && p !in pairs
    requires alias !in used && MatchesAliasPattern(alias)
    ensures FreshAliases(keys, pairs + {p}, chosen[p := alias]) && AllUsed(keys, chosen[p := alias], used + {alias})
  {
    hide MatchesAliasPattern;
  }

  lemma PairKnown(nodes: map<Id, Draft>, p: (Id, string))
    requires p in KeyPairs(nodes)
    ensures p.0 in nodes && p.1 in ServersAt(nodes, p.0) && p.1 in AllKeys(nodes)
  {
  }

  lemma KeysBounded(nodes: map<Id, Draft>)
    ensures |AllKeys(nodes)| <= |KeyPairs(nodes)|
  {
    var pairs := KeyPairs(nodes);
    assert AllKeys(nodes) == Seconds(pairs) by {
      forall key | key in AllKeys(nodes)
        ensures key in Seconds(pairs)
      {
        var id :| id in nodes && key in ServersAt(nodes, id);
        assert (id, key) in pairs;
      }
    }
    SecondsBounded(pairs);
  }

  function Seconds(pairs: set<(Id, string)>): set<string> {
    set p | p in pairs :: p.1
  }

  lemma {:induction false} SecondsBounded(pairs: set<(Id, string)>)
    ensures |Seconds(pairs)| <= |pairs|
  {
    if pairs != {} {
      var p :| p in pairs;
      SecondsBounded(pairs - {p});
      assert Seconds(pairs) == Seconds(pairs - {p}) + {p.1};
    }
  }

  // ---------------------------------------------------------------- the pass

  /** The aliases of one connector. */
  function AliasesFor(chosen: map<(Id, string), string>, id: Id): map<string, string> {
    map p | p in chosen && p.0 == id :: p.1 := chosen[p]
  }

  function WithServers(d: Draft, servers: Servers): Draft {
    d.(plugin := d.plugin.(servers := Some(servers)))
  }

  /** Only server maps differ. */
  ghost predicate SameButServers(before: map<Id, Draft>, after: map<Id, Draft>) {
    && before.Keys == after.Keys
    && forall id :: id in before ==> after[id] == before[id].(plugin := before[id].plugin.(servers := after[id].plugin.servers))
  }

  /** Every connector has its servers under the chosen aliases, values untouched. */
  ghost predicate Aliased(before: map<Id, Draft>, chosen: map<(Id, string), string>, done: set<Id>, after: map<Id, Draft>) {
    forall id :: id in before ==>
      if id in done then Projected(ServersAt(before, id), AliasesFor(chosen, id), AliasesFor(chosen, id).Keys, ServersAt(after, id))
      else ServersAt(after, id) == ServersAt(before, id)
  }

  lemma AliasesSafe(nodes: map<Id, Draft>, pairs: set<(Id, string)>, chosen: map<(Id, string), string>, id: Id)
    requires FreshAliases(AllKeys(nodes), pairs, chosen) && pairs <= KeyPairs(nodes)
    ensures SafeAliases(ServersAt(nodes, id), AliasesFor(chosen, id))
  {
    hide MatchesAliasPattern;
    forall k | k in AliasesFor(chosen, id)
      ensures k in ServersAt(nodes, id) && MatchesAliasPattern(AliasesFor(chosen, id)[k]) && AliasesFor(chosen, id)[k] !in ServersAt(nodes, id)
      ensures (id, k) in chosen && AliasesFor(chosen, id)[k] == chosen[(id, k)]
    {
      assert (id, k) in chosen;
    }
  }

  /** internal/migration/connector_aliases.go `aliasConnectorServerKeys`. */
  method AliasConnectorServerKeys(o: Oracles, nodes: map<Id, Draft>)
    returns (aliased: map<Id, Draft>, chosen: map<(Id, string), string>, issues: seq<Issue>)
    requires DigestShape(o) && AttemptsSpread(o, 2 * |KeyPairs(nodes)|)
    ensures SameButServers(nodes, aliased)
    ensures forall id, key :: (id, key) in chosen <==> Collides(nodes, id, key)
    ensures FreshAliases(AllKeys(nodes), chosen.Keys, chosen)
    ensures Aliased(nodes, chosen, nodes.Keys, aliased)
    ensures DocumentsFit(o) ==> issues == []
  {
    hide *;
    var pairs := Collisions(nodes);
    assert pairs <= KeyPairs(nodes) by { CollidingPairsKnown(nodes, pairs); }
    chosen := ChooseAliases(o, nodes, pairs);
    assert chosen.Keys == pairs by { ChosenKeys(AllKeys(nodes), pairs, chosen); }
    aliased, issues := ApplyAliases(o, nodes, pairs, chosen);
  }

  lemma ChosenKeys(keys: set<string>, pairs: set<(Id, string)>, chosen: map<(Id, string), string>)
    requires FreshAliases(keys, pairs, chosen)
    ensures chosen.Keys == pairs
  {
  }

  lemma CollidingPairsKnown(nodes: map<Id, Draft>, pairs: set<(Id, string)>)
    requires forall id, key :: (id, key) in pairs <==> Collides(nodes, id, key)
    ensures pairs <= KeyPairs(nodes)
  {
    hide Owns;
    forall p | p in pairs
      ensures p in KeyPairs(nodes)
    {
      assert (p.0, p.1) == p;
      var e, other :| other != p.0 && Owns(nodes, e, p.1, p.0) && Owns(nodes, e, p.1, other);
      OwnsKnown(nodes, e, p.1, p.0);
    }
  }

  method ApplyAliases(o: Oracles, nodes: map<Id, Draft>, pairs: set<(Id, string)>, chosen: map<(Id, string), string>)
    returns (aliased: map<Id, Draft>, issues: seq<Issue>)
    requires FreshAliases(AllKeys(nodes), pairs, chosen) && pairs <= KeyPairs(nodes)
    ensures SameButServers(nodes, aliased)
    ensures Aliased(nodes, chosen, nodes.Keys, aliased)
    ensures DocumentsFit(o) ==> issues == []
  {
    hide *;
    aliased, issues := nodes, [];
    NothingAliased(nodes, chosen);
    ghost var done: set<Id> := {};
    var pending := nodes.Keys;
    FiniteSets.Start(nodes.Keys);
    while pending != {}
      invariant FiniteSets.Splits(nodes.Keys, done, pending)
      invariant SameButServers(nodes, aliased) && aliased.Keys == nodes.Keys
      invariant AsBefore(nodes, aliased, pending)
      invariant Aliased(nodes, chosen, done, aliased)
      invariant DocumentsFit(o) ==> issues == []
      decreases |pending|
    {
      var id :| id in pending;
      AsBeforeAt(nodes, aliased, pending, id);
      FiniteSets.Step(nodes.Keys, done, pending, id);
      var next, fits := AliasOne(o, nodes, pairs, chosen, done, aliased, id);
      if !fits {
        issues := issues + [Issue(next[id].sourceId, "files_invalid")];
      }
      AsBeforeStep(nodes, aliased, next, pending, id);
      aliased := next;
      done := done + {id};
      pending := pending - {id};
    }
    FiniteSets.End(nodes.Keys, done);
  }

  /** The nodes in `ids` are as they were. */
  ghost predicate AsBefore(nodes: map<Id, Draft>, aliased: map<Id, Draft>, ids: set<Id>) {
    forall id :: id in ids ==> id in nodes && id in aliased && aliased[id] == nodes[id]
  }

  lemma AsBeforeAt(nodes: map<Id, Draft>, aliased: map<Id, Draft>, ids: set<Id>, id: Id)
    requires AsBefore(nodes, aliased, ids) && id in ids
    ensures id in nodes && id in aliased && aliased[id] == nodes[id]
  {
  }

  lemma AsBeforeStep(nodes: map<Id, Draft>, aliased: map<Id, Draft>, next: map<Id, Draft>, ids: set<Id>, id: Id)
    requires AsBefore(nodes, aliased, ids) && next.Keys == aliased.Keys
    requires forall x :: x in nodes && x != id ==> x in next && x in aliased && next[x] == aliased[x]
    ensures AsBefore(nodes, next, ids - {id})
  {
  }

  method AliasOne(o: Oracles, nodes: map<Id, Draft>, pairs: set<(Id, string)>, chosen: map<(Id, string), string>, ghost done: set<Id>, aliased: map<Id, Draft>, id: Id)
    returns (next: map<Id, Draft>, fits: bool)
    requires SameButServers(nodes, aliased) && aliased.Keys == nodes.Keys && Aliased(nodes, chosen, done, aliased)
    requires FreshAliases(AllKeys(nodes), pairs, chosen) && pairs <= KeyPairs(nodes)
    requires id in nodes && aliased[id] == nodes[id]
    ensures SameButServers(nodes, next) && next.Keys == nodes.Keys && Aliased(nodes, chosen, done + {id}, next)
    ensures forall x :: x in nodes && x != id ==> next[x] == aliased[x]
    ensures DocumentsFit(o) ==> fits
  {
    hide *;
    Fitting(o);
    AliasesSafe(nodes, pairs, chosen, id);
    var projected := ProjectAliases(ServersAt(nodes, id), AliasesFor(chosen, id));
    if projected.None? {
      UnaliasedStep(nodes, chosen, done, aliased, id);
      return aliased, true;
    }
    AliasedStep(nodes, chosen, done, aliased, id, projected.value);
    next := aliased[id := WithServers(aliased[id], projected.value)];
    fits := o.filesFit(next[id].plugin);
  }

  lemma Fitting(o: Oracles)
    ensures DocumentsFit(o) ==> forall p :: o.manifestParses(p) && o.filesFit(p)
  {
  }

  lemma NothingAliased(nodes: map<Id, Draft>, chosen: map<(Id, string), string>)
    ensures SameButServers(nodes, nodes) && Aliased(nodes, chosen, {}, nodes) && AsBefore(nodes, nodes, nodes.Keys)
  {
  }

  lemma AliasedStep(before: map<Id, Draft>, chosen: map<(Id, string), string>, done: set<Id>, after: map<Id, Draft>, id: Id, servers: Servers)
    requires SameButServers(before, after) && Aliased(before, chosen, done, after) && id in before
    requires Projected(ServersAt(before, id), AliasesFor(chosen, id), AliasesFor(chosen, id).Keys, servers)
    ensures SameButServers(before, after[id := WithServers(after[id], servers)])
    ensures Aliased(before, chosen, done + {id}, after[id := WithServers(after[id], servers)])
  {
    ServersChanged(before, after, id, servers);
    OthersUnchanged(after, id, servers);
    var next := after[id := WithServers(after[id], servers)];
    hide Projected, AliasesFor, ServersAt, SameButServers, WithServers;
    forall x | x in before
      ensures if x in done + {id} then Projected(ServersAt(before, x), AliasesFor(chosen, x), AliasesFor(chosen, x).Keys, ServersAt(next, x))
              else ServersAt(next, x) == ServersAt(before, x)
    {
      assert x != id ==> ServersAt(next, x) == ServersAt(after, x);
    }
  }

  lemma ServersChanged(before: map<Id, Draft>, after: map<Id, Draft>, id: Id, servers: Servers)
    requires SameButServers(before, after) && id in before
    ensures SameButServers(before, after[id := WithServers(after[id], servers)])
  {
  }

  lemma OthersUnchanged(after: map<Id, Draft>, id: Id, servers: Servers)
    requires id in after
    ensures var next := after[id := WithServers(after[id], servers)];
            ServersAt(next, id) == servers && forall x :: x != id ==> ServersAt(next, x) == ServersAt(after, x)
  {
  }

  lemma UnaliasedStep(before: map<Id, Draft>, chosen: map<(Id, string), string>, done: set<Id>, after: map<Id, Draft>, id: Id)
    requires Aliased(before, chosen, done, after) && id in before && id in after && after[id] == before[id]
    requires AliasesFor(chosen, id) == map[]
    ensures Aliased(before, chosen, done + {id}, after)
  {
    hide AliasesFor;
  }

  // --------------------------------------------------------------- the check

  /** Projecting the original document again, in whatever order the alias map is walked,
      gives the servers that the pass left: internal/migration/connector_aliases.go:160-196. */
  lemma ProjectionReproduces(before: map<Id, Draft>, chosen: map<(Id, string), string>, after: map<Id, Draft>, id: Id, order: seq<string>)
    requires FreshAliases(AllKeys(before), chosen.Keys, chosen) && chosen.Keys <= KeyPairs(before)
    requires Aliased(before, chosen, before.Keys, after) && id in before
    requires IsOrder(order, AliasesFor(chosen, id).Keys)
    ensures Project(order, ServersAt(before, id), AliasesFor(chosen, id)) == Some(ServersAt(after, id))
  {
    hide MatchesAliasPattern, Project, Projected, FreshAliases, SafeAliases, AliasesFor, KeyPairs;
    var servers, aliases := ServersAt(before, id), AliasesFor(chosen, id);
    AliasesSafe(before, chosen.Keys, chosen, id);
    EveryOrderProjects(order, servers, aliases);
    assert FiniteSets.Elements(order) == aliases.Keys;
    ProjectedUnique(servers, aliases, Project(order, servers, aliases).value, ServersAt(after, id));
  }

  lemma ProjectedRenames(servers: Servers, aliases: map<string, string>, out: Servers)
    requires SafeAliases(servers, aliases) && Projected(servers, aliases, aliases.Keys, out)
    ensures SameServers(servers, out)
  {
    hide MatchesAliasPattern;
    var names := map k | k in servers :: if k in aliases then aliases[k] else k;
    forall k | k in out
      ensures k in names.Values
    {
      if k in servers && k !in aliases {
        assert names[k] == k;
      } else {
        var l :| l in aliases && l in servers && aliases[l] == k;
        assert names[l] == k;
      }
    }
    assert out.Keys == names.Values;
    assert Renames(names, servers, out);
  }

  /** The pass renames server keys and does nothing else to the servers. */
  lemma AliasedIsRenamed(before: map<Id, Draft>, chosen: map<(Id, string), string>, after: map<Id, Draft>, id: Id)
    requires forall x, key :: (x, key) in chosen <==> Collides(before, x, key)
    requires FreshAliases(AllKeys(before), chosen.Keys, chosen) && Aliased(before, chosen, before.Keys, after) && id in before
    ensures SameServers(ServersAt(before, id), ServersAt(after, id))
  {
    hide FreshAliases, Collides, AllKeys, KeyPairs, AliasesFor, Projected, SafeAliases, SameServers, ServersAt;
    CollidingPairsKnown(before, chosen.Keys);
    AliasesSafe(before, chosen.Keys, chosen, id);
    ProjectedRenames(ServersAt(before, id), AliasesFor(chosen, id), ServersAt(after, id));
  }

  /** After the pass no expert has two connectors with a server key in common. */
  lemma AliasedKeysDistinct(before: map<Id, Draft>, chosen: map<(Id, string), string>, after: map<Id, Draft>)
    requires SameButServers(before, after)
    requires forall id, key :: (id, key) in chosen <==> Collides(before, id, key)
    requires FreshAliases(AllKeys(before), chosen.Keys, chosen)
    requires Aliased(before, chosen, before.Keys, after)
    ensures KeysDistinct(after)
  {
    hide Projected, FreshAliases, Collides, ServersAt, Links;
    forall e, a, b | a != b && Links(after, e, a) && Links(after, e, b)
      ensures ServersAt(after, a).Keys !! ServersAt(after, b).Keys
    {
      LinksKept(before, after, e, a);
      LinksKept(before, after, e, b);
      if key :| key in ServersAt(after, a) && key in ServersAt(after, b) {
        var l := Origin(before, chosen, after, a, key);
        var m := Origin(before, chosen, after, b, key);
        if (a, l) in chosen && (b, m) in chosen {
          AliasesDiffer(before, chosen, (a, l), (b, m));
        } else if (a, l) in chosen {
          AliasIsNoKey(before, chosen, (a, l), b, m);
        } else if (b, m) in chosen {
          AliasIsNoKey(before, chosen, (b, m), a, l);
        } else {
          SharedKeyCollides(before, e, a, b, key);
        }
      }
    }
  }

  lemma LinksKept(before: map<Id, Draft>, after: map<Id, Draft>, e: Id, id: Id)
    requires SameButServers(before, after) && Links(after, e, id)
    ensures Links(before, e, id)
  {
  }

  lemma SharedKeyCollides(nodes: map<Id, Draft>, e: Id, a: Id, b: Id, key: string)
    requires a != b && Links(nodes, e, a) && Links(nodes, e, b) && key in ServersAt(nodes, a) && key in ServersAt(nodes, b)
    ensures Collides(nodes, a, key)
  {
    assert Owns(nodes, e, key, a) && Owns(nodes, e, key, b);
  }

  lemma AliasesDiffer(nodes: map<Id, Draft>, chosen: map<(Id, string), string>, p: (Id, string), q: (Id, string))
    requires FreshAliases(AllKeys(nodes), chosen.Keys, chosen) && p in chosen && q in chosen && p != q
    ensures chosen[p] != chosen[q]
  {
  }

  lemma AliasIsNoKey(nodes: map<Id, Draft>, chosen: map<(Id, string), string>, p: (Id, string), id: Id, key: string)
    requires FreshAliases(AllKeys(nodes), chosen.Keys, chosen) && p in chosen && key in ServersAt(nodes, id)
    ensures chosen[p] != key
  {
    assert id in nodes;
  }

  /** Where a key of the aliased map comes from: an original key, or the alias of one. */
  lemma Origin(before: map<Id, Draft>, chosen: map<(Id, string), string>, after: map<Id, Draft>, id: Id, key: string) returns (l: string)
    requires SameButServers(before, after) && Aliased(before, chosen, before.Keys, after) && key in ServersAt(after, id)
    ensures l in ServersAt(before, id)
    ensures if (id, l) in chosen then chosen[(id, l)] == key else l == key
  {
    var mine := AliasesFor(chosen, id);
    assert id in before;
    assert Projected(ServersAt(before, id), mine, mine.Keys, ServersAt(after, id));
    if key in ServersAt(before, id) && key !in mine {
      l := key;
      assert (id, l) in chosen ==> l in mine;
    } else {
      l :| l in mine && l in ServersAt(before, id) && mine[l] == key;
      assert (id, l) in chosen;
    }
  }

  /** Records `id` as the latest owner of every key, and whether someone else was. */
  method NoteOwner(owners: map<string, Id>, keys: set<string>, id: Id) returns (more: map<string, Id>, clash: bool)
    ensures forall k :: k in more <==> k in owners || k in keys
    ensures forall k :: k in more ==> more[k] == if k in keys then id else owners[k]
    ensures clash <==> exists k :: k in keys && k in owners && owners[k] != id
  {
    more, clash := owners, false;
    var pending := keys;
    while pending != {}
      invariant pending <= keys
      invariant forall k :: k in more <==> k in owners || (k in keys && k !in pending)
      invariant forall k :: k in keys && k !in pending ==> more[k] == id
      invariant forall k :: k in owners && !(k in keys && k !in pending) ==> more[k] == owners[k]
      invariant forall k :: k in keys && k !in pending && k in owners && owners[k] != id ==> clash
      invariant clash ==> exists k :: k in keys && k in owners && owners[k] != id
      decreases |pending|
    {
      var name :| name in pending;
      if name in more && more[name] != id {
        clash := true;
      }
      more := more[name := id];
      pending := pending - {name};
    }
  }

  /** Two connectors among `relations` share a key. */
  ghost predicate Shared(nodes: map<Id, Draft>, relations: seq<Relation>) {
    exists key, a, b :: a != b && OwnsWithin(nodes, relations, key, a) && OwnsWithin(nodes, relations, key, b)
  }

  /** The scan so far: the latest owner of every key, and whether any key had two. */
  ghost predicate Scanned(nodes: map<Id, Draft>, relations: seq<Relation>, owners: map<string, Id>, conflict: bool) {
    && (forall key :: key in owners ==> OwnsWithin(nodes, relations, key, owners[key]))
    && (forall key, id :: OwnsWithin(nodes, relations, key, id) ==> key in owners && (!conflict ==> owners[key] == id))
    && (conflict ==> Shared(nodes, relations))
  }

  lemma ScanStep(nodes: map<Id, Draft>, front: seq<Relation>, owners: map<string, Id>, conflict: bool,
                 r: Relation, more: map<string, Id>, clash: bool)
    requires Scanned(nodes, front, owners, conflict) && r.kind == ExpertConnector
    requires forall k :: k in more <==> k in owners || k in ServersAt(nodes, r.target)
    requires forall k :: k in more ==> more[k] == if k in ServersAt(nodes, r.target) then r.target else owners[k]
    requires clash <==> exists k :: k in ServersAt(nodes, r.target) && k in owners && owners[k] != r.target
    ensures Scanned(nodes, front + [r], more, conflict || clash)
  {
    hide OwnsWithin, ServersAt;
    forall key, id
      ensures OwnsWithin(nodes, front + [r], key, id) <==>
              OwnsWithin(nodes, front, key, id) || (r.target == id && key in ServersAt(nodes, r.target))
    {
      OwnsWithinStep(nodes, front, r, key, id);
    }
    if conflict {
      var key, a, b :| a != b && OwnsWithin(nodes, front, key, a) && OwnsWithin(nodes, front, key, b);
      assert OwnsWithin(nodes, front + [r], key, a) && OwnsWithin(nodes, front + [r], key, b);
    }
    if clash {
      var k :| k in ServersAt(nodes, r.target) && k in owners && owners[k] != r.target;
      assert OwnsWithin(nodes, front + [r], k, owners[k]) && OwnsWithin(nodes, front + [r], k, r.target);
    }
  }

  lemma ScanSkip(nodes: map<Id, Draft>, front: seq<Relation>, owners: map<string, Id>, conflict: bool, r: Relation)
    requires Scanned(nodes, front, owners, conflict) && r.kind != ExpertConnector
    ensures Scanned(nodes, front + [r], owners, conflict)
  {
    hide OwnsWithin;
    forall key, id
      ensures OwnsWithin(nodes, front + [r], key, id) <==> OwnsWithin(nodes, front, key, id)
    {
      OwnsWithinStep(nodes, front, r, key, id);
    }
    if conflict {
      var key, a, b :| a != b && OwnsWithin(nodes, front, key, a) && OwnsWithin(nodes, front, key, b);
      assert OwnsWithin(nodes, front + [r], key, a) && OwnsWithin(nodes, front + [r], key, b);
    }
  }

  /** One expert of internal/migration/connector_server_keys.go `connectorServerKeyIssues`. */
  method ServerKeyConflict(nodes: map<Id, Draft>, e: Id) returns (conflict: bool)
    requires IsExpert(nodes, e)
    ensures conflict <==> exists id, key, other :: other != id && Owns(nodes, e, key, id) && Owns(nodes, e, key, other)
  {
    hide OwnsWithin, Scanned, ServersAt, Owns;
    var relations := nodes[e].relations;
    var owners: map<string, Id> := map[];
    conflict := false;
    assert Scanned(nodes, relations[..0], owners, false) by { NothingScanned(nodes, relations); }
    var i := 0;
    while i < |relations|
      invariant 0 <= i <= |relations|
      invariant Scanned(nodes, relations[..i], owners, conflict)
    {
      var r := relations[i];
      assert relations[..i + 1] == relations[..i] + [r];
      if r.kind == ExpertConnector {
        var more, clash := NoteOwner(owners, ServersAt(nodes, r.target).Keys, r.target);
        ScanStep(nodes, relations[..i], owners, conflict, r, more, clash);
        owners, conflict := more, conflict || clash;
      } else {
        ScanSkip(nodes, relations[..i], owners, conflict, r);
      }
      i := i + 1;
    }
    assert relations[..i] == relations;
    ScanVerdict(nodes, e, owners, conflict);
  }

  lemma NothingScanned(nodes: map<Id, Draft>, relations: seq<Relation>)
    ensures Scanned(nodes, relations[..0], map[], false)
  {
  }

  lemma ScanVerdict(nodes: map<Id, Draft>, e: Id, owners: map<string, Id>, conflict: bool)
    requires IsExpert(nodes, e) && Scanned(nodes, nodes[e].relations, owners, conflict)
    ensures conflict <==> exists id, key, other :: other != id && Owns(nodes, e, key, id) && Owns(nodes, e, key, other)
  {
    hide OwnsWithin, Owns;
    forall key, id
      ensures OwnsWithin(nodes, nodes[e].relations, key, id) <==> Owns(nodes, e, key, id)
    {
      OwnsAll(nodes, e, key, id);
    }
    if conflict {
      var key, a, b :| a != b && OwnsWithin(nodes, nodes[e].relations, key, a) && OwnsWithin(nodes, nodes[e].relations, key, b);
      assert Owns(nodes, e, key, a) && Owns(nodes, e, key, b);
    }
  }

  lemma DistinctKeysPass(nodes: map<Id, Draft>, e: Id, id: Id, other: Id, key: string)
    requires KeysDistinct(nodes) && id != other && Owns(nodes, e, key, id)
    ensures !Owns(nodes, e, key, other)
  {
  }
}
