/** Distinct display names for connectors that are installed together,
    internal/migration/connector_names.go, and the check that they are distinct,
    internal/migration/final_contract.go `connectorNameIssues`. */
module ConnectorNames {
  import opened Options
  import FiniteSets
  import opened Tables
  import opened PlannerTypes
  import Decimal

  // ------------------------------------------------------------ reachability

  ghost predicate Edge(nodes: map<Id, Draft>, a: Id, b: Id) {
    a in nodes && exists r :: r in nodes[a].relations && r.target == b
  }

  ghost predicate IsPath(nodes: map<Id, Draft>, path: seq<Id>) {
    forall i :: 0 <= i < |path| - 1 ==> Edge(nodes, path[i], path[i + 1])
  }

  ghost predicate Reaches(nodes: map<Id, Draft>, a: Id, b: Id) {
    exists path :: |path| > 0 && path[0] == a && path[|path| - 1] == b && IsPath(nodes, path)
  }

  lemma ReachesStep(nodes: map<Id, Draft>, a: Id, b: Id, r: Relation)
    requires Reaches(nodes, a, b) && b in nodes && r in nodes[b].relations
    ensures Reaches(nodes, a, r.target)
  {
    var path :| |path| > 0 && path[0] == a && path[|path| - 1] == b && IsPath(nodes, path);
    var longer := path + [r.target];
    assert Edge(nodes, b, r.target);
    assert forall i :: 0 <= i < |path| ==> longer[i] == path[i];
    assert IsPath(nodes, longer);
  }

  function Targets(relations: seq<Relation>): set<Id> {
    set r | r in relations :: r.target
  }

  /** All identities that the search can meet. */
  function Universe(nodes: map<Id, Draft>): set<Id> {
    nodes.Keys + set id, r | id in nodes && r in nodes[id].relations :: r.target
  }

  /** `seen` contains the targets of its own nodes, except those still open. */
  ghost predicate ClosedBut(nodes: map<Id, Draft>, seen: set<Id>, open: set<Id>) {
    forall id :: id in seen && id !in open && id in nodes ==> Targets(nodes[id].relations) <= seen
  }

  lemma ClosedCoversReach(nodes: map<Id, Draft>, seen: set<Id>, a: Id, b: Id)
    requires ClosedBut(nodes, seen, {}) && a in seen && Reaches(nodes, a, b)
    ensures b in seen
  {
    var path :| |path| > 0 && path[0] == a && path[|path| - 1] == b && IsPath(nodes, path);
    PathStaysInside(nodes, seen, path, |path| - 1);
  }

  lemma {:induction false} PathStaysInside(nodes: map<Id, Draft>, seen: set<Id>, path: seq<Id>, k: nat)
    requires ClosedBut(nodes, seen, {}) && k < |path| && path[0] in seen && IsPath(nodes, path)
    ensures path[k] in seen
  {
    if k > 0 {
      PathStaysInside(nodes, seen, path, k - 1);
      assert Edge(nodes, path[k - 1], path[k]);
      var r :| r in nodes[path[k - 1]].relations && r.target == path[k];
      assert r.target in Targets(nodes[path[k - 1]].relations);
    }
  }

  /** The depth-first visit shared by both passes. */
  method Visit(nodes: map<Id, Draft>, ghost root: Id, current: Id, seen: set<Id>, ghost open: set<Id>) returns (after: set<Id>)
    requires current in Universe(nodes) && seen <= Universe(nodes) && open <= seen
    requires Reaches(nodes, root, current) && forall x :: x in seen ==> Reaches(nodes, root, x)
    requires ClosedBut(nodes, seen, open)
    ensures seen <= after <= Universe(nodes) && current in after
    ensures forall x :: x in after ==> Reaches(nodes, root, x)
    ensures ClosedBut(nodes, after, open)
    decreases |Universe(nodes) - seen|
  {
    hide Reaches, Universe;
    after := seen;
    if current in seen {
      return;
    }
    after := after + {current};
    if current !in nodes {
      return;
    }
    var relations := nodes[current].relations;
    var i := 0;
    while i < |relations|
      invariant 0 <= i <= |relations|
      invariant seen + {current} <= after <= Universe(nodes)
      invariant forall x :: x in after ==> Reaches(nodes, root, x)
      invariant ClosedBut(nodes, after, open + {current})
      invariant forall h :: 0 <= h < i ==> relations[h].target in after
    {
      ReachesStep(nodes, root, current, relations[i]);
      InUniverse(nodes, current, relations[i]);
      Fewer(Universe(nodes), seen, after, current);
      after := Visit(nodes, root, relations[i].target, after, open + {current});
      i := i + 1;
    }
    assert Targets(relations) <= after;
  }

  lemma InUniverse(nodes: map<Id, Draft>, id: Id, r: Relation)
    requires id in nodes && r in nodes[id].relations
    ensures r.target in Universe(nodes)
  {
  }

  lemma Fewer(all: set<Id>, seen: set<Id>, after: set<Id>, x: Id)
    requires seen + {x} <= after <= all && x !in seen
    ensures |all - after| < |all - seen|
  {
    assert all - after <= all - seen - {x};
    FiniteSets.Subset(all - after, all - seen - {x});
  }

  predicate IsRoot(nodes: map<Id, Draft>, id: Id) {
    id in nodes && (nodes[id].plugin.kind == Expert || nodes[id].plugin.kind == Team)
  }

  predicate IsConnector(nodes: map<Id, Draft>, id: Id) {
    id in nodes && nodes[id].plugin.kind == Connector
  }

  /** The connectors in the closure of `root`, one root of `connectorClosures`. */
  method ClosureOf(nodes: map<Id, Draft>, root: Id) returns (connectors: set<Id>)
    requires root in nodes
    ensures forall c :: c in connectors <==> IsConnector(nodes, c) && Reaches(nodes, root, c)
  {
    assert Reaches(nodes, root, root) by {
      assert [root][0] == root && IsPath(nodes, [root]);
    }
    assert root in Universe(nodes);
    var seen := Visit(nodes, root, root, {}, {});
    connectors := set c | c in seen && IsConnector(nodes, c);
    forall c | IsConnector(nodes, c) && Reaches(nodes, root, c)
      ensures c in connectors
    {
      ClosedCoversReach(nodes, seen, root, c);
    }
  }

  // --------------------------------------------------------- co-occurrence

  /** Connectors `a` and `b` are installed together by some expert or team. */
  ghost predicate CoOccur(nodes: map<Id, Draft>, a: Id, b: Id) {
    && a != b && IsConnector(nodes, a) && IsConnector(nodes, b)
    && exists root :: IsRoot(nodes, root) && Reaches(nodes, root, a) && Reaches(nodes, root, b)
  }

  function NameOf(o: Oracles, nodes: map<Id, Draft>, id: Id): string
    requires id in nodes
  {
    Normalized(o, nodes[id].plugin.name)
  }

  /** What both name passes promise. */
  ghost predicate NamesDistinct(o: Oracles, nodes: map<Id, Draft>) {
    forall a, b :: CoOccur(nodes, a, b) ==> NameOf(o, nodes, a) != NameOf(o, nodes, b)
  }

  /** Same nodes, kinds and edges: names may differ. */
  ghost predicate SameShape(before: map<Id, Draft>, after: map<Id, Draft>) {
    && before.Keys == after.Keys
    && forall id :: id in before ==> after[id] == before[id].(plugin := before[id].plugin.(name := after[id].plugin.name))
  }

  /** Same nodes, kinds and edges. */
  ghost predicate SameEdges(before: map<Id, Draft>, after: map<Id, Draft>) {
    && before.Keys == after.Keys
    && forall id :: id in before ==> after[id].relations == before[id].relations && after[id].plugin.kind == before[id].plugin.kind
  }

  lemma EdgesKeepReach(before: map<Id, Draft>, after: map<Id, Draft>, a: Id, b: Id)
    requires SameEdges(before, after) && Reaches(before, a, b)
    ensures Reaches(after, a, b)
  {
    var path :| |path| > 0 && path[0] == a && path[|path| - 1] == b && IsPath(before, path);
    forall i | 0 <= i < |path| - 1
      ensures Edge(after, path[i], path[i + 1])
    {
      assert Edge(before, path[i], path[i + 1]);
    }
    assert IsPath(after, path);
  }

  lemma EdgesKeepCoOccurrence(before: map<Id, Draft>, after: map<Id, Draft>, a: Id, b: Id)
    requires SameEdges(before, after) && CoOccur(before, a, b)
    ensures CoOccur(after, a, b)
  {
    var root :| IsRoot(before, root) && Reaches(before, root, a) && Reaches(before, root, b);
    EdgesKeepReach(before, after, root, a);
    EdgesKeepReach(before, after, root, b);
    assert IsRoot(after, root);
  }

  /** A later pass that leaves edges, kinds and names alone leaves the names distinct. */
  lemma DistinctNamesStay(o: Oracles, before: map<Id, Draft>, after: map<Id, Draft>)
    requires SameEdges(before, after) && NamesDistinct(o, before)
    requires forall id :: id in before ==> after[id].plugin.name == before[id].plugin.name
    ensures NamesDistinct(o, after)
  {
    hide CoOccur, Normalized;
    forall a, b | CoOccur(after, a, b)
      ensures a in after && b in after && NameOf(o, after, a) != NameOf(o, after, b)
    {
      EdgesKeepCoOccurrence(after, before, a, b);
      CoOccurWithin(after, a, b);
    }
  }

  // ----------------------------------------------------------- source names

  /** How the text functions treat the names that are built here. A cleaned part has at
      most fifty characters, parts grow at most threefold under normalisation, and a
      hexadecimal suffix survives it. */
  ghost predicate TextFacts(o: Oracles) {
    && (forall x :: |o.clean(x)| <= 50)
    && (forall x, y, b, s, d :: b <= o.clean(x) && s <= o.clean(y) && (d == "" || IsSuffix(d)) ==>
          |Normalized(o, Joined(b, s, d))| <= 3 * |Joined(b, s, d)|)
    && (forall b, s, d :: IsSuffix(d) ==> EndsWith(Normalized(o, Joined(b, s, d)), "-" + d))
  }

  predicate IsSuffix(d: string) {
    d != "" && forall i :: 0 <= i < |d| ==> Decimal.IsDigit(d[i]) || 'a' <= d[i] <= 'f' || d[i] == '-'
  }

  predicate EndsWith(s: string, end: string) {
    |end| <= |s| && s[|s| - |end|..] == end
  }

  function Joined(base: string, source: string, discriminator: string): string {
    base + "-" + source + if discriminator == "" then "" else "-" + discriminator
  }

  const FLEET_NAME_LIMIT := 128
  const PLUGIN_NAME_LIMIT := 160

  /** What `k` steps of shortening leave: the base loses its end first, down to one
      character, and then the source does. */
  function Shortened(b: string, s: string, k: nat): (string, string)
    requires k <= |b| + |s|
  {
    var most := if |b| > 1 then |b| - 1 else 0;
    if k <= most then (b[..|b| - k], s)
    else (b[..|b| - most], if k - most <= |s| then s[..|s| - (k - most)] else "")
  }

  lemma ShortenedStep(b: string, s: string, k: nat)
    requires k < |b| + |s|
    ensures Shortened(b, s, 0) == (b, s)
    ensures var now, next := Shortened(b, s, k), Shortened(b, s, k + 1);
            if |now.0| > 1 then next == (now.0[..|now.0| - 1], now.1)
            else if |now.1| > 0 then next == (now.0, now.1[..|now.1| - 1]) else true
  {
    assert b[..|b|] == b;
    var now := Shortened(b, s, k);
    if |now.0| > 1 {
      assert b[..|b| - k][..|b| - k - 1] == b[..|b| - k - 1];
    } else if |now.1| > 0 {
      assert s[..|s|] == s;
      assert now.1[..|now.1| - 1] == s[..|now.1| - 1];
    }
  }

  function Candidate(o: Oracles, base: string, source: string, discriminator: string, k: nat): string
    requires k <= |o.clean(base)| + |o.clean(source)|
  {
    var parts := Shortened(o.clean(base), o.clean(source), k);
    Joined(parts.0, parts.1, discriminator)
  }

  predicate FitsLimits(o: Oracles, name: string) {
    |name| <= FLEET_NAME_LIMIT && |Normalized(o, name)| <= PLUGIN_NAME_LIMIT
  }

  /** internal/migration/connector_names.go `connectorSourceName`: shortens the parts, never
      the discriminator, as little as both limits allow. */
  method SourceName(o: Oracles, base: string, source: string, discriminator: string) returns (name: string)
    requires TextFacts(o)
    requires discriminator == "" || (IsSuffix(discriminator) && |discriminator| <= 50)
    ensures |name| <= FLEET_NAME_LIMIT && |Normalized(o, name)| <= PLUGIN_NAME_LIMIT
    ensures discriminator != "" ==> EndsWith(Normalized(o, name), "-" + discriminator)
    ensures exists k: nat :: k <= |o.clean(base)| + |o.clean(source)| && name == Candidate(o, base, source, discriminator, k)
              && forall j :: 0 <= j < k ==> !FitsLimits(o, Candidate(o, base, source, discriminator, j))
  {
    var b, s := o.clean(base), o.clean(source);
    ghost var k: nat := 0;
    assert (b, s) == Shortened(b, s, 0) by {
      assert b[..|b|] == b;
    }
    while true
      invariant b <= o.clean(base) && s <= o.clean(source)
      invariant k <= |o.clean(base)| + |o.clean(source)| && (b, s) == Shortened(o.clean(base), o.clean(source), k)
      invariant |b| + |s| == |o.clean(base)| + |o.clean(source)| - k
      invariant forall j :: 0 <= j < k ==> !FitsLimits(o, Candidate(o, base, source, discriminator, j))
      decreases |b| + |s|
    {
      name := Joined(b, s, discriminator);
      assert name == Candidate(o, base, source, discriminator, k);
      assert |Normalized(o, name)| <= 3 * |name|;
      if |name| <= FLEET_NAME_LIMIT && |Normalized(o, name)| <= PLUGIN_NAME_LIMIT {
        return;
      }
      ShortenedStep(o.clean(base), o.clean(source), k);
      if |b| > 1 {
        b := b[..|b| - 1];
      } else {
        s := s[..|s| - 1];
      }
      k := k + 1;
    }
  }

  // ---------------------------------------------------------------- renaming

  /** The discriminator of a retry: the digest of the node, numbered from the second on. */
  function Discriminator(o: Oracles, id: Id, attempt: nat): string {
    o.idDigest(id) + if attempt == 0 then "" else "-" + Decimal.Print(attempt)
  }

  ghost predicate DigestFacts(o: Oracles) {
    forall id :: |o.idDigest(id)| == 12 && IsSuffix(o.idDigest(id))
  }

  /** Numbered retries end in different ways. */
  lemma RetriesDiffer(o: Oracles, id: Id, i: nat, j: nat, s: string)
    requires 0 < i && 0 < j && i != j
    requires EndsWith(s, "-" + Discriminator(o, id, i))
    ensures !EndsWith(s, "-" + Discriminator(o, id, j))
  {
    hide EndsWith;
    Decimal.PrintValue(i);
    Decimal.PrintValue(j);
    NumberAtEnd(s, o.idDigest(id), Decimal.Print(i));
    if EndsWith(s, "-" + Discriminator(o, id, j)) {
      NumberAtEnd(s, o.idDigest(id), Decimal.Print(j));
    }
  }

  /** The digits after the last dash of `s`. */
  function LastNumber(s: string): string {
    if s == "" || s[|s| - 1] == '-' then "" else LastNumber(s[..|s| - 1]) + [s[|s| - 1]]
  }

  lemma NumberAtEnd(s: string, digest: string, number: string)
    requires EndsWith(s, "-" + (digest + ("-" + number))) && Decimal.AllDigits(number)
    ensures LastNumber(s) == number
  {
    var front := s[..|s| - |number|];
    var end := "-" + (digest + ("-" + number));
    assert end == "-" + digest + "-" + number;
    assert s == s[..|s| - |end|] + end;
    assert s == front + number && front[|front| - 1] == '-';
    LastNumberAppended(front, number);
  }

  lemma {:induction false} LastNumberAppended(front: string, number: string)
    requires front != "" && front[|front| - 1] == '-' && Decimal.AllDigits(number)
    ensures LastNumber(front + number) == number
  {
    if number == "" {
      assert front + number == front;
    } else {
      var shorter := number[..|number| - 1];
      LastNumberAppended(front, shorter);
      assert (front + number)[..|front + number| - 1] == front + shorter;
    }
  }

  lemma DiscriminatorShape(o: Oracles, id: Id, attempt: nat)
    requires DigestFacts(o) && attempt < 0x8000_0000_0000_0000
    ensures IsSuffix(Discriminator(o, id, attempt)) && |Discriminator(o, id, attempt)| <= 50
  {
    assert Decimal.Pow10(19) == 10_000_000_000_000_000_000 by {
      assert Decimal.Pow10(9) == 1_000_000_000;
      assert Decimal.Pow10(10) == 10_000_000_000;
    }
    Decimal.PrintLength(attempt, 19);
  }

  function UsedNames(o: Oracles, nodes: map<Id, Draft>, peers: set<Id>): set<string>
    requires peers <= nodes.Keys
  {
    set p | p in peers :: NameOf(o, nodes, p)
  }

  /** `tried` are the normalised names of the numbered attempts below `attempt`. */
  ghost predicate Tried(o: Oracles, id: Id, attempt: nat, tried: set<string>) {
    && |tried| == (if attempt == 0 then 0 else attempt - 1)
    && forall t :: t in tried ==> exists j :: 0 < j < attempt && EndsWith(t, "-" + Discriminator(o, id, j))
  }

  lemma TriedAnother(o: Oracles, id: Id, attempt: nat, tried: set<string>, name: string)
    requires 0 < attempt && Tried(o, id, attempt, tried) && EndsWith(name, "-" + Discriminator(o, id, attempt))
    ensures name !in tried && Tried(o, id, attempt + 1, tried + {name})
  {
    hide Discriminator, EndsWith;
    forall t | t in tried
      ensures t != name
    {
      var j :| 0 < j < attempt && EndsWith(t, "-" + Discriminator(o, id, j));
      RetriesDiffer(o, id, j, attempt, t);
    }
    forall t | t in tried + {name}
      ensures exists j :: 0 < j < attempt + 1 && EndsWith(t, "-" + Discriminator(o, id, j))
    {
    }
  }

  /** A name that no peer uses, and why the retries end: numbered attempts all differ,
      and there are only finitely many peers. */
  method FreshName(o: Oracles, nodes: map<Id, Draft>, id: Id, peers: set<Id>) returns (name: string)
    requires TextFacts(o) && DigestFacts(o)
    requires id in nodes && peers <= nodes.Keys && |nodes| < 0x7fff_ffff_ffff_fff0
    ensures Normalized(o, name) !in UsedNames(o, nodes, peers)
  {
    hide TextFacts, DigestFacts, Discriminator, Normalized, Tried, IsSuffix, EndsWith, UsedNames;
    var n := nodes[id];
    var source := o.trim(n.source.name);
    if source == "" {
      source := o.idText(n.sourceId);
    }
    var used := UsedNames(o, nodes, peers);
    NamesBounded(o, nodes, peers);
    name := SourceName(o, n.plugin.name, source, "");
    if Normalized(o, name) !in used {
      return;
    }
    DiscriminatorShape(o, id, 0);
    name := SourceName(o, n.plugin.name, source, Discriminator(o, id, 0));
    var attempt := 0;
    ghost var tried: set<string> := {};
    NothingTried(o, id);
    while Normalized(o, name) in used
      invariant tried <= used && Tried(o, id, attempt, tried) && (attempt == 0 ==> tried == {})
      invariant attempt > 0 ==> EndsWith(Normalized(o, name), "-" + Discriminator(o, id, attempt))
      decreases |used| + 1 - attempt
    {
      if attempt > 0 {
        TriedAnother(o, id, attempt, tried, Normalized(o, name));
        tried := tried + {Normalized(o, name)};
      }
      TriedBounded(o, id, attempt, tried, used);
      attempt := attempt + 1;
      DiscriminatorShape(o, id, attempt);
      name := SourceName(o, n.plugin.name, source, Discriminator(o, id, attempt));
    }
  }

  lemma NothingTried(o: Oracles, id: Id)
    ensures Tried(o, id, 0, {}) && Tried(o, id, 1, {})
  {
  }

  lemma TriedBounded(o: Oracles, id: Id, attempt: nat, tried: set<string>, used: set<string>)
    requires tried <= used && Tried(o, id, attempt + 1, tried)
    ensures attempt <= |used|
  {
    assert used == tried + (used - tried);
  }

  lemma {:induction false} NamesBounded(o: Oracles, nodes: map<Id, Draft>, peers: set<Id>)
    requires peers <= nodes.Keys
    ensures |UsedNames(o, nodes, peers)| <= |peers| <= |nodes|
  {
    hide NameOf;
    FiniteSets.Subset(peers, nodes.Keys);
    if peers != {} {
      var p :| p in peers;
      NamesBounded(o, nodes, peers - {p});
      assert UsedNames(o, nodes, peers) == UsedNames(o, nodes, peers - {p}) + {NameOf(o, nodes, p)};
    }
  }

  // ------------------------------------------------------------- the passes

  /** Co-occurrence through one of `roots`. */
  ghost predicate CoOccurIn(nodes: map<Id, Draft>, roots: set<Id>, a: Id, b: Id) {
    && a != b && IsConnector(nodes, a) && IsConnector(nodes, b)
    && exists root :: root in roots && IsRoot(nodes, root) && Reaches(nodes, root, a) && Reaches(nodes, root, b)
  }

  function PeersOf(peers: map<Id, set<Id>>, a: Id): set<Id> {
    if a in peers then peers[a] else {}
  }

  /** `peers` records who co-occurs with whom through `roots`. */
  ghost predicate PeersAre(nodes: map<Id, Draft>, roots: set<Id>, peers: map<Id, set<Id>>) {
    forall a, b :: b in PeersOf(peers, a) <==> CoOccurIn(nodes, roots, a, b)
  }

  /** Who has to be renamed: connectors that share a name with one they co-occur with. */
  ghost predicate ClashesAre(o: Oracles, nodes: map<Id, Draft>, roots: set<Id>, rename: set<Id>) {
    && rename <= nodes.Keys
    && (forall a, b :: CoOccurIn(nodes, roots, a, b) && NameOf(o, nodes, a) == NameOf(o, nodes, b) ==> a in rename)
    && (forall a :: a in rename ==> IsConnector(nodes, a) && SharesNameIn(o, nodes, roots, a))
  }

  /** Some connector installed together with `a`, for one of the roots, has its name. */
  ghost predicate SharesNameIn(o: Oracles, nodes: map<Id, Draft>, roots: set<Id>, a: Id) {
    exists b :: CoOccurIn(nodes, roots, a, b) && NameOf(o, nodes, a) == NameOf(o, nodes, b)
  }

  ghost predicate SharesName(o: Oracles, nodes: map<Id, Draft>, a: Id) {
    exists b :: CoOccur(nodes, a, b) && NameOf(o, nodes, a) == NameOf(o, nodes, b)
  }

  lemma SharesInMore(o: Oracles, nodes: map<Id, Draft>, roots: set<Id>, root: Id, a: Id)
    requires SharesNameIn(o, nodes, roots, a)
    ensures SharesNameIn(o, nodes, roots + {root}, a)
  {
    hide Reaches, IsRoot, NameOf;
    var b :| CoOccurIn(nodes, roots, a, b) && NameOf(o, nodes, a) == NameOf(o, nodes, b);
    var r :| r in roots && IsRoot(nodes, r) && Reaches(nodes, r, a) && Reaches(nodes, r, b);
    assert r in roots + {root};
    assert CoOccurIn(nodes, roots + {root}, a, b);
  }

  lemma SharesHere(o: Oracles, nodes: map<Id, Draft>, roots: set<Id>, root: Id, ids: set<Id>, a: Id)
    requires IsRoot(nodes, root) && forall c :: c in ids <==> IsConnector(nodes, c) && Reaches(nodes, root, c)
    requires ids <= nodes.Keys && a in ids && Doubled(o, nodes, ids, a)
    ensures SharesNameIn(o, nodes, roots + {root}, a)
  {
    hide Reaches, IsRoot, NameOf;
    var b :| b in ids && b != a && NameOf(o, nodes, a) == NameOf(o, nodes, b);
    assert root in roots + {root};
    assert CoOccurIn(nodes, roots + {root}, a, b);
  }

  /** `more` is `peers` with everyone in `ids` added as a peer of everyone in `done`. */
  ghost predicate PeersAdded(peers: map<Id, set<Id>>, ids: set<Id>, done: set<Id>, more: map<Id, set<Id>>) {
    forall a :: PeersOf(more, a) == if a in done then PeersOf(peers, a) + (ids - {a}) else PeersOf(peers, a)
  }

  ghost predicate PeersExtended(peers: map<Id, set<Id>>, ids: set<Id>, more: map<Id, set<Id>>) {
    PeersAdded(peers, ids, ids, more)
  }

  lemma NoPeersAdded(peers: map<Id, set<Id>>, ids: set<Id>)
    ensures PeersAdded(peers, ids, {}, peers)
  {
  }

  lemma PeersAddedStep(peers: map<Id, set<Id>>, ids: set<Id>, done: set<Id>, more: map<Id, set<Id>>, id: Id)
    requires PeersAdded(peers, ids, done, more) && id !in done
    ensures PeersAdded(peers, ids, done + {id}, more[id := PeersOf(more, id) + (ids - {id})])
  {
    var next := more[id := PeersOf(more, id) + (ids - {id})];
    assert forall a :: a != id ==> PeersOf(next, a) == PeersOf(more, a);
  }

  method AddPeers(peers: map<Id, set<Id>>, ids: set<Id>) returns (more: map<Id, set<Id>>)
    ensures PeersExtended(peers, ids, more)
  {
    hide PeersAdded, PeersOf, FiniteSets.Splits;
    more := peers;
    var pending := ids;
    ghost var done: set<Id> := {};
    FiniteSets.Start(ids);
    NoPeersAdded(peers, ids);
    while pending != {}
      invariant FiniteSets.Splits(ids, done, pending) && PeersAdded(peers, ids, done, more)
      decreases |pending|
    {
      var id :| id in pending;
      FiniteSets.Step(ids, done, pending, id);
      PeersAddedStep(peers, ids, done, more, id);
      more := more[id := PeersOf(more, id) + (ids - {id})];
      pending := pending - {id};
      done := done + {id};
    }
    FiniteSets.End(ids, done);
  }

  /** `a` shares its name with another of `ids`. */
  ghost predicate Doubled(o: Oracles, nodes: map<Id, Draft>, ids: set<Id>, a: Id)
    requires ids <= nodes.Keys
  {
    a in ids && exists b :: b in ids && b != a && NameOf(o, nodes, a) == NameOf(o, nodes, b)
  }

  method Clashing(o: Oracles, nodes: map<Id, Draft>, ids: set<Id>) returns (clash: set<Id>)
    requires ids <= nodes.Keys
    ensures clash <= ids
    ensures forall a, b :: a in ids && b in ids && a != b && NameOf(o, nodes, a) == NameOf(o, nodes, b) ==> a in clash
    ensures forall a :: a in clash ==> Doubled(o, nodes, ids, a)
  {
    hide NameOf;
    clash := {};
    var groups: map<string, Id> := map[];
    var pending := ids;
    while pending != {}
      invariant pending <= ids && clash <= ids - pending
      invariant forall a :: a in ids && a !in pending ==> NameOf(o, nodes, a) in groups
      invariant forall k :: k in groups ==> groups[k] in ids && groups[k] !in pending && NameOf(o, nodes, groups[k]) == k
      invariant forall a :: a in ids && a !in pending && a != groups[NameOf(o, nodes, a)] ==> a in clash && groups[NameOf(o, nodes, a)] in clash
      invariant forall a :: a in clash ==> Doubled(o, nodes, ids, a)
      decreases |pending|
    {
      var id :| id in pending;
      var k := NameOf(o, nodes, id);
      if k in groups {
        clash := clash + {id, groups[k]};
      } else {
        groups := groups[k := id];
      }
      pending := pending - {id};
    }
  }

  lemma PeersStep(nodes: map<Id, Draft>, roots: set<Id>, root: Id, ids: set<Id>, peers: map<Id, set<Id>>, more: map<Id, set<Id>>)
    requires PeersAre(nodes, roots, peers) && IsRoot(nodes, root)
    requires forall c :: c in ids <==> IsConnector(nodes, c) && Reaches(nodes, root, c)
    requires PeersExtended(peers, ids, more)
    ensures PeersAre(nodes, roots + {root}, more)
  {
    hide Reaches, IsConnector, IsRoot, PeersOf;
    forall a, b
      ensures CoOccurIn(nodes, roots + {root}, a, b) <==> CoOccurIn(nodes, roots, a, b) || (a in ids && b in ids && a != b)
    {
      if CoOccurIn(nodes, roots, a, b) {
        var r :| r in roots && IsRoot(nodes, r) && Reaches(nodes, r, a) && Reaches(nodes, r, b);
        assert r in roots + {root};
      }
      if a in ids && b in ids && a != b {
        assert root in roots + {root};
      }
    }
  }

  lemma ClashesStep(o: Oracles, nodes: map<Id, Draft>, roots: set<Id>, root: Id, ids: set<Id>, rename: set<Id>, clash: set<Id>)
    requires ClashesAre(o, nodes, roots, rename)
    requires forall c :: c in ids <==> IsConnector(nodes, c) && Reaches(nodes, root, c)
    requires clash <= ids && ids <= nodes.Keys
    requires forall a, b :: a in ids && b in ids && a != b && NameOf(o, nodes, a) == NameOf(o, nodes, b) ==> a in clash
    requires IsRoot(nodes, root) && forall a :: a in clash ==> Doubled(o, nodes, ids, a)
    ensures ClashesAre(o, nodes, roots + {root}, rename + clash)
  {
    hide Reaches, IsRoot, NameOf, SharesNameIn, Doubled;
    forall a | a in rename + clash
      ensures SharesNameIn(o, nodes, roots + {root}, a)
    {
      if a in rename {
        SharesInMore(o, nodes, roots, root, a);
      } else {
        SharesHere(o, nodes, roots, root, ids, a);
      }
    }
    forall a, b | CoOccurIn(nodes, roots + {root}, a, b) && NameOf(o, nodes, a) == NameOf(o, nodes, b)
      ensures a in rename + clash
    {
      if !CoOccurIn(nodes, roots, a, b) {
        assert a in ids && b in ids;
      }
    }
  }

  /** The peer sets and the names that clash. */
  method CollectPeers(o: Oracles, nodes: map<Id, Draft>) returns (peers: map<Id, set<Id>>, rename: set<Id>)
    ensures PeersAre(nodes, nodes.Keys, peers)
    ensures ClashesAre(o, nodes, nodes.Keys, rename)
  {
    hide PeersAre, ClashesAre, Reaches, NameOf, PeersExtended;
    peers, rename := map[], {};
    NoPeers(o, nodes);
    ghost var done: set<Id> := {};
    var pending := nodes.Keys;
    while pending != {}
      invariant pending <= nodes.Keys && done == nodes.Keys - pending
      invariant PeersAre(nodes, done, peers) && ClashesAre(o, nodes, done, rename)
      decreases |pending|
    {
      var root :| root in pending;
      if IsRoot(nodes, root) {
        var ids := ClosureOf(nodes, root);
        assert ids <= nodes.Keys;
        var more := AddPeers(peers, ids);
        PeersStep(nodes, done, root, ids, peers, more);
        peers := more;
        var clash := Clashing(o, nodes, ids);
        ClashesStep(o, nodes, done, root, ids, rename, clash);
        rename := rename + clash;
      } else {
        NotARoot(o, nodes, done, root, peers, rename);
      }
      done := done + {root};
      pending := pending - {root};
    }
    assert done == nodes.Keys;
  }

  lemma NoPeers(o: Oracles, nodes: map<Id, Draft>)
    ensures PeersAre(nodes, {}, map[]) && ClashesAre(o, nodes, {}, {})
  {
  }

  lemma NotARoot(o: Oracles, nodes: map<Id, Draft>, roots: set<Id>, root: Id, peers: map<Id, set<Id>>, rename: set<Id>)
    requires !IsRoot(nodes, root) && PeersAre(nodes, roots, peers) && ClashesAre(o, nodes, roots, rename)
    ensures PeersAre(nodes, roots + {root}, peers) && ClashesAre(o, nodes, roots + {root}, rename)
  {
    hide Reaches, IsConnector, NameOf, SharesNameIn;
    forall a | a in rename
      ensures SharesNameIn(o, nodes, roots + {root}, a)
    {
      SharesInMore(o, nodes, roots, root, a);
    }
    forall a, b
      ensures CoOccurIn(nodes, roots + {root}, a, b) == CoOccurIn(nodes, roots, a, b)
    {
      if CoOccurIn(nodes, roots, a, b) {
        var r :| r in roots && IsRoot(nodes, r) && Reaches(nodes, r, a) && Reaches(nodes, r, b);
        assert r in roots + {root};
      }
    }
  }

  lemma CoOccurEverywhere(nodes: map<Id, Draft>, a: Id, b: Id)
    ensures CoOccurIn(nodes, nodes.Keys, a, b) == CoOccur(nodes, a, b)
  {
    hide Reaches;
  }

  function Renamed(d: Draft, name: string): Draft {
    d.(plugin := d.plugin.(name := name))
  }

  /** Part-way through the renaming: connectors not yet renamed keep their names, and
      nobody who was renamed shares a name with a peer. */
  ghost predicate Renaming(o: Oracles, before: map<Id, Draft>, done: set<Id>, after: map<Id, Draft>) {
    && SameShape(before, after)
    && (forall id :: id in before && id !in done ==> after[id] == before[id])
    && (forall a, b :: CoOccur(before, a, b) && a in done ==> NameOf(o, after, a) != NameOf(o, after, b))
  }

  lemma CoOccurSymmetric(nodes: map<Id, Draft>, a: Id, b: Id)
    requires CoOccur(nodes, a, b)
    ensures CoOccur(nodes, b, a)
  {
    hide Reaches;
  }

  lemma RenamingStep(o: Oracles, before: map<Id, Draft>, done: set<Id>, after: map<Id, Draft>, id: Id, name: string)
    requires Renaming(o, before, done, after) && id in before && id !in done
    requires forall b :: CoOccur(before, id, b) ==> b in after && NameOf(o, after, b) != Normalized(o, name)
    ensures Renaming(o, before, done + {id}, after[id := Renamed(after[id], name)])
  {
    hide CoOccur, Normalized;
    var next := after[id := Renamed(after[id], name)];
    forall a, b | CoOccur(before, a, b) && a in done + {id}
      ensures a in next && b in next && NameOf(o, next, a) != NameOf(o, next, b)
    {
      CoOccurSymmetric(before, a, b);
      CoOccurWithin(before, a, b);
    }
  }

  lemma CoOccurWithin(nodes: map<Id, Draft>, a: Id, b: Id)
    requires CoOccur(nodes, a, b)
    ensures a in nodes && b in nodes && a != b
  {
  }

  lemma RenamingDone(o: Oracles, before: map<Id, Draft>, rename: set<Id>, after: map<Id, Draft>)
    requires Renaming(o, before, rename, after)
    requires ClashesAre(o, before, before.Keys, rename)
    ensures NamesDistinct(o, after)
  {
    hide CoOccur, Normalized, ClashesAre;
    RenameTargets(o, before, rename);
    assert SameEdges(after, before);
    forall a, b | CoOccur(after, a, b)
      ensures a in after && b in after && NameOf(o, after, a) != NameOf(o, after, b)
    {
      EdgesKeepCoOccurrence(after, before, a, b);
      CoOccurWithin(before, a, b);
      CoOccurSymmetric(before, a, b);
      if a !in rename && b !in rename {
        assert NameOf(o, before, a) != NameOf(o, before, b);
      }
    }
  }

  method RenameOne(o: Oracles, nodes: map<Id, Draft>, peers: map<Id, set<Id>>, named: map<Id, Draft>, id: Id, ghost done: set<Id>)
    returns (next: map<Id, Draft>, issue: Option<Issue>)
    requires TextFacts(o) && DigestFacts(o) && |nodes| < 0x7fff_ffff_ffff_fff0
    requires PeersAre(nodes, nodes.Keys, peers) && SameShape(nodes, named) && named.Keys == nodes.Keys
    requires id in nodes && id !in done
    ensures SameShape(nodes, next) && next.Keys == nodes.Keys
    ensures forall x :: x in nodes && x != id ==> next[x] == named[x]
    ensures Renaming(o, nodes, done, named) && issue.None? ==> Renaming(o, nodes, done + {id}, next)
    ensures DocumentsFit(o) ==> issue.None?
  {
    hide *;
    PeersKnown(nodes, peers, id);
    Fitting(o);
    assert |named| == |named.Keys| == |nodes.Keys|;
    var name := FreshName(o, named, id, PeersOf(peers, id));
    if !o.manifestParses(named[id].plugin) {
      return named, Some(Issue(named[id].sourceId, "document_invalid"));
    }
    if Renaming(o, nodes, done, named) {
      PeersAvoided(o, nodes, peers, named, id, name);
      RenamingStep(o, nodes, done, named, id, name);
    }
    ShapeStep(nodes, named, id, name);
    next := named[id := Renamed(named[id], name)];
    issue := if o.filesFit(next[id].plugin) then None else Some(Issue(next[id].sourceId, "files_invalid"));
  }

  method RenameAll(o: Oracles, nodes: map<Id, Draft>, peers: map<Id, set<Id>>, rename: set<Id>)
    returns (named: map<Id, Draft>, issues: seq<Issue>)
    requires TextFacts(o) && DigestFacts(o) && |nodes| < 0x7fff_ffff_ffff_fff0
    requires PeersAre(nodes, nodes.Keys, peers) && rename <= nodes.Keys
    ensures SameShape(nodes, named) && named.Keys == nodes.Keys
    ensures forall id :: id in nodes && id !in rename ==> named[id] == nodes[id]
    ensures issues == [] ==> Renaming(o, nodes, rename, named)
    ensures DocumentsFit(o) ==> issues == []
  {
    hide *;
    named, issues := nodes, [];
    NothingRenamed(o, nodes);
    ghost var done: set<Id> := {};
    var pending := rename;
    while pending != {}
      invariant pending <= rename && done == rename - pending
      invariant SameShape(nodes, named) && named.Keys == nodes.Keys
      invariant forall id :: id in nodes && id !in rename ==> named[id] == nodes[id]
      invariant issues == [] ==> Renaming(o, nodes, done, named)
      invariant DocumentsFit(o) ==> issues == []
      decreases |pending|
    {
      var id :| id in pending;
      var issue: Option<Issue>;
      named, issue := RenameOne(o, nodes, peers, named, id, done);
      if issue.Some? {
        issues := issues + [issue.value];
      }
      done := done + {id};
      pending := pending - {id};
    }
    assert done == rename;
  }

  /** internal/migration/connector_names.go `nameDistinctConnectors`. */
  method NameDistinctConnectors(o: Oracles, nodes: map<Id, Draft>) returns (named: map<Id, Draft>, issues: seq<Issue>)
    requires TextFacts(o) && DigestFacts(o) && |nodes| < 0x7fff_ffff_ffff_fff0
    ensures SameShape(nodes, named) && named.Keys == nodes.Keys
    ensures forall id :: id in nodes && named[id] != nodes[id] ==> nodes[id].plugin.kind == Connector && SharesName(o, nodes, id)
    ensures issues == [] ==> NamesDistinct(o, named)
    ensures DocumentsFit(o) ==> issues == []
  {
    hide TextFacts, DigestFacts, PeersAre, ClashesAre, Renaming, NamesDistinct, SameShape, SharesName;
    var peers, rename := CollectPeers(o, nodes);
    RenamesConnectors(o, nodes, rename);
    named, issues := RenameAll(o, nodes, peers, rename);
    if issues == [] {
      RenamingDone(o, nodes, rename, named);
    }
  }

  lemma Fitting(o: Oracles)
    ensures DocumentsFit(o) ==> forall p :: o.manifestParses(p) && o.filesFit(p)
  {
  }

  lemma ShapeStep(before: map<Id, Draft>, after: map<Id, Draft>, id: Id, name: string)
    requires SameShape(before, after) && id in after
    ensures SameShape(before, after[id := Renamed(after[id], name)])
  {
  }

  lemma NothingRenamed(o: Oracles, nodes: map<Id, Draft>)
    ensures Renaming(o, nodes, {}, nodes) && SameShape(nodes, nodes)
  {
  }

  lemma RenamesConnectors(o: Oracles, nodes: map<Id, Draft>, rename: set<Id>)
    requires ClashesAre(o, nodes, nodes.Keys, rename)
    ensures forall id :: id in rename ==> IsConnector(nodes, id) && SharesName(o, nodes, id)
  {
    hide Reaches, NameOf;
    forall id | id in rename
      ensures SharesName(o, nodes, id)
    {
      var b :| CoOccurIn(nodes, nodes.Keys, id, b) && NameOf(o, nodes, id) == NameOf(o, nodes, b);
      CoOccurEverywhere(nodes, id, b);
    }
  }

  lemma RenameTargets(o: Oracles, nodes: map<Id, Draft>, rename: set<Id>)
    requires ClashesAre(o, nodes, nodes.Keys, rename)
    ensures forall a, b :: CoOccur(nodes, a, b) && NameOf(o, nodes, a) == NameOf(o, nodes, b) ==> a in rename
  {
    hide CoOccur, CoOccurIn, NameOf;
    forall a, b | CoOccur(nodes, a, b)
      ensures a in nodes && b in nodes && CoOccurIn(nodes, nodes.Keys, a, b)
    {
      CoOccurEverywhere(nodes, a, b);
      CoOccurWithin(nodes, a, b);
    }
  }

  lemma PeersKnown(nodes: map<Id, Draft>, peers: map<Id, set<Id>>, id: Id)
    requires PeersAre(nodes, nodes.Keys, peers)
    ensures PeersOf(peers, id) <= nodes.Keys
  {
  }

  lemma PeersAvoided(o: Oracles, nodes: map<Id, Draft>, peers: map<Id, set<Id>>, named: map<Id, Draft>, id: Id, name: string)
    requires PeersAre(nodes, nodes.Keys, peers) && SameShape(nodes, named)
    requires PeersOf(peers, id) <= named.Keys
    requires Normalized(o, name) !in UsedNames(o, named, PeersOf(peers, id))
    ensures forall b :: CoOccur(nodes, id, b) ==> b in named && NameOf(o, named, b) != Normalized(o, name)
  {
    hide CoOccur, CoOccurIn, Normalized;
    forall b | CoOccur(nodes, id, b)
      ensures b in named && NameOf(o, named, b) != Normalized(o, name)
    {
      CoOccurEverywhere(nodes, id, b);
      CoOccurWithin(nodes, id, b);
      assert b in PeersOf(peers, id);
    }
  }

  // --------------------------------------------------------------- the check

  /** Two connectors in the closure of `root` have the same trimmed name. */
  ghost predicate Ambiguous(o: Oracles, nodes: map<Id, Draft>, root: Id) {
    exists a, b :: a != b && IsConnector(nodes, a) && IsConnector(nodes, b) && Reaches(nodes, root, a) && Reaches(nodes, root, b)
      && o.trim(nodes[a].plugin.name) == o.trim(nodes[b].plugin.name)
  }

  /** One root of internal/migration/final_contract.go `connectorNameIssues`. */
  method NameAmbiguous(o: Oracles, nodes: map<Id, Draft>, root: Id) returns (ambiguous: bool)
    requires root in nodes
    ensures ambiguous <==> Ambiguous(o, nodes, root)
  {
    hide Reaches, Ambiguous;
    var ids := ClosureOf(nodes, root);
    var owners: map<string, Id> := map[];
    ambiguous := false;
    var pending := ids;
    while pending != {}
      invariant pending <= ids
      invariant ambiguous ==> Ambiguous(o, nodes, root)
      invariant forall k :: k in owners ==> owners[k] in ids && owners[k] !in pending && o.trim(nodes[owners[k]].plugin.name) == k
      invariant forall a :: a in ids && a !in pending ==> o.trim(nodes[a].plugin.name) in owners
      invariant !ambiguous ==> forall a :: a in ids && a !in pending ==> owners[o.trim(nodes[a].plugin.name)] == a
      decreases |pending|
    {
      var id :| id in pending;
      var name := o.trim(nodes[id].plugin.name);
      if name in owners && owners[name] != id && !ambiguous {
        TwoOwners(o, nodes, root, owners[name], id);
        ambiguous := true;
      }
      owners := owners[name := id];
      pending := pending - {id};
    }
    if !ambiguous {
      OneOwnerEach(o, nodes, root, ids, owners);
    }
  }

  lemma TwoOwners(o: Oracles, nodes: map<Id, Draft>, root: Id, a: Id, b: Id)
    requires a != b && IsConnector(nodes, a) && IsConnector(nodes, b) && Reaches(nodes, root, a) && Reaches(nodes, root, b)
    requires o.trim(nodes[a].plugin.name) == o.trim(nodes[b].plugin.name)
    ensures Ambiguous(o, nodes, root)
  {
  }

  lemma OneOwnerEach(o: Oracles, nodes: map<Id, Draft>, root: Id, ids: set<Id>, owners: map<string, Id>)
    requires forall c :: c in ids <==> IsConnector(nodes, c) && Reaches(nodes, root, c)
    requires forall a :: a in ids ==> a in nodes && o.trim(nodes[a].plugin.name) in owners && owners[o.trim(nodes[a].plugin.name)] == a
    ensures !Ambiguous(o, nodes, root)
  {
    hide Reaches;
  }

  /** The renaming establishes what the final check demands. */
  lemma DistinctNamesPass(o: Oracles, nodes: map<Id, Draft>, root: Id)
    requires NamesDistinct(o, nodes) && IsRoot(nodes, root)
    ensures !Ambiguous(o, nodes, root)
  {
    hide Reaches;
    forall a, b | a != b && IsConnector(nodes, a) && IsConnector(nodes, b) && Reaches(nodes, root, a) && Reaches(nodes, root, b)
      ensures o.trim(nodes[a].plugin.name) != o.trim(nodes[b].plugin.name)
    {
      assert CoOccur(nodes, a, b);
    }
  }
}
