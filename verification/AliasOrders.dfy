/** Which alias maps can be walked at all: internal/migration/connector_aliases.go
    `projectMCPAliases` walks its map, unless it is empty, in whatever order it comes. Here the
    maps that some order gets through are told apart by a condition on the keys, and with them
    the maps whose outcome does not depend on the order. */
module AliasOrders {
  import opened Options
  import FiniteSets
  import opened ConnectorAliases

  type AliasMap = map<string, string>

  // ------------------------------------------------------------ specification

  /** The keys that are moved to `q`. */
  function Incoming(aliases: AliasMap, q: string): set<string> {
    set k | k in aliases && aliases[k] == q
  }

  /** How many servers are under `q` once everything has been moved: those there now, those
      moved to it, less the one moved away. */
  function Balance(servers: Servers, aliases: AliasMap, q: string): int {
    |Incoming(aliases, q)| + (if q in servers then 1 else 0) - (if q in aliases then 1 else 0)
  }

  function Targets(aliases: AliasMap, keys: set<string>): set<string> {
    set k | k in keys && k in aliases :: aliases[k]
  }

  /** Keys that are moved around among themselves. */
  ghost predicate Ring(aliases: AliasMap, keys: set<string>) {
    keys != {} && keys <= aliases.Keys && Targets(aliases, keys) == keys
  }

  /** Some key of the ring is free, and there is or arrives a server to move. */
  ghost predicate Turns(servers: Servers, aliases: AliasMap, ring: set<string>) {
    && (exists q :: q in ring && q !in servers)
    && ((exists q :: q in ring && q in servers) || exists l :: l in aliases && l !in ring && aliases[l] in ring)
  }

  /** Every alias is well formed and changes its key, every key ends with one server or none,
      and every ring can turn. */
  ghost predicate Schedulable(servers: Servers, aliases: AliasMap) {
    && (forall k :: k in aliases ==> MatchesAliasPattern(aliases[k]) && aliases[k] != k)
    && (forall q :: 0 <= Balance(servers, aliases, q) <= 1)
    && (forall ring :: Ring(aliases, ring) ==> Turns(servers, aliases, ring))
  }

  // --------------------------------------------------------------------- rings

  lemma {:induction false} TargetsSize(aliases: AliasMap, keys: set<string>)
    requires keys <= aliases.Keys
    ensures |Targets(aliases, keys)| <= |keys|
    ensures (forall k, l :: k in keys && l in keys && aliases[k] == aliases[l] ==> k == l) ==> |Targets(aliases, keys)| == |keys|
  {
    if keys != {} {
      var k :| k in keys;
      TargetsSize(aliases, keys - {k});
      assert Targets(aliases, keys) == Targets(aliases, keys - {k}) + {aliases[k]};
    }
  }

  lemma RingForward(aliases: AliasMap, ring: set<string>, k: string)
    requires Ring(aliases, ring) && k in ring
    ensures k in aliases && aliases[k] in ring
  {
    assert aliases[k] in Targets(aliases, ring);
  }

  lemma RingBackward(aliases: AliasMap, ring: set<string>, q: string) returns (k: string)
    requires Ring(aliases, ring) && q in ring
    ensures k in ring && k in aliases && aliases[k] == q
  {
    hide Ring;
    assert q in Targets(aliases, ring) by { RingTargets(aliases, ring); }
    k :| k in ring && k in aliases && aliases[k] == q;
  }

  lemma RingTargets(aliases: AliasMap, ring: set<string>)
    requires Ring(aliases, ring)
    ensures ring <= aliases.Keys && Targets(aliases, ring) == ring
  {
    hide Targets;
  }

  lemma WithoutDuplicate(aliases: AliasMap, keys: set<string>, k: string, l: string)
    requires keys <= aliases.Keys && k in keys && l in keys && k != l && aliases[k] == aliases[l]
    ensures Targets(aliases, keys - {k}) == Targets(aliases, keys)
  {
    var fewer := keys - {k};
    assert l in fewer;
    forall q | q in Targets(aliases, keys)
      ensures q in Targets(aliases, fewer)
    {
      var m :| m in keys && m in aliases && aliases[m] == q;
      assert m != k ==> m in fewer;
    }
  }

  /** In a ring every key has one predecessor. */
  lemma RingIsInjective(aliases: AliasMap, ring: set<string>, k: string, l: string)
    requires Ring(aliases, ring) && k in ring && l in ring && k in aliases && l in aliases && aliases[k] == aliases[l]
    ensures k == l
  {
    hide Ring, Targets;
    RingTargets(aliases, ring);
    if k != l {
      WithoutDuplicate(aliases, ring, k, l);
      TargetsSize(aliases, ring - {k});
      assert false;
    }
  }

  /** Keys moved among themselves to different places form a ring. */
  lemma InjectiveIsRing(aliases: AliasMap, keys: set<string>)
    requires keys != {} && keys <= aliases.Keys && Targets(aliases, keys) <= keys
    requires forall k, l :: k in keys && l in keys && aliases[k] == aliases[l] ==> k == l
    ensures Ring(aliases, keys)
  {
    TargetsSize(aliases, keys);
    FiniteSets.Subset(Targets(aliases, keys), keys);
  }

  // ------------------------------------------------------------------ one step

  /** `key` can be moved now. */
  predicate Movable(servers: Servers, aliases: AliasMap, key: string) {
    key in aliases && key in servers && aliases[key] !in servers
  }

  function Moved(servers: Servers, aliases: AliasMap, key: string): Servers
    requires Movable(servers, aliases, key)
  {
    servers[aliases[key] := servers[key]] - {key}
  }

  function Rest(aliases: AliasMap, key: string): AliasMap {
    map k | k in aliases && k != key :: aliases[k]
  }

  /** A move changes nothing about how the keys end. */
  lemma BalanceStays(servers: Servers, aliases: AliasMap, key: string, q: string)
    requires Movable(servers, aliases, key)
    ensures Balance(Moved(servers, aliases, key), Rest(aliases, key), q) == Balance(servers, aliases, q)
  {
    var rest := Rest(aliases, key);
    if q == aliases[key] {
      assert Incoming(aliases, q) == Incoming(rest, q) + {key} && key !in Incoming(rest, q);
    } else {
      assert Incoming(aliases, q) == Incoming(rest, q);
    }
  }

  /** A ring of the remaining keys is a ring of all of them. */
  lemma RingOfRest(aliases: AliasMap, key: string, ring: set<string>)
    ensures Ring(Rest(aliases, key), ring) <==> Ring(aliases, ring) && key !in ring
  {
    if ring <= aliases.Keys && key !in ring {
      assert Targets(Rest(aliases, key), ring) == Targets(aliases, ring);
    }
  }

  /** What can be walked after a move can be walked before it. */
  lemma SchedulableBefore(servers: Servers, aliases: AliasMap, key: string)
    requires Movable(servers, aliases, key) && MatchesAliasPattern(aliases[key])
    requires Schedulable(Moved(servers, aliases, key), Rest(aliases, key))
    ensures Schedulable(servers, aliases)
  {
    hide MatchesAliasPattern, Balance, Ring;
    var next, rest := Moved(servers, aliases, key), Rest(aliases, key);
    forall k | k in aliases
      ensures MatchesAliasPattern(aliases[k]) && aliases[k] != k
    {
      assert k != key ==> k in rest && rest[k] == aliases[k];
    }
    forall q
      ensures 0 <= Balance(servers, aliases, q) <= 1
    {
      BalanceStays(servers, aliases, key, q);
      assert 0 <= Balance(next, rest, q) <= 1;
    }
    forall ring | Ring(aliases, ring)
      ensures Turns(servers, aliases, ring)
    {
      TurnsBefore(servers, aliases, key, ring);
    }
  }

  lemma TurnsBefore(servers: Servers, aliases: AliasMap, key: string, ring: set<string>)
    requires Movable(servers, aliases, key) && Ring(aliases, ring)
    requires Ring(Rest(aliases, key), ring) ==> Turns(Moved(servers, aliases, key), Rest(aliases, key), ring)
    ensures Turns(servers, aliases, ring)
  {
    hide Ring;
    var next, rest := Moved(servers, aliases, key), Rest(aliases, key);
    if key in ring {
      RingForward(aliases, ring, key);
    } else {
      RingOfRest(aliases, key, ring);
      var free :| free in ring && free !in next;
      assert free !in servers;
      if q :| q in ring && q in next {
        assert q == aliases[key] || q in servers;
      } else {
        var l :| l in rest && l !in ring && rest[l] in ring;
        assert l in aliases && aliases[l] in ring;
      }
    }
  }

  /** Moving `key` fills the last free key of a ring that it is not part of. */
  ghost predicate Jams(servers: Servers, aliases: AliasMap, key: string, ring: set<string>)
    requires key in aliases
  {
    Ring(aliases, ring) && key !in ring && aliases[key] in ring && forall q :: q in ring && q != aliases[key] ==> q in servers
  }

  /** A move that jams no ring keeps the rest walkable. */
  lemma SchedulableAfter(servers: Servers, aliases: AliasMap, key: string)
    requires Schedulable(servers, aliases) && Movable(servers, aliases, key)
    requires forall ring :: !Jams(servers, aliases, key, ring)
    ensures Schedulable(Moved(servers, aliases, key), Rest(aliases, key))
  {
    hide MatchesAliasPattern, Balance, Ring;
    var next, rest := Moved(servers, aliases, key), Rest(aliases, key);
    forall q
      ensures 0 <= Balance(next, rest, q) <= 1
    {
      BalanceStays(servers, aliases, key, q);
      assert 0 <= Balance(servers, aliases, q) <= 1;
    }
    forall ring | Ring(rest, ring)
      ensures Turns(next, rest, ring)
    {
      RingOfRest(aliases, key, ring);
      assert !Jams(servers, aliases, key, ring);
      TurnsAfter(servers, aliases, key, ring);
    }
  }

  lemma TurnsAfter(servers: Servers, aliases: AliasMap, key: string, ring: set<string>)
    requires Movable(servers, aliases, key) && Ring(aliases, ring) && key !in ring
    requires Turns(servers, aliases, ring) && !Jams(servers, aliases, key, ring)
    ensures Turns(Moved(servers, aliases, key), Rest(aliases, key), ring)
  {
    hide Ring;
    var next, rest := Moved(servers, aliases, key), Rest(aliases, key);
    if aliases[key] in ring {
      var q :| q in ring && q != aliases[key] && q !in servers;
      assert q !in next && aliases[key] in next;
    } else {
      var free :| free in ring && free !in servers;
      assert free !in next;
      if q :| q in ring && q in servers {
        assert q in next;
      } else {
        var l :| l in aliases && l !in ring && aliases[l] in ring;
        assert l in rest && rest[l] in ring;
      }
    }
  }

  // ---------------------------------------------------------- choosing a move

  /** Two keys are never moved to one that is occupied. */
  lemma OneComesToOccupied(servers: Servers, aliases: AliasMap, k: string, l: string)
    requires k in aliases && l in aliases && aliases[k] == aliases[l] && aliases[k] in servers
    requires 0 <= Balance(servers, aliases, aliases[k]) <= 1
    ensures aliases[k] in aliases && k == l
  {
    var q := aliases[k];
    FiniteSets.Subset({k, l}, Incoming(aliases, q));
  }

  lemma SomeoneComesToFree(servers: Servers, aliases: AliasMap, q: string)
    requires 0 <= Balance(servers, aliases, q) && q in aliases && q !in servers
    ensures q in Targets(aliases, aliases.Keys)
  {
    var k :| k in Incoming(aliases, q);
  }

  /** If nothing can be moved, the occupied keys or all keys form a ring that does not turn. */
  lemma SomethingMoves(servers: Servers, aliases: AliasMap) returns (key: string)
    requires Schedulable(servers, aliases) && aliases != map[]
    ensures Movable(servers, aliases, key)
  {
    hide MatchesAliasPattern, Balance, Ring;
    if k :| Movable(servers, aliases, k) {
      key := k;
    } else {
      var keys := aliases.Keys * servers.Keys;
      if keys != {} {
        StuckOccupied(servers, aliases, keys);
      } else {
        forall q | q in aliases
          ensures q !in servers
        {
          assert q !in keys;
        }
        StuckFree(servers, aliases);
      }
      assert false;
    }
  }

  lemma StuckOccupied(servers: Servers, aliases: AliasMap, keys: set<string>)
    requires forall q :: 0 <= Balance(servers, aliases, q) <= 1
    requires forall k :: !Movable(servers, aliases, k)
    requires keys == aliases.Keys * servers.Keys && keys != {}
    ensures Ring(aliases, keys)
  {
    hide Balance;
    forall k, l | k in keys && l in keys && aliases[k] == aliases[l]
      ensures k == l && aliases[k] in keys
    {
      assert !Movable(servers, aliases, k);
      OneComesToOccupied(servers, aliases, k, l);
    }
    InjectiveIsRing(aliases, keys);
  }

  lemma StuckFree(servers: Servers, aliases: AliasMap)
    requires forall q :: 0 <= Balance(servers, aliases, q) <= 1
    requires aliases != map[] && forall q :: q in aliases ==> q !in servers
    ensures Ring(aliases, aliases.Keys)
  {
    hide Balance, Targets;
    forall q | q in aliases
      ensures q in Targets(aliases, aliases.Keys)
    {
      assert 0 <= Balance(servers, aliases, q);
      SomeoneComesToFree(servers, aliases, q);
    }
    TargetsSize(aliases, aliases.Keys);
    FiniteSets.Subset(aliases.Keys, Targets(aliases, aliases.Keys));
  }

  /** If a move jams a ring, the move inside that ring to the same key jams none. */
  lemma InsideMoveIsSafe(servers: Servers, aliases: AliasMap, key: string, ring: set<string>) returns (inside: string)
    requires Schedulable(servers, aliases) && Movable(servers, aliases, key) && Jams(servers, aliases, key, ring)
    ensures Movable(servers, aliases, inside) && forall other :: !Jams(servers, aliases, inside, other)
  {
    hide MatchesAliasPattern, Balance, Ring;
    inside := RingBackward(aliases, ring, aliases[key]);
    assert inside != aliases[key];
    forall other | Ring(aliases, other) && aliases[inside] in other
      ensures inside in other
    {
      SharedPredecessor(aliases, ring, other, inside);
    }
  }

  /** Two rings that share a key share its predecessor. */
  lemma SharedPredecessor(aliases: AliasMap, ring: set<string>, other: set<string>, key: string)
    requires Ring(aliases, ring) && Ring(aliases, other) && key in ring && key in aliases && aliases[key] in other
    ensures key in other
  {
    hide Ring;
    var both := ring * other;
    forall k | k in both
      ensures k in aliases && aliases[k] in both
    {
      RingForward(aliases, ring, k);
      RingForward(aliases, other, k);
    }
    RingForward(aliases, ring, key);
    forall k, l | k in both && l in both && aliases[k] == aliases[l]
      ensures k == l
    {
      RingIsInjective(aliases, ring, k, l);
    }
    InjectiveIsRing(aliases, both);
    var l := RingBackward(aliases, both, aliases[key]);
    RingIsInjective(aliases, ring, key, l);
  }

  lemma GoodMove(servers: Servers, aliases: AliasMap) returns (key: string)
    requires Schedulable(servers, aliases) && aliases != map[]
    ensures Movable(servers, aliases, key) && Schedulable(Moved(servers, aliases, key), Rest(aliases, key))
  {
    hide Schedulable, Jams, Movable;
    key := SomethingMoves(servers, aliases);
    assert key in aliases by { MovableKnown(servers, aliases, key); }
    if ring :| Jams(servers, aliases, key, ring) {
      key := InsideMoveIsSafe(servers, aliases, key, ring);
    }
    SchedulableAfter(servers, aliases, key);
  }

  lemma MovableKnown(servers: Servers, aliases: AliasMap, key: string)
    requires Movable(servers, aliases, key)
    ensures key in aliases
  {
  }

  // ------------------------------------------------------------------ theorems

  ghost predicate Accepts(servers: Servers, aliases: AliasMap, order: seq<string>) {
    IsOrder(order, aliases.Keys) && Project(order, servers, aliases).Some?
  }

  /** Putting a key in front of an order of the rest. */
  lemma OrderLonger(aliases: AliasMap, key: string, order: seq<string>)
    requires key in aliases && IsOrder(order, Rest(aliases, key).Keys)
    ensures IsOrder([key] + order, aliases.Keys)
  {
    var rest, all := Rest(aliases, key), [key] + order;
    assert key !in order;
    forall k
      ensures k in all <==> k in aliases.Keys
    {
      assert k in all <==> k == key || k in order;
      assert k in order <==> k in rest.Keys;
    }
  }

  lemma OrderShorter(aliases: AliasMap, order: seq<string>)
    requires IsOrder(order, aliases.Keys) && order != []
    ensures IsOrder(order[1..], Rest(aliases, order[0]).Keys)
  {
    var rest, tail := Rest(aliases, order[0]), order[1..];
    assert order == [order[0]] + tail;
    assert order[0] !in tail;
    forall k
      ensures k in tail <==> k in rest.Keys
    {
      assert k in order <==> k == order[0] || k in tail;
      assert k in order <==> k in aliases.Keys;
    }
  }

  /** The first step of a walk. */
  lemma FirstStep(servers: Servers, aliases: AliasMap, order: seq<string>)
    requires IsOrder(order, aliases.Keys) && order != []
    ensures var key := order[0];
            && key in aliases
            && IsOrder(order[1..], Rest(aliases, key).Keys)
            && (Project(order, servers, aliases).Some? ==> Movable(servers, aliases, key) && MatchesAliasPattern(aliases[key]))
            && (Movable(servers, aliases, key) && MatchesAliasPattern(aliases[key]) ==>
                  Project(order, servers, aliases) == Project(order[1..], Moved(servers, aliases, key), Rest(aliases, key)))
  {
    hide MatchesAliasPattern;
    var key := order[0];
    assert key in order;
    OrderShorter(aliases, order);
    if Movable(servers, aliases, key) && MatchesAliasPattern(aliases[key]) {
      var next := Moved(servers, aliases, key);
      assert ProjectOne(servers, key, aliases[key]) == Some(next);
      ProjectIgnores(order[1..], next, aliases, Rest(aliases, key));
    }
  }

  /** A schedulable map has an order that gets through. */
  lemma {:induction false} SomeOrderAccepted(servers: Servers, aliases: AliasMap) returns (order: seq<string>)
    requires Schedulable(servers, aliases)
    ensures Accepts(servers, aliases, order)
    decreases |aliases|
  {
    if aliases == map[] {
      order := [];
    } else {
      hide Movable, Ring, Turns, Balance, IsOrder, Project, MatchesAliasPattern;
      var key := GoodMove(servers, aliases);
      MovableKnown(servers, aliases, key);
      assert Rest(aliases, key).Keys == aliases.Keys - {key};
      assert |Rest(aliases, key).Keys| < |aliases.Keys|;
      var rest := SomeOrderAccepted(Moved(servers, aliases, key), Rest(aliases, key));
      OrderLonger(aliases, key, rest);
      order := [key] + rest;
      assert order[1..] == rest;
      FirstStep(servers, aliases, order);
    }
  }

  /** And a map that some order gets through is schedulable. */
  lemma {:induction false} AcceptedIsSchedulable(servers: Servers, aliases: AliasMap, order: seq<string>)
    requires Accepts(servers, aliases, order)
    ensures Schedulable(servers, aliases)
    decreases |order|
  {
    if order == [] {
      NothingToMove(servers, aliases);
    } else {
      hide Schedulable, IsOrder, MatchesAliasPattern, Project;
      var key := order[0];
      FirstStep(servers, aliases, order);
      AcceptedIsSchedulable(Moved(servers, aliases, key), Rest(aliases, key), order[1..]);
      SchedulableBefore(servers, aliases, key);
    }
  }

  lemma NothingToMove(servers: Servers, aliases: AliasMap)
    requires IsOrder([], aliases.Keys)
    ensures Schedulable(servers, aliases)
  {
    assert forall k :: k !in aliases;
    assert forall q :: Incoming(aliases, q) == {};
  }

  /** Some order is accepted exactly when the map is schedulable. */
  lemma AcceptedExactly(servers: Servers, aliases: AliasMap)
    ensures (exists order :: Accepts(servers, aliases, order)) <==> Schedulable(servers, aliases)
  {
    hide Accepts, Schedulable;
    if Schedulable(servers, aliases) {
      var order := SomeOrderAccepted(servers, aliases);
    }
    if order :| Accepts(servers, aliases, order) {
      AcceptedIsSchedulable(servers, aliases, order);
    }
  }

  ghost predicate OrderIndependent(servers: Servers, aliases: AliasMap) {
    forall a, b :: IsOrder(a, aliases.Keys) && IsOrder(b, aliases.Keys) ==> Project(a, servers, aliases) == Project(b, servers, aliases)
  }

  /** The order does not matter exactly when the aliases are safe or cannot be scheduled. */
  lemma OrderIndependentExactly(servers: Servers, aliases: AliasMap)
    ensures OrderIndependent(servers, aliases) <==> SafeAliases(servers, aliases) || !Schedulable(servers, aliases)
  {
    hide SafeAliases, Project, Schedulable;
    AcceptedExactly(servers, aliases);
    if SafeAliases(servers, aliases) {
      forall a, b | IsOrder(a, aliases.Keys) && IsOrder(b, aliases.Keys)
        ensures Project(a, servers, aliases) == Project(b, servers, aliases)
      {
        OrderDoesNotMatter(a, b, servers, aliases);
      }
    } else {
      var refused := UnsafeAliasesCanFail(servers, aliases);
      if Schedulable(servers, aliases) {
        var order :| Accepts(servers, aliases, order);
        assert IsOrder(order, aliases.Keys) && Project(order, servers, aliases) != Project(refused, servers, aliases);
      } else {
        forall a | IsOrder(a, aliases.Keys)
          ensures Project(a, servers, aliases) == None
        {
          assert !Accepts(servers, aliases, a);
        }
      }
    }
  }
}
