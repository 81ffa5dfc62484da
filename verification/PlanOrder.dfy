/** The depth-first ordering of planned nodes, internal/migration/plan.go `visit`. */
module PlanOrder {
  import FiniteSets
  import opened Tables

  /** Dependencies of every planned node. */
  type Graph = map<Id, seq<Id>>

  ghost predicate Closed(g: Graph) {
    forall id, d :: id in g && d in g[id] ==> d in g
  }

  ghost predicate IsPath(g: Graph, path: seq<Id>) {
    forall i :: 0 <= i < |path| - 1 ==> path[i] in g && path[i + 1] in g[path[i]]
  }

  ghost predicate Cyclic(g: Graph) {
    exists path: seq<Id> :: |path| >= 2 && path[0] == path[|path| - 1] && IsPath(g, path)
  }

  ghost predicate Distinct(s: seq<Id>) {
    forall i, j :: 0 <= i < j < |s| ==> s[i] != s[j]
  }

  /** Every node of `order` comes after all of its dependencies. */
  ghost predicate Topological(g: Graph, order: seq<Id>) {
    forall i :: 0 <= i < |order| ==> order[i] in g && forall d :: d in g[order[i]] ==> d in order[..i]
  }

  datatype Mark = Visiting | Done

  /** The finished nodes, and no others, are in `order`, once each. */
  ghost predicate Recorded(g: Graph, state: map<Id, Mark>, order: seq<Id>) {
    && state.Keys <= g.Keys
    && (forall id :: id in order <==> id in state && state[id] == Done)
    && Distinct(order)
  }

  lemma RecordOpen(g: Graph, state: map<Id, Mark>, order: seq<Id>, id: Id)
    requires Recorded(g, state, order) && id in g && id !in state
    ensures Recorded(g, state[id := Visiting], order)
  {
  }

  lemma RecordDone(g: Graph, state: map<Id, Mark>, order: seq<Id>, id: Id)
    requires Recorded(g, state, order) && id in state && state[id] == Visiting
    ensures Recorded(g, state[id := Done], order + [id])
  {
    assert id !in order;
  }

  class Ordering {
    var state: map<Id, Mark>
    var order: seq<Id>
    var cycles: seq<Id>

    ghost predicate Valid(g: Graph)
      reads this
    {
      && Recorded(g, state, order)
      && (cycles == [] ==> Topological(g, order))
      && (cycles != [] ==> Cyclic(g))
    }

    ghost function Open(): set<Id>
      reads this
    {
      set id | id in state && state[id] == Visiting
    }

    constructor ()
      ensures state == map[] && order == [] && cycles == []
    {
      state, order, cycles := map[], [], [];
    }

    /** `stack` is the chain of open visits that led to `id`. */
    method Visit(g: Graph, id: Id, ghost stack: seq<Id>)
      requires Valid(g) && Closed(g) && id in g
      requires IsPath(g, stack + [id])
      requires forall x :: x in stack <==> x in Open()
      modifies this
      ensures Valid(g)
      ensures Open() == old(Open())
      ensures old(state.Keys) <= state.Keys && id in state
      ensures old(order) <= order && old(cycles) <= cycles
      ensures cycles == [] ==> id in order
      decreases |g.Keys - state.Keys|, 1
    {
      hide Cyclic, IsPath, Topological, Closed, Distinct;
      if id in state && state[id] == Visiting {
        assert id in Open();
        assert id in stack;
        cycles := cycles + [id];
        ghost var start :| 0 <= start < |stack| && stack[start] == id;
        LoopThrough(g, stack, start, id);
        return;
      }
      if id !in state {
        VisitNew(g, id, stack);
      }
    }

    /** The first visit of `id`. */
    method VisitNew(g: Graph, id: Id, ghost stack: seq<Id>)
      requires Valid(g) && Closed(g) && id in g && id !in state
      requires IsPath(g, stack + [id])
      requires forall x :: x in stack <==> x in Open()
      modifies this
      ensures Valid(g)
      ensures Open() == old(Open())
      ensures old(state.Keys) <= state.Keys && id in state
      ensures old(order) <= order && old(cycles) <= cycles
      ensures cycles == [] ==> id in order
      decreases |g.Keys - state.Keys|, 0
    {
      hide Cyclic, IsPath, Topological, Closed, Recorded;
      Enter(g, id);
      assert g.Keys - state.Keys == old(g.Keys - state.Keys) - {id};
      VisitAll(g, id, stack);
      assert id in Open();
      Close(g, id);
    }

    /** Opens the visit of `id`. */
    method Enter(g: Graph, id: Id)
      requires Valid(g) && id in g && id !in state
      modifies this
      ensures Valid(g)
      ensures Open() == old(Open()) + {id}
      ensures state == old(state)[id := Visiting] && order == old(order) && cycles == old(cycles)
    {
      hide Cyclic, Topological, Recorded;
      RecordOpen(g, state, order, id);
      state := state[id := Visiting];
    }

    /** Emits `id` once all of its dependencies have been visited. */
    method Close(g: Graph, id: Id)
      requires Valid(g) && id in g && id in state && state[id] == Visiting
      requires cycles == [] ==> forall d :: d in g[id] ==> d in order
      modifies this
      ensures Valid(g)
      ensures Open() == old(Open()) - {id}
      ensures state.Keys == old(state.Keys) && order == old(order) + [id] && cycles == old(cycles)
    {
      hide Cyclic, Topological, Recorded;
      if cycles == [] {
        TopologicalAppend(g, order, id);
      }
      RecordDone(g, state, order, id);
      state := state[id := Done];
      order := order + [id];
    }

    /** Visits the dependencies of `id`, which is being visited. */
    method VisitAll(g: Graph, id: Id, ghost stack: seq<Id>)
      requires Valid(g) && Closed(g) && id in g && id in state && state[id] == Visiting
      requires IsPath(g, stack + [id])
      requires forall x :: x in stack + [id] <==> x in Open()
      modifies this
      ensures Valid(g)
      ensures Open() == old(Open())
      ensures old(state.Keys) <= state.Keys
      ensures old(order) <= order && old(cycles) <= cycles
      ensures cycles == [] ==> forall d :: d in g[id] ==> d in order
      decreases |g.Keys - state.Keys|, 2
    {
      var i := 0;
      while i < |g[id]|
        invariant 0 <= i <= |g[id]|
        invariant Valid(g) && Open() == old(Open()) && id in state && state[id] == Visiting
        invariant old(state.Keys) <= state.Keys
        invariant old(order) <= order && old(cycles) <= cycles
        invariant cycles == [] ==> forall h :: 0 <= h < i ==> g[id][h] in order
      {
        FiniteSets.Subset(g.Keys - state.Keys, old(g.Keys - state.Keys));
        Visit(g, g[id][i], stack + [id]);
        assert id in Open();
        i := i + 1;
      }
    }
  }

  lemma TopologicalAppend(g: Graph, order: seq<Id>, id: Id)
    requires Topological(g, order) && id in g && forall d :: d in g[id] ==> d in order
    ensures Topological(g, order + [id])
  {
    assert forall i :: 0 <= i <= |order| ==> (order + [id])[..i] == order[..i];
  }

  lemma LoopThrough(g: Graph, stack: seq<Id>, start: nat, id: Id)
    requires start < |stack| && stack[start] == id && IsPath(g, stack + [id])
    ensures Cyclic(g)
  {
    var path := stack[start..] + [id];
    assert forall i :: 0 <= i < |path| ==> path[i] == (stack + [id])[start + i];
    assert IsPath(g, path);
  }

  /** Orders all nodes, starting the search from `roots` in the given order. */
  method Order(g: Graph, roots: seq<Id>) returns (order: seq<Id>, cycles: seq<Id>)
    requires Closed(g)
    requires forall id :: id in g <==> id in roots
    ensures Distinct(order) && forall id :: id in order <==> id in g
    ensures cycles == [] <==> !Cyclic(g)
    ensures cycles == [] ==> Topological(g, order)
  {
    var o := new Ordering();
    var i := 0;
    while i < |roots|
      invariant 0 <= i <= |roots|
      invariant o.Valid(g) && o.Open() == {}
      invariant forall h :: 0 <= h < i ==> roots[h] in o.state
    {
      o.Visit(g, roots[i], []);
      i := i + 1;
    }
    order, cycles := o.order, o.cycles;
    forall id | id in g
      ensures id in order
    {
      assert id !in o.Open();
    }
    if cycles == [] {
      TopologicalIsAcyclic(g, order);
    }
  }

  lemma TopologicalIsAcyclic(g: Graph, order: seq<Id>)
    requires Topological(g, order) && Distinct(order)
    requires forall id :: id in g ==> id in order
    ensures !Cyclic(g)
  {
    forall path: seq<Id> | |path| >= 2 && IsPath(g, path)
      ensures path[0] != path[|path| - 1]
    {
      PathDescends(g, order, path);
    }
  }

  ghost function Position(order: seq<Id>, id: Id): (i: nat)
    requires id in order
    ensures i < |order| && order[i] == id
  {
    var i :| 0 <= i < |order| && order[i] == id;
    i
  }

  lemma {:induction false} PathDescends(g: Graph, order: seq<Id>, path: seq<Id>)
    requires Topological(g, order) && Distinct(order)
    requires forall id :: id in g ==> id in order
    requires |path| >= 2 && IsPath(g, path)
    ensures path[0] in order && path[|path| - 1] in order
    ensures Position(order, path[|path| - 1]) < Position(order, path[0])
    decreases |path|
  {
    var i := Position(order, path[0]);
    assert path[1] in order[..i];
    if |path| > 2 {
      assert forall k :: 0 <= k < |path[1..]| ==> path[1..][k] == path[k + 1];
      PathDescends(g, order, path[1..]);
    }
  }

  /** Every edge leads to a lower rank. */
  ghost predicate Ranked(g: Graph, rank: map<Id, nat>) {
    forall id :: id in g ==> id in rank && forall d :: d in g[id] ==> d in rank && rank[d] < rank[id]
  }

  lemma {:induction false} RankedPathDescends(g: Graph, rank: map<Id, nat>, path: seq<Id>)
    requires |path| >= 2 && IsPath(g, path)
    requires Ranked(g, rank)
    ensures path[0] in rank && path[|path| - 1] in rank && rank[path[|path| - 1]] < rank[path[0]]
  {
    assert path[0] in g && path[0 + 1] in g[path[0]];
    if |path| > 2 {
      var rest := path[1..];
      forall h | 0 <= h < |rest| - 1
        ensures rest[h] in g && rest[h + 1] in g[rest[h]]
      {
        assert rest[h] == path[h + 1] && rest[h + 1] == path[(h + 1) + 1];
      }
      RankedPathDescends(g, rank, rest);
    }
  }

  /** A graph whose edges all lead to a lower rank has no cycle. */
  lemma RankedIsAcyclic(g: Graph, rank: map<Id, nat>)
    requires Ranked(g, rank)
    ensures !Cyclic(g)
  {
    forall path: seq<Id> | |path| >= 2 && IsPath(g, path)
      ensures path[0] != path[|path| - 1]
    {
      RankedPathDescends(g, rank, path);
    }
  }
}
